/**
 * The loss-versus-epoch view: a single line plot that starts with the
 * first five of 100 (epoch, loss) points and adds the next one every
 * tick until all 100 are shown. The loss curve itself is generated with
 * floating-point noise and is taken here as an opaque series of 100 reals.
 */
module LossEpoch {
  import ColumnDataSource

  /** `len(epochs)`: the number of points. */
  const EpochCount: nat := 100

  /** `np.arange(1, 101)` */
  const Epochs: seq<int> := seq(EpochCount, i => i + 1)

  /** Points shown before the first tick. */
  const InitialCount: nat := 5

  /** The rollover the source streams with. */
  const Rollover: nat := 100

  /**
   * The cursor after one tick: it moves on by at most one, stops exactly
   * once the last epoch is shown, and never passes it.
   */
  function NextEpoch(epoch: nat): (r: nat)
    ensures epoch <= r <= epoch + 1
    ensures r == epoch <==> epoch >= EpochCount
    ensures epoch <= EpochCount ==> r <= EpochCount
  {
    if epoch < EpochCount then epoch + 1 else epoch
  }

  /** The cursor after `k` ticks. */
  function EpochAfter(k: nat): nat
  {
    if k == 0 then InitialCount else NextEpoch(EpochAfter(k - 1))
  }

  /** After `k` ticks the cursor is `min(5 + k, 100)`: it never passes 100 and no tick is lost before that. */
  lemma {:induction false} EpochAfterTicks(k: nat)
    ensures EpochAfter(k) == if InitialCount + k < EpochCount then InitialCount + k else EpochCount
  {
    if k > 0 {
      EpochAfterTicks(k - 1);
    }
  }

  /**
   * With rollover 100 and only 100 points nothing is ever evicted:
   * streaming point `e` onto the first `e` points gives the first `e + 1`.
   */
  lemma {:induction false} StreamNext<T>(s: seq<T>, e: nat)
    requires e < |s| <= Rollover
    ensures ColumnDataSource.Stream(s[..e], [s[e]], Rollover) == s[..e + 1]
  {
    ColumnDataSource.StreamFits(s[..e], [s[e]], Rollover);
  }

  /** The view's state: the cursor `state["current_epoch"]` and the source's two columns. */
  class LossEpochView {
    const loss: seq<real>
    var currentEpoch: nat
    var x: seq<int>
    var y: seq<real>

    /** The source shows exactly the first `currentEpoch` points, in order. */
    ghost predicate Valid()
      reads this
    {
      && |loss| == EpochCount
      && InitialCount <= currentEpoch <= EpochCount
      && x == Epochs[..currentEpoch] && y == loss[..currentEpoch]
    }

    /** `loss_epoch_graph(doc)`: the first five points and the cursor at 5. */
    constructor (loss: seq<real>)
      requires |loss| == EpochCount
      ensures this.loss == loss && currentEpoch == InitialCount
      ensures x == [1, 2, 3, 4, 5] && y == loss[..InitialCount]
      ensures Valid()
    {
      this.loss := loss;
      currentEpoch := InitialCount;
      x := Epochs[..InitialCount];
      y := loss[..InitialCount];
    }

    /** `update`: add the point under the cursor and move it on, until all 100 are shown. */
    method Update()
      requires Valid()
      modifies this`currentEpoch, this`x, this`y
      ensures currentEpoch == NextEpoch(old(currentEpoch))
      ensures old(currentEpoch) < EpochCount ==>
                x == old(x) + [old(currentEpoch) + 1] && y == old(y) + [loss[old(currentEpoch)]]
      ensures old(currentEpoch) >= EpochCount ==> x == old(x) && y == old(y)
      ensures Valid()
    {
      if currentEpoch < |Epochs| {
        var epochIdx := currentEpoch;
        StreamNext(Epochs, epochIdx);
        StreamNext(loss, epochIdx);
        x := ColumnDataSource.Stream(x, [Epochs[epochIdx]], Rollover);
        y := ColumnDataSource.Stream(y, [loss[epochIdx]], Rollover);
        currentEpoch := currentEpoch + 1;
      }
    }
  }
}
