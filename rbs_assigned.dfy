/**
 * The resource-blocks view: a disabled slider that, on every tick, shows
 * the number of resource blocks assigned at exactly the published
 * timestamp, or 0 when none is stored there. A stored value that is not a
 * number fails Bokeh's validation and leaves the slider unchanged.
 */
module RbsAssigned {
  import opened Common
  import opened PyDict
  import opened GetData

  /** The slider's value before the first tick. */
  const InitialValue: Value := Int(10)

  /** `data.get(current_timestamp, 0)` */
  function SliderValue(data: Dict<int, Value>, t: int): (r: Value)
    ensures t in Keys(data) ==> Some(r) == Get(data, t)
    ensures t !in Keys(data) ==> r == Int(0)
  {
    Get(data, t).GetOr(Int(0))
  }

  /** The value stored at the timestamp is shown as it is. */
  lemma {:induction false} SliderStored(data: Dict<int, Value>, i: nat)
    requires UniqueKeys(data) && i < |data|
    ensures SliderValue(data, data[i].0) == data[i].1
  {
    GetAt(data, i);
  }

  /** No entry at the timestamp shows 0, however close another key is. */
  lemma {:induction false} SliderMissing(data: Dict<int, Value>, t: int)
    requires forall j :: 0 <= j < |data| ==> data[j].0 != t
    ensures SliderValue(data, t) == Int(0)
  {
    assert t !in Keys(data) by {
      forall j | 0 <= j < |data| ensures Keys(data)[j] != t {
      }
    }
  }

  /**
   * Bokeh's `Float` property, which a slider's value is, accepts a Python
   * `int` or `float`; `None` and strings fail its validation.
   */
  predicate SliderAccepts(v: Value) {
    v.Int? || v.Float?
  }

  /**
   * `slider.value = data.get(t, 0)`: the value the slider takes, or the
   * `ValueError` Bokeh raises when the stored value is not a number.
   */
  function SliderUpdate(data: Dict<int, Value>, t: int): (r: Result<Value>)
    ensures r.Ok? ==> SliderAccepts(r.value)
  {
    var v := SliderValue(data, t);
    if SliderAccepts(v) then Ok(v) else Raised(ValueError)
  }

  /** A stored number is shown; a stored `None` or string raises `ValueError`. */
  lemma {:induction false} SliderUpdateStored(data: Dict<int, Value>, i: nat)
    requires UniqueKeys(data) && i < |data|
    ensures data[i].1.Int? || data[i].1.Float? ==> SliderUpdate(data, data[i].0) == Ok(data[i].1)
    ensures data[i].1.Null? || data[i].1.Text? ==> SliderUpdate(data, data[i].0) == Raised(ValueError)
  {
    SliderStored(data, i);
  }

  /** A time with no entry shows 0, which the slider accepts. */
  lemma {:induction false} SliderUpdateMissing(data: Dict<int, Value>, t: int)
    requires forall j :: 0 <= j < |data| ==> data[j].0 != t
    ensures SliderUpdate(data, t) == Ok(Int(0))
  {
    SliderMissing(data, t);
  }

  /** One document's slider, reading the database's assignments and timestamp. */
  class RbsView {
    const db: Database
    const data: Dict<int, Value>
    var value: Value

    /** The slider holds a number. */
    ghost predicate Valid()
      reads this
    {
      SliderAccepts(value)
    }

    /** `rbs_assigned(doc)`: the slider at 10 over the loaded assignments. */
    constructor (db: Database)
      ensures this.db == db && data == db.rbsAssigned && value == InitialValue
      ensures Valid()
    {
      this.db := db;
      data := db.rbsAssigned;
      value := InitialValue;
    }

    /**
     * `update`: the slider shows `SliderValue` at the published timestamp.
     * A value Bokeh rejects raises out of `update` and leaves the slider as
     * it was, since `update` has no handler.
     */
    method Update() returns (r: Result<Value>)
      requires Valid()
      modifies this`value
      ensures r == SliderUpdate(data, db.currentTimestamp)
      ensures value == (if r.Ok? then r.value else old(value))
      ensures Valid()
    {
      var v := Get(data, db.currentTimestamp).GetOr(Int(0));
      if v.Int? || v.Float? {
        value := v;
        r := Ok(v);
      } else {
        r := Raised(ValueError);
      }
    }
  }
}
