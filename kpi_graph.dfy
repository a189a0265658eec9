/**
 * The KPI view: six line plots that replay the loaded series. A module
 * cursor starts at the last sample of the initial 21-sample window; every
 * tick moves it on by one, streams the sample under the cursor into each
 * column that still has one (keeping the last 21), moves the major ticks
 * of that plot to every fifth buffered x value and publishes the sample's
 * time as the database's current timestamp. The x axis labels come from a
 * JavaScript formatter that turns milliseconds back into `HH:MM:SS:MMM`.
 */
module KpiGraph {
  import opened Common
  import opened PyStr
  import opened GetData
  import ColumnDataSource

  /** Number of samples a plot shows at a time. */
  const WindowSize: nat := 21

  // ================================================================ buffers

  /**
   * What a plot's buffer holds once the cursor is at `index`: the samples
   * up to and including `index` (or all of them, once the series is
   * exhausted), at most the last `WindowSize`.
   */
  function Window<T>(s: seq<T>, index: nat): seq<T>
  {
    var hi := if index + 1 < |s| then index + 1 else |s|;
    var lo := if hi > WindowSize then hi - WindowSize else 0;
    s[lo..hi]
  }

  /** One column's buffer after a tick with the cursor at `index`. */
  function ColumnTick<T>(buffer: seq<T>, s: seq<T>, index: nat): seq<T>
  {
    if index < |s| then ColumnDataSource.Stream(buffer, [s[index]], WindowSize) else buffer
  }

  /** The initial buffer, the first `min(21, len)` samples, is the window at cursor 20. */
  lemma {:induction false} InitialWindow<T>(s: seq<T>)
    ensures Window(s, WindowSize - 1) == s[..if WindowSize < |s| then WindowSize else |s|]
    ensures |Window(s, WindowSize - 1)| <= WindowSize
  {
  }

  /**
   * A tick keeps the buffer equal to the window: the sample streamed in is
   * the one right after the buffer's last, and the rollover drops the
   * oldest; an exhausted series leaves the buffer as it was.
   */
  lemma {:induction false} WindowAdvance<T>(s: seq<T>, index: nat)
    ensures ColumnTick(Window(s, index), s, index + 1) == Window(s, index + 1)
  {
    var w := Window(s, index);
    if index + 1 < |s| {
      var hi := index + 1;
      var lo := if hi > WindowSize then hi - WindowSize else 0;
      var all := w + [s[hi]];
      assert all == s[lo..hi + 1];
      assert ColumnTick(w, s, index + 1) == ColumnDataSource.Stream(w, [s[hi]], WindowSize);
      if |all| > WindowSize {
        assert hi + 1 - WindowSize == lo + 1;
        assert all[|all| - WindowSize..] == s[hi + 1 - WindowSize..hi + 1];
      }
    }
  }

  /**
   * No sample is skipped or repeated: after `k` ticks a column with more
   * than `20 + k` samples shows exactly the samples `k .. 20 + k`.
   */
  lemma {:induction false} WindowAfterTicks<T>(s: seq<T>, k: nat)
    requires WindowSize + k <= |s|
    ensures Window(s, WindowSize - 1 + k) == s[k..WindowSize + k]
    ensures |Window(s, WindowSize - 1 + k)| == WindowSize
  {
  }

  /**
   * `data['x'][-21::5]`: every fifth entry (`num_ticks_to_display`) of the
   * last 21, starting with the oldest.
   */
  function MajorTicks(xs: seq<int>): (r: seq<int>)
    ensures var start := if |xs| > WindowSize then |xs| - WindowSize else 0;
            && 5 * (|r| - 1) < |xs| - start <= 5 * |r|
            && forall i :: 0 <= i < |r| ==> r[i] == xs[start + 5 * i]
  {
    var start := if |xs| > WindowSize then |xs| - WindowSize else 0;
    EveryFifth(xs[start..])
  }

  /** `s[::5]` */
  function EveryFifth(s: seq<int>): (r: seq<int>)
    ensures 5 * (|r| - 1) < |s| <= 5 * |r|
    ensures forall i :: 0 <= i < |r| ==> 5 * i < |s| && r[i] == s[5 * i]
  {
    var n := (|s| + 4) / 5;
    assert 5 * n <= |s| + 4 < 5 * n + 5;
    seq(n, i requires 0 <= i < n => s[5 * i])
  }

  // ================================================================ the published timestamp

  /**
   * The timestamp left behind by a tick that visits `cols` in order: the x
   * value under the cursor of the last column that has one, or the
   * previous timestamp `ts` if none has.
   */
  function Published(cols: seq<string>, xv: map<string, seq<int>>, index: nat, ts: int): int
    requires In(cols, xv)
  {
    if |cols| == 0 then ts
    else
      var c := cols[|cols| - 1];
      if index < |xv[c]| then xv[c][index] else Published(cols[..|cols| - 1], xv, index, ts)
  }

  /** The last column with a sample under the cursor decides the timestamp. */
  lemma {:induction false} PublishedIsLast(cols: seq<string>, xv: map<string, seq<int>>, index: nat, ts: int, j: nat)
    requires In(cols, xv)
    requires j < |cols| && index < |xv[cols[j]]|
    requires forall k :: j < k < |cols| ==> index >= |xv[cols[k]]|
    ensures Published(cols, xv, index, ts) == xv[cols[j]][index]
    decreases |cols|
  {
    if j < |cols| - 1 {
      var init := cols[..|cols| - 1];
      assert init[j] == cols[j];
      assert forall k :: j < k < |init| ==> init[k] == cols[k];
      PublishedIsLast(init, xv, index, ts, j);
    }
  }

  /** A tick in which no column has a sample under the cursor publishes nothing. */
  lemma {:induction false} PublishedUnchanged(cols: seq<string>, xv: map<string, seq<int>>, index: nat, ts: int)
    requires In(cols, xv)
    requires forall k :: 0 <= k < |cols| ==> index >= |xv[cols[k]]|
    ensures Published(cols, xv, index, ts) == ts
    decreases |cols|
  {
    if |cols| > 0 {
      var init := cols[..|cols| - 1];
      assert forall k :: 0 <= k < |init| ==> init[k] == cols[k];
      PublishedUnchanged(init, xv, index, ts);
    }
  }

  // ================================================================ the tick formatter

  /** JavaScript `a % d` for a positive `d`: the remainder takes the sign of `a`. */
  function JsRem(a: int, d: int): int
    requires d > 0
  {
    if a >= 0 then a % d else -((-a) % d)
  }

  /** JavaScript `n.toString()` for an integer. */
  function JsString(n: int): string
  {
    if n < 0 then "-" + DecimalString(-n) else DecimalString(n)
  }

  /**
   * The axis label formatter: hours, minutes, seconds and milliseconds of
   * a millisecond count, zero-padded to 2, 2, 2 and 3 characters.
   * `Math.floor(a / d)` with a positive `d` is Dafny's `a / d`.
   */
  function FormatTick(tick: int): string
  {
    var hours := tick / 3600000;
    var minutes := JsRem(tick, 3600000) / 60000;
    var seconds := JsRem(tick, 60000) / 1000;
    var millis := JsRem(tick, 1000);
    PadStart(JsString(hours), 2, '0') + ":" + PadStart(JsString(minutes), 2, '0') + ":"
      + PadStart(JsString(seconds), 2, '0') + ":" + PadStart(JsString(millis), 3, '0')
  }

  /** Division by a positive `d` undoes `q * d + r` for `0 <= r < d`. */
  lemma {:induction false} DivMod(q: int, r: int, d: int)
    requires d > 0 && 0 <= r < d
    ensures (q * d + r) / d == q && (q * d + r) % d == r
  {
    var a := q * d + r;
    var q', r' := a / d, a % d;
    assert a == q' * d + r';
    assert (q - q') * d == q * d - q' * d;
    assert (q - q') * d == r' - r;
    if q > q' {
      MulAtLeast(q - q', d);
    } else if q < q' {
      MulAtLeast(q' - q, d);
    }
  }

  /** The four fields the formatter computes from a clock time's milliseconds. */
  lemma {:induction false} ClockFields(hh: nat, mm: nat, ss: nat, mmm: nat)
    requires mm < 60 && ss < 60 && mmm < 1000
    ensures var tick := Millis(hh, mm, ss, mmm);
            && tick / 3600000 == hh && JsRem(tick, 3600000) / 60000 == mm
            && JsRem(tick, 60000) / 1000 == ss && JsRem(tick, 1000) == mmm
  {
    var tick := (hh * 3600 + mm * 60 + ss) * 1000 + mmm;
    assert tick / 3600000 == hh && tick % 3600000 == (mm * 60 + ss) * 1000 + mmm by {
      assert tick == hh * 3600000 + ((mm * 60 + ss) * 1000 + mmm);
      DivMod(hh, (mm * 60 + ss) * 1000 + mmm, 3600000);
    }
    assert ((mm * 60 + ss) * 1000 + mmm) / 60000 == mm by {
      assert (mm * 60 + ss) * 1000 + mmm == mm * 60000 + (ss * 1000 + mmm);
      DivMod(mm, ss * 1000 + mmm, 60000);
    }
    assert tick % 60000 == ss * 1000 + mmm by {
      assert tick == (hh * 60 + mm) * 60000 + (ss * 1000 + mmm);
      DivMod(hh * 60 + mm, ss * 1000 + mmm, 60000);
    }
    assert (ss * 1000 + mmm) / 1000 == ss by {
      DivMod(ss, mmm, 1000);
    }
    assert tick % 1000 == mmm by {
      DivMod(hh * 3600 + mm * 60 + ss, mmm, 1000);
    }
  }

  /** A tick at a clock time is labelled with that clock's text. */
  lemma {:induction false} FormatClock(hh: nat, mm: nat, ss: nat, mmm: nat)
    requires mm < 60 && ss < 60 && mmm < 1000
    ensures FormatTick(Millis(hh, mm, ss, mmm)) == Clock(hh, mm, ss, mmm)
  {
    ClockFields(hh, mm, ss, mmm);
  }

  /**
   * The formatter inverts `timestamp_to_millis` on clock texts: parsing
   * a zero-padded `HH:MM:SS:MMM` and formatting the result gives it back.
   */
  lemma {:induction false} ClockRoundTrip(hh: nat, mm: nat, ss: nat, mmm: nat)
    requires hh <= 99 && mm < 60 && ss < 60 && mmm < 1000
    ensures TimestampToMillis(Clock(hh, mm, ss, mmm)).Ok?
    ensures FormatTick(TimestampToMillis(Clock(hh, mm, ss, mmm)).value) == Clock(hh, mm, ss, mmm)
  {
    var ms := Millis(hh, mm, ss, mmm);
    assert TimestampToMillis(Clock(hh, mm, ss, mmm)) == Ok(ms) by { ClockMillis(hh, mm, ss, mmm); }
    assert FormatTick(ms) == Clock(hh, mm, ss, mmm) by { FormatClock(hh, mm, ss, mmm); }
  }

  /** And the other way round: a label parses back to its tick. */
  lemma {:induction false} TickRoundTrip(tick: nat)
    ensures TimestampToMillis(FormatTick(tick)) == Ok(tick)
  {
    var hh, rest := tick / 3600000, tick % 3600000;
    var mm, ss, mmm := rest / 60000, (rest % 60000) / 1000, rest % 1000;
    assert rest % 60000 == ss * 1000 + mmm by {
      DivMod(rest / 60000, rest % 60000, 60000);
      DivMod(ss, (rest % 60000) % 1000, 1000);
      assert (rest % 60000) % 1000 == mmm by {
        assert rest == (rest / 60000 * 60) * 1000 + rest % 60000;
        assert rest % 60000 == ss * 1000 + (rest % 60000) % 1000;
        DivMod(rest / 60000 * 60 + ss, (rest % 60000) % 1000, 1000);
      }
    }
    assert tick == Millis(hh, mm, ss, mmm);
    FormatClock(hh, mm, ss, mmm);
    ClockMillis(hh, mm, ss, mmm);
  }

  // ================================================================ the plots

  /** Every column name has an entry in `m`. */
  predicate In<T>(cols: seq<string>, m: map<string, T>) {
    forall i :: 0 <= i < |cols| ==> cols[i] in m
  }

  /** `c` is none of the column names. */
  predicate Absent(cols: seq<string>, c: string) {
    forall i :: 0 <= i < |cols| ==> cols[i] != c
  }

  predicate Distinct(cols: seq<string>) {
    forall i, j :: 0 <= i < j < |cols| ==> cols[i] != cols[j]
  }

  /** Dropping the last of distinct names leaves distinct names without it. */
  lemma {:induction false} DistinctInit(cols: seq<string>)
    requires Distinct(cols) && |cols| > 0
    ensures Distinct(cols[..|cols| - 1]) && Absent(cols[..|cols| - 1], cols[|cols| - 1])
  {
    var init := cols[..|cols| - 1];
    assert forall j :: 0 <= j < |init| ==> init[j] == cols[j];
  }

  /** Every column has a pair of series of equal length. */
  predicate Loaded(cols: seq<string>, xv: map<string, seq<int>>, yv: map<string, seq<Value>>) {
    && In(cols, xv) && In(cols, yv)
    && forall i :: 0 <= i < |cols| ==> |xv[cols[i]]| == |yv[cols[i]]|
  }

  /**
   * What the plots show: each column's x and y buffers, and the x values
   * each plot's `FixedTicker` was last built from (its minor ticks; the
   * major ticks are `MajorTicks` of them). A plot not yet ticked keeps
   * Bokeh's automatic ticker and has no entry.
   */
  datatype Plots = Plots(x: map<string, seq<int>>, y: map<string, seq<Value>>, tickers: map<string, seq<int>>)

  /** Every column has buffers and a pair of series of equal length. */
  predicate Covers(cols: seq<string>, p: Plots, xv: map<string, seq<int>>, yv: map<string, seq<Value>>) {
    In(cols, p.x) && In(cols, p.y) && Loaded(cols, xv, yv)
  }

  // ---------------------------------------------------------------- the initial plots

  /** The first `min(21, len)` samples of a series. */
  function InitialBuffer<T>(s: seq<T>): seq<T>
  {
    s[..if WindowSize < |s| then WindowSize else |s|]
  }

  /** `{col: ... for col in graph_columns}` with the first samples of each column. */
  function InitialMap<T>(cols: seq<string>, s: map<string, seq<T>>): map<string, seq<T>>
    requires In(cols, s)
  {
    if |cols| == 0 then map[]
    else
      var c := cols[|cols| - 1];
      InitialMap(cols[..|cols| - 1], s)[c := InitialBuffer(s[c])]
  }

  /** The sources `kpi_graph(doc)` creates, and no ticker yet. */
  function InitialPlots(cols: seq<string>, xv: map<string, seq<int>>, yv: map<string, seq<Value>>): Plots
    requires In(cols, xv) && In(cols, yv)
  {
    Plots(InitialMap(cols, xv), InitialMap(cols, yv), map[])
  }

  // ---------------------------------------------------------------- one tick

  /**
   * One kind of buffer (x or y) after the `update` loop visits `cols` in
   * order with the cursor at `index`: a column whose series has a sample
   * there streams it in with rollover 21, any other is left as it was.
   */
  function TickMap<T>(cols: seq<string>, m: map<string, seq<T>>, s: map<string, seq<T>>, index: nat)
    : (r: map<string, seq<T>>)
    requires In(cols, m) && In(cols, s)
    ensures r.Keys == m.Keys
  {
    if |cols| == 0 then m
    else
      var c := cols[|cols| - 1];
      var q := TickMap(cols[..|cols| - 1], m, s, index);
      q[c := ColumnTick(q[c], s[c], index)]
  }

  /**
   * The tickers after the same loop: a column that streams a sample gets
   * a ticker built from its x buffer as it is right after the stream.
   */
  function TickTickers(cols: seq<string>, tk: map<string, seq<int>>, xb: map<string, seq<int>>,
                       xv: map<string, seq<int>>, index: nat): map<string, seq<int>>
    requires In(cols, xb) && In(cols, xv)
  {
    if |cols| == 0 then tk
    else
      var c := cols[|cols| - 1];
      var tq := TickTickers(cols[..|cols| - 1], tk, xb, xv, index);
      if index < |xv[c]| then tq[c := TickMap(cols, xb, xv, index)[c]] else tq
  }

  /**
   * The plots after one run of the `update` loop. Both buffers of a column
   * stream under the x series' test, which is the y series' too as the
   * two have the same length.
   */
  function TickColumns(cols: seq<string>, p: Plots, xv: map<string, seq<int>>, yv: map<string, seq<Value>>,
                       index: nat): Plots
    requires Covers(cols, p, xv, yv)
  {
    Plots(TickMap(cols, p.x, xv, index), TickMap(cols, p.y, yv, index), TickTickers(cols, p.tickers, p.x, xv, index))
  }

  // ---------------------------------------------------------------- the plots at a cursor

  /** Each column's window at cursor `index`. */
  function WindowMap<T>(cols: seq<string>, s: map<string, seq<T>>, index: nat): (r: map<string, seq<T>>)
    requires In(cols, s)
    ensures In(cols, r)
  {
    if |cols| == 0 then map[]
    else
      var c := cols[|cols| - 1];
      WindowMap(cols[..|cols| - 1], s, index)[c := Window(s[c], index)]
  }

  /**
   * The tickers at cursor `index`: once the cursor is past the initial
   * window, every column with more samples than that has a ticker,
   * built from its window.
   */
  function TickerMap(cols: seq<string>, xv: map<string, seq<int>>, index: nat): (r: map<string, seq<int>>)
    requires In(cols, xv)
    ensures forall c :: c in r ==> c in xv && index >= WindowSize && |xv[c]| > WindowSize
  {
    if |cols| == 0 then map[]
    else
      var c := cols[|cols| - 1];
      var tm := TickerMap(cols[..|cols| - 1], xv, index);
      if index >= WindowSize && |xv[c]| > WindowSize then tm[c := Window(xv[c], index)] else tm
  }

  /** A column's ticker, once set, holds that column's window. */
  lemma {:induction false} TickerWindow(cols: seq<string>, xv: map<string, seq<int>>, index: nat, c: string)
    requires In(cols, xv) && c in TickerMap(cols, xv, index)
    ensures TickerMap(cols, xv, index)[c] == Window(xv[c], index)
    decreases |cols|
  {
    var init := cols[..|cols| - 1];
    if c != cols[|cols| - 1] {
      TickerWindow(init, xv, index, c);
    }
  }

  /** The plots at cursor `index`. */
  function WindowPlots(cols: seq<string>, xv: map<string, seq<int>>, yv: map<string, seq<Value>>, index: nat): Plots
    requires Loaded(cols, xv, yv)
  {
    Plots(WindowMap(cols, xv, index), WindowMap(cols, yv, index), TickerMap(cols, xv, index))
  }

  /** Each column shows its window. */
  lemma {:induction false} WindowMapAt<T>(cols: seq<string>, s: map<string, seq<T>>, index: nat, k: nat)
    requires In(cols, s) && k < |cols|
    ensures cols[k] in WindowMap(cols, s, index) && WindowMap(cols, s, index)[cols[k]] == Window(s[cols[k]], index)
    decreases |cols|
  {
    if k < |cols| - 1 {
      var init := cols[..|cols| - 1];
      assert init[k] == cols[k];
      WindowMapAt(init, s, index, k);
    }
  }

  /**
   * A column has a ticker exactly when the cursor is past the initial
   * window and the column has more samples than that; the ticker is then
   * built from the column's window.
   */
  lemma {:induction false} TickerMapAt(cols: seq<string>, xv: map<string, seq<int>>, index: nat, k: nat)
    requires In(cols, xv) && k < |cols|
    ensures var tm, c := TickerMap(cols, xv, index), cols[k];
            && (c in tm <==> index >= WindowSize && |xv[c]| > WindowSize)
            && (c in tm ==> tm[c] == Window(xv[c], index))
    decreases |cols|
  {
    if k < |cols| - 1 {
      assert cols[..|cols| - 1][k] == cols[k];
      TickerMapAt(cols[..|cols| - 1], xv, index, k);
    }
  }

  /** Before the first tick no column has a ticker. */
  lemma {:induction false} TickerMapEmpty(cols: seq<string>, xv: map<string, seq<int>>)
    requires In(cols, xv)
    ensures TickerMap(cols, xv, WindowSize - 1) == map[]
    decreases |cols|
  {
    if |cols| > 0 {
      TickerMapEmpty(cols[..|cols| - 1], xv);
    }
  }

  /** The initial buffers are the windows at cursor 20. */
  lemma {:induction false} InitialWindowMap<T>(cols: seq<string>, s: map<string, seq<T>>)
    requires In(cols, s)
    ensures InitialMap(cols, s) == WindowMap(cols, s, WindowSize - 1)
    decreases |cols|
  {
    if |cols| > 0 {
      InitialWindowMap(cols[..|cols| - 1], s);
      InitialWindow(s[cols[|cols| - 1]]);
    }
  }

  /** The initial plots are the plots at cursor 20. */
  lemma {:induction false} InitialWindows(cols: seq<string>, xv: map<string, seq<int>>, yv: map<string, seq<Value>>)
    requires Loaded(cols, xv, yv)
    ensures InitialPlots(cols, xv, yv) == WindowPlots(cols, xv, yv, WindowSize - 1)
  {
    InitialWindowMap(cols, xv);
    InitialWindowMap(cols, yv);
    TickerMapEmpty(cols, xv);
  }

  // ---------------------------------------------------------------- a tick moves the windows on

  /** A column the loop does not visit keeps the buffer it is given. */
  lemma {:induction false} TickMapUpdate<T>(cols: seq<string>, m: map<string, seq<T>>, s: map<string, seq<T>>,
                                            index: nat, c: string, w: seq<T>)
    requires In(cols, m) && In(cols, s) && Absent(cols, c)
    ensures TickMap(cols, m[c := w], s, index) == TickMap(cols, m, s, index)[c := w]
    decreases |cols|
  {
    if |cols| > 0 {
      TickMapUpdate(cols[..|cols| - 1], m, s, index, c, w);
    }
  }

  /** The last column's step of `TickWindowMap`. */
  lemma {:induction false} TickWindowStep<T>(cols: seq<string>, s: map<string, seq<T>>, index: nat)
    requires In(cols, s) && |cols| > 0
    requires var init, c := cols[..|cols| - 1], cols[|cols| - 1];
             && TickMap(init, WindowMap(init, s, index)[c := Window(s[c], index)], s, index + 1)
                == WindowMap(init, s, index + 1)[c := Window(s[c], index)]
             && ColumnTick(Window(s[c], index), s[c], index + 1) == Window(s[c], index + 1)
    ensures TickMap(cols, WindowMap(cols, s, index), s, index + 1) == WindowMap(cols, s, index + 1)
  {
    var init, c := cols[..|cols| - 1], cols[|cols| - 1];
    var q := WindowMap(init, s, index + 1);
    assert q[c := Window(s[c], index)][c := Window(s[c], index + 1)] == q[c := Window(s[c], index + 1)];
  }

  /** A tick moves every buffer from its window at `index` to its window at `index + 1`. */
  lemma {:induction false} TickWindowMap<T>(cols: seq<string>, s: map<string, seq<T>>, index: nat)
    requires In(cols, s) && Distinct(cols)
    ensures TickMap(cols, WindowMap(cols, s, index), s, index + 1) == WindowMap(cols, s, index + 1)
    decreases |cols|
  {
    if |cols| > 0 {
      var init, c := cols[..|cols| - 1], cols[|cols| - 1];
      DistinctInit(cols);
      TickWindowMap(init, s, index);
      TickMapUpdate(init, WindowMap(init, s, index), s, index + 1, c, Window(s[c], index));
      WindowAdvance(s[c], index);
      TickWindowStep(cols, s, index);
    }
  }

  /** A column the loop does not visit keeps the ticker it is given. */
  lemma {:induction false} TickTickersTicker(cols: seq<string>, tk: map<string, seq<int>>, xb: map<string, seq<int>>,
                                             xv: map<string, seq<int>>, index: nat, c: string, t: seq<int>)
    requires In(cols, xb) && In(cols, xv) && Absent(cols, c)
    ensures TickTickers(cols, tk[c := t], xb, xv, index) == TickTickers(cols, tk, xb, xv, index)[c := t]
    decreases |cols|
  {
    if |cols| > 0 {
      var init, d := cols[..|cols| - 1], cols[|cols| - 1];
      TickTickersTicker(init, tk, xb, xv, index, c, t);
      if index < |xv[d]| {
        MapSwap(TickTickers(init, tk, xb, xv, index), c, t, d, TickMap(cols, xb, xv, index)[d]);
      }
    }
  }

  /** The tickers the loop builds do not depend on the buffer of a column it does not visit. */
  lemma {:induction false} TickTickersBuffer(cols: seq<string>, tk: map<string, seq<int>>, xb: map<string, seq<int>>,
                                             xv: map<string, seq<int>>, index: nat, c: string, w: seq<int>)
    requires In(cols, xb) && In(cols, xv) && Absent(cols, c)
    ensures TickTickers(cols, tk, xb[c := w], xv, index) == TickTickers(cols, tk, xb, xv, index)
    decreases |cols|
  {
    if |cols| > 0 {
      TickTickersBuffer(cols[..|cols| - 1], tk, xb, xv, index, c, w);
      TickMapUpdate(cols, xb, xv, index, c, w);
    }
  }

  /** Both of the above for one column that is given a buffer and maybe a ticker. */
  lemma {:induction false} TickTickersShift(cols: seq<string>, tk: map<string, seq<int>>, xb: map<string, seq<int>>,
                         xv: map<string, seq<int>>, index: nat, c: string, w: seq<int>, ticked: bool)
    requires In(cols, xb) && In(cols, xv) && Absent(cols, c)
    ensures TickTickers(cols, if ticked then tk[c := w] else tk, xb[c := w], xv, index)
         == if ticked then TickTickers(cols, tk, xb, xv, index)[c := w] else TickTickers(cols, tk, xb, xv, index)
  {
    TickTickersBuffer(cols, if ticked then tk[c := w] else tk, xb, xv, index, c, w);
    if ticked {
      TickTickersTicker(cols, tk, xb, xv, index, c, w);
    }
  }

  /** The columns before the last, ticked from the plots at `index` of all of them. */
  lemma {:induction false} TickTickersInit(cols: seq<string>, xv: map<string, seq<int>>, index: nat)
    requires In(cols, xv) && |cols| > 0
    requires Absent(cols[..|cols| - 1], cols[|cols| - 1])
    ensures var init, c := cols[..|cols| - 1], cols[|cols| - 1];
            TickTickers(init, TickerMap(cols, xv, index), WindowMap(cols, xv, index), xv, index + 1)
            == if index >= WindowSize && |xv[c]| > WindowSize
               then TickTickers(init, TickerMap(init, xv, index), WindowMap(init, xv, index), xv, index + 1)[c := Window(xv[c], index)]
               else TickTickers(init, TickerMap(init, xv, index), WindowMap(init, xv, index), xv, index + 1)
  {
    var init, c := cols[..|cols| - 1], cols[|cols| - 1];
    TickTickersShift(init, TickerMap(init, xv, index), WindowMap(init, xv, index), xv, index + 1, c,
                     Window(xv[c], index), index >= WindowSize && |xv[c]| > WindowSize);
  }

  /** The last column's step of `TickTickerMap`. */
  lemma {:induction false} TickTickerStep(cols: seq<string>, xv: map<string, seq<int>>, index: nat)
    requires In(cols, xv) && |cols| > 0 && index >= WindowSize - 1
    requires var init, c := cols[..|cols| - 1], cols[|cols| - 1];
             var w := Window(xv[c], index);
             && TickMap(cols, WindowMap(cols, xv, index), xv, index + 1) == WindowMap(cols, xv, index + 1)
             && TickTickers(init, TickerMap(cols, xv, index), WindowMap(cols, xv, index), xv, index + 1)
                == if index >= WindowSize && |xv[c]| > WindowSize then TickerMap(init, xv, index + 1)[c := w]
                   else TickerMap(init, xv, index + 1)
    ensures TickTickers(cols, TickerMap(cols, xv, index), WindowMap(cols, xv, index), xv, index + 1)
         == TickerMap(cols, xv, index + 1)
  {
    var init, c := cols[..|cols| - 1], cols[|cols| - 1];
    var w, w' := Window(xv[c], index), Window(xv[c], index + 1);
    var q := TickerMap(init, xv, index + 1);
    if index + 1 < |xv[c]| {
      assert TickMap(cols, WindowMap(cols, xv, index), xv, index + 1)[c] == w';
      assert q[c := w][c := w'] == q[c := w'];
    } else if |xv[c]| > WindowSize {
      assert w == w';
    }
  }

  /**
   * A tick moves the tickers from those at `index` to those at
   * `index + 1`: the first tick builds one for every column with more
   * than 21 samples, later ticks rebuild it from the new window.
   */
  lemma {:induction false} TickTickerMap(cols: seq<string>, xv: map<string, seq<int>>, index: nat)
    requires In(cols, xv) && Distinct(cols) && index >= WindowSize - 1
    ensures TickTickers(cols, TickerMap(cols, xv, index), WindowMap(cols, xv, index), xv, index + 1)
         == TickerMap(cols, xv, index + 1)
    decreases |cols|
  {
    if |cols| > 0 {
      DistinctInit(cols);
      TickTickerMap(cols[..|cols| - 1], xv, index);
      TickTickersInit(cols, xv, index);
      TickWindowMap(cols, xv, index);
      TickTickerStep(cols, xv, index);
    }
  }

  /** A tick moves the plots from those at cursor `index` to those at `index + 1`. */
  lemma {:induction false} TickWindows(cols: seq<string>, xv: map<string, seq<int>>, yv: map<string, seq<Value>>, index: nat)
    requires index >= WindowSize - 1 && Loaded(cols, xv, yv) && Distinct(cols)
    ensures Covers(cols, WindowPlots(cols, xv, yv, index), xv, yv)
    ensures TickColumns(cols, WindowPlots(cols, xv, yv, index), xv, yv, index + 1) == WindowPlots(cols, xv, yv, index + 1)
  {
    TickWindowMap(cols, xv, index);
    TickWindowMap(cols, yv, index);
    TickTickerMap(cols, xv, index);
  }

  lemma {:induction false} MapSwap<K, V>(m: map<K, V>, a: K, va: V, b: K, vb: V)
    requires a != b
    ensures m[a := va][b := vb] == m[b := vb][a := va]
  {
  }

  // ---------------------------------------------------------------- the loop, column by column

  /** `TickColumns` over the first `i` columns. */
  function TickPrefix(cols: seq<string>, i: nat, p: Plots, xv: map<string, seq<int>>, yv: map<string, seq<Value>>,
                      index: nat): (r: Plots)
    requires i <= |cols| && Covers(cols, p, xv, yv)
    ensures r.x.Keys == p.x.Keys && r.y.Keys == p.y.Keys
  {
    TickColumns(cols[..i], p, xv, yv, index)
  }

  /** `Published` over the first `i` columns. */
  function PublishedPrefix(cols: seq<string>, i: nat, xv: map<string, seq<int>>, index: nat, ts: int): int
    requires i <= |cols| && In(cols, xv)
  {
    Published(cols[..i], xv, index, ts)
  }

  /** One more column visited by the `update` loop. */
  lemma {:induction false} TickColumnsStep(cols: seq<string>, i: nat, p: Plots, xv: map<string, seq<int>>, yv: map<string, seq<Value>>,
                        index: nat)
    requires i < |cols| && Covers(cols, p, xv, yv)
    ensures var q, c := TickPrefix(cols, i, p, xv, yv, index), cols[i];
            TickPrefix(cols, i + 1, p, xv, yv, index)
            == if index < |xv[c]| then
                 var x := ColumnDataSource.Stream(q.x[c], [xv[c][index]], WindowSize);
                 Plots(q.x[c := x], q.y[c := ColumnDataSource.Stream(q.y[c], [yv[c][index]], WindowSize)], q.tickers[c := x])
               else q
  {
    var q, c := TickPrefix(cols, i, p, xv, yv, index), cols[i];
    assert cols[..i + 1][..i] == cols[..i];
    if index >= |xv[c]| {
      assert q.x[c := q.x[c]] == q.x && q.y[c := q.y[c]] == q.y;
    }
  }

  /** One more column visited by the `update` loop publishes its sample, if it has one. */
  lemma {:induction false} PublishedStep(cols: seq<string>, i: nat, xv: map<string, seq<int>>, index: nat, ts: int)
    requires i < |cols| && In(cols, xv)
    ensures PublishedPrefix(cols, i + 1, xv, index, ts)
         == if index < |xv[cols[i]]| then xv[cols[i]][index] else PublishedPrefix(cols, i, xv, index, ts)
  {
    assert cols[..i + 1][..i] == cols[..i];
  }

  /** The `update` loop after the last column. */
  lemma {:induction false} PrefixAll(cols: seq<string>, p: Plots, xv: map<string, seq<int>>, yv: map<string, seq<Value>>,
                  index: nat, ts: int)
    requires Covers(cols, p, xv, yv)
    ensures TickPrefix(cols, |cols|, p, xv, yv, index) == TickColumns(cols, p, xv, yv, index)
    ensures PublishedPrefix(cols, |cols|, xv, index, ts) == Published(cols, xv, index, ts)
  {
    assert cols[..|cols|] == cols;
  }

  // ================================================================ the view

  /**
   * The module cursor `current_index`, the series read from the database
   * at module load, and one document's plots.
   */
  class KpiView {
    const db: Database
    const columns: seq<string>
    const xValues: map<string, seq<int>>
    const yValues: map<string, seq<Value>>
    var currentIndex: nat
    var plots: Plots

    ghost predicate Valid()
      reads this
    {
      && currentIndex >= WindowSize - 1
      && Distinct(columns) && Loaded(columns, xValues, yValues)
      && plots == WindowPlots(columns, xValues, yValues, currentIndex)
    }

    /**
     * The major ticks on a plot's x axis once a tick has set them: five
     * sample times, five samples apart, running from the oldest to the
     * newest sample the plot shows.
     */
    function MajorTicksOf(c: string): (r: seq<int>)
      reads this
      requires Valid() && c in plots.tickers
      ensures c in xValues && |Window(xValues[c], currentIndex)| == WindowSize
      ensures |r| == 5
      ensures forall i :: 0 <= i < |r| ==> r[i] == Window(xValues[c], currentIndex)[5 * i]
    {
      TickerWindow(columns, xValues, currentIndex, c);
      MajorTicks(plots.tickers[c])
    }

    /**
     * Module load and `kpi_graph(doc)`: the cursor at 20 and each column's
     * source holding its first `min(21, len)` samples.
     */
    constructor (db: Database)
      requires db.Valid() && Distinct(db.graphColumns)
      ensures this.db == db && columns == db.graphColumns
      ensures xValues == db.graphXValues && yValues == db.graphYValues
      ensures currentIndex == WindowSize - 1
      ensures plots == InitialPlots(columns, xValues, yValues)
      ensures Valid()
    {
      var cols, xv, yv := db.graphColumns, db.graphXValues, db.graphYValues;
      assert Loaded(cols, xv, yv) by {
        forall i | 0 <= i < |cols|
          ensures cols[i] in xv && cols[i] in yv && |xv[cols[i]]| == |yv[cols[i]]|
        {
          assert cols[i] in cols;
        }
      }
      var xb: map<string, seq<int>> := map[];
      var yb: map<string, seq<Value>> := map[];
      var i := 0;
      while i < |cols|
        invariant 0 <= i <= |cols|
        invariant Plots(xb, yb, map[]) == InitialPlots(cols[..i], xv, yv)
      {
        assert cols[..i + 1][..i] == cols[..i];
        var c := cols[i];
        var end := if WindowSize < |xv[c]| then WindowSize else |xv[c]|;
        xb := xb[c := xv[c][..end]];
        yb := yb[c := yv[c][..end]];
        i := i + 1;
      }
      assert cols[..i] == cols;
      this.db := db;
      columns := cols;
      xValues := xv;
      yValues := yv;
      currentIndex := WindowSize - 1;
      plots := Plots(xb, yb, map[]);
      new;
      InitialWindows(cols, xv, yv);
    }

    /**
     * `update`: the cursor moves on by one; every column with a sample
     * under the new cursor streams it in with rollover 21 and rebuilds its
     * axis ticker, and the last such column's x value becomes the
     * database's current timestamp.
     */
    method Update()
      requires Valid()
      modifies this`currentIndex, this`plots, db`currentTimestamp
      ensures currentIndex == old(currentIndex) + 1
      ensures plots == WindowPlots(columns, xValues, yValues, currentIndex)
      ensures db.currentTimestamp == Published(columns, xValues, currentIndex, old(db.currentTimestamp))
      ensures Valid()
    {
      var index, p0 := currentIndex + 1, plots;
      TickWindows(columns, xValues, yValues, index - 1);
      var p := StreamColumns(p0, index);
      currentIndex, plots := index, p;
    }

    /** The loop of `update` over the columns, with the cursor at `index`. */
    method StreamColumns(p0: Plots, index: nat) returns (p: Plots)
      requires Covers(columns, p0, xValues, yValues)
      modifies db`currentTimestamp
      ensures p == TickColumns(columns, p0, xValues, yValues, index)
      ensures db.currentTimestamp == Published(columns, xValues, index, old(db.currentTimestamp))
    {
      var ts0 := db.currentTimestamp;
      p := p0;
      var i := 0;
      while i < |columns|
        invariant 0 <= i <= |columns|
        invariant TickPrefix(columns, i, p0, xValues, yValues, index) == p
        invariant db.currentTimestamp == PublishedPrefix(columns, i, xValues, index, ts0)
      {
        var c := columns[i];
        TickColumnsStep(columns, i, p0, xValues, yValues, index);
        PublishedStep(columns, i, xValues, index, ts0);
        if index < |xValues[c]| {
          db.SetCurrentTimestamp(xValues[c][index]);
          var x := ColumnDataSource.Stream(p.x[c], [xValues[c][index]], WindowSize);
          var y := ColumnDataSource.Stream(p.y[c], [yValues[c][index]], WindowSize);
          p := Plots(p.x[c := x], p.y[c := y], p.tickers[c := x]);
        }
        i := i + 1;
      }
      PrefixAll(columns, p0, xValues, yValues, index, ts0);
    }
  }
}
