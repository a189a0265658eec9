/**
 * The classifier-output view: a text label that, on every tick, shows the
 * log classification stored at the published timestamp, or at the stored
 * timestamp nearest to it, and the string helper `format_class`.
 */
module ClassifierOutput {
  import opened Common
  import opened PyStr
  import opened PyDict
  import opened GetData

  // ================================================================ format_class

  /**
   * `format_class`: the text up to the first space; for a line whose first
   * word is `unexpected`, the second space-separated piece of the text
   * after the first colon instead. Indexing past the pieces raises.
   */
  function FormatClass(classOutput: string): (r: Result<string>)
    ensures r.Raised? ==> r.exc == IndexError
    ensures r.Ok? ==> ' ' !in r.value
  {
    var output := Split(classOutput, ' ')[0];
    if output == "unexpected" then
      var pieces := Split(classOutput, ':');
      if |pieces| < 2 then Raised(IndexError)
      else
        var words := Split(pieces[1], ' ');
        if |words| < 2 then Raised(IndexError) else Ok(words[1])
    else Ok(output)
  }

  /** A line whose first word is not `unexpected` is shortened to that word. */
  lemma {:induction false} FormatClassFirstWord(word: string, rest: string)
    requires ' ' !in word && word != "unexpected"
    ensures FormatClass(word) == Ok(word)
    ensures FormatClass(word + " " + rest) == Ok(word)
  {
    SplitNoSep(word, ' ');
    SplitCons(word, rest, ' ');
  }

  /** An `unexpected` line without a colon makes `format_class` raise. */
  lemma {:induction false} FormatClassNoColon(rest: string)
    requires ':' !in rest
    ensures FormatClass("unexpected " + rest) == Raised(IndexError)
  {
    var s := "unexpected " + rest;
    SplitCons("unexpected", rest, ' ');
    assert s == "unexpected" + " " + rest;
    assert ':' !in s by {
      assert ':' !in "unexpected ";
    }
    SplitNoSep(s, ':');
  }

  /**
   * An `unexpected` line `unexpected <source>: <word> <details>` is
   * shortened to `<word>`, the word right after the first colon; the
   * details may hold further colons (a clock time, say).
   */
  lemma {:induction false} FormatClassUnexpected(source: string, word: string, details: string)
    requires ':' !in source && ':' !in word && ' ' !in word
    ensures FormatClass("unexpected " + source + ": " + word + " " + details) == Ok(word)
  {
    var s := "unexpected " + source + ": " + word + " " + details;
    var head, tail := "unexpected " + source, " " + word + " " + details;
    assert s == "unexpected " + (source + ": " + word + " " + details);
    UnexpectedFirst(source + ": " + word + " " + details);
    assert s == head + [':'] + tail;
    assert ':' !in head by {
      assert ':' !in "unexpected ";
    }
    SplitCons(head, tail, ':');
    var piece := Split(details, ':')[0];
    assert tail == (" " + word + " ") + details;
    assert ':' !in " " + word + " ";
    SplitHead(" " + word + " ", details, ':');
    assert Split(s, ':')[1] == " " + word + " " + piece;
    SecondWord(word, piece);
  }

  lemma {:induction false} UnexpectedFirst(rest: string)
    ensures Split("unexpected " + rest, ' ')[0] == "unexpected"
  {
    assert "unexpected " + rest == "unexpected" + [' '] + rest;
    SplitCons("unexpected", rest, ' ');
  }

  lemma {:induction false} SecondWord(word: string, details: string)
    requires ' ' !in word
    ensures |Split(" " + word + " " + details, ' ')| >= 2
    ensures Split(" " + word + " " + details, ' ')[1] == word
  {
    assert " " + word + " " + details == "" + [' '] + (word + [' '] + details);
    SplitCons(word, details, ' ');
    SplitCons("", word + " " + details, ' ');
  }

  // ================================================================ the nearest timestamp

  /** `abs(k - t)` */
  function Distance(k: int, t: int): nat
  {
    if k >= t then k - t else t - k
  }

  /**
   * The position of `min(keys, key=lambda k: abs(k - t))`: a key at the
   * least distance from `t`, the first such in `keys` order.
   */
  function NearestIndex(keys: seq<int>, t: int): (i: nat)
    requires |keys| > 0
    ensures i < |keys|
    ensures forall j :: 0 <= j < |keys| ==> Distance(keys[i], t) <= Distance(keys[j], t)
    ensures forall j :: 0 <= j < i ==> Distance(keys[j], t) > Distance(keys[i], t)
  {
    if |keys| == 1 then 0
    else
      var i := NearestIndex(keys[1..], t) + 1;
      assert forall j :: 1 <= j < |keys| ==> keys[j] == keys[1..][j - 1];
      if Distance(keys[i], t) < Distance(keys[0], t) then i else 0
  }

  /** The minimal distance picks exactly one position: no other index meets both conditions. */
  lemma {:induction false} NearestUnique(keys: seq<int>, t: int, i: nat)
    requires i < |keys|
    requires forall j :: 0 <= j < |keys| ==> Distance(keys[i], t) <= Distance(keys[j], t)
    requires forall j :: 0 <= j < i ==> Distance(keys[j], t) > Distance(keys[i], t)
    ensures NearestIndex(keys, t) == i
  {
    var n := NearestIndex(keys, t);
  }

  // ================================================================ the shown text

  /** `str(value)` of a stored class: Python prints a missing one as `None`. */
  function Str(v: Option<string>): string
  {
    match v
    case None => "None"
    case Some(s) => s
  }

  /**
   * The text `update` shows for the log data and the published timestamp:
   * "No data" for empty data, else the class stored at the timestamp, else
   * the class stored at the nearest timestamp.
   */
  function ShownClass(data: Dict<int, Option<string>>, t: int): string
  {
    if |data| == 0 then "No data"
    else match Get(data, t)
      case Some(v) => Str(v)
      case None =>
        var nearestKey := Keys(data)[NearestIndex(Keys(data), t)];
        match Get(data, nearestKey)
        case Some(v) => Str(v)
        case None => "No data"
  }

  /** A class stored at the published timestamp itself is shown. */
  lemma {:induction false} ShownExact(data: Dict<int, Option<string>>, i: nat)
    requires UniqueKeys(data) && i < |data|
    ensures ShownClass(data, data[i].0) == Str(data[i].1)
  {
    GetAt(data, i);
  }

  /**
   * Without an exact match, the shown class is the one stored at the key
   * nearest to the timestamp, the first such key in insertion order on a
   * tie.
   */
  lemma {:induction false} ShownNearest(data: Dict<int, Option<string>>, t: int, i: nat)
    requires UniqueKeys(data) && i < |data|
    requires forall j :: 0 <= j < |data| ==> data[j].0 != t
    requires forall j :: 0 <= j < |data| ==> Distance(data[i].0, t) <= Distance(data[j].0, t)
    requires forall j :: 0 <= j < i ==> Distance(data[j].0, t) > Distance(data[i].0, t)
    ensures ShownClass(data, t) == Str(data[i].1)
  {
    var keys := Keys(data);
    assert t !in keys by {
      forall j | 0 <= j < |keys| ensures keys[j] != t {
        assert keys[j] == data[j].0;
      }
    }
    NearestUnique(keys, t, i);
    GetAt(data, i);
  }

  // ================================================================ the view

  /** One document's label, reading the database's log data and timestamp. */
  class ClassifierView {
    const db: Database
    const data: Dict<int, Option<string>>
    var text: string

    /** `classifier_output(doc)`: an empty label over the loaded log data. */
    constructor (db: Database)
      ensures this.db == db && data == db.logData && text == ""
    {
      this.db := db;
      data := db.logData;
      text := "";
    }

    /**
     * `update`: the label shows `ShownClass` of the log data at the
     * published timestamp; nothing else changes.
     */
    method Update()
      modifies this`text
      ensures text == ShownClass(data, db.currentTimestamp)
    {
      var currentTime := db.currentTimestamp;
      var classOutput: Option<string>;
      if |data| == 0 {
        text := "No data";
        return;
      }
      var exact := Get(data, currentTime);
      if exact.Some? {
        classOutput := exact.value;
      } else {
        var keys := Keys(data);
        var nearestKey := keys[NearestIndex(keys, currentTime)];
        // `data.get(nearest_key, "No data")`: the key is one of the dict's own
        var nearest := Get(data, nearestKey);
        classOutput := nearest.value;
      }
      text := Str(classOutput);
    }
  }
}
