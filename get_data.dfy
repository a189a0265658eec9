/**
 * The data layer of the dashboard: the `Database` object that reads the
 * `csv` and `log` collections once, turns every record's readable
 * timestamp into milliseconds since midnight, and keeps the six KPI
 * series, the two single-value columns and the classifier log for the
 * views to read.
 *
 * The MongoDB collections are given as values (`Store`); a record's
 * missing field is `None` (or `Null` for a missing `value`).
 */
module GetData {
  import opened Common
  import opened PyStr
  import opened PyDict
  import opened Sorting

  // ================================================================ timestamps

  /** Milliseconds since midnight of a clock time. */
  function Millis(hh: int, mm: int, ss: int, mmm: int): int {
    (hh * 3600 + mm * 60 + ss) * 1000 + mmm
  }

  /**
   * `timestamp_to_millis("HH:MM:SS:MMM")`: four `:`-separated integer
   * fields; any other shape raises `ValueError`.
   */
  function TimestampToMillis(s: string): (r: Result<int>)
    ensures r.Raised? ==> r.exc == ValueError
    ensures r.Ok? ==> |Split(s, ':')| == 4
  {
    var f := Split(s, ':');
    if |f| != 4 then Raised(ValueError)
    else match (ParseInt(f[0]), ParseInt(f[1]), ParseInt(f[2]), ParseInt(f[3]))
      case (Ok(hh), Ok(mm), Ok(ss), Ok(mmm)) => Ok(Millis(hh, mm, ss, mmm))
      case _ => Raised(ValueError)
  }

  function Pad(n: nat, width: nat): string {
    PadStart(DecimalString(n), width, '0')
  }

  /** The clock text `HH:MM:SS:MMM` the data files carry. */
  function Clock(hh: nat, mm: nat, ss: nat, mmm: nat): string {
    Pad(hh, 2) + ":" + Pad(mm, 2) + ":" + Pad(ss, 2) + ":" + Pad(mmm, 3)
  }

  /** A padded number holds no separator that is not a digit. */
  lemma {:induction false} PadFree(n: nat, width: nat, sep: char)
    requires !IsDigit(sep)
    ensures sep !in Pad(n, width)
  {
    PaddedDigits(n, width);
  }

  lemma {:induction false} ClockSplit(hh: nat, mm: nat, ss: nat, mmm: nat)
    ensures Split(Clock(hh, mm, ss, mmm), ':') == [Pad(hh, 2), Pad(mm, 2), Pad(ss, 2), Pad(mmm, 3)]
  {
    var a, b, c, d := Pad(hh, 2), Pad(mm, 2), Pad(ss, 2), Pad(mmm, 3);
    PadFree(hh, 2, ':'); PadFree(mm, 2, ':'); PadFree(ss, 2, ':'); PadFree(mmm, 3, ':');
    var cd := c + [':'] + d;
    var bcd := b + [':'] + cd;
    assert Split(cd, ':') == [c, d] by {
      SplitNoSep(d, ':');
      SplitCons(c, d, ':');
    }
    assert Split(bcd, ':') == [b, c, d] by {
      SplitCons(b, cd, ':');
    }
    assert Split(a + [':'] + bcd, ':') == [a, b, c, d] by {
      SplitCons(a, bcd, ':');
    }
    ClockText(hh, mm, ss, mmm);
  }

  /** The clock text, grouped from the right. */
  lemma {:induction false} ClockText(hh: nat, mm: nat, ss: nat, mmm: nat)
    ensures Clock(hh, mm, ss, mmm)
         == Pad(hh, 2) + [':'] + (Pad(mm, 2) + [':'] + (Pad(ss, 2) + [':'] + Pad(mmm, 3)))
  {
    var a, b, c, d := Pad(hh, 2), Pad(mm, 2), Pad(ss, 2), Pad(mmm, 3);
    assert a + [':'] + b + [':'] + c + [':'] + d == a + [':'] + (b + [':'] + (c + [':'] + d));
  }

  lemma {:induction false} TimestampFields(s: string, hh: int, mm: int, ss: int, mmm: int)
    requires |Split(s, ':')| == 4
    requires ParseInt(Split(s, ':')[0]) == Ok(hh) && ParseInt(Split(s, ':')[1]) == Ok(mm)
    requires ParseInt(Split(s, ':')[2]) == Ok(ss) && ParseInt(Split(s, ':')[3]) == Ok(mmm)
    ensures TimestampToMillis(s) == Ok(Millis(hh, mm, ss, mmm))
  {
  }

  /** Every clock text converts to its milliseconds since midnight. */
  lemma {:induction false} ClockMillis(hh: nat, mm: nat, ss: nat, mmm: nat)
    ensures TimestampToMillis(Clock(hh, mm, ss, mmm)) == Ok(Millis(hh, mm, ss, mmm))
  {
    var f := Split(Clock(hh, mm, ss, mmm), ':');
    ClockSplit(hh, mm, ss, mmm);
    assert ParseInt(f[0]) == Ok(hh) by { ParsePadded(hh, 2); }
    assert ParseInt(f[1]) == Ok(mm) by { ParsePadded(mm, 2); }
    assert ParseInt(f[2]) == Ok(ss) by { ParsePadded(ss, 2); }
    assert ParseInt(f[3]) == Ok(mmm) by { ParsePadded(mmm, 3); }
    TimestampFields(Clock(hh, mm, ss, mmm), hh, mm, ss, mmm);
  }

  /** The sample timestamp of the data files. */
  lemma {:induction false} ExampleTimestamp()
    ensures TimestampToMillis("01:02:03:004") == Ok(3723004)
  {
    assert Pad(1, 2) == "01" && Pad(2, 2) == "02" && Pad(3, 2) == "03" && Pad(4, 3) == "004";
    assert Clock(1, 2, 3, 4) == "01:02:03:004";
    ClockMillis(1, 2, 3, 4);
  }

  /**
   * The time of a `readable_timestamp` ("YYYY-MM-DD HH:MM:SS:MMM"): its
   * second space-separated piece through `timestamp_to_millis`; `None`
   * where the loaders catch an exception and skip the record (field
   * missing, no second piece, malformed clock).
   */
  function TimeOf(readable: Option<string>): (r: Option<int>)
    ensures r.Some? ==> readable.Some? && |Split(readable.value, ' ')| >= 2
  {
    if readable.None? then None
    else
      var parts := Split(readable.value, ' ');
      if |parts| < 2 then None
      else match TimestampToMillis(parts[1])
        case Ok(ms) => Some(ms)
        case Raised(_) => None
  }

  /** A date followed by a clock text is read at the clock's time. */
  lemma {:induction false} ReadableTime(date: string, hh: nat, mm: nat, ss: nat, mmm: nat)
    requires ' ' !in date
    ensures TimeOf(Some(date + " " + Clock(hh, mm, ss, mmm)))
         == Some(Millis(hh, mm, ss, mmm))
  {
    var clock := Clock(hh, mm, ss, mmm);
    assert ' ' !in clock by {
      PadFree(hh, 2, ' '); PadFree(mm, 2, ' '); PadFree(ss, 2, ' '); PadFree(mmm, 3, ' ');
    }
    SplitNoSep(clock, ' ');
    SplitCons(date, clock, ' ');
    ClockMillis(hh, mm, ss, mmm);
  }


  // ================================================================ column names

  // The six KPI column names, each written as the words it is made of:
  // `"rx" + "_brate " + "uplink" + " [Mbps]"` is "rx_brate uplink [Mbps]".

  /** The `_id`s of the KPI documents in the `csv` collection. */
  const RawGraphColumns: seq<string> :=
    ["rx" + "_brate " + "uplink" + " [Mbps]", "ul" + "_" + "sinr", "sum_" + "requested" + "_prbs",
     "tx" + "_brate " + "downlink" + " [Mbps]", "ul" + "_" + "mcs", "sum_" + "granted" + "_prbs"]

  /** Their names on the dashboard. */
  const GraphColumnNames: seq<string> :=
    ["RX" + " " + "Brate" + " " + "Uplink", "UL" + " " + "SINR", "PRB " + "Requested",
     "TX" + " " + "Brate" + " " + "Downlink", "UL" + " " + "MCS", "PRB " + "Granted"]

  /** The words shown fully capitalised. */
  const Acronyms: seq<string> := ["rx", "ul", "prb", "tx", "sinr", "mcs"]

  /**
   * One word of `format_column_name`: an acronym is upper-cased, any other
   * word gets its first letter upper-cased; an empty word has no first
   * letter and raises `IndexError`.
   */
  function CapitalizeWord(w: string): (r: Result<string>)
    ensures r.Raised? <==> w == ""
    ensures r.Raised? ==> r.exc == IndexError
    ensures r.Ok? ==> |r.value| == |w|
    ensures r.Ok? ==> forall k :: 0 <= k < |w| ==> r.value[k] == w[k] || r.value[k] == UpperChar(w[k])
  {
    if w in Acronyms then Ok(Upper(w))
    else if |w| == 0 then Raised(IndexError)
    else Ok([UpperChar(w[0])] + w[1..])
  }

  /** The word loop of `format_column_name`: an empty word raises. */
  function CapitalizeWords(ws: seq<string>): (r: Result<seq<string>>)
    ensures r.Raised? <==> exists j :: 0 <= j < |ws| && ws[j] == ""
    ensures r.Raised? ==> r.exc == IndexError
    ensures r.Ok? ==> |r.value| == |ws|
    ensures r.Ok? ==> forall j :: 0 <= j < |ws| ==> CapitalizeWord(ws[j]) == Ok(r.value[j])
  {
    if exists j :: 0 <= j < |ws| && ws[j] == "" then Raised(IndexError)
    else Ok(seq(|ws|, j requires 0 <= j < |ws| => CapitalizeWord(ws[j]).value))
  }

  /** `sum_` and ` [Mbps]` dropped, underscores turned into spaces. */
  function CleanColumnName(raw: string): string {
    Replace(Replace(Replace(raw, "sum_", ""), " [Mbps]", ""), "_", " ")
  }

  function RawWords(raw: string): seq<string> {
    Split(CleanColumnName(raw), ' ')
  }

  /**
   * `format_column_name`: the capitalised words joined by spaces, except
   * that a name with the word `Prbs` becomes `PRB` and its first word.
   */
  function FormattedName(raw: string): Result<string>
  {
    match CapitalizeWords(RawWords(raw))
    case Raised(e) => Raised(e)
    case Ok(ws) => Ok(if "Prbs" in ws then "PRB " + ws[0] else Join(ws, ' '))
  }

  /**
   * A formatted name splits back into its words: the capitalised words,
   * or `PRB` and the first word; none of them is empty.
   */
  lemma {:induction false} FormattedWords(raw: string)
    requires FormattedName(raw).Ok?
    ensures var ws := CapitalizeWords(RawWords(raw)).value;
            var words := Split(FormattedName(raw).value, ' ');
            && words == (if "Prbs" in ws then ["PRB", ws[0]] else ws)
            && forall j :: 0 <= j < |words| ==> words[j] != ""
  {
    var raws := RawWords(raw);
    var ws := CapitalizeWords(raws).value;
    forall j | 0 <= j < |ws| ensures ' ' !in ws[j] && ws[j] != "" {
      assert CapitalizeWord(raws[j]) == Ok(ws[j]);
      assert ' ' !in raws[j];
      forall k | 0 <= k < |ws[j]| ensures ws[j][k] != ' ' {
        assert raws[j][k] != ' ';
      }
    }
    var name := FormattedName(raw).value;
    if "Prbs" in ws {
      assert name == "PRB" + [' '] + ws[0];
      SplitNoSep(ws[0], ' ');
      SplitCons("PRB", ws[0], ' ');
      assert Split(name, ' ') == ["PRB", ws[0]];
    } else {
      assert name == Join(ws, ' ');
      SplitJoin(ws, ' ');
    }
  }

  /** A formatted name has no underscore left. */
  lemma {:induction false} FormattedNoUnderscore(raw: string)
    requires FormattedName(raw).Ok?
    ensures '_' !in FormattedName(raw).value
  {
    var raws := RawWords(raw);
    var ws := CapitalizeWords(raws).value;
    ReplaceRemoves(Replace(Replace(raw, "sum_", ""), " [Mbps]", ""), '_', " ");
    SplitAvoids(CleanColumnName(raw), ' ', '_');
    forall j | 0 <= j < |ws| ensures '_' !in ws[j] {
      assert CapitalizeWord(raws[j]) == Ok(ws[j]);
      forall k | 0 <= k < |ws[j]| ensures ws[j][k] != '_' {
        assert raws[j][k] != '_';
      }
    }
    if "Prbs" !in ws {
      JoinAvoids(ws, ' ', '_');
    }
  }

  lemma {:induction false} CapitalizedAll(ws: seq<string>, caps: seq<string>)
    requires |ws| == |caps|
    requires forall j :: 0 <= j < |ws| ==> CapitalizeWord(ws[j]) == Ok(caps[j])
    ensures CapitalizeWords(ws) == Ok(caps)
  {
    assert forall j :: 0 <= j < |ws| ==> ws[j] != "" by {
      forall j | 0 <= j < |ws| ensures ws[j] != "" {
        assert CapitalizeWord(ws[j]).Ok?;
      }
    }
    assert seq(|ws|, j requires 0 <= j < |ws| => CapitalizeWord(ws[j]).value) == caps;
  }

  lemma {:induction false} UnderscoreToSpace(a: string, b: string)
    requires '_' !in a && '_' !in b
    ensures Replace(a + "_" + b, "_", " ") == a + " " + b
  {
    ReplaceSkip(a, "_" + b, "_", " ");
    assert a + "_" + b == a + ("_" + b);
    ReplaceHere("_", b, " ");
    ReplaceAbsent(b, "_", " ", 0);
  }

  /** ` [Mbps]` after two words is removed. */
  lemma {:induction false} DropMbps(a: string, b: string)
    requires ' ' !in a && ' ' !in b && '[' !in a && '[' !in b
    ensures Replace(a + " " + b + " [Mbps]", " [Mbps]", "") == a + " " + b
  {
    ReplaceTail(a + " " + b, " [Mbps]", '[');
  }

  lemma {:induction false} SplitTwo(a: string, b: string)
    requires ' ' !in a && ' ' !in b
    ensures Split(a + " " + b, ' ') == [a, b]
  {
    JoinTwo(a, b);
    SplitJoin([a, b], ' ');
  }

  lemma {:induction false} SplitThree(a: string, b: string, c: string)
    requires ' ' !in a && ' ' !in b && ' ' !in c
    ensures Split(a + " " + b + " " + c, ' ') == [a, b, c]
  {
    JoinThree(a, b, c);
    SplitJoin([a, b, c], ' ');
  }

  lemma {:induction false} PlainWord(w: string)
    requires |w| > 0 && w !in Acronyms
    ensures CapitalizeWord(w) == Ok([UpperChar(w[0])] + w[1..])
  {
  }

  lemma {:induction false} AcronymWord(w: string)
    requires w in Acronyms
    ensures CapitalizeWord(w) == Ok(Upper(w))
  {
  }

  lemma {:induction false} FormattedFrom(raw: string, caps: seq<string>)
    requires CapitalizeWords(RawWords(raw)) == Ok(caps)
    ensures FormattedName(raw) == Ok(if "Prbs" in caps then "PRB " + caps[0] else Join(caps, ' '))
  {
  }

  lemma {:induction false} JoinTwo(a: string, b: string)
    ensures Join([a, b], ' ') == a + " " + b
  {
    assert [a, b][1..] == [b];
  }

  lemma {:induction false} JoinThree(a: string, b: string, c: string)
    ensures Join([a, b, c], ' ') == a + " " + b + " " + c
  {
    assert [a, b, c][1..] == [b, c];
    JoinTwo(b, c);
  }

  lemma {:induction false} RateWords(raw: string, a: string, b: string)
    requires raw == a + "_brate " + b + " [Mbps]"
    requires 'm' !in a && 'm' !in b && ' ' !in a && ' ' !in b && '_' !in a && '_' !in b
    requires '[' !in a && '[' !in b
    ensures RawWords(raw) == [a, "brate", b]
  {
    RateStripped(raw, a, b);
    assert CleanColumnName(raw) == a + " " + "brate" + " " + b by {
      UnderscoreToSpace(a, "brate " + b);
    }
    SplitThree(a, "brate", b);
  }

  lemma {:induction false} RateStripped(raw: string, a: string, b: string)
    requires raw == a + "_brate " + b + " [Mbps]"
    requires 'm' !in a && 'm' !in b && ' ' !in a && ' ' !in b && '[' !in a && '[' !in b
    ensures Replace(Replace(raw, "sum_", ""), " [Mbps]", "") == a + "_" + ("brate " + b)
  {
    assert Replace(raw, "sum_", "") == raw by {
      assert 'm' !in raw;
      ReplaceAbsent(raw, "sum_", "", 2);
    }
    assert raw == (a + "_brate") + " " + b + " [Mbps]";
    DropMbps(a + "_brate", b);
  }

  /** A `<word>_brate <word> [Mbps]` column. */
  lemma {:induction false} BrateWord()
    ensures CapitalizeWord("brate") == Ok("Brate")
  {
    TitleWord("brate", "Brate");
  }

  lemma {:induction false} RateColumn(raw: string, a: string, b: string, A: string, B: string)
    requires raw == a + "_brate " + b + " [Mbps]"
    requires 'm' !in a && 'm' !in b && ' ' !in a && ' ' !in b && '_' !in a && '_' !in b
    requires '[' !in a && '[' !in b
    requires CapitalizeWord(a) == Ok(A) && CapitalizeWord(b) == Ok(B)
    requires "Prbs" != A && "Prbs" != B
    ensures FormattedName(raw) == Ok(A + " " + "Brate" + " " + B)
  {
    var caps := [A, "Brate", B];
    assert CapitalizeWords(RawWords(raw)) == Ok(caps) by {
      RateWords(raw, a, b);
      BrateWord();
      CapitalizedAll([a, "brate", b], caps);
    }
    FormattedFrom(raw, caps);
    assert "Prbs" !in caps;
    JoinThree(A, "Brate", B);
  }

  lemma {:induction false} DropSum(raw: string, rest: string)
    requires raw == "sum_" + rest
    requires 'm' !in rest && '[' !in rest
    ensures Replace(Replace(raw, "sum_", ""), " [Mbps]", "") == rest
  {
    ReplaceHere("sum_", rest, "");
    ReplaceAbsent(rest, "sum_", "", 2);
    assert Replace(raw, "sum_", "") == "" + rest;
    assert "" + rest == rest;
    ReplaceAbsent(rest, " [Mbps]", "", 1);
  }

  lemma {:induction false} PrbStripped(raw: string, a: string)
    requires raw == "sum_" + a + "_prbs"
    requires 'm' !in a && '[' !in a
    ensures Replace(Replace(raw, "sum_", ""), " [Mbps]", "") == a + "_" + "prbs"
  {
    var rest := a + "_" + "prbs";
    assert 'm' !in rest && '[' !in rest by {
      assert 'm' !in "_prbs" && '[' !in "_prbs";
      FreeOfConcat(a, "_prbs", 'm');
      FreeOfConcat(a, "_prbs", '[');
      assert rest == a + "_prbs";
    }
    assert raw == "sum_" + rest;
    DropSum(raw, rest);
  }

  lemma {:induction false} FreeOfConcat(x: string, y: string, c: char)
    requires c !in x && c !in y
    ensures c !in x + y
  {
  }

  lemma {:induction false} PrbWords(raw: string, a: string)
    requires raw == "sum_" + a + "_prbs"
    requires 'm' !in a && '[' !in a && '_' !in a && ' ' !in a
    ensures RawWords(raw) == [a, "prbs"]
  {
    PrbStripped(raw, a);
    UnderscoreToSpace(a, "prbs");
    assert CleanColumnName(raw) == a + " " + "prbs";
    SplitTwo(a, "prbs");
  }

  /** A `sum_<word>_prbs` column. */
  lemma {:induction false} PrbColumn(raw: string, a: string, A: string)
    requires raw == "sum_" + a + "_prbs"
    requires 'm' !in a && '[' !in a && '_' !in a && ' ' !in a
    requires CapitalizeWord(a) == Ok(A)
    ensures FormattedName(raw) == Ok("PRB " + A)
  {
    PrbWords(raw, a);
    assert "prbs" !in Acronyms;
    PlainWord("prbs");
    assert [UpperChar('p')] + "prbs"[1..] == "Prbs";
    CapitalizedAll([a, "prbs"], [A, "Prbs"]);
    FormattedFrom(raw, [A, "Prbs"]);
  }

  /** A `<acronym>_<acronym>` column. */
  lemma {:induction false} AcronymWords(raw: string, a: string, b: string)
    requires raw == a + "_" + b
    requires '_' !in a && '_' !in b && ' ' !in a && ' ' !in b
    requires Replace(raw, "sum_", "") == raw
    requires '[' !in raw
    ensures RawWords(raw) == [a, b]
  {
    assert CleanColumnName(raw) == a + " " + b by {
      ReplaceAbsent(raw, " [Mbps]", "", 1);
      UnderscoreToSpace(a, b);
    }
    SplitTwo(a, b);
  }

  lemma {:induction false} AcronymColumn(raw: string, a: string, b: string, A: string, B: string)
    requires raw == a + "_" + b
    requires a in Acronyms && b in Acronyms && '_' !in a && '_' !in b && ' ' !in a && ' ' !in b
    requires Upper(a) == A && Upper(b) == B && "Prbs" != A && "Prbs" != B
    requires Replace(raw, "sum_", "") == raw
    requires '[' !in raw
    ensures FormattedName(raw) == Ok(A + " " + B)
  {
    var caps := [A, B];
    assert CapitalizeWords(RawWords(raw)) == Ok(caps) by {
      AcronymWords(raw, a, b);
      assert CapitalizeWord(a) == Ok(A) by { AcronymWord(a); }
      assert CapitalizeWord(b) == Ok(B) by { AcronymWord(b); }
      CapitalizedAll([a, b], caps);
    }
    FormattedFrom(raw, caps);
    assert "Prbs" !in caps;
    JoinTwo(A, B);
  }

  lemma {:induction false} UpperWord(w: string, W: string)
    requires w in Acronyms && Upper(w) == W
    ensures CapitalizeWord(w) == Ok(W)
  {
    AcronymWord(w);
  }

  lemma {:induction false} TitleWord(w: string, W: string)
    requires |w| > 0 && w !in Acronyms && [UpperChar(w[0])] + w[1..] == W
    ensures CapitalizeWord(w) == Ok(W)
  {
    PlainWord(w);
  }

  /** The two rate columns, `rx_brate uplink [Mbps]` and `tx_brate downlink [Mbps]`. */
  lemma {:induction false} RateGraphColumn(j: nat)
    requires j == 0 || j == 3
    ensures FormattedName(RawGraphColumns[j]) == Ok(GraphColumnNames[j])
  {
    if j == 0 {
      UpperWord("rx", "RX");
      TitleWord("uplink", "Uplink");
      RateColumn(RawGraphColumns[j], "rx", "uplink", "RX", "Uplink");
    } else {
      UpperWord("tx", "TX");
      TitleWord("downlink", "Downlink");
      RateColumn(RawGraphColumns[j], "tx", "downlink", "TX", "Downlink");
    }
  }

  lemma {:induction false} SinrColumn(raw: string)
    requires raw == "ul" + "_" + "sinr"
    ensures FormattedName(raw) == Ok("UL" + " " + "SINR")
  {
    assert Replace(raw, "sum_", "") == raw by {
      assert 'm' !in raw;
      ReplaceAbsent(raw, "sum_", "", 2);
    }
    assert Upper("ul") == "UL" && Upper("sinr") == "SINR" by {
      assert Upper("ul") == "UL";
    }
    AcronymColumn(raw, "ul", "sinr", "UL", "SINR");
  }

  lemma {:induction false} McsColumn(raw: string)
    requires raw == "ul" + "_" + "mcs"
    ensures FormattedName(raw) == Ok("UL" + " " + "MCS")
  {
    assert Replace(raw, "sum_", "") == raw by {
      assert raw == "ul_m" + "cs";
      ReplaceSkip("ul_m", "cs", "sum_", "");
      assert Replace("cs", "sum_", "") == "cs";
    }
    assert Upper("ul") == "UL" && Upper("mcs") == "MCS" by {
      assert Upper("ul") == "UL";
    }
    AcronymColumn(raw, "ul", "mcs", "UL", "MCS");
  }

  /** The two PRB columns, `sum_requested_prbs` and `sum_granted_prbs`. */
  lemma {:induction false} PrbGraphColumn(j: nat)
    requires j == 2 || j == 5
    ensures FormattedName(RawGraphColumns[j]) == Ok(GraphColumnNames[j])
  {
    if j == 2 {
      TitleWord("requested", "Requested");
      PrbColumn(RawGraphColumns[j], "requested", "Requested");
    } else {
      TitleWord("granted", "Granted");
      PrbColumn(RawGraphColumns[j], "granted", "Granted");
    }
  }

  /** `format_column_name` gives the six KPI names shown in the dashboard. */
  lemma {:induction false} GraphColumnNamesFormatted()
    ensures forall j :: 0 <= j < |RawGraphColumns| ==> FormattedName(RawGraphColumns[j]) == Ok(GraphColumnNames[j])
  {
    forall j | 0 <= j < |RawGraphColumns|
      ensures FormattedName(RawGraphColumns[j]) == Ok(GraphColumnNames[j])
    {
      if j == 0 || j == 3 {
        RateGraphColumn(j);
      } else if j == 2 || j == 5 {
        PrbGraphColumn(j);
      } else if j == 1 {
        SinrColumn(RawGraphColumns[j]);
      } else {
        McsColumn(RawGraphColumns[j]);
      }
    }
  }

  /** The six KPI names are distinct (their lengths already differ). */
  lemma {:induction false} GraphColumnNamesDistinct()
    ensures forall i, j :: 0 <= i < j < |GraphColumnNames| ==> GraphColumnNames[i] != GraphColumnNames[j]
  {
    var lengths := seq(|GraphColumnNames|, j requires 0 <= j < |GraphColumnNames| => |GraphColumnNames[j]|);
    assert lengths == [15, 7, 13, 17, 6, 11];
  }

  // ================================================================ scheduling policy

  const SchedulingPolicyNames: seq<string> := ["Round Robin", "Water Filling", "Proportionally Fair"]

  /**
   * The key of `scheduling_policy_map` a value looks up: the integers 0, 1
   * and 2, also when stored as floats (`1.0 == 1` in a Python dict).
   */
  function PolicyKey(v: Value): Option<nat>
  {
    match v
    case Int(i) => if 0 <= i < 3 then Some(i) else None
    case Float(x) => if x == 0.0 then Some(0) else if x == 1.0 then Some(1) else if x == 2.0 then Some(2) else None
    case _ => None
  }

  /**
   * `map_scheduling_policy`: the empty string maps to `None`, a known code
   * to its policy name; any other value raises `KeyError`.
   */
  function MapSchedulingPolicy(v: Value): (r: Result<Option<string>>)
    ensures r == Ok(None) <==> v == Text("")
    ensures r.Raised? <==> v != Text("") && PolicyKey(v).None?
    ensures r.Raised? ==> r.exc == KeyError
    ensures r.Ok? && r.value.Some? ==> r.value.value in SchedulingPolicyNames
  {
    if v == Text("") then Ok(None)
    else match PolicyKey(v)
      case None => Raised(KeyError)
      case Some(k) => Ok(Some(SchedulingPolicyNames[k]))
  }

  /** Each policy code, integer or float, maps to its own name. */
  lemma {:induction false} PolicyCodes(k: nat)
    requires k < 3
    ensures MapSchedulingPolicy(Int(k)) == Ok(Some(SchedulingPolicyNames[k]))
    ensures MapSchedulingPolicy(Float(k as real)) == Ok(Some(SchedulingPolicyNames[k]))
  {
  }

  /** Distinct codes give distinct policy names. */
  lemma {:induction false} PolicyNamesDistinct(v: Value, w: Value)
    requires MapSchedulingPolicy(v).Ok? && MapSchedulingPolicy(v).value.Some?
    requires MapSchedulingPolicy(w).Ok? && MapSchedulingPolicy(w).value.Some?
    ensures MapSchedulingPolicy(v) == MapSchedulingPolicy(w) <==> PolicyKey(v) == PolicyKey(w)
  {
  }

  // ================================================================ records

  /** One entry of a `csv` document's `data` list. */
  datatype Sample = Sample(unixEpoch: Option<int>, readableTimestamp: Option<string>, value: Value)

  /** One entry of the log document's `entries` list. */
  datatype LogEntry = LogEntry(unixEpoch: Option<int>, readableTimestamp: Option<string>, className: Option<string>)

  datatype LogDocument = LogDocument(id: string, entries: Option<seq<LogEntry>>)

  /** The `csv` collection: document `_id` to its `data` field (`None` when absent). */
  type CsvCollection = map<string, Option<seq<Sample>>>

  datatype Store = Store(csv: CsvCollection, log: seq<LogDocument>)

  /** `sorted(data, key=lambda x: x['unix_epoch'])` orders by this. */
  function SampleEpochLe(a: Sample, b: Sample): bool {
    a.unixEpoch.GetOr(0) <= b.unixEpoch.GetOr(0)
  }

  /** `sorted(entries, key=lambda x: x.get('unix_epoch', 0))` orders by this. */
  function LogEpochLe(a: LogEntry, b: LogEntry): bool {
    a.unixEpoch.GetOr(0) <= b.unixEpoch.GetOr(0)
  }

  lemma {:induction false} EpochOrders()
    ensures TotalPreorder(SampleEpochLe) && TotalPreorder(LogEpochLe)
  {
  }

  /** A csv document's `data`, sorted by epoch; a record without one raises `KeyError`. */
  function SortedSamples(data: seq<Sample>): (r: Result<seq<Sample>>)
    ensures r.Raised? <==> exists i :: 0 <= i < |data| && data[i].unixEpoch.None?
    ensures r.Raised? ==> r.exc == KeyError
  {
    if exists i :: 0 <= i < |data| && data[i].unixEpoch.None? then Raised(KeyError)
    else Ok(Sort(data, SampleEpochLe))
  }

  /** The sorted data is the same records in non-decreasing epoch order, ties in input order. */
  lemma {:induction false} SortedSamplesOrdered(data: seq<Sample>, x: Sample)
    requires SortedSamples(data).Ok?
    ensures var s := SortedSamples(data).value;
            && multiset(s) == multiset(data)
            && (forall i :: 0 <= i < |s| ==> s[i].unixEpoch.Some?)
            && (forall i, j :: 0 <= i < j < |s| ==> s[i].unixEpoch.GetOr(0) <= s[j].unixEpoch.GetOr(0))
            && Ties(s, x, SampleEpochLe) == Ties(data, x, SampleEpochLe)
  {
    var s := SortedSamples(data).value;
    EpochOrders();
    SortSorted(data, SampleEpochLe);
    SortStable(data, x, SampleEpochLe);
    forall i | 0 <= i < |s| ensures s[i].unixEpoch.Some? {
      assert s[i] in multiset(data);
    }
  }

  // ---------------------------------------------------------------- graph series

  /** The x list `load_csv` builds: the time of every record whose time parses. */
  function SeriesX(data: seq<Sample>): seq<int>
  {
    if |data| == 0 then []
    else
      var t := TimeOf(data[|data| - 1].readableTimestamp);
      SeriesX(data[..|data| - 1]) + (if t.Some? then [t.value] else [])
  }

  /** The y list `load_csv` builds: the value of every record whose time parses. */
  function SeriesY(data: seq<Sample>): seq<Value>
  {
    if |data| == 0 then []
    else
      var t := TimeOf(data[|data| - 1].readableTimestamp);
      SeriesY(data[..|data| - 1]) + (if t.Some? then [data[|data| - 1].value] else [])
  }

  /** The records a loader keeps: those whose time parses, in order. */
  function Timed(data: seq<Sample>): (r: seq<Sample>)
    ensures |r| <= |data|
    ensures forall i :: 0 <= i < |r| ==> r[i] in data && TimeOf(r[i].readableTimestamp).Some?
  {
    if |data| == 0 then []
    else
      var prefix := Timed(data[..|data| - 1]);
      assert forall i :: 0 <= i < |prefix| ==> prefix[i] in data by {
        forall i | 0 <= i < |prefix| ensures prefix[i] in data {
          assert prefix[i] in data[..|data| - 1];
        }
      }
      prefix + (if TimeOf(data[|data| - 1].readableTimestamp).Some? then [data[|data| - 1]] else [])
  }

  /**
   * The two series stay aligned: the i-th x and the i-th y come from the
   * same kept record.
   */
  lemma {:induction false} SeriesAligned(data: seq<Sample>)
    ensures |SeriesX(data)| == |SeriesY(data)| == |Timed(data)|
    ensures forall i :: 0 <= i < |Timed(data)| ==>
              && SeriesX(data)[i] == TimeOf(Timed(data)[i].readableTimestamp).value
              && SeriesY(data)[i] == Timed(data)[i].value
  {
    if |data| > 0 {
      SeriesAligned(data[..|data| - 1]);
    }
  }

  /** A record whose time does not parse is skipped by both series. */
  lemma {:induction false} SeriesSkip(data: seq<Sample>, r: Sample)
    requires TimeOf(r.readableTimestamp).None?
    ensures SeriesX(data + [r]) == SeriesX(data) && SeriesY(data + [r]) == SeriesY(data)
  {
    assert (data + [r])[..|data|] == data;
  }

  // ---------------------------------------------------------------- timestamp-keyed dicts

  /**
   * The dict a loader builds from (time, value) pairs: every pair with a
   * time is written in order, so a later record overwrites an earlier one
   * with the same time but the key keeps its first position.
   */
  function Keyed<V>(pairs: seq<(Option<int>, V)>): Dict<int, V>
  {
    if |pairs| == 0 then []
    else
      var d := Keyed(pairs[..|pairs| - 1]);
      var (t, v) := pairs[|pairs| - 1];
      if t.Some? then Put(d, t.value, v) else d
  }

  /** The keys of a loaded dict are distinct. */
  lemma {:induction false} KeyedUnique<V>(pairs: seq<(Option<int>, V)>)
    ensures UniqueKeys(Keyed(pairs))
  {
    if |pairs| > 0 {
      KeyedUnique(pairs[..|pairs| - 1]);
      var (t, v) := pairs[|pairs| - 1];
      if t.Some? {
        PutUnique(Keyed(pairs[..|pairs| - 1]), t.value, v);
      }
    }
  }

  /** A time is a key exactly when some pair carries it. */
  lemma {:induction false} KeyedKeys<V>(pairs: seq<(Option<int>, V)>, k: int)
    ensures k in Keys(Keyed(pairs)) <==> exists i :: 0 <= i < |pairs| && pairs[i].0 == Some(k)
  {
    if |pairs| > 0 {
      var prefix := pairs[..|pairs| - 1];
      KeyedKeys(prefix, k);
      var (t, v) := pairs[|pairs| - 1];
      if t.Some? {
        PutKeys(Keyed(prefix), t.value, v);
      }
      if exists i :: 0 <= i < |prefix| && prefix[i].0 == Some(k) {
        var i :| 0 <= i < |prefix| && prefix[i].0 == Some(k);
        assert pairs[i] == prefix[i];
      }
      if exists i :: 0 <= i < |pairs| && pairs[i].0 == Some(k) {
        var i :| 0 <= i < |pairs| && pairs[i].0 == Some(k);
        if i < |prefix| { assert prefix[i] == pairs[i]; }
      }
    }
  }

  /** The last write wins: a key holds the value of the last pair that carries it. */
  lemma {:induction false} KeyedLastWrite<V>(pairs: seq<(Option<int>, V)>, i: nat)
    requires i < |pairs| && pairs[i].0.Some?
    requires forall j :: i < j < |pairs| ==> pairs[j].0 != pairs[i].0
    ensures Get(Keyed(pairs), pairs[i].0.value) == Some(pairs[i].1)
  {
    if i < |pairs| - 1 {
      LastWritePrefix(pairs, pairs[..|pairs| - 1], i);
      KeyedLastWrite(pairs[..|pairs| - 1], i);
      KeyedKeep(pairs, pairs[i].0.value, pairs[i].1);
    } else {
      KeyedLast(pairs);
    }
  }

  /** A pair with another time, or none, leaves a key's value alone. */
  lemma {:induction false} KeyedKeep<V>(pairs: seq<(Option<int>, V)>, k: int, v: V)
    requires |pairs| > 0 && pairs[|pairs| - 1].0 != Some(k)
    requires Get(Keyed(pairs[..|pairs| - 1]), k) == Some(v)
    ensures Get(Keyed(pairs), k) == Some(v)
  {
    KeyedLast(pairs);
    var t := pairs[|pairs| - 1].0;
    if t.Some? {
      PutOther(Keyed(pairs[..|pairs| - 1]), t.value, pairs[|pairs| - 1].1, k);
    }
  }

  lemma {:induction false} LastWritePrefix<V>(pairs: seq<(Option<int>, V)>, prefix: seq<(Option<int>, V)>, i: nat)
    requires i < |pairs| - 1 && prefix == pairs[..|pairs| - 1]
    requires forall j :: i < j < |pairs| ==> pairs[j].0 != pairs[i].0
    ensures prefix[i] == pairs[i]
    ensures forall j :: i < j < |prefix| ==> prefix[j].0 != prefix[i].0
  {
  }

  /** One unfolding of `Keyed` at its last pair. */
  lemma {:induction false} KeyedLast<V>(pairs: seq<(Option<int>, V)>)
    requires |pairs| > 0
    ensures pairs[|pairs| - 1].0.Some? ==>
              Keyed(pairs) == Put(Keyed(pairs[..|pairs| - 1]), pairs[|pairs| - 1].0.value, pairs[|pairs| - 1].1)
    ensures pairs[|pairs| - 1].0.None? ==> Keyed(pairs) == Keyed(pairs[..|pairs| - 1])
  {
  }

  /** The (time, value) pairs of csv records. */
  function SamplePairs(data: seq<Sample>): (r: seq<(Option<int>, Value)>)
    ensures |r| == |data|
  {
    seq(|data|, i requires 0 <= i < |data| => (TimeOf(data[i].readableTimestamp), data[i].value))
  }

  /** The (time, class) pairs of log entries. */
  function LogPairs(entries: seq<LogEntry>): (r: seq<(Option<int>, Option<string>)>)
    ensures |r| == |entries|
  {
    seq(|entries|, i requires 0 <= i < |entries| => (TimeOf(entries[i].readableTimestamp), entries[i].className))
  }

  // ---------------------------------------------------------------- what the loaders read

  /** A document's `data` list, or `None` when the document or the field is missing. */
  function DocumentData(csv: CsvCollection, id: string): Option<seq<Sample>> {
    if id in csv then csv[id] else None
  }

  /** The pair of lists `load_csv` stores for one raw column. */
  function ColumnSeries(csv: CsvCollection, raw: string): Result<(seq<int>, seq<Value>)>
  {
    match DocumentData(csv, raw)
    case None => Ok(([], []))
    case Some(data) =>
      match SortedSamples(data)
      case Raised(e) => Raised(e)
      case Ok(sorted) => Ok((SeriesX(sorted), SeriesY(sorted)))
  }

  /** `load_other_csv_columns(_, id)`. */
  function OtherColumn(csv: CsvCollection, id: string): Result<Dict<int, Value>>
  {
    match DocumentData(csv, id)
    case None => Ok([])
    case Some(data) =>
      match SortedSamples(data)
      case Raised(e) => Raised(e)
      case Ok(sorted) => Ok(Keyed(SamplePairs(sorted)))
  }

  /** The first document with the given `_id`. */
  function FindById(docs: seq<LogDocument>, id: string): (r: Option<LogDocument>)
    ensures r.None? <==> forall i :: 0 <= i < |docs| ==> docs[i].id != id
    ensures r.Some? ==> r.value in docs && r.value.id == id
  {
    if |docs| == 0 then None
    else if docs[0].id == id then Some(docs[0])
    else
      assert forall i :: 1 <= i < |docs| ==> docs[i] == docs[1..][i - 1];
      FindById(docs[1..], id)
  }

  /** The log document: the one with `_id` `log_file`, else the first one. */
  function LogRow(docs: seq<LogDocument>): (r: Option<LogDocument>)
    ensures r.None? <==> |docs| == 0
    ensures r.Some? ==> r.value in docs
    ensures r.Some? && r.value.id != "log_file" ==> r.value == docs[0]
  {
    match FindById(docs, "log_file")
    case Some(row) => Some(row)
    case None => if |docs| == 0 then None else Some(docs[0])
  }

  /** `log_data`: the classifier's class by time, from the log document's sorted entries. */
  function LogData(docs: seq<LogDocument>): Dict<int, Option<string>>
  {
    match LogRow(docs)
    case None => []
    case Some(row) =>
      match row.entries
      case None => []
      case Some(entries) => Keyed(LogPairs(Sort(entries, LogEpochLe)))
  }

  /** The log's classes are keyed by distinct times, each a time some log entry carries. */
  lemma {:induction false} LogDataKeys(docs: seq<LogDocument>, k: int)
    ensures UniqueKeys(LogData(docs))
    ensures k in Keys(LogData(docs)) ==>
              exists row, i :: row in docs && row.entries.Some? && 0 <= i < |row.entries.value|
                && TimeOf(row.entries.value[i].readableTimestamp) == Some(k)
  {
    match LogRow(docs)
    case None =>
    case Some(row) =>
      match row.entries
      case None =>
      case Some(entries) =>
        var sorted := Sort(entries, LogEpochLe);
        var pairs := LogPairs(sorted);
        KeyedUnique(pairs);
        KeyedKeys(pairs, k);
        if k in Keys(LogData(docs)) {
          var j :| 0 <= j < |pairs| && pairs[j].0 == Some(k);
          assert sorted[j] in multiset(entries);
          var i :| 0 <= i < |entries| && entries[i] == sorted[j];
          assert row in docs && TimeOf(entries[i].readableTimestamp) == Some(k);
        }
  }

  /** Every column `load_csv` reads loads without an exception. */
  predicate CsvLoads(csv: CsvCollection) {
    && (forall j :: 0 <= j < |RawGraphColumns| ==> ColumnSeries(csv, RawGraphColumns[j]).Ok?)
    && OtherColumn(csv, "slice_prb").Ok?
    && OtherColumn(csv, "scheduling_policy").Ok?
  }

  /** A collection with no data raises nothing and gives empty series. */
  lemma {:induction false} EmptyCsv()
    ensures CsvLoads(map[])
    ensures forall j :: 0 <= j < |RawGraphColumns| ==> ColumnSeries(map[], RawGraphColumns[j]) == Ok(([], []))
  {
  }

  /**
   * The first `n` graph columns are loaded: each KPI name has the x and y
   * lists `load_csv` builds from its raw column, and no other key exists.
   */
  ghost predicate GraphPrefixLoaded(csv: CsvCollection, xv: map<string, seq<int>>, yv: map<string, seq<Value>>, n: nat)
    requires n <= |GraphColumnNames|
  {
    && xv.Keys == yv.Keys == (set j | 0 <= j < n :: GraphColumnNames[j])
    && forall j :: 0 <= j < n ==> LoadedAt(csv, xv, yv, j)
  }

  /** Graph column `j` is stored, under its formatted name, as the series the collection holds. */
  ghost predicate LoadedAt(csv: CsvCollection, xv: map<string, seq<int>>, yv: map<string, seq<Value>>, j: nat)
    requires j < |GraphColumnNames|
  {
    && GraphColumnNames[j] in xv && GraphColumnNames[j] in yv
    && ColumnSeries(csv, RawGraphColumns[j]) == Ok((xv[GraphColumnNames[j]], yv[GraphColumnNames[j]]))
  }

  /** Storing column `n`'s series under its name extends the loaded prefix. */
  lemma {:induction false} GraphPrefixStep(csv: CsvCollection, xv: map<string, seq<int>>, yv: map<string, seq<Value>>, n: nat,
                        xs: seq<int>, ys: seq<Value>)
    requires n < |GraphColumnNames|
    requires GraphPrefixLoaded(csv, xv, yv, n)
    requires ColumnSeries(csv, RawGraphColumns[n]) == Ok((xs, ys))
    ensures GraphPrefixLoaded(csv, xv[GraphColumnNames[n] := xs], yv[GraphColumnNames[n] := ys], n + 1)
  {
    var name := GraphColumnNames[n];
    var xv', yv' := xv[name := xs], yv[name := ys];
    PrefixNamesStep(n);
    forall j | 0 <= j < n + 1
      ensures LoadedAt(csv, xv', yv', j)
    {
      if j < n {
        assert GraphColumnNames[j] != name by { GraphColumnNamesDistinct(); }
        assert LoadedAt(csv, xv, yv, j);
      }
    }
  }

  lemma {:induction false} PrefixNamesStep(n: nat)
    requires n < |GraphColumnNames|
    ensures (set j | 0 <= j < n + 1 :: GraphColumnNames[j]) == (set j | 0 <= j < n :: GraphColumnNames[j]) + {GraphColumnNames[n]}
  {
  }

  /** Once all six are loaded the keys are exactly the KPI names. */
  lemma {:induction false} GraphLoadedKeys(csv: CsvCollection, xv: map<string, seq<int>>, yv: map<string, seq<Value>>)
    requires GraphPrefixLoaded(csv, xv, yv, |GraphColumnNames|)
    ensures xv.Keys == yv.Keys == (set c | c in GraphColumnNames)
  {
    forall c | c in GraphColumnNames
      ensures c in (set j | 0 <= j < |GraphColumnNames| :: GraphColumnNames[j])
    {
      var j :| 0 <= j < |GraphColumnNames| && GraphColumnNames[j] == c;
    }
  }

  // ================================================================ the database object

  class Database {
    var currentTimestamp: int
    var graphXValues: map<string, seq<int>>
    var graphYValues: map<string, seq<Value>>
    var graphColumns: seq<string>
    var rbsAssigned: Dict<int, Value>
    var schedulingPolicy: Dict<int, Value>
    var logData: Dict<int, Option<string>>

    /** Every graph column has an x list and a y list of the same length. */
    predicate Valid()
      reads this
    {
      forall c :: c in graphColumns ==>
        c in graphXValues && c in graphYValues && |graphXValues[c]| == |graphYValues[c]|
    }

    /** The state `__init__` leaves after reading the given collections. */
    ghost predicate LoadedFrom(store: Store)
      reads this
    {
      && graphColumns == GraphColumnNames
      && graphXValues.Keys == graphYValues.Keys == (set c | c in GraphColumnNames)
      && (forall j :: 0 <= j < |GraphColumnNames| ==> LoadedAt(store.csv, graphXValues, graphYValues, j))
      && OtherColumn(store.csv, "slice_prb") == Ok(rbsAssigned)
      && OtherColumn(store.csv, "scheduling_policy") == Ok(schedulingPolicy)
      && logData == LogData(store.log)
    }

    constructor Empty()
      ensures currentTimestamp == 0
      ensures graphXValues == map[] && graphYValues == map[] && graphColumns == []
      ensures rbsAssigned == [] && schedulingPolicy == [] && logData == []
    {
      currentTimestamp := 0;
      graphXValues := map[];
      graphYValues := map[];
      graphColumns := [];
      rbsAssigned := [];
      schedulingPolicy := [];
      logData := [];
    }

    /**
     * `Database()`: reads the collections; an exception of `load_csv`
     * escapes the constructor.
     */
    static method Open(store: Store) returns (r: Result<Database>)
      ensures r.Raised? <==> !CsvLoads(store.csv)
      ensures r.Raised? ==> r.exc == KeyError
      ensures r.Ok? ==> fresh(r.value) && r.value.currentTimestamp == 0
      ensures r.Ok? ==> r.value.LoadedFrom(store) && r.value.Valid()
    {
      var db := new Database.Empty();
      var raised := db.LoadCsv(store.csv);
      if raised.Some? {
        return Raised(raised.value);
      }
      db.LoadLogFile(store.log);
      db.LoadedValid(store);
      return Ok(db);
    }

    lemma {:induction false} LoadedValid(store: Store)
      requires LoadedFrom(store)
      ensures Valid()
    {
      forall c | c in graphColumns
        ensures c in graphXValues && c in graphYValues && |graphXValues[c]| == |graphYValues[c]|
      {
        var j :| 0 <= j < |GraphColumnNames| && GraphColumnNames[j] == c;
        assert LoadedAt(store.csv, graphXValues, graphYValues, j);
        match DocumentData(store.csv, RawGraphColumns[j])
        case None =>
        case Some(data) =>
          if SortedSamples(data).Ok? {
            SeriesAligned(SortedSamples(data).value);
          }
      }
    }

    /** `format_column_name` */
    method FormatColumnName(columnName: string) returns (r: Result<string>)
      ensures r == FormattedName(columnName)
    {
      var raws := RawWords(columnName);
      var words := raws;
      var i := 0;
      while i < |words|
        invariant 0 <= i <= |words| == |raws|
        invariant forall j :: 0 <= j < i ==> CapitalizeWord(raws[j]) == Ok(words[j])
        invariant forall j :: i <= j < |words| ==> words[j] == raws[j]
      {
        if words[i] in Acronyms {
          words := words[i := Upper(words[i])];
        } else if |words[i]| == 0 {
          return Raised(IndexError);
        } else {
          words := words[i := [UpperChar(words[i][0])] + words[i][1..]];
        }
        i := i + 1;
      }
      CapitalizedAll(raws, words);
      if "Prbs" in words {
        return Ok("PRB " + words[0]);
      }
      return Ok(Join(words, ' '));
    }

    /**
     * The series loop of `load_csv` for one column: a record whose time
     * does not parse is skipped in both lists.
     */
    static method BuildSeries(data: seq<Sample>) returns (xs: seq<int>, ys: seq<Value>)
      ensures xs == SeriesX(data) && ys == SeriesY(data)
    {
      xs, ys := [], [];
      var i := 0;
      while i < |data|
        invariant 0 <= i <= |data|
        invariant xs == SeriesX(data[..i]) && ys == SeriesY(data[..i])
      {
        assert data[..i + 1][..i] == data[..i];
        var t := TimeOf(data[i].readableTimestamp);
        if t.Some? {
          xs := xs + [t.value];
          ys := ys + [data[i].value];
        }
        i := i + 1;
      }
      assert data[..i] == data;
    }

    /** The dict loop shared by `load_other_csv_columns` and `load_log_file`. */
    static method BuildDict<V>(pairs: seq<(Option<int>, V)>) returns (d: Dict<int, V>)
      ensures d == Keyed(pairs)
    {
      d := [];
      var i := 0;
      while i < |pairs|
        invariant 0 <= i <= |pairs|
        invariant d == Keyed(pairs[..i])
      {
        assert pairs[..i + 1][..i] == pairs[..i];
        var (t, v) := pairs[i];
        if t.Some? {
          d := Put(d, t.value, v);
        }
        i := i + 1;
      }
      assert pairs[..i] == pairs;
    }

    /** `load_other_csv_columns(_, columnName)` */
    static method LoadOtherCsvColumns(csv: CsvCollection, columnName: string)
      returns (r: Result<Dict<int, Value>>)
      ensures r == OtherColumn(csv, columnName)
    {
      var data := DocumentData(csv, columnName);
      if data.None? {
        return Ok([]);
      }
      var sorted := SortedSamples(data.value);
      if sorted.Raised? {
        return Raised(sorted.exc);
      }
      var d := BuildDict(SamplePairs(sorted.value));
      return Ok(d);
    }

    /** The body of `load_csv`'s loop for one raw column: its x and y lists. */
    static method LoadColumn(csv: CsvCollection, raw: string) returns (r: Result<(seq<int>, seq<Value>)>)
      ensures r == ColumnSeries(csv, raw)
    {
      var data := DocumentData(csv, raw);
      if data.None? {
        return Ok(([], []));
      }
      var sorted := SortedSamples(data.value);
      if sorted.Raised? {
        return Raised(sorted.exc);
      }
      var xs, ys := BuildSeries(sorted.value);
      return Ok((xs, ys));
    }

    /**
     * `load_csv`'s loop over the six graph columns: each column's series is
     * stored under its formatted name; the first exception stops the loop.
     */
    method LoadGraphColumns(csv: CsvCollection) returns (raised: Option<Exception>)
      modifies this`graphXValues, this`graphYValues
      ensures raised.Some? <==> exists j :: 0 <= j < |RawGraphColumns| && ColumnSeries(csv, RawGraphColumns[j]).Raised?
      ensures raised.Some? ==> raised.value == KeyError
      ensures raised.None? ==> GraphPrefixLoaded(csv, graphXValues, graphYValues, |GraphColumnNames|)
    {
      graphXValues := map[];
      graphYValues := map[];
      var i := 0;
      while i < |RawGraphColumns|
        invariant 0 <= i <= |RawGraphColumns|
        invariant GraphPrefixLoaded(csv, graphXValues, graphYValues, i)
      {
        var formatted := FormatColumnName(RawGraphColumns[i]);
        assert formatted == Ok(GraphColumnNames[i]) by { GraphColumnNamesFormatted(); }
        var series := LoadColumn(csv, RawGraphColumns[i]);
        if series.Raised? {
          return Some(series.exc);
        }
        GraphPrefixStep(csv, graphXValues, graphYValues, i, series.value.0, series.value.1);
        graphXValues := graphXValues[formatted.value := series.value.0];
        graphYValues := graphYValues[formatted.value := series.value.1];
        i := i + 1;
      }
      forall j | 0 <= j < |RawGraphColumns| ensures ColumnSeries(csv, RawGraphColumns[j]).Ok? {
        assert LoadedAt(csv, graphXValues, graphYValues, j);
      }
      return None;
    }

    /**
     * `load_csv`: the six graph columns in order, then `slice_prb` and
     * `scheduling_policy`; the first exception stops the load and is
     * returned.
     */
    method LoadCsv(csv: CsvCollection) returns (raised: Option<Exception>)
      modifies this`graphXValues, this`graphYValues, this`graphColumns, this`rbsAssigned, this`schedulingPolicy
      ensures raised.Some? <==> !CsvLoads(csv)
      ensures raised.Some? ==> raised.value == KeyError
      ensures raised.None? ==> && graphColumns == GraphColumnNames
                               && graphXValues.Keys == graphYValues.Keys == (set c | c in GraphColumnNames)
                               && GraphPrefixLoaded(csv, graphXValues, graphYValues, |GraphColumnNames|)
                               && OtherColumn(csv, "slice_prb") == Ok(rbsAssigned)
                               && OtherColumn(csv, "scheduling_policy") == Ok(schedulingPolicy)
    {
      raised := LoadGraphColumns(csv);
      if raised.Some? {
        return;
      }
      GraphLoadedKeys(csv, graphXValues, graphYValues);
      var rbs := LoadOtherCsvColumns(csv, "slice_prb");
      if rbs.Raised? {
        return Some(rbs.exc);
      }
      rbsAssigned := rbs.value;
      var policy := LoadOtherCsvColumns(csv, "scheduling_policy");
      if policy.Raised? {
        return Some(policy.exc);
      }
      schedulingPolicy := policy.value;
      graphColumns := FormatGraphColumns();
      return None;
    }

    /** The list comprehension that formats every raw graph column name. */
    method FormatGraphColumns() returns (names: seq<string>)
      ensures names == GraphColumnNames
    {
      names := [];
      var i := 0;
      while i < |RawGraphColumns|
        invariant 0 <= i <= |RawGraphColumns|
        invariant names == GraphColumnNames[..i]
      {
        var formatted := FormatColumnName(RawGraphColumns[i]);
        assert formatted == Ok(GraphColumnNames[i]) by { GraphColumnNamesFormatted(); }
        names := names + [formatted.value];
        i := i + 1;
      }
    }

    /** `load_log_file` */
    method LoadLogFile(docs: seq<LogDocument>)
      modifies this`logData
      ensures logData == LogData(docs)
    {
      logData := [];
      var row := LogRow(docs);
      if row.None? || row.value.entries.None? {
        return;
      }
      var sorted := Sort(row.value.entries.value, LogEpochLe);
      var pairs := LogPairs(sorted);
      var i := 0;
      while i < |pairs|
        invariant 0 <= i <= |pairs|
        invariant logData == Keyed(pairs[..i])
      {
        assert pairs[..i + 1][..i] == pairs[..i];
        var (t, c) := pairs[i];
        if t.Some? {
          logData := Put(logData, t.value, c);
        }
        i := i + 1;
      }
      assert pairs[..i] == pairs;
    }

    /** `set_current_timestamp` */
    method SetCurrentTimestamp(timestamp: int)
      modifies this`currentTimestamp
      ensures currentTimestamp == timestamp
    {
      currentTimestamp := timestamp;
    }
  }
}
