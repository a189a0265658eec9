/**
 * The few Python `str` operations the dashboard relies on, with Python's
 * semantics: `split` on one separator character, `" ".join`, `replace`,
 * ASCII `upper`, `int()` of a decimal literal, and the JavaScript
 * `toString` / `padStart` pair used by the chart's tick formatter.
 */
module PyStr {
  import opened Common

  // ---------------------------------------------------------------- split / join

  /**
   * `s.split(sep)` for a one-character separator: every occurrence of `sep`
   * ends a piece, so doubled separators give empty pieces and the result is
   * never empty.
   */
  function Split(s: string, sep: char): (r: seq<string>)
    ensures |r| >= 1
    ensures forall i :: 0 <= i < |r| ==> sep !in r[i]
    decreases |s|
  {
    if |s| == 0 then [""]
    else
      var rest := Split(s[1..], sep);
      if s[0] == sep then [""] + rest
      else [[s[0]] + rest[0]] + rest[1..]
  }

  /** `sep.join(pieces)` for a one-character separator. */
  function Join(pieces: seq<string>, sep: char): string
  {
    if |pieces| == 0 then ""
    else if |pieces| == 1 then pieces[0]
    else pieces[0] + [sep] + Join(pieces[1..], sep)
  }

  /** Joining the pieces of a split gives back the string. */
  lemma {:induction false} JoinSplit(s: string, sep: char)
    ensures Join(Split(s, sep), sep) == s
    decreases |s|
  {
    if |s| > 0 {
      var rest := Split(s[1..], sep);
      JoinSplit(s[1..], sep);
      if s[0] == sep {
        assert Split(s, sep) == [""] + rest;
        assert Join([""] + rest, sep) == "" + [sep] + Join(rest, sep) by {
          assert ([""] + rest)[1..] == rest;
        }
        assert [sep] + s[1..] == s;
      } else {
        var r := Split(s, sep);
        assert r == [[s[0]] + rest[0]] + rest[1..];
        if |rest| == 1 {
          assert Join(r, sep) == [s[0]] + rest[0];
          assert Join(rest, sep) == rest[0];
        } else {
          assert r[1..] == rest[1..];
          assert Join(r, sep) == [s[0]] + rest[0] + [sep] + Join(rest[1..], sep);
          assert Join(rest, sep) == rest[0] + [sep] + Join(rest[1..], sep);
        }
        assert [s[0]] + s[1..] == s;
      }
    }
  }

  /** A string without the separator is a single piece. */
  lemma {:induction false} SplitNoSep(a: string, sep: char)
    requires sep !in a
    ensures Split(a, sep) == [a]
    decreases |a|
  {
    if |a| > 0 {
      SplitNoSep(a[1..], sep);
      assert [a[0]] + a[1..] == a;
    }
  }

  /** The first piece of `a + [sep] + b` is `a` when `a` has no separator. */
  lemma {:induction false} SplitCons(a: string, b: string, sep: char)
    requires sep !in a
    ensures Split(a + [sep] + b, sep) == [a] + Split(b, sep)
    decreases |a|
  {
    var s := a + [sep] + b;
    if |a| == 0 {
      assert s[1..] == b;
    } else {
      assert s[1..] == a[1..] + [sep] + b;
      SplitCons(a[1..], b, sep);
      var rest := Split(s[1..], sep);
      assert rest == [a[1..]] + Split(b, sep);
      assert [a[0]] + a[1..] == a;
      assert Split(s, sep) == [[a[0]] + rest[0]] + rest[1..];
    }
  }

  /** A separator-free prefix becomes the start of the first piece. */
  lemma {:induction false} SplitHead(a: string, b: string, sep: char)
    requires sep !in a
    ensures Split(a + b, sep)[0] == a + Split(b, sep)[0]
    decreases |a|
  {
    if |a| > 0 {
      var s := a + b;
      assert s[1..] == a[1..] + b;
      SplitHead(a[1..], b, sep);
      assert [a[0]] + a[1..] == a;
    } else {
      assert a + b == b;
    }
  }

  /** Splitting a join of separator-free pieces gives back the pieces. */
  lemma {:induction false} SplitJoin(pieces: seq<string>, sep: char)
    requires |pieces| >= 1
    requires forall i :: 0 <= i < |pieces| ==> sep !in pieces[i]
    ensures Split(Join(pieces, sep), sep) == pieces
    decreases |pieces|
  {
    if |pieces| == 1 {
      SplitNoSep(pieces[0], sep);
    } else {
      SplitJoin(pieces[1..], sep);
      SplitCons(pieces[0], Join(pieces[1..], sep), sep);
      assert [pieces[0]] + pieces[1..] == pieces;
    }
  }

  /** A character absent from the string is absent from every piece. */
  lemma {:induction false} SplitAvoids(s: string, sep: char, c: char)
    requires c !in s
    ensures forall i :: 0 <= i < |Split(s, sep)| ==> c !in Split(s, sep)[i]
    decreases |s|
  {
    if |s| > 0 {
      assert c !in s[1..] by {
        forall k | 0 <= k < |s[1..]| ensures s[1..][k] != c { assert s[1..][k] == s[k + 1]; }
      }
      SplitAvoids(s[1..], sep, c);
    }
  }

  /** A character other than the separator, absent from every piece, is absent from the join. */
  lemma {:induction false} JoinAvoids(pieces: seq<string>, sep: char, c: char)
    requires c != sep
    requires forall i :: 0 <= i < |pieces| ==> c !in pieces[i]
    ensures c !in Join(pieces, sep)
    decreases |pieces|
  {
    if |pieces| > 1 {
      JoinAvoids(pieces[1..], sep, c);
    }
  }

  // ---------------------------------------------------------------- replace

  predicate StartsWith(s: string, prefix: string) {
    |prefix| <= |s| && s[..|prefix|] == prefix
  }

  predicate EndsWith(s: string, suffix: string) {
    |suffix| <= |s| && s[|s| - |suffix|..] == suffix
  }

  /** `s.replace("", rep)`: `rep` before every character and at the end. */
  function ReplaceEmpty(s: string, rep: string): string
  {
    if |s| == 0 then rep else rep + [s[0]] + ReplaceEmpty(s[1..], rep)
  }

  /** `s.replace(pat, rep)`: left to right, non-overlapping occurrences. */
  function Replace(s: string, pat: string, rep: string): string
    decreases |s|
  {
    if |pat| == 0 then ReplaceEmpty(s, rep)
    else if |s| < |pat| then s
    else if s[..|pat|] == pat then rep + Replace(s[|pat|..], pat, rep)
    else [s[0]] + Replace(s[1..], pat, rep)
  }

  /** `pat` occurs in `s` starting at index `i`. */
  predicate MatchAt(s: string, pat: string, i: nat)
    requires i <= |s|
  {
    StartsWith(s[i..], pat)
  }

  /** `pat in s` */
  predicate Occurs(s: string, pat: string)
  {
    exists i :: 0 <= i <= |s| && MatchAt(s, pat, i)
  }

  /** A prefix at none of whose positions the pattern starts is copied unchanged. */
  lemma {:induction false} ReplaceNoMatch(a: string, b: string, pat: string, rep: string)
    requires |pat| > 0
    requires forall i :: 0 <= i < |a| ==> !MatchAt(a + b, pat, i)
    ensures Replace(a + b, pat, rep) == a + Replace(b, pat, rep)
    decreases |a|
  {
    var s := a + b;
    if |a| == 0 {
      assert s == b;
    } else if |s| < |pat| {
      assert Replace(b, pat, rep) == b;
    } else {
      assert s[..|pat|] != pat by {
        assert !MatchAt(s, pat, 0);
        assert s[0..] == s;
      }
      assert Replace(s, pat, rep) == [s[0]] + Replace(s[1..], pat, rep);
      var t := a[1..];
      assert s[1..] == t + b;
      forall i | 0 <= i < |t|
        ensures !MatchAt(t + b, pat, i)
      {
        assert (t + b)[i..] == s[i + 1..];
        assert !MatchAt(s, pat, i + 1);
      }
      ReplaceNoMatch(t, b, pat, rep);
      assert [a[0]] + t == a;
    }
  }

  /** A pattern with a character the string lacks leaves the string unchanged. */
  lemma {:induction false} ReplaceAbsent(s: string, pat: string, rep: string, k: nat)
    requires k < |pat| && pat[k] !in s
    ensures Replace(s, pat, rep) == s
    decreases |s|
  {
    if |s| >= |pat| {
      assert s[..|pat|][k] == s[k];
      ReplaceAbsent(s[1..], pat, rep, k);
      assert [s[0]] + s[1..] == s;
    }
  }

  /** A prefix without the pattern's first character is copied unchanged. */
  lemma {:induction false} ReplaceSkip(a: string, b: string, pat: string, rep: string)
    requires |pat| > 0 && pat[0] !in a
    ensures Replace(a + b, pat, rep) == a + Replace(b, pat, rep)
    decreases |a|
  {
    if |a| > 0 {
      var s := a + b;
      var t := a[1..];
      assert s[0] == a[0] && a[0] in a;
      ReplaceMiss(s, pat, rep, 0);
      assert s[1..] == t + b;
      NotInTail(a, pat[0]);
      ReplaceSkip(t, b, pat, rep);
      var r := Replace(b, pat, rep);
      assert Replace(s, pat, rep) == [a[0]] + (t + r);
      assert [a[0]] + (t + r) == ([a[0]] + t) + r;
      assert [a[0]] + t == a;
    } else {
      assert a + b == b;
    }
  }

  lemma {:induction false} NotInTail(a: string, c: char)
    requires |a| > 0 && c !in a
    ensures c !in a[1..]
  {
    assert forall i :: 0 <= i < |a| - 1 ==> a[1..][i] == a[i + 1];
  }

  /** An occurrence at the front is replaced. */
  lemma {:induction false} ReplaceHere(pat: string, b: string, rep: string)
    requires |pat| > 0
    ensures Replace(pat + b, pat, rep) == rep + Replace(b, pat, rep)
  {
    assert (pat + b)[..|pat|] == pat;
    assert (pat + b)[|pat|..] == b;
  }

  /** A front that differs from the pattern at position `j` is copied. */
  lemma {:induction false} ReplaceMiss(s: string, pat: string, rep: string, j: nat)
    requires |pat| > 0 && 0 < |s|
    requires j < |pat| && j < |s| && s[j] != pat[j]
    ensures Replace(s, pat, rep) == [s[0]] + Replace(s[1..], pat, rep)
  {
    if |s| < |pat| {
      assert Replace(s[1..], pat, rep) == s[1..];
      assert [s[0]] + s[1..] == s;
    } else {
      assert s[..|pat|][j] == s[j];
    }
  }

  /**
   * A pattern whose second character occurs neither in `x` nor as its own
   * first character matches `x + pat` only at its end.
   */
  lemma {:induction false} ReplaceTail(x: string, pat: string, c: char)
    requires |pat| >= 2 && pat[1] == c && pat[0] != c && c !in x
    ensures Replace(x + pat, pat, "") == x
    decreases |x|
  {
    if |x| == 0 {
      assert x + pat == pat + "";
      ReplaceHere(pat, "", "");
    } else {
      var s := x + pat;
      ReplaceMiss(s, pat, "", 1);
      assert s[1..] == x[1..] + pat;
      ReplaceTail(x[1..], pat, c);
    }
  }

  /** Replacing one character by a string without it removes every occurrence. */
  lemma {:induction false} ReplaceRemoves(s: string, c: char, rep: string)
    requires c !in rep
    ensures c !in Replace(s, [c], rep)
    decreases |s|
  {
    if |s| > 0 {
      ReplaceRemoves(s[1..], c, rep);
      if s[0] == c {
        assert s[..1] == [c];
      } else {
        assert s[..1] != [c] by { assert s[..1][0] == s[0]; }
      }
    }
  }

  // ---------------------------------------------------------------- upper

  /** `str.upper` on one character (ASCII letters only). */
  function UpperChar(c: char): char
  {
    if 'a' <= c <= 'z' then (c as int - 32) as char else c
  }

  function Upper(s: string): string
  {
    seq(|s|, i requires 0 <= i < |s| => UpperChar(s[i]))
  }

  // ---------------------------------------------------------------- int()

  predicate IsDigit(c: char) {
    '0' <= c <= '9'
  }

  function DigitValue(c: char): nat
    requires IsDigit(c)
  {
    c as int - '0' as int
  }

  function DigitChar(d: nat): char
    requires d < 10
  {
    ('0' as int + d) as char
  }

  /**
   * The whitespace `int()` strips: the characters `str.isspace()` accepts,
   * except the four separators U+001C..U+001F, which `int()` keeps.
   */
  predicate IsSpace(c: char) {
    || c == ' ' || ('\t' <= c <= '\r')
    || c == '\U{85}' || c == '\U{A0}' || c == '\U{1680}'
    || ('\U{2000}' <= c <= '\U{200A}')
    || c == '\U{2028}' || c == '\U{2029}' || c == '\U{202F}' || c == '\U{205F}' || c == '\U{3000}'
  }

  function StripStart(s: string): string
  {
    if |s| > 0 && IsSpace(s[0]) then StripStart(s[1..]) else s
  }

  function StripEnd(s: string): string
  {
    if |s| > 0 && IsSpace(s[|s| - 1]) then StripEnd(s[..|s| - 1]) else s
  }

  function Strip(s: string): string
  {
    StripEnd(StripStart(s))
  }

  /**
   * The digit part of a Python integer literal: digits, where a single
   * underscore may stand between two digits.
   */
  predicate ValidDigits(d: string) {
    && |d| > 0
    && IsDigit(d[0])
    && DigitChars(d)
    && forall i :: 0 <= i < |d| && d[i] == '_' ==> i + 1 < |d| && IsDigit(d[i + 1])
  }

  predicate DigitChars(d: string) {
    forall i :: 0 <= i < |d| ==> IsDigit(d[i]) || d[i] == '_'
  }

  /** The number a digit string denotes, underscores ignored. */
  function DigitsValue(d: string): nat
    requires DigitChars(d)
  {
    if |d| == 0 then 0
    else if d[|d| - 1] == '_' then DigitsValue(d[..|d| - 1])
    else DigitsValue(d[..|d| - 1]) * 10 + DigitValue(d[|d| - 1])
  }

  /**
   * `int(s)` for a decimal string: surrounding whitespace, an optional sign,
   * then digits; anything else raises `ValueError`.
   */
  function ParseInt(s: string): (r: Result<int>)
    ensures r.Ok? ==> exists i :: 0 <= i < |s| && IsDigit(s[i])
  {
    var t := Strip(s);
    assert forall j :: 0 <= j < |t| ==> t[j] in s by { StripIn(s); }
    if |t| > 0 && (t[0] == '+' || t[0] == '-') then
      var d := t[1..];
      if ValidDigits(d) then
        assert d[0] in s;
        Ok(if t[0] == '-' then -(DigitsValue(d) as int) else DigitsValue(d))
      else Raised(ValueError)
    else if ValidDigits(t) then
      assert t[0] in s;
      Ok(DigitsValue(t))
    else Raised(ValueError)
  }

  lemma {:induction false} StripIn(s: string)
    ensures forall j :: 0 <= j < |Strip(s)| ==> Strip(s)[j] in s
  {
    StripStartIn(s);
    StripEndIn(StripStart(s));
  }

  lemma {:induction false} StripStartIn(s: string)
    ensures forall j :: 0 <= j < |StripStart(s)| ==> StripStart(s)[j] in s
    decreases |s|
  {
    if |s| > 0 && IsSpace(s[0]) {
      StripStartIn(s[1..]);
      forall j | 0 <= j < |StripStart(s)| ensures StripStart(s)[j] in s {
        assert StripStart(s)[j] in s[1..];
      }
    }
  }

  lemma {:induction false} StripEndIn(s: string)
    ensures forall j :: 0 <= j < |StripEnd(s)| ==> StripEnd(s)[j] in s
    decreases |s|
  {
    if |s| > 0 && IsSpace(s[|s| - 1]) {
      StripEndIn(s[..|s| - 1]);
      forall j | 0 <= j < |StripEnd(s)| ensures StripEnd(s)[j] in s {
        assert StripEnd(s)[j] in s[..|s| - 1];
      }
    }
  }

  // ---------------------------------------------------------------- toString / padStart

  /** The decimal representation of a non-negative integer (`str(n)`, `n.toString()`). */
  function DecimalString(n: nat): (r: string)
    ensures |r| > 0
    ensures forall i :: 0 <= i < |r| ==> IsDigit(r[i])
  {
    if n < 10 then [DigitChar(n)] else DecimalString(n / 10) + [DigitChar(n % 10)]
  }

  /** JavaScript `s.padStart(width, '0')`. */
  function PadStart(s: string, width: nat, fill: char): string
  {
    if |s| >= width then s else seq(width - |s|, _ => fill) + s
  }

  /** A zero-padded decimal representation is made of digits only. */
  lemma {:induction false} PaddedDigits(n: nat, width: nat)
    ensures forall i :: 0 <= i < |PadStart(DecimalString(n), width, '0')| ==>
              IsDigit(PadStart(DecimalString(n), width, '0')[i])
  {
  }

  lemma {:induction false} DecimalValue(n: nat)
    ensures DigitsValue(DecimalString(n)) == n
  {
    if n >= 10 {
      var s := DecimalString(n);
      assert s[..|s| - 1] == DecimalString(n / 10);
      DecimalValue(n / 10);
    }
  }

  lemma {:induction false} LeadingZeros(k: nat, d: string)
    requires forall i :: 0 <= i < |d| ==> IsDigit(d[i])
    ensures DigitsValue(seq(k, _ => '0') + d) == DigitsValue(d)
    decreases |d|
  {
    var z := seq(k, _ => '0');
    var s := z + d;
    if |d| == 0 {
      assert s == z;
      ZerosValue(k);
    } else {
      assert s[..|s| - 1] == z + d[..|d| - 1];
      LeadingZeros(k, d[..|d| - 1]);
    }
  }

  lemma {:induction false} ZerosValue(k: nat)
    ensures DigitsValue(seq(k, _ => '0')) == 0
  {
    if k > 0 {
      assert seq(k, _ => '0')[..k - 1] == seq(k - 1, _ => '0');
      ZerosValue(k - 1);
    }
  }

  /**
   * `int()` reads back a zero-padded decimal representation: the partner of
   * `DecimalString` and `PadStart`.
   */
  lemma {:induction false} ParsePadded(n: nat, width: nat)
    ensures ParseInt(PadStart(DecimalString(n), width, '0')) == Ok(n)
  {
    var d := DecimalString(n);
    var s := PadStart(d, width, '0');
    var k := if |d| >= width then 0 else width - |d|;
    if |d| >= width {
      assert s == seq(0, _ => '0') + d;
    } else {
      assert s == seq(k, _ => '0') + d;
    }
    PaddedDigits(n, width);
    ParseDigits(s);
    LeadingZeros(k, d);
    DecimalValue(n);
  }

  /** Unicode spaces around the digits are stripped; an information separator is not. */
  lemma ParseUnicodeSpace()
    ensures ParseInt("\U{A0}5\U{3000}") == Ok(5)
    ensures ParseInt("\U{1C}5") == Raised(ValueError)
  {
    assert StripStart("\U{A0}5\U{3000}") == StripStart("5\U{3000}") == "5\U{3000}";
    assert StripEnd("5\U{3000}") == StripEnd("5") == "5";
    ParseDigits("5");
    assert Strip("\U{1C}5") == "\U{1C}5";
    assert !ValidDigits("\U{1C}5");
  }

  /** `int()` of a non-empty run of digits is their decimal value. */
  lemma {:induction false} ParseDigits(s: string)
    requires |s| > 0 && forall i :: 0 <= i < |s| ==> IsDigit(s[i])
    ensures DigitChars(s) && ParseInt(s) == Ok(DigitsValue(s))
  {
    StripDigits(s);
  }

  lemma {:induction false} StripDigits(s: string)
    requires |s| > 0 && forall i :: 0 <= i < |s| ==> IsDigit(s[i])
    ensures Strip(s) == s
  {
  }
}
