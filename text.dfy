/** Character classes and the string operations the scripts use: `str.strip()`,
    the regular expressions `\d+` and `[^\w\s]`, and `float` of a digit string.
    Classes are the ASCII parts of Python's: `\d` is 0-9, `\w` is letters,
    digits and underscore, and whitespace is what `str.isspace()` accepts below 128. */
module Text {
  import opened Common

  predicate IsDigit(c: char) { '0' <= c <= '9' }

  predicate IsSpace(c: char)
  {
    c == ' ' || '\t' <= c <= '\r' || '\U{1C}' <= c <= '\U{1F}'
  }

  predicate IsWordChar(c: char)
  {
    'a' <= c <= 'z' || 'A' <= c <= 'Z' || IsDigit(c) || c == '_'
  }

  predicate AllDigits(s: string) { forall i :: 0 <= i < |s| ==> IsDigit(s[i]) }

  predicate NoDigit(s: string) { forall i :: 0 <= i < |s| ==> !IsDigit(s[i]) }

  /** No whitespace at either end: what `str.strip()` returns. */
  predicate IsTrimmed(s: string)
  {
    s == [] || (!IsSpace(s[0]) && !IsSpace(s[|s| - 1]))
  }

  // ---------------------------------------------------------------- strip

  function TrimLeft(s: string): (r: string)
    ensures |r| <= |s| && r == s[|s| - |r|..]
    ensures r == [] || !IsSpace(r[0])
    ensures forall i :: 0 <= i < |s| - |r| ==> IsSpace(s[i])
  {
    if s != [] && IsSpace(s[0]) then TrimLeft(s[1..]) else s
  }

  function TrimRight(s: string): (r: string)
    ensures r <= s
    ensures r == [] || !IsSpace(r[|r| - 1])
    ensures forall i :: |r| <= i < |s| ==> IsSpace(s[i])
  {
    if s != [] && IsSpace(s[|s| - 1]) then TrimRight(s[..|s| - 1]) else s
  }

  /** `r` is `s` from position `lo` on, with only whitespace cut off before and after it. */
  ghost predicate StripsTo(s: string, r: string, lo: int)
  {
    && 0 <= lo <= |s| - |r|
    && r == s[lo..][..|r|]
    && (forall i :: 0 <= i < lo ==> IsSpace(s[i]))
    && (forall i :: lo + |r| <= i < |s| ==> IsSpace(s[i]))
  }

  /** Python's `str.strip()`: `s` without its leading and trailing whitespace. */
  function Trim(s: string): (r: string)
    ensures IsTrimmed(r)
    ensures exists lo :: StripsTo(s, r, lo)
  {
    TrimBothEnds(s);
    TrimRight(TrimLeft(s))
  }

  lemma TrimBothEnds(s: string)
    ensures StripsTo(s, TrimRight(TrimLeft(s)), |s| - |TrimLeft(s)|)
  {
    var l := TrimLeft(s);
    var r := TrimRight(l);
    var lo := |s| - |l|;
    assert r == s[lo..][..|r|];
    forall i | lo + |r| <= i < |s| ensures IsSpace(s[i]) {
      assert l[i - lo] == s[i];
    }
  }

  lemma SliceOfStrip(s: string, r: string, lo: int)
    requires StripsTo(s, r, lo)
    ensures forall i :: 0 <= i < |r| ==> r[i] == s[lo + i]
  {
  }

  /** Stripping a string that has no whitespace at either end changes nothing. */
  lemma TrimmedIsFixed(s: string)
    requires IsTrimmed(s)
    ensures Trim(s) == s
  {
    assert TrimLeft(s) == s;
    assert TrimRight(s) == s;
  }

  /** `s.strip().strip() == s.strip()`. */
  lemma {:induction false} TrimIdempotent(s: string)
    ensures Trim(Trim(s)) == Trim(s)
  {
    TrimmedIsFixed(Trim(s));
  }

  /** Every character of `s.strip()` is a character of `s` that satisfies whatever all of them do. */
  lemma TrimKeepsClass(s: string, p: char -> bool)
    requires forall i :: 0 <= i < |s| ==> p(s[i])
    ensures forall i :: 0 <= i < |Trim(s)| ==> p(Trim(s)[i])
  {
    var r := Trim(s);
    var lo := |s| - |TrimLeft(s)|;
    TrimBothEnds(s);
    SliceOfStrip(s, r, lo);
    forall i | 0 <= i < |r| ensures p(r[i]) {
      assert r[i] == s[lo + i];
    }
  }

  // ---------------------------------------------------------------- re.sub(r'[^\w\s]', '', s)

  /** Removes every character that is neither a word character nor whitespace. */
  function KeepWordAndSpace(s: string): (r: string)
    ensures forall i :: 0 <= i < |r| ==> IsWordChar(r[i]) || IsSpace(r[i])
    ensures |r| <= |s|
    ensures (forall i :: 0 <= i < |s| ==> IsWordChar(s[i]) || IsSpace(s[i])) ==> r == s
    ensures |s| == 1 && !IsWordChar(s[0]) && !IsSpace(s[0]) ==> r == []
  {
    if s == [] then []
    else if IsWordChar(s[0]) || IsSpace(s[0]) then [s[0]] + KeepWordAndSpace(s[1..])
    else KeepWordAndSpace(s[1..])
  }

  /** The removal works character by character: with the one-character cases
      of `KeepWordAndSpace`'s contract, every kept character stays, in order. */
  lemma {:induction false} KeepWordAndSpaceAppend(a: string, b: string)
    ensures KeepWordAndSpace(a + b) == KeepWordAndSpace(a) + KeepWordAndSpace(b)
  {
    if a == [] {
      assert a + b == b;
    } else {
      assert (a + b)[0] == a[0] && (a + b)[1..] == a[1..] + b;
      KeepWordAndSpaceAppend(a[1..], b);
    }
  }

  // ---------------------------------------------------------------- re.search(r'\d+', s)

  /** The longest prefix of `s` made of digits. */
  function DigitPrefix(s: string): (r: string)
    ensures r <= s && AllDigits(r)
    ensures |r| == |s| || !IsDigit(s[|r|])
  {
    if s != [] && IsDigit(s[0]) then [s[0]] + DigitPrefix(s[1..]) else []
  }

  /** `d` is the first maximal run of digits in `s`, and it starts at position `i`. */
  ghost predicate IsFirstDigitRun(s: string, i: nat, d: string)
  {
    && |d| > 0
    && i + |d| <= |s|
    && s[i..i + |d|] == d
    && AllDigits(d)
    && NoDigit(s[..i])
    && (i + |d| == |s| || !IsDigit(s[i + |d|]))
  }

  /** The first match of `\d+` in `s`, if any. */
  function FirstDigitRun(s: string): (r: Option<string>)
    ensures r.None? <==> NoDigit(s)
    ensures r.Some? ==> exists i: nat :: IsFirstDigitRun(s, i, r.value)
  {
    if s == [] then None
    else if IsDigit(s[0]) then
      var d := DigitPrefix(s);
      assert IsFirstDigitRun(s, 0, d);
      Some(d)
    else
      match FirstDigitRun(s[1..])
      case None => None
      case Some(d) =>
        assert exists i: nat :: IsFirstDigitRun(s, i, d) by {
          var i: nat :| IsFirstDigitRun(s[1..], i, d);
          RunAfterNonDigit(s, i, d);
        }
        Some(d)
  }

  lemma RunAfterNonDigit(s: string, i: nat, d: string)
    requires s != [] && !IsDigit(s[0]) && IsFirstDigitRun(s[1..], i, d)
    ensures IsFirstDigitRun(s, i + 1, d)
  {
    assert s[1..][i..i + |d|] == s[i + 1..i + 1 + |d|];
    var before := s[..i + 1];
    forall k | 0 <= k < |before| ensures !IsDigit(before[k]) {
      if k > 0 {
        assert before[k] == s[1..][..i][k - 1];
      }
    }
  }

  /** There is only one first maximal digit run, so `FirstDigitRun`'s contract determines it. */
  lemma FirstDigitRunUnique(s: string, i: nat, d: string, j: nat, e: string)
    requires IsFirstDigitRun(s, i, d) && IsFirstDigitRun(s, j, e)
    ensures i == j && d == e
  {
    NoDigitBefore(s, i, j);
    NoDigitBefore(s, j, i);
    DigitInRun(s, i, d, j);
    DigitInRun(s, j, e, i);
    DigitInRun(s, i, d, i + |e|);
    DigitInRun(s, j, e, j + |d|);
  }

  /** A position before the start of the first run holds no digit. */
  lemma NoDigitBefore(s: string, i: nat, k: int)
    ensures i <= |s| && NoDigit(s[..i]) && 0 <= k < i ==> !IsDigit(s[k])
  {
    if i <= |s| && 0 <= k < i {
      assert s[..i][k] == s[k];
    }
  }

  /** Every position of a run holds a digit. */
  lemma DigitInRun(s: string, i: nat, d: string, k: int)
    ensures IsFirstDigitRun(s, i, d) && i <= k < i + |d| ==> IsDigit(s[k])
  {
    if IsFirstDigitRun(s, i, d) && i <= k < i + |d| {
      assert s[i..i + |d|][k - i] == s[k];
    }
  }

  /** A non-empty string of digits is its own first digit run. */
  lemma {:induction false} DigitsAreOwnRun(d: string)
    requires |d| > 0 && AllDigits(d)
    ensures FirstDigitRun(d) == Some(d)
  {
    DigitPrefixOfDigits(d);
  }

  lemma {:induction false} DigitPrefixOfDigits(d: string)
    requires AllDigits(d)
    ensures DigitPrefix(d) == d
  {
    if d != [] {
      DigitPrefixOfDigits(d[1..]);
    }
  }

  // ---------------------------------------------------------------- float(digits)

  /** The number a string of decimal digits spells, most significant digit first. */
  function DigitsValue(d: string): (n: nat)
    requires AllDigits(d)
  {
    if d == [] then 0
    else 10 * DigitsValue(d[..|d| - 1]) + ((d[|d| - 1] as int) - ('0' as int))
  }

  /** Leading zeros do not change the value, as `float("007") == 7.0`. */
  lemma {:induction false} LeadingZeroIgnored(d: string)
    requires AllDigits(d)
    ensures DigitsValue("0" + d) == DigitsValue(d)
  {
    if d != [] {
      assert ("0" + d)[..|"0" + d| - 1] == "0" + d[..|d| - 1];
      LeadingZeroIgnored(d[..|d| - 1]);
    }
  }

  /** `df.columns = df.columns.str.strip()`: every header trimmed, cells untouched. */
  function StripNames<C>(cols: seq<Column<C>>): (r: seq<Column<C>>)
    ensures |r| == |cols|
    ensures forall i :: 0 <= i < |r| ==> r[i].name == Trim(cols[i].name) && IsTrimmed(r[i].name) && r[i].cells == cols[i].cells
  {
    seq(|cols|, i requires 0 <= i < |cols| => Column(Trim(cols[i].name), cols[i].cells))
  }

  /** Stripping the headers a second time changes nothing. */
  lemma StripNamesIdempotent<C>(cols: seq<Column<C>>)
    ensures StripNames(StripNames(cols)) == StripNames(cols)
  {
    forall i | 0 <= i < |cols| ensures StripNames(StripNames(cols))[i] == StripNames(cols)[i] {
      TrimIdempotent(cols[i].name);
    }
  }
}
