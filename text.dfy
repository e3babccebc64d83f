/**
 * String operations the commands rely on: `str::split_once`, `str::replace`,
 * the last occurrence of a character, and the decimal rendering behind
 * `format!("{:6}", n)`.
 */
module Text {
  import opened Wrappers

  /** Index of the first occurrence of `c` in `s`. */
  function FirstIndex(s: string, c: char): (r: Option<nat>)
    ensures r.None? <==> c !in s
    ensures r.Some? ==> r.value < |s| && s[r.value] == c && c !in s[..r.value]
  {
    if |s| == 0 then None
    else if s[0] == c then Some(0)
    else match FirstIndex(s[1..], c)
      case None => None
      case Some(i) =>
        assert s[1..][..i] == s[1..i + 1];
        Some(i + 1)
  }

  /** Index of the last occurrence of `c` in `s`. */
  function LastIndex(s: string, c: char): (r: Option<nat>)
    ensures r.None? <==> c !in s
    ensures r.Some? ==> r.value < |s| && s[r.value] == c && c !in s[r.value + 1..]
  {
    if |s| == 0 then None
    else if s[|s| - 1] == c then Some(|s| - 1)
    else
      assert s == s[..|s| - 1] + [s[|s| - 1]];
      LastIndex(s[..|s| - 1], c)
  }

  /** `s.split_once(c)`: the text before and after the first `c`, or nothing when `c` is absent. */
  function SplitOnce(s: string, c: char): (r: Option<(string, string)>)
    ensures r.None? <==> c !in s
    ensures r.Some? ==> s == r.value.0 + [c] + r.value.1 && c !in r.value.0
  {
    match FirstIndex(s, c)
    case None => None
    case Some(i) =>
      assert s == s[..i] + [c] + s[i + 1..];
      Some((s[..i], s[i + 1..]))
  }

  /** Splitting a joined pair at its separator gives the pair back, when the left part has no separator. */
  lemma SplitOnceJoin(a: string, c: char, b: string)
    requires c !in a
    ensures SplitOnce(a + [c] + b, c) == Some((a, b))
  {
    var s := a + [c] + b;
    assert c in s by { assert s[|a|] == c; }
    assert forall j :: 0 <= j < |a| ==> s[j] == a[j] != c;
    var i := FirstIndex(s, c).value;
    assert s[|a|] == c;
    assert c !in s[..i];
    assert i == |a|;
    var r := SplitOnce(s, c).value;
    assert r.0 == s[..|a|] == a;
    assert r.1 == s[|a| + 1..] == b;
  }

  /** `s` begins with `p`. */
  predicate StartsWith(s: string, p: string)
  {
    |p| <= |s| && s[..|p|] == p
  }

  /** `p` occurs somewhere in `s`. */
  predicate Occurs(s: string, p: string)
    decreases |s|
  {
    StartsWith(s, p) || (|s| > 0 && Occurs(s[1..], p))
  }

  /**
   * `s.replace(pat, rep)`: every non-overlapping occurrence of `pat`, scanned
   * from the left, is replaced by `rep`.
   */
  function Replace(s: string, pat: string, rep: string): string
    requires |pat| > 0
    decreases |s|
  {
    if |s| < |pat| then s
    else if s[..|pat|] == pat then rep + Replace(s[|pat|..], pat, rep)
    else [s[0]] + Replace(s[1..], pat, rep)
  }

  /** A string holding no occurrence of the pattern is left unchanged. */
  lemma {:induction false} ReplaceAbsent(s: string, pat: string, rep: string)
    requires |pat| > 0 && !Occurs(s, pat)
    ensures Replace(s, pat, rep) == s
    decreases |s|
  {
    if |s| >= |pat| {
      assert !StartsWith(s, pat);
      ReplaceAbsent(s[1..], pat, rep);
      assert s == [s[0]] + s[1..];
    }
  }

  /** A pattern cannot occur in a string that lacks one of its characters. */
  lemma {:induction false} MissingCharExcludes(s: string, pat: string, k: nat)
    requires k < |pat| && pat[k] !in s
    ensures !Occurs(s, pat)
    decreases |s|
  {
    if |pat| <= |s| {
      assert s[..|pat|][k] == s[k] != pat[k];
    }
    if |s| > 0 {
      assert forall x :: x in s[1..] ==> x in s;
      MissingCharExcludes(s[1..], pat, k);
    }
  }

  /** A leading part free of the pattern's first character passes through unchanged. */
  lemma {:induction false} ReplaceFreePrefix(s: string, t: string, pat: string, rep: string)
    requires |pat| > 0 && pat[0] !in s
    ensures Replace(s + t, pat, rep) == s + Replace(t, pat, rep)
    decreases |s|
  {
    if |s| > 0 {
      var u := s + t;
      assert u[0] == s[0] != pat[0];
      if |u| >= |pat| {
        assert u[..|pat|][0] == u[0];
      }
      assert u[1..] == s[1..] + t;
      assert forall x :: x in s[1..] ==> x in s;
      ReplaceFreePrefix(s[1..], t, pat, rep);
    } else {
      assert s + t == t;
    }
  }

  /** An occurrence at the very start is replaced. */
  lemma ReplaceLeading(t: string, pat: string, rep: string)
    requires |pat| > 0
    ensures Replace(pat + t, pat, rep) == rep + Replace(t, pat, rep)
  {
    assert (pat + t)[..|pat|] == pat;
    assert (pat + t)[|pat|..] == t;
  }

  /** The character for a decimal digit. */
  function DigitChar(d: nat): char
    requires d < 10
  {
    ['0', '1', '2', '3', '4', '5', '6', '7', '8', '9'][d]
  }

  /** The value of a decimal digit character; other characters read as zero. */
  function DigitValue(c: char): nat
  {
    if '0' <= c <= '9' then (c as int - '0' as int) else 0
  }

  /** `n` written in decimal without leading zeros, as `{}` formats an unsigned integer. */
  function Decimal(n: nat): (r: string)
    ensures |r| > 0
    ensures forall i :: 0 <= i < |r| ==> '0' <= r[i] <= '9'
    decreases n
  {
    if n < 10 then [DigitChar(n)] else Decimal(n / 10) + [DigitChar(n % 10)]
  }

  /** Reads a string of decimal digits back into a number. */
  function ParseDecimal(s: string): nat
  {
    if |s| == 0 then 0 else ParseDecimal(s[..|s| - 1]) * 10 + DigitValue(s[|s| - 1])
  }

  /** The decimal rendering is faithful: reading it back gives the number. */
  lemma {:induction false} DecimalRoundTrip(n: nat)
    ensures ParseDecimal(Decimal(n)) == n
    decreases n
  {
    if n < 10 {
      assert DigitValue(DigitChar(n)) == n;
    } else {
      var s := Decimal(n);
      assert s[..|s| - 1] == Decimal(n / 10);
      assert DigitValue(DigitChar(n % 10)) == n % 10;
      DecimalRoundTrip(n / 10);
    }
  }

  /** `format!("{:w}", s)` for a number: right-aligned in a field of at least `w` characters. */
  function PadLeft(s: string, w: nat): (r: string)
    ensures |r| == if |s| < w then w else |s|
    ensures r[|r| - |s|..] == s
    ensures forall i :: 0 <= i < |r| - |s| ==> r[i] == ' '
  {
    if |s| < w then seq(w - |s|, _ => ' ') + s else s
  }

  /** `str::trim_start` restricted to spaces: the leading spaces removed. */
  function TrimStart(s: string): (r: string)
    ensures |r| <= |s| && r == s[|s| - |r|..]
    ensures |r| == 0 || r[0] != ' '
  {
    if |s| > 0 && s[0] == ' ' then TrimStart(s[1..]) else s
  }

  /** Trimming takes off exactly a run of leading spaces. */
  lemma {:induction false} TrimSpaces(k: nat, s: string)
    requires |s| == 0 || s[0] != ' '
    ensures TrimStart(seq(k, _ => ' ') + s) == s
  {
    if k > 0 {
      var padded := seq(k, _ => ' ') + s;
      assert padded[1..] == seq(k - 1, _ => ' ') + s;
      TrimSpaces(k - 1, s);
    }
  }

  /** A number right-aligned in any field width reads back as itself once trimmed. */
  lemma PaddedNumberReads(n: nat, w: nat)
    ensures ParseDecimal(TrimStart(PadLeft(Decimal(n), w))) == n
  {
    var d := Decimal(n);
    assert '0' <= d[0] <= '9';
    if |d| < w {
      assert PadLeft(d, w) == seq(w - |d|, _ => ' ') + d;
      TrimSpaces(w - |d|, d);
    } else {
      assert PadLeft(d, w) == d;
      assert TrimStart(d) == d;
    }
    DecimalRoundTrip(n);
  }
}
