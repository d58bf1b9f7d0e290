/**
 * The PHP string behaviour the plugin relies on: `empty()` and truthiness of
 * strings, `trim`, `preg_split('/\r\n|[\r\n]/', ...)`, `strpos(...) !== false`,
 * `substr($s, 0, n)` and the decimal rendering of integers in interpolated
 * strings.
 */
module Text {

  import opened Wrappers

  /** PHP `empty($s)` for a string: only "" and "0" are empty. */
  predicate PhpEmpty(s: string) {
    s == "" || s == "0"
  }

  /** PHP truthiness of an option value read with `get_option` (absent is `false`). */
  predicate Truthy(o: Option<string>) {
    o.Some? && !PhpEmpty(o.value)
  }

  // ---------------------------------------------------------------------------
  // trim()

  /** The characters PHP's `trim` strips by default: " \t\n\r\0\x0B". */
  predicate IsTrimChar(c: char) {
    c == ' ' || c == '\t' || c == '\n' || c == '\r' || c == '\0' || c == '\U{0B}'
  }

  /** `s[i..j]` is `piece`. */
  predicate OccursAt(s: string, piece: string, i: int) {
    0 <= i <= |s| - |piece| && s[i..i + |piece|] == piece
  }

  /** The first index at or after `i` that does not hold a trim character. */
  function SkipLeading(s: string, i: nat): (k: nat)
    requires i <= |s|
    ensures i <= k <= |s|
    ensures forall j :: i <= j < k ==> IsTrimChar(s[j])
    ensures k < |s| ==> !IsTrimChar(s[k])
    decreases |s| - i
  {
    if i == |s| || !IsTrimChar(s[i]) then i else SkipLeading(s, i + 1)
  }

  /** The least end `k >= lo` such that `s[k..j]` is all trim characters. */
  function SkipTrailing(s: string, lo: nat, j: nat): (k: nat)
    requires lo <= j <= |s|
    ensures lo <= k <= j
    ensures forall m :: k <= m < j ==> IsTrimChar(s[m])
    ensures k > lo ==> !IsTrimChar(s[k - 1])
    decreases j
  {
    if j == lo || !IsTrimChar(s[j - 1]) then j else SkipTrailing(s, lo, j - 1)
  }

  /** `trim`: `s` without the trim characters at either end. */
  function Trim(s: string): string {
    var b := SkipLeading(s, 0);
    s[b..SkipTrailing(s, b, |s|)]
  }

  /**
   * `trim` keeps a contiguous piece of `s` that neither starts nor ends with
   * a trim character, and everything before and after that piece is trim
   * characters; it is empty exactly when `s` consists of trim characters
   * only.
   */
  lemma TrimSpec(s: string)
    ensures OccursAt(s, Trim(s), SkipLeading(s, 0))
    ensures var r := Trim(s);
      r == [] || (!IsTrimChar(r[0]) && !IsTrimChar(r[|r| - 1]))
    ensures Trim(s) == [] <==> forall i :: 0 <= i < |s| ==> IsTrimChar(s[i])
    ensures forall j :: 0 <= j < SkipLeading(s, 0) ==> IsTrimChar(s[j])
    ensures forall j :: SkipLeading(s, 0) + |Trim(s)| <= j < |s| ==> IsTrimChar(s[j])
  {
    var b := SkipLeading(s, 0);
    var e := SkipTrailing(s, b, |s|);
    var r := s[b..e];
    if r != [] {
      assert r[0] == s[b] && r[|r| - 1] == s[e - 1];
      assert !IsTrimChar(s[b]);
    } else {
      assert b == e;
    }
  }

  lemma {:induction false} TrimIdempotent(s: string)
    ensures Trim(Trim(s)) == Trim(s)
  {
    var t := Trim(s);
    TrimSpec(s);
    if t != [] {
      assert SkipLeading(t, 0) == 0;
      assert SkipTrailing(t, 0, |t|) == |t|;
    }
  }

  // ---------------------------------------------------------------------------
  // preg_split('/\r\n|[\r\n]/', s)

  predicate IsBreak(c: char) {
    c == '\r' || c == '\n'
  }

  predicate NoBreak(s: string) {
    forall i :: 0 <= i < |s| ==> !IsBreak(s[i])
  }

  /**
   * The pieces of `s` between line separators, where a separator is "\r\n"
   * (taken first, as the leftmost alternative of the pattern), a lone "\r" or a
   * lone "\n". Empty pieces are kept, as `preg_split` keeps them without flags.
   */
  function SplitLines(s: string): (r: seq<string>)
    ensures |r| >= 1
    ensures forall k :: 0 <= k < |r| ==> NoBreak(r[k])
  {
    if s == [] then [""]
    else if s[0] == '\r' && |s| >= 2 && s[1] == '\n' then [""] + SplitLines(s[2..])
    else if IsBreak(s[0]) then [""] + SplitLines(s[1..])
    else
      var rest := SplitLines(s[1..]);
      [[s[0]] + rest[0]] + rest[1..]
  }

  /** `s` with every separator ("\r\n", "\r", "\n") written as a single "\n". */
  function NormalizeBreaks(s: string): (r: string)
    ensures forall i :: 0 <= i < |r| ==> r[i] != '\r'
  {
    if s == [] then ""
    else if s[0] == '\r' && |s| >= 2 && s[1] == '\n' then "\n" + NormalizeBreaks(s[2..])
    else if IsBreak(s[0]) then "\n" + NormalizeBreaks(s[1..])
    else [s[0]] + NormalizeBreaks(s[1..])
  }

  /** The pieces of a split put back together with "\n". */
  function JoinLines(lines: seq<string>): string
    requires |lines| >= 1
  {
    if |lines| == 1 then lines[0] else lines[0] + "\n" + JoinLines(lines[1..])
  }

  /** Splitting loses nothing but the choice of separator. */
  lemma {:induction false} SplitLinesJoin(s: string)
    ensures JoinLines(SplitLines(s)) == NormalizeBreaks(s)
  {
    if s == [] {
    } else if s[0] == '\r' && |s| >= 2 && s[1] == '\n' {
      SplitLinesJoin(s[2..]);
    } else if IsBreak(s[0]) {
      SplitLinesJoin(s[1..]);
    } else {
      var rest := SplitLines(s[1..]);
      SplitLinesJoin(s[1..]);
      var r := [[s[0]] + rest[0]] + rest[1..];
      assert r[1..] == rest[1..];
      if |rest| == 1 {
        assert JoinLines(r) == [s[0]] + rest[0];
      } else {
        assert JoinLines(r) == [s[0]] + rest[0] + "\n" + JoinLines(rest[1..]);
      }
    }
  }

  /** A text without separators is one line. */
  lemma {:induction false} SplitLinesSingle(s: string)
    requires NoBreak(s)
    ensures SplitLines(s) == [s]
  {
    if s != [] {
      assert !IsBreak(s[0]);
      assert NoBreak(s[1..]) by {
        forall i | 0 <= i < |s| - 1 ensures !IsBreak(s[1..][i]) {
          assert s[1..][i] == s[i + 1];
        }
      }
      SplitLinesSingle(s[1..]);
      assert [s[0]] + s[1..] == s;
    }
  }

  /** A line without breaks followed by "\n" is the first piece, and the rest splits on its own. */
  lemma {:induction false} SplitLinesFirst(first: string, rest: string)
    requires NoBreak(first)
    ensures SplitLines(first + "\n" + rest) == [first] + SplitLines(rest)
  {
    var s := first + "\n" + rest;
    if first == [] {
      assert s == "\n" + rest;
      assert s[1..] == rest;
    } else {
      assert !IsBreak(first[0]);
      assert NoBreak(first[1..]) by {
        forall i | 0 <= i < |first| - 1 ensures !IsBreak(first[1..][i]) {
          assert first[1..][i] == first[i + 1];
        }
      }
      SplitLinesFirst(first[1..], rest);
      assert s[0] == first[0];
      assert s[1..] == first[1..] + "\n" + rest;
      assert [first[0]] + first[1..] == first;
    }
  }

  // ---------------------------------------------------------------------------
  // strpos($hay, $needle) !== false, and prefixes

  predicate StartsWith(s: string, prefix: string) {
    |prefix| <= |s| && s[..|prefix|] == prefix
  }

  /** `strpos($hay, $needle) !== false`, searching from the left. */
  predicate Contains(hay: string, needle: string)
    decreases |hay|
  {
    StartsWith(hay, needle) || (hay != [] && Contains(hay[1..], needle))
  }

  /** `Contains` agrees with the definition by an occurrence index. */
  lemma {:induction false} ContainsAt(hay: string, needle: string)
    ensures Contains(hay, needle) <==> exists i :: OccursAt(hay, needle, i)
  {
    if StartsWith(hay, needle) {
      assert OccursAt(hay, needle, 0);
    }
    if hay != [] {
      ContainsAt(hay[1..], needle);
      if Contains(hay[1..], needle) {
        var i :| OccursAt(hay[1..], needle, i);
        assert hay[i + 1..i + 1 + |needle|] == hay[1..][i..i + |needle|];
        assert OccursAt(hay, needle, i + 1);
      }
      if exists i :: OccursAt(hay, needle, i) {
        var i :| OccursAt(hay, needle, i);
        if i > 0 {
          assert hay[1..][i - 1..i - 1 + |needle|] == hay[i..i + |needle|];
          assert OccursAt(hay[1..], needle, i - 1);
        } else {
          assert StartsWith(hay, needle);
        }
      }
    } else {
      if exists i :: OccursAt(hay, needle, i) {
        var i :| OccursAt(hay, needle, i);
        assert StartsWith(hay, needle);
      }
    }
  }

  /** A string occurs in any string built around it. */
  lemma {:induction false} ContainsInfix(a: string, b: string, c: string)
    ensures Contains(a + b + c, b)
  {
    if a == [] {
      assert (a + b + c)[..|b|] == b;
    } else {
      ContainsInfix(a[1..], b, c);
      assert (a + b + c)[1..] == a[1..] + b + c;
    }
  }

  // ---------------------------------------------------------------------------
  // substr($s, 0, n)

  /** `substr($s, 0, n)`: the prefix of `s` of length min(|s|, n). */
  function Truncate(s: string, n: nat): (r: string)
    ensures |r| == (if |s| <= n then |s| else n)
    ensures r == s[..|r|]
  {
    if |s| <= n then s else s[..n]
  }

  // ---------------------------------------------------------------------------
  // Integers in interpolated strings ("Err {$code}", "... / ...")

  function DigitChar(d: nat): char
    requires d < 10
  {
    ('0' as int + d) as char
  }

  function DigitValue(c: char): nat {
    if '0' <= c <= '9' then (c as int - '0' as int) as nat else 0
  }

  /** The decimal digits of `n`, most significant first, without leading zeros. */
  function NatToString(n: nat): (r: string)
    ensures |r| >= 1
    ensures forall i :: 0 <= i < |r| ==> '0' <= r[i] <= '9'
    ensures r[0] == '0' ==> n == 0
  {
    if n < 10 then [DigitChar(n)] else NatToString(n / 10) + [DigitChar(n % 10)]
  }

  /** PHP's rendering of an int: a minus sign for negative values. */
  function IntToString(i: int): (r: string)
    ensures (i < 0) <==> (r != [] && r[0] == '-')
  {
    if i < 0 then "-" + NatToString(-i) else NatToString(i)
  }

  /** Reads a string of decimal digits back. */
  function ParseNat(s: string): nat {
    if s == [] then 0 else ParseNat(s[..|s| - 1]) * 10 + DigitValue(s[|s| - 1])
  }

  lemma {:induction false} ParseNatToString(n: nat)
    ensures ParseNat(NatToString(n)) == n
  {
    var s := NatToString(n);
    if n < 10 {
      assert s[..0] == [];
    } else {
      var q, d := n / 10, n % 10;
      var p := NatToString(q);
      assert s == p + [DigitChar(d)];
      assert s[..|s| - 1] == p;
      ParseNatToString(q);
      assert ParseNat(s) == q * 10 + d;
    }
  }

  /** Distinct codes give distinct messages: the rendering loses nothing. */
  lemma NatToStringInjective(m: nat, n: nat)
    requires NatToString(m) == NatToString(n)
    ensures m == n
  {
    ParseNatToString(m);
    ParseNatToString(n);
  }
}
