/**
  The pieces of Python's string handling that the zone reader relies on:
  str.lstrip/strip/split/find, the regular-expression classes \s and \d,
  and int() applied to a string.  Decimal digits are the ASCII ones.
 */
module Text {
  import opened Results

  /** The characters Python's str.isspace() accepts; str.split(), str.strip(),
      str.lstrip() and the regular-expression class \s all use this set. */
  predicate IsSpace(c: char) {
    || c == ' '
    || '\t' <= c <= '\r'
    || '\U{1C}' <= c <= '\U{1F}'
    || c == '\U{85}' || c == '\U{A0}' || c == '\U{1680}'
    || '\U{2000}' <= c <= '\U{200A}'
    || c == '\U{2028}' || c == '\U{2029}' || c == '\U{202F}' || c == '\U{205F}' || c == '\U{3000}'
  }

  predicate IsDigit(c: char) {
    '0' <= c <= '9'
  }

  predicate AllDigits(s: string) {
    forall i :: 0 <= i < |s| ==> IsDigit(s[i])
  }

  predicate NoSpace(s: string) {
    forall i :: 0 <= i < |s| ==> !IsSpace(s[i])
  }

  /** A string that str.strip() leaves alone. */
  predicate IsStripped(s: string) {
    s == [] || (!IsSpace(s[0]) && !IsSpace(s[|s| - 1]))
  }

  /** str.lstrip(): the suffix of s that starts at its first non-whitespace character. */
  function LStrip(s: string): (r: string)
    ensures |r| <= |s| && r == s[|s| - |r|..]
    ensures r == [] || !IsSpace(r[0])
    ensures forall i :: 0 <= i < |s| - |r| ==> IsSpace(s[i])
  {
    if s != [] && IsSpace(s[0]) then LStrip(s[1..]) else s
  }

  /** str.rstrip(): the prefix of s that ends at its last non-whitespace character. */
  function RStrip(s: string): (r: string)
    ensures |r| <= |s| && r == s[..|r|]
    ensures r == [] || !IsSpace(r[|r| - 1])
    ensures forall i :: |r| <= i < |s| ==> IsSpace(s[i])
  {
    if s != [] && IsSpace(s[|s| - 1]) then RStrip(s[..|s| - 1]) else s
  }

  /** str.strip(). */
  function Strip(s: string): (r: string)
    ensures IsStripped(r) && |r| <= |s|
    ensures IsStripped(s) ==> r == s
  {
    RStrip(LStrip(s))
  }

  /** Stripping only removes characters. */
  lemma StripKeepsOut(s: string, c: char)
    requires c !in s
    ensures c !in Strip(s)
  {
    var l := LStrip(s);
    var r := RStrip(l);
    assert forall i :: 0 <= i < |r| ==> r[i] == s[|s| - |l| + i];
  }

  /** str.find(c): the index of the first occurrence of c in s, or -1. */
  function Find(s: string, c: char): (i: int)
    ensures -1 <= i < |s|
    ensures i == -1 <==> c !in s
    ensures 0 <= i ==> s[i] == c && c !in s[..i]
  {
    if s == [] then -1
    else if s[0] == c then 0
    else
      var j := Find(s[1..], c);
      assert s[1..] == s[1..][..|s| - 1];
      if j == -1 then -1
      else
        assert s[..j + 1] == [s[0]] + s[1..][..j];
        j + 1
  }

  /** The length of the longest prefix of s made of decimal digits (what \d+ consumes). */
  function DigitRun(s: string): (n: nat)
    ensures n <= |s| && AllDigits(s[..n])
    ensures n == |s| || !IsDigit(s[n])
  {
    if s != [] && IsDigit(s[0]) then
      var m := DigitRun(s[1..]);
      assert s[..m + 1] == [s[0]] + s[1..][..m];
      m + 1
    else 0
  }

  /** The length of the longest prefix of s made of whitespace (what \s+ consumes). */
  function SpaceRun(s: string): (n: nat)
    ensures n <= |s| && forall i :: 0 <= i < n ==> IsSpace(s[i])
    ensures n == |s| || !IsSpace(s[n])
  {
    if s != [] && IsSpace(s[0]) then 1 + SpaceRun(s[1..]) else 0
  }

  /** The length of the longest prefix of s without whitespace. */
  function NonSpaceRun(s: string): (n: nat)
    ensures n <= |s| && NoSpace(s[..n])
    ensures n == |s| || IsSpace(s[n])
  {
    if s != [] && !IsSpace(s[0]) then
      var m := NonSpaceRun(s[1..]);
      assert s[..m + 1] == [s[0]] + s[1..][..m];
      m + 1
    else 0
  }

  /** The value of a string of decimal digits ("" is 0). */
  function DigitsValue(s: string): nat
    requires AllDigits(s)
  {
    if s == [] then 0 else 10 * DigitsValue(s[..|s| - 1]) + (s[|s| - 1] as int - '0' as int)
  }

  /** The decimal spelling of n, without leading zeros. */
  function NatToString(n: nat): (s: string)
    ensures s != [] && AllDigits(s) && DigitsValue(s) == n
  {
    var d := ('0' as int + n % 10) as char;
    if n < 10 then
      assert [d][..0] == [];
      [d]
    else
      var p := NatToString(n / 10);
      assert (p + [d])[..|p|] == p;
      p + [d]
  }

  /** The decimal spelling of i, with a '-' when it is negative. */
  function IntToString(i: int): (s: string)
    ensures s != [] && IsStripped(s) && NoSpace(s)
  {
    if i < 0 then "-" + NatToString(-i) else NatToString(i)
  }

  /** Python's int(s) for a string s: surrounding whitespace is ignored, then an
      optional sign and at least one decimal digit must make up the rest. */
  function ParseInt(s: string): Option<int>
  {
    var t := Strip(s);
    if t == [] then None
    else if t[0] == '-' || t[0] == '+' then
      var digits := t[1..];
      if digits != [] && AllDigits(digits) then
        var v: int := DigitsValue(digits);
        Some(if t[0] == '-' then -v else v)
      else None
    else if AllDigits(t) then Some(DigitsValue(t))
    else None
  }

  /** int() reads back every integer that IntToString spells. */
  lemma ParseIntToString(i: int)
    ensures ParseInt(IntToString(i)) == Some(i)
  {
    var s := IntToString(i);
    assert Strip(s) == s;
    if i < 0 {
      assert s[1..] == NatToString(-i);
    }
  }

  /** str.split() with no argument: the maximal runs of non-whitespace characters, in order. */
  function Split(s: string): (words: seq<string>)
    ensures forall i :: 0 <= i < |words| ==> words[i] != [] && NoSpace(words[i])
    decreases |s|
  {
    if s == [] then []
    else if IsSpace(s[0]) then Split(s[1..])
    else
      var n := NonSpaceRun(s);
      [s[..n]] + Split(s[n..])
  }

  /** The words of ws joined by single spaces (" ".join(ws)). */
  function JoinSpace(ws: seq<string>): (r: string)
    ensures ws != [] && ws[0] != [] ==> r != [] && r[0] == ws[0][0]
  {
    if ws == [] then []
    else if |ws| == 1 then ws[0]
    else ws[0] + " " + JoinSpace(ws[1..])
  }

  /** A prefix without whitespace that ends at whitespace (or at the end) is the run. */
  lemma {:induction false} NonSpaceRunIs(s: string, k: nat)
    requires k <= |s| && NoSpace(s[..k])
    requires k == |s| || IsSpace(s[k])
    ensures NonSpaceRun(s) == k
  {
    if k > 0 {
      assert s[1..][..k - 1] == s[..k][1..];
      NonSpaceRunIs(s[1..], k - 1);
    }
  }

  /** A prefix of digits that ends at a non-digit (or at the end) is the digit run. */
  lemma {:induction false} DigitRunIs(s: string, k: nat)
    requires k <= |s| && AllDigits(s[..k])
    requires k == |s| || !IsDigit(s[k])
    ensures DigitRun(s) == k
  {
    if k > 0 {
      assert s[1..][..k - 1] == s[..k][1..];
      DigitRunIs(s[1..], k - 1);
    }
  }

  /** Decimal digits are not whitespace. */
  lemma DigitNotSpace(c: char)
    requires IsDigit(c)
    ensures !IsSpace(c)
  {
  }

  /** Text that starts and ends without whitespace, followed by nothing or by text that ends
      without whitespace, is left alone by str.strip(). */
  lemma StrippedConcat(w: string, t: string)
    requires w != [] && !IsSpace(w[0]) && !IsSpace(w[|w| - 1])
    requires t == [] || !IsSpace(t[|t| - 1])
    ensures w + t != [] && IsStripped(w + t)
  {
    assert (w + t)[0] == w[0];
    if t == [] {
      assert w + t == w;
    } else {
      assert (w + t)[|w + t| - 1] == t[|t| - 1];
    }
  }

  /** A single space before a non-space is a whitespace run of length one. */
  lemma SpaceRunOfOne(x: string)
    requires x == [] || !IsSpace(x[0])
    ensures SpaceRun(" " + x) == 1
  {
    assert (" " + x)[1..] == x;
  }

  /** str.strip() of a single space followed by a stripped, non-empty string. */
  lemma StripAfterSpace(x: string)
    requires x != [] && IsStripped(x)
    ensures Strip(" " + x) == x
  {
    assert (" " + x)[1..] == x;
  }

  /** A word followed by whitespace (or by nothing) is the first word of the split. */
  lemma SplitWord(w: string, rest: string)
    requires w != [] && NoSpace(w)
    requires rest == [] || IsSpace(rest[0])
    ensures Split(w + rest) == [w] + Split(rest)
  {
    var s := w + rest;
    assert s[..|w|] == w && s[|w|..] == rest;
    NonSpaceRunIs(s, |w|);
  }

  /** Leading whitespace does not change the split. */
  lemma SplitSpace(x: string)
    ensures Split(" " + x) == Split(x)
  {
    assert (" " + x)[1..] == x;
  }

  /** Splitting undoes joining, for words that are non-empty and hold no whitespace. */
  lemma {:induction false} SplitJoinSpace(ws: seq<string>)
    requires forall i :: 0 <= i < |ws| ==> ws[i] != [] && NoSpace(ws[i])
    ensures Split(JoinSpace(ws)) == ws
  {
    if ws == [] {
    } else if |ws| == 1 {
      SplitWord(ws[0], []);
      assert ws[0] + [] == ws[0];
    } else {
      var j := JoinSpace(ws[1..]);
      assert JoinSpace(ws) == ws[0] + (" " + j);
      SplitWord(ws[0], " " + j);
      SplitSpace(j);
      SplitJoinSpace(ws[1..]);
    }
  }
}
