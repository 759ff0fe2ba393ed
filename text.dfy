/** String helpers that Python and the database give the application for free:
    whitespace stripping (str.strip), case folding for `icontains`, substring
    search, and decimal formatting of counters (f"{n}"). */
module Text {

  /** The characters Python's str.isspace() accepts (those str.strip() removes). */
  const Whitespace: set<char> := {
      9 as char, 10 as char, 11 as char, 12 as char, 13 as char, 28 as char, 29 as char,
      30 as char, 31 as char, 32 as char, 0x85 as char, 0xA0 as char, 0x1680 as char,
      0x2000 as char, 0x2001 as char, 0x2002 as char, 0x2003 as char, 0x2004 as char,
      0x2005 as char, 0x2006 as char, 0x2007 as char, 0x2008 as char, 0x2009 as char,
      0x200A as char, 0x2028 as char, 0x2029 as char, 0x202F as char, 0x205F as char,
      0x3000 as char
  }

  predicate IsSpace(c: char)
  {
    c in Whitespace
  }

  predicate AllSpace(s: string)
  {
    forall k :: 0 <= k < |s| ==> IsSpace(s[k])
  }

  /** The position of the first non-whitespace character of s at or after i,
      or |s| when there is none. */
  function SkipSpaces(s: string, i: nat): (k: nat)
    requires i <= |s|
    ensures i <= k <= |s|
    ensures forall m :: i <= m < k ==> IsSpace(s[m])
    ensures k < |s| ==> !IsSpace(s[k])
    decreases |s| - i
  {
    if i < |s| && IsSpace(s[i]) then SkipSpaces(s, i + 1) else i
  }

  /** The end of s[lo..j] once its trailing whitespace is dropped. */
  function TrimEnd(s: string, lo: nat, j: nat): (k: nat)
    requires lo <= j <= |s|
    ensures lo <= k <= j
    ensures forall m :: k <= m < j ==> IsSpace(s[m])
    ensures lo < k ==> !IsSpace(s[k - 1])
  {
    if lo < j && IsSpace(s[j - 1]) then TrimEnd(s, lo, j - 1) else j
  }

  /** str.strip(): s without its leading and trailing whitespace. s is the
      stripped text, starting at SkipSpaces(s, 0), with only whitespace
      before and after it. */
  function Strip(s: string): (r: string)
    ensures |r| <= |s|
    ensures r == [] <==> AllSpace(s)
    ensures r != [] ==> !IsSpace(r[0]) && !IsSpace(r[|r| - 1])
    ensures var k := SkipSpaces(s, 0);
      && k + |r| <= |s|
      && (forall m :: 0 <= m < |r| ==> r[m] == s[k + m])
      && (forall m :: 0 <= m < k ==> IsSpace(s[m]))
      && (forall m :: k + |r| <= m < |s| ==> IsSpace(s[m]))
  {
    var i := SkipSpaces(s, 0);
    var j := TrimEnd(s, i, |s|);
    s[i..j]
  }

  /** Strip leaves a string that has no surrounding whitespace unchanged. */
  lemma StripNoSurroundingSpace(s: string)
    requires s != [] ==> !IsSpace(s[0]) && !IsSpace(s[|s| - 1])
    ensures Strip(s) == s
  {
    if s != [] {
      assert SkipSpaces(s, 0) == 0;
      assert TrimEnd(s, 0, |s|) == |s|;
    }
  }

  /** str.lstrip(): s from its first non-whitespace character on. */
  function LStrip(s: string): (r: string)
    ensures |r| <= |s| && r == s[|s| - |r|..]
    ensures forall m :: 0 <= m < |s| - |r| ==> IsSpace(s[m])
    ensures r != [] ==> !IsSpace(r[0])
  {
    s[SkipSpaces(s, 0)..]
  }

  /** str.rstrip(): s up to its last non-whitespace character. */
  function RStrip(s: string): (r: string)
    ensures |r| <= |s| && r == s[..|r|]
    ensures forall m :: |r| <= m < |s| ==> IsSpace(s[m])
    ensures r != [] ==> !IsSpace(r[|r| - 1])
  {
    s[..TrimEnd(s, 0, |s|)]
  }

  /** SkipSpaces is the only position with its contract. */
  lemma SkipSpacesUnique(s: string, i: nat, k: nat)
    requires i <= k <= |s|
    requires forall m :: i <= m < k ==> IsSpace(s[m])
    requires k < |s| ==> !IsSpace(s[k])
    ensures SkipSpaces(s, i) == k
  {
  }

  /** TrimEnd is the only position with its contract. */
  lemma TrimEndUnique(s: string, lo: nat, j: nat, k: nat)
    requires lo <= k <= j <= |s|
    requires forall m :: k <= m < j ==> IsSpace(s[m])
    requires lo < k ==> !IsSpace(s[k - 1])
    ensures TrimEnd(s, lo, j) == k
  {
  }

  /** A text that is not all whitespace has a non-whitespace first character
      after SkipSpaces. */
  lemma SkipSpacesFinds(s: string)
    requires !AllSpace(s)
    ensures SkipSpaces(s, 0) < |s|
  {
    assert SkipSpaces(s, 0) == |s| ==> AllSpace(s);
  }

  /** A text that is not all whitespace keeps at least one character under RStrip. */
  lemma RStripKeeps(s: string)
    requires !AllSpace(s)
    ensures RStrip(s) != []
  {
    assert RStrip(s) == [] ==> AllSpace(s);
  }

  /** Text after a prefix that is not all whitespace does not move SkipSpaces. */
  lemma SkipSpacesPrefix(a: string, t: string)
    requires !AllSpace(a)
    ensures SkipSpaces(a + t, 0) == SkipSpaces(a, 0)
  {
    var s, i := a + t, SkipSpaces(a, 0);
    SkipSpacesFinds(a);
    assert forall m :: 0 <= m <= i ==> s[m] == a[m];
    SkipSpacesUnique(s, 0, i);
  }

  /** After an all-whitespace prefix, SkipSpaces continues in the rest. */
  lemma SkipSpacesAfterBlank(p: string, b: string)
    requires AllSpace(p)
    ensures SkipSpaces(p + b, 0) == |p| + SkipSpaces(b, 0)
  {
    var s, i := p + b, SkipSpaces(b, 0);
    assert forall m :: 0 <= m < |p| ==> s[m] == p[m];
    assert forall m :: |p| <= m < |s| ==> s[m] == b[m - |p|];
    SkipSpacesUnique(s, 0, |p| + i);
  }

  /** An all-whitespace tail does not move TrimEnd. */
  lemma TrimEndBlankTail(a: string, t: string, lo: nat)
    requires lo <= |a| && AllSpace(t)
    ensures TrimEnd(a + t, lo, |a + t|) == TrimEnd(a, lo, |a|)
  {
    var s, k := a + t, TrimEnd(a, lo, |a|);
    assert forall m :: 0 <= m < |a| ==> s[m] == a[m];
    assert forall m :: |a| <= m < |s| ==> s[m] == t[m - |a|];
    TrimEndUnique(s, lo, |s|, k);
  }

  /** TrimEnd over p + b ends where it ends in b, shifted by |p|, once b keeps
      a character. */
  lemma TrimEndInSuffix(p: string, b: string, lo: nat, blo: nat)
    requires lo <= |p| + blo && blo <= |b| && blo < TrimEnd(b, blo, |b|)
    ensures TrimEnd(p + b, lo, |p| + |b|) == |p| + TrimEnd(b, blo, |b|)
  {
    var s, k := p + b, TrimEnd(b, blo, |b|);
    assert forall m :: |p| <= m < |s| ==> s[m] == b[m - |p|];
    TrimEndUnique(s, lo, |s|, |p| + k);
  }

  lemma AllSpaceJoinSpace(a: string, b: string)
    requires AllSpace(a) && AllSpace(b)
    ensures AllSpace(a + " ") && AllSpace(" " + b)
  {
    assert forall m :: 0 <= m < |a| ==> (a + " ")[m] == a[m];
    assert forall m :: 0 < m <= |b| ==> (" " + b)[m] == b[m - 1];
  }

  /** Strip is the slice between SkipSpaces and TrimEnd. */
  lemma StripIsSlice(s: string, i: nat, j: nat)
    requires i <= |s| && SkipSpaces(s, 0) == i && j == TrimEnd(s, i, |s|)
    ensures Strip(s) == s[i..j]
  {
  }

  lemma SliceOfPrefix(a: string, t: string, lo: nat, hi: nat)
    requires lo <= hi <= |a|
    ensures (a + t)[lo..hi] == a[lo..hi]
  {
  }

  lemma SliceOfSuffix(p: string, b: string, lo: nat, hi: nat)
    requires lo <= hi <= |b|
    ensures (p + b)[|p| + lo..|p| + hi] == b[lo..hi]
  {
  }

  lemma SliceAcrossJoin(a: string, b: string, i: nat, j: nat)
    requires i <= |a| && j <= |b|
    ensures (a + " " + b)[i..|a| + 1 + j] == a[i..] + " " + b[..j]
  {
  }

  /** Stripping `a + " " + b` when b is blank strips a alone. */
  lemma StripJoinBlankRight(a: string, b: string)
    requires !AllSpace(a) && AllSpace(b)
    ensures Strip(a + " " + b) == Strip(a)
  {
    var t := " " + b;
    assert a + " " + b == a + t;
    AllSpaceJoinSpace([], b);
    SkipSpacesPrefix(a, t);
    var i := SkipSpaces(a, 0);
    TrimEndBlankTail(a, t, i);
    var j := TrimEnd(a, i, |a|);
    StripIsSlice(a + t, i, j);
    StripIsSlice(a, i, j);
    SliceOfPrefix(a, t, i, j);
  }

  /** Stripping `a + " " + b` when a is blank strips b alone. */
  lemma StripJoinBlankLeft(a: string, b: string)
    requires AllSpace(a) && !AllSpace(b)
    ensures Strip(a + " " + b) == Strip(b)
  {
    var p := a + " ";
    AllSpaceJoinSpace(a, []);
    SkipSpacesAfterBlank(p, b);
    var i := SkipSpaces(b, 0);
    SkipSpacesFinds(b);
    TrimEndInSuffix(p, b, |p| + i, i);
    var j := TrimEnd(b, i, |b|);
    assert Strip(p + b) == Strip(b) by {
      StripIsSlice(p + b, |p| + i, |p| + j);
      StripIsSlice(b, i, j);
      SliceOfSuffix(p, b, i, j);
    }
  }

  /** Stripping `a + " " + b` when neither is blank: a without its leading
      whitespace, the space, and b without its trailing whitespace. */
  lemma StripJoinBoth(a: string, b: string)
    requires !AllSpace(a) && !AllSpace(b)
    ensures Strip(a + " " + b) == LStrip(a) + " " + RStrip(b)
  {
    var p := a + " ";
    SkipSpacesPrefix(a, " " + b);
    assert a + (" " + b) == p + b;
    var i := SkipSpaces(a, 0);
    SkipSpacesFinds(a);
    RStripKeeps(b);
    TrimEndInSuffix(p, b, i, 0);
    var j := TrimEnd(b, 0, |b|);
    StripIsSlice(p + b, i, |p| + j);
    SliceAcrossJoin(a, b, i, j);
  }

  /** ASCII case folding, as SQLite's LIKE behind Django's `icontains` does it. */
  function LowerChar(c: char): (r: char)
    ensures 'A' <= c <= 'Z' ==> r as int == c as int + 32
    ensures !('A' <= c <= 'Z') ==> r == c
  {
    if 'A' <= c <= 'Z' then (c as int + 32) as char else c
  }

  function Lower(s: string): (r: string)
    ensures |r| == |s|
    ensures forall k :: 0 <= k < |s| ==> r[k] == LowerChar(s[k])
  {
    seq(|s|, k requires 0 <= k < |s| => LowerChar(s[k]))
  }

  /** sub occurs in s at position i. */
  predicate OccursAt(s: string, sub: string, i: int)
  {
    0 <= i <= |s| - |sub| && s[i..i + |sub|] == sub
  }

  /** Python's `sub in s`. */
  predicate Contains(s: string, sub: string)
  {
    exists i | 0 <= i <= |s| - |sub| :: OccursAt(s, sub, i)
  }

  /** Django's `field__icontains=q`: case-insensitive substring test. */
  predicate IContains(s: string, q: string)
  {
    Contains(Lower(s), Lower(q))
  }

  lemma EmptyOccursEverywhere(s: string)
    ensures IContains(s, "")
  {
    assert OccursAt(Lower(s), Lower(""), 0);
  }

  // ---------- decimal formatting ----------

  function DigitChar(d: nat): (c: char)
    requires d < 10
    ensures '0' <= c <= '9'
    ensures c as int - '0' as int == d
  {
    ('0' as int + d) as char
  }

  predicate IsDigit(c: char)
  {
    '0' <= c <= '9'
  }

  /** f"{n}" for a natural number n: its decimal digits, most significant first. */
  function NatStr(n: nat): (r: string)
    ensures |r| >= 1
    ensures forall k :: 0 <= k < |r| ==> IsDigit(r[k])
  {
    if n < 10 then [DigitChar(n)] else NatStr(n / 10) + [DigitChar(n % 10)]
  }

  /** The value of a string of decimal digits. */
  function ParseNat(s: string): nat
    requires forall k :: 0 <= k < |s| ==> IsDigit(s[k])
  {
    if s == [] then 0
    else
      var c := s[|s| - 1];
      assert IsDigit(c);
      var d := c as int - '0' as int;
      assert '0' as int <= c as int <= '9' as int;
      10 * ParseNat(s[..|s| - 1]) + d
  }

  /** Decimal formatting can be read back: ParseNat undoes NatStr. */
  lemma {:induction false} ParseNatStr(n: nat)
    ensures ParseNat(NatStr(n)) == n
  {
    if n >= 10 {
      var s := NatStr(n);
      assert s[..|s| - 1] == NatStr(n / 10);
      ParseNatStr(n / 10);
    }
  }

  /** Distinct numbers are formatted as distinct strings. */
  lemma NatStrInjective(a: nat, b: nat)
    requires NatStr(a) == NatStr(b)
    ensures a == b
  {
    ParseNatStr(a);
    ParseNatStr(b);
  }
}
