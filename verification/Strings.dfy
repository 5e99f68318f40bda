/** The functions of Go's strings package that the gateways use, on byte strings (one char
    stands for one byte). */
module Strings {

  type Text = seq<char>

  ghost predicate MatchAt(s: Text, pat: Text, i: int) {
    0 <= i <= |s| - |pat| && s[i..i + |pat|] == pat
  }

  // strings.Index: the first match, or -1.
  function Index(s: Text, pat: Text): (r: int)
    requires pat != []
    ensures r >= 0 ==> MatchAt(s, pat, r)
    ensures r >= -1 && forall i :: MatchAt(s, pat, i) ==> 0 <= r <= i
  {
    if |s| < |pat| then -1
    else if pat <= s then
      assert s[0..0 + |pat|] == pat;
      0
    else
      var r := Index(s[1..], pat);
      IndexShift(s, pat, r);
      if r < 0 then -1 else r + 1
  }

  lemma IndexShift(s: Text, pat: Text, r: int)
    requires 0 < |pat| <= |s| && !(pat <= s)
    requires r >= -1 && forall i :: MatchAt(s[1..], pat, i) ==> 0 <= r <= i
    requires r >= 0 ==> MatchAt(s[1..], pat, r)
    ensures r >= 0 ==> MatchAt(s, pat, r + 1)
    ensures forall i :: MatchAt(s, pat, i) ==> 0 <= r < i
  {
    if r >= 0 {
      assert s[r + 1..r + 1 + |pat|] == s[1..][r..r + |pat|];
    }
    forall i | MatchAt(s, pat, i) ensures 0 <= r < i {
      if i > 0 {
        assert s[1..][i - 1..i - 1 + |pat|] == s[i..i + |pat|];
        assert MatchAt(s[1..], pat, i - 1);
      }
    }
  }

  // strings.LastIndex: the last match, or -1.
  function LastIndex(s: Text, pat: Text): (r: int)
    requires pat != []
    ensures r >= 0 ==> MatchAt(s, pat, r)
    ensures r >= -1 && forall i :: MatchAt(s, pat, i) ==> i <= r
  {
    if |s| < |pat| then -1
    else if s[|s| - |pat|..] == pat then
      assert s[|s| - |pat|..|s| - |pat| + |pat|] == pat;
      |s| - |pat|
    else
      DropLastMatches(s, pat);
      LastIndex(s[..|s| - 1], pat)
  }

  lemma DropLastMatches(s: Text, pat: Text)
    requires 0 < |pat| <= |s| && s[|s| - |pat|..] != pat
    ensures forall i :: MatchAt(s, pat, i) <==> MatchAt(s[..|s| - 1], pat, i)
  {
    var t := s[..|s| - 1];
    forall i ensures MatchAt(s, pat, i) <==> MatchAt(t, pat, i) {
      if 0 <= i <= |t| - |pat| {
        assert t[i..i + |pat|] == s[i..i + |pat|];
      } else if i == |s| - |pat| {
        assert s[i..i + |pat|] == s[i..];
      }
    }
  }

  predicate IsSpace(c: char) {
    c in {' ', '\t', '\n', '\r', '\U{0B}', '\U{0C}'}
  }

  function TrimLeft(s: Text): (r: Text)
    ensures |r| <= |s| && r == s[|s| - |r|..]
    ensures r != [] ==> !IsSpace(r[0])
  {
    if s != [] && IsSpace(s[0]) then TrimLeft(s[1..]) else s
  }

  function TrimRight(s: Text): (r: Text)
    ensures r <= s
    ensures r != [] ==> !IsSpace(r[|r| - 1])
  {
    if s != [] && IsSpace(s[|s| - 1]) then TrimRight(s[..|s| - 1]) else s
  }

  // strings.TrimSpace, for ASCII white space.
  function TrimSpace(s: Text): Text {
    TrimRight(TrimLeft(s))
  }

  // The result is a contiguous part of the argument.
  lemma TrimSpacePart(s: Text) returns (i: nat, j: nat)
    ensures i <= j <= |s| && TrimSpace(s) == s[i..j]
  {
    var left := TrimLeft(s);
    i := |s| - |left|;
    j := i + |TrimSpace(s)|;
    assert TrimSpace(s) == left[..|TrimSpace(s)|];
    assert left[..|TrimSpace(s)|] == s[i..j];
  }

  lemma {:induction false} TrimLeftDrops(s: Text)
    ensures forall k :: 0 <= k < |s| - |TrimLeft(s)| ==> IsSpace(s[k])
    decreases |s|
  {
    if s != [] && IsSpace(s[0]) {
      TrimLeftDrops(s[1..]);
      forall k | 0 <= k < |s| - |TrimLeft(s)| ensures IsSpace(s[k]) {
        assert k > 0 ==> s[k] == s[1..][k - 1];
      }
    }
  }

  lemma {:induction false} TrimRightDrops(s: Text)
    ensures forall k :: |TrimRight(s)| <= k < |s| ==> IsSpace(s[k])
    decreases |s|
  {
    if s != [] && IsSpace(s[|s| - 1]) {
      TrimRightDrops(s[..|s| - 1]);
    }
  }

  /** Trimming drops white space at both ends and nothing else, and leaves none at the ends. */
  lemma TrimSpaceExactly(s: Text) returns (i: nat, j: nat)
    ensures i <= j <= |s| && TrimSpace(s) == s[i..j]
    ensures forall k :: 0 <= k < i || j <= k < |s| ==> IsSpace(s[k])
    ensures i < j ==> !IsSpace(s[i]) && !IsSpace(s[j - 1])
  {
    hide IsSpace;
    hide TrimLeft;
    hide TrimRight;
    var left := TrimLeft(s);
    TrimLeftDrops(s);
    TrimRightDrops(left);
    i := |s| - |left|;
    j := i + |TrimSpace(s)|;
    assert left == s[i..];
    assert TrimSpace(s) == left[..|TrimSpace(s)|];
    SliceOfSlice(s, i, |s|, 0, j - i);
    assert left[..j - i] == s[i..|s|][0..j - i];
    forall k | j <= k < |s| ensures IsSpace(s[k]) {
      assert s[k] == left[k - i];
    }
    if i < j {
      assert s[i] == left[0] && s[j - 1] == TrimSpace(s)[|TrimSpace(s)| - 1];
    }
  }

  // A part of a text without the pattern does not contain the pattern.
  ghost predicate Without(s: Text, pat: Text) {
    forall i :: !MatchAt(s, pat, i)
  }

  lemma PartWithout(s: Text, pat: Text, i: nat, j: nat)
    requires Without(s, pat) && i <= j <= |s|
    ensures Without(s[i..j], pat)
  {
    var t := s[i..j];
    forall k ensures !MatchAt(t, pat, k) {
      if 0 <= k <= |t| - |pat| {
        SliceOfSlice(s, i, j, k, |pat|);
        assert !MatchAt(s, pat, i + k);
      }
    }
  }

  lemma SliceOfSlice(s: Text, i: nat, j: nat, k: nat, m: nat)
    requires i <= j <= |s| && k + m <= j - i
    ensures s[i..j][k..k + m] == s[i + k..i + k + m]
  {
    var t := s[i..j];
    var a, b := t[k..k + m], s[i + k..i + k + m];
    forall x | 0 <= x < m ensures a[x] == b[x] {
      assert a[x] == t[k + x] == s[i + (k + x)];
    }
  }
}
