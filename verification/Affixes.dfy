/** Common prefixes and suffixes of two texts, and cutting a third text at the first or last place
    where they occur. */
module Affixes {
  import opened Wrappers
  import opened Segmentation

  function FromEnd(s: string, i: int): char
    requires 0 <= i < |s|
  {
    s[|s| - 1 - i]
  }

  predicate StartAlike(l: string, r: string, n: int) {
    0 <= n <= |l| && n <= |r| && forall i :: 0 <= i < n ==> l[i] == r[i]
  }

  predicate EndAlike(l: string, r: string, n: int) {
    0 <= n <= |l| && n <= |r| && forall i :: 0 <= i < n ==> FromEnd(l, i) == FromEnd(r, i)
  }

  predicate PrefixStops(l: string, r: string, n: int) {
    StartAlike(l, r, n) && (n == |l| || n == |r| || l[n] != r[n])
  }

  predicate SuffixStops(l: string, r: string, n: int) {
    EndAlike(l, r, n) && (n == |l| || n == |r| || FromEnd(l, n) != FromEnd(r, n))
  }

  /** How many characters l and r share from position n on. */
  function CommonPrefixFrom(l: string, r: string, n: nat): (m: nat)
    requires StartAlike(l, r, n)
    ensures PrefixStops(l, r, m)
    decreases |l| - n
  {
    if n == |l| || n == |r| || l[n] != r[n] then n else CommonPrefixFrom(l, r, n + 1)
  }

  function CommonPrefix(l: string, r: string): (n: nat)
    ensures PrefixStops(l, r, n)
  {
    CommonPrefixFrom(l, r, 0)
  }

  function CommonSuffixFrom(l: string, r: string, n: nat): (m: nat)
    requires EndAlike(l, r, n)
    ensures SuffixStops(l, r, m)
    decreases |l| - n
  {
    if n == |l| || n == |r| || FromEnd(l, n) != FromEnd(r, n) then n
    else CommonSuffixFrom(l, r, n + 1)
  }

  function CommonSuffix(l: string, r: string): (n: nat)
    ensures SuffixStops(l, r, n)
  {
    CommonSuffixFrom(l, r, 0)
  }

  /** No other length stops the common prefix. */
  lemma CommonPrefixIs(l: string, r: string, n: nat)
    requires PrefixStops(l, r, n)
    ensures CommonPrefix(l, r) == n
  {
    hide CommonPrefix;
  }

  lemma CommonSuffixIs(l: string, r: string, n: nat)
    requires SuffixStops(l, r, n)
    ensures CommonSuffix(l, r) == n
  {
    hide CommonSuffix, FromEnd;
  }

  lemma SharedEnd(l: string, r: string, n: nat)
    requires EndAlike(l, r, n)
    ensures l[|l| - n..] == r[|r| - n..]
  {
    var a, b := l[|l| - n..], r[|r| - n..];
    forall k | 0 <= k < n ensures a[k] == b[k] {
      assert FromEnd(l, n - 1 - k) == FromEnd(r, n - 1 - k);
    }
  }

  method CommonPrefixLen(left: string, right: string) returns (prefixLen: nat)
    ensures prefixLen == CommonPrefix(left, right) && prefixLen <= |left| && prefixLen <= |right|
  {
    prefixLen := 0;
    var minLen := if |left| < |right| then |left| else |right|;
    while prefixLen < minLen && left[prefixLen] == right[prefixLen]
      invariant prefixLen <= minLen && StartAlike(left, right, prefixLen)
    {
      prefixLen := prefixLen + 1;
    }
    CommonPrefixIs(left, right, prefixLen);
  }

  method CommonSuffixLen(left: string, right: string) returns (suffixLen: nat)
    ensures suffixLen == CommonSuffix(left, right) && suffixLen <= |left| && suffixLen <= |right|
  {
    suffixLen := 0;
    var minLen := if |left| < |right| then |left| else |right|;
    while suffixLen < minLen && left[|left| - 1 - suffixLen] == right[|right| - 1 - suffixLen]
      invariant suffixLen <= minLen && EndAlike(left, right, suffixLen)
    {
      suffixLen := suffixLen + 1;
    }
    CommonSuffixIs(left, right, suffixLen);
  }

  predicate OccursAt(s: string, p: string, i: int) {
    0 <= i && i + |p| <= |s| && s[i..i + |p|] == p
  }

  /** The first place from n on where p occurs in s. */
  function FindFrom(s: string, p: string, n: nat): (r: Option<nat>)
    requires forall i :: i < n ==> !OccursAt(s, p, i)
    ensures match r
            case None => forall i :: !OccursAt(s, p, i)
            case Some(m) => OccursAt(s, p, m) && forall i :: i < m ==> !OccursAt(s, p, i)
    decreases |s| - n
  {
    if OccursAt(s, p, n) then Some(n)
    else if n >= |s| then None
    else FindFrom(s, p, n + 1)
  }

  function Find(s: string, p: string): (r: Option<nat>)
    ensures match r
            case None => forall i :: !OccursAt(s, p, i)
            case Some(m) => OccursAt(s, p, m) && forall i :: i < m ==> !OccursAt(s, p, i)
  {
    FindFrom(s, p, 0)
  }

  /** The last place up to n where p occurs in s. */
  function FindLastFrom(s: string, p: string, n: nat): (r: Option<nat>)
    requires forall i :: i > n ==> !OccursAt(s, p, i)
    ensures match r
            case None => forall i :: !OccursAt(s, p, i)
            case Some(m) => OccursAt(s, p, m) && forall i :: i > m ==> !OccursAt(s, p, i)
  {
    if OccursAt(s, p, n) then Some(n)
    else if n == 0 then None
    else FindLastFrom(s, p, n - 1)
  }

  function FindLast(s: string, p: string): (r: Option<nat>)
    ensures match r
            case None => forall i :: !OccursAt(s, p, i)
            case Some(m) => OccursAt(s, p, m) && forall i :: i > m ==> !OccursAt(s, p, i)
  {
    FindLastFrom(s, p, |s|)
  }

  /** The part of full before the first occurrence of what left and right start with in common;
      nothing when they start differently, or when it does not occur. */
  function Before(full: string, left: string, right: string): string {
    var common := left[..CommonPrefix(left, right)];
    if common == [] then ""
    else match Find(full, common)
      case None => ""
      case Some(pos) => full[..pos]
  }

  /** The part of full after the last occurrence of what left and right end with in common. */
  function After(full: string, left: string, right: string): string {
    var common := left[|left| - CommonSuffix(left, right)..];
    if common == [] then ""
    else match FindLast(full, common)
      case None => ""
      case Some(pos) => full[pos + |common|..]
  }

  method UntilCommonPrefix(full: string, left: string, right: string) returns (r: string)
    ensures r == Before(full, left, right)
  {
    var commonPrefixLen := CommonPrefixLen(left, right);
    if commonPrefixLen == 0 {
      return "";
    }
    var commonPrefix := left[..commonPrefixLen];
    var pos := Find(full, commonPrefix);
    if pos == None {
      return "";
    }
    return full[..pos.value];
  }

  method AfterCommonSuffix(full: string, left: string, right: string) returns (r: string)
    ensures r == After(full, left, right)
  {
    var commonSuffixLen := CommonSuffixLen(left, right);
    if commonSuffixLen == 0 {
      return "";
    }
    var commonSuffix := left[|left| - commonSuffixLen..];
    var pos := FindLast(full, commonSuffix);
    if pos == None {
      return "";
    }
    return full[pos.value + commonSuffixLen..];
  }

  // ---- the mirror law ----

  function Reverse(s: string): (r: string)
    ensures |r| == |s| && forall i :: 0 <= i < |s| ==> r[i] == s[|s| - 1 - i]
  {
    seq(|s|, i requires 0 <= i < |s| => s[|s| - 1 - i])
  }

  lemma ReverseSlice(s: string, i: nat, j: nat)
    requires i <= j <= |s|
    ensures Reverse(s[i..j]) == Reverse(s)[|s| - j..|s| - i]
  {
  }

  lemma ReverseInjective(s: string, t: string)
    ensures Reverse(s) == Reverse(t) <==> s == t
  {
    assert Reverse(Reverse(s)) == s && Reverse(Reverse(t)) == t;
  }

  lemma CommonSuffixMirrors(l: string, r: string)
    ensures CommonSuffix(l, r) == CommonPrefix(Reverse(l), Reverse(r))
  {
    hide Reverse, CommonSuffix;
    CommonPrefixIs(Reverse(l), Reverse(r), CommonSuffix(l, r)) by {
      assert forall i :: 0 <= i < |l| ==> Reverse(l)[i] == FromEnd(l, i);
      assert forall i :: 0 <= i < |r| ==> Reverse(r)[i] == FromEnd(r, i);
    }
  }

  lemma OccursMirrors(s: string, p: string, i: int)
    ensures OccursAt(s, p, i) <==> OccursAt(Reverse(s), Reverse(p), |s| - |p| - i)
  {
    if 0 <= i && i + |p| <= |s| {
      ReverseSlice(s, i, i + |p|);
      ReverseInjective(s[i..i + |p|], p);
    }
  }

  lemma FindLastMirrors(s: string, p: string)
    ensures FindLast(s, p) == match Find(Reverse(s), Reverse(p))
                              case None => None
                              case Some(n) => Some(|s| - |p| - n)
  {
    hide OccursAt;
    forall i ensures OccursAt(s, p, i) <==> OccursAt(Reverse(s), Reverse(p), |s| - |p| - i) {
      OccursMirrors(s, p, i);
    }
    match Find(Reverse(s), Reverse(p))
    case None =>
    case Some(n) =>
      assert |s| - |p| - (|s| - |p| - n) == n;
      assert OccursAt(s, p, |s| - |p| - n);
      match FindLast(s, p)
      case None =>
      case Some(m) =>
        assert OccursAt(Reverse(s), Reverse(p), |s| - |p| - m);
  }

  lemma ReverseEnd(s: string, n: nat)
    requires n <= |s|
    ensures Reverse(s[|s| - n..]) == Reverse(s)[..n]
  {
  }

  lemma ReverseTwice(s: string)
    ensures Reverse(Reverse(s)) == s
  {
  }

  lemma FoundBounds(s: string, p: string)
    ensures Find(s, p).Some? ==> Find(s, p).value <= |s|
    ensures FindLast(s, p).Some? ==> FindLast(s, p).value + |p| <= |s|
  {
  }

  /** Cutting after the common suffix is cutting before the common prefix, read backwards: for all
      inputs, also when there is nothing in common or it does not occur. */
  lemma AfterMirrorsBefore(full: string, left: string, right: string)
    ensures After(full, left, right) == Reverse(Before(Reverse(full), Reverse(left), Reverse(right)))
  {
    hide Find, FindLast, CommonPrefix, CommonSuffix, OccursAt, Reverse, StartAlike, FromEnd;
    var n := CommonSuffix(left, right);
    CommonSuffixMirrors(left, right);
    ReverseEnd(left, n);
    var common := left[|left| - n..];
    FindLastMirrors(full, common);
    FoundBounds(Reverse(full), Reverse(common));
    FoundBounds(full, common);
    ReverseTwice("");
    match Find(Reverse(full), Reverse(common))
    case None =>
    case Some(m) =>
      ReverseEnd(full, m);
      ReverseTwice(full[|full| - m..]);
  }

  // ---- the cuts written out ----

  /** p ends at place k of s. */
  predicate EndsAt(s: string, p: string, k: nat) {
    |p| <= k <= |s| && s[k - |p|..k] == p
  }

  predicate BeginsAt(s: string, p: string, k: nat) {
    k <= |s| && p <= s[k..]
  }

  lemma OccursBegins(s: string, p: string, k: nat)
    ensures OccursAt(s, p, k) <==> BeginsAt(s, p, k)
    ensures EndsAt(s, p, k) <==> OccursAt(s, p, k - |p|)
  {
    if k + |p| <= |s| {
      assert s[k..][..|p|] == s[k..k + |p|];
    }
  }

  /** What comes before the first place where the longest common start begins; nothing if there is no such place, or
      no such start. */
  lemma BeforeCuts(full: string, left: string, right: string) returns (n: nat)
    ensures n <= |left| && n <= |right| && left[..n] == right[..n] && (n == |left| || n == |right| || left[n] != right[n])
    ensures var p, cut := left[..n], Before(full, left, right);
      if n == 0 || (forall k: nat :: !BeginsAt(full, p, k)) then cut == ""
      else cut <= full && BeginsAt(full, p, |cut|) && forall k: nat :: k < |cut| ==> !BeginsAt(full, p, k)
  {
    hide CommonPrefix, Find, OccursAt, BeginsAt;
    n := CommonPrefix(left, right);
    var p := left[..n];
    forall k: nat ensures OccursAt(full, p, k) <==> BeginsAt(full, p, k) {
      OccursBegins(full, p, k);
    }
    FoundBounds(full, p);
  }

  /** What comes after the last place where the longest common end does. */
  lemma AfterCuts(full: string, left: string, right: string) returns (n: nat)
    ensures n <= |left| && n <= |right| && left[|left| - n..] == right[|right| - n..]
    ensures n == |left| || n == |right| || left[|left| - 1 - n] != right[|right| - 1 - n]
    ensures var p, cut := left[|left| - n..], After(full, left, right);
      if n == 0 || (forall k: nat :: !EndsAt(full, p, k)) then cut == ""
      else
        && |cut| <= |full| && cut == full[|full| - |cut|..] && EndsAt(full, p, |full| - |cut|)
        && forall k: nat :: k > |full| - |cut| ==> !EndsAt(full, p, k)
  {
    hide CommonSuffix, FindLast, OccursAt, EndsAt;
    n := CommonSuffix(left, right);
    SharedEnd(left, right, n);
    var p := left[|left| - n..];
    forall k: nat ensures EndsAt(full, p, k) <==> OccursAt(full, p, k - n) {
      OccursBegins(full, p, k);
    }
    assert forall i: int :: OccursAt(full, p, i) ==> i >= 0 by { OccursInside(full, p); }
    FoundBounds(full, p);
    match FindLast(full, p)
    case None =>
    case Some(pos) => assert EndsAt(full, p, pos + n);
  }

  lemma OccursInside(s: string, p: string)
    ensures forall i :: OccursAt(s, p, i) ==> i >= 0
  {
  }
}
