/** The merge loop of byte pair encoding. */
module Bpe {
  import opened Wrappers

  type Byte = bv8
  type Bytes = seq<Byte>
  type Ranks = map<Bytes, int>

  function Concat(parts: seq<Bytes>): Bytes {
    if parts == [] then [] else parts[0] + Concat(parts[1..])
  }

  function Singles(token: Bytes): (r: seq<Bytes>)
    ensures |r| == |token| && forall i :: 0 <= i < |token| ==> r[i] == [token[i]]
  {
    seq(|token|, i requires 0 <= i < |token| => [token[i]])
  }

  function Pair(parts: seq<Bytes>, i: nat): Bytes
    requires i + 1 < |parts|
  {
    parts[i] + parts[i + 1]
  }

  /** Parts i and i + 1 may be merged, at the given rank. */
  predicate Mergeable(ranks: Ranks, parts: seq<Bytes>, i: nat) {
    i + 1 < |parts| && Pair(parts, i) in ranks
  }

  function RankOf(ranks: Ranks, parts: seq<Bytes>, i: nat): int
    requires Mergeable(ranks, parts, i)
  {
    ranks[Pair(parts, i)]
  }

  /** i is the leftmost of the pairs of lowest rank among the first n pairs. */
  predicate IsBest(ranks: Ranks, parts: seq<Bytes>, n: nat, i: nat) {
    i < n && Mergeable(ranks, parts, i) &&
    forall j :: 0 <= j < n && Mergeable(ranks, parts, j) ==>
      RankOf(ranks, parts, i) <= RankOf(ranks, parts, j) &&
      (j < i ==> RankOf(ranks, parts, i) < RankOf(ranks, parts, j))
  }

  function Best(ranks: Ranks, parts: seq<Bytes>, n: nat): (r: Option<nat>)
    ensures match r
            case None => forall j :: 0 <= j < n ==> !Mergeable(ranks, parts, j)
            case Some(i) => IsBest(ranks, parts, n, i)
  {
    if n == 0 then None
    else
      var r := Best(ranks, parts, n - 1);
      if Mergeable(ranks, parts, n - 1) &&
         (r == None || RankOf(ranks, parts, n - 1) < RankOf(ranks, parts, r.value))
      then Some(n - 1) else r
  }

  predicate Below(rank: int, maxRank: Option<int>) {
    maxRank == None || rank < maxRank.value
  }

  function Merge(parts: seq<Bytes>, i: nat): (r: seq<Bytes>)
    requires i + 1 < |parts|
    ensures |r| == |parts| - 1
  {
    parts[..i] + [parts[i] + parts[i + 1]] + parts[i + 2..]
  }

  /** Merges the best pair as long as there is one of a rank below the bound. */
  function MergeAll(ranks: Ranks, parts: seq<Bytes>, maxRank: Option<int>): seq<Bytes>
    decreases |parts|
  {
    match Best(ranks, parts, |parts|)
    case None => parts
    case Some(i) =>
      if !Below(RankOf(ranks, parts, i), maxRank) then parts
      else MergeAll(ranks, Merge(parts, i), maxRank)
  }

  method Bpe(ranks: Ranks, token: Bytes, maxRank: Option<int>) returns (parts: seq<Bytes>)
    ensures parts == MergeAll(ranks, Singles(token), maxRank)
  {
    hide Best;
    parts := Singles(token);
    while true
      invariant MergeAll(ranks, parts, maxRank) == MergeAll(ranks, Singles(token), maxRank)
      decreases |parts|
    {
      var minIdx, minRank := FindMin(ranks, parts);
      if minRank == None || (maxRank != None && minRank.value >= maxRank.value) {
        break;
      }
      parts := parts[..minIdx] + [parts[minIdx] + parts[minIdx + 1]] + parts[minIdx + 2..];
    }
  }

  method FindMin(ranks: Ranks, parts: seq<Bytes>) returns (minIdx: nat, minRank: Option<int>)
    ensures match Best(ranks, parts, |parts|)
            case None => minRank == None
            case Some(i) => minIdx == i && minRank == Some(RankOf(ranks, parts, i))
  {
    minIdx, minRank := 0, None;
    var i := 0;
    while i + 1 < |parts|
      invariant i <= |parts| && (i == 0 || i < |parts|)
      invariant match Best(ranks, parts, i)
                case None => minRank == None
                case Some(k) => minIdx == k && minRank == Some(RankOf(ranks, parts, k))
    {
      var pair := parts[i] + parts[i + 1];
      if pair in ranks {
        var rank := ranks[pair];
        if minRank == None || rank < minRank.value {
          minIdx, minRank := i, Some(rank);
        }
      }
      i := i + 1;
    }
    assert |parts| > 0 ==> Best(ranks, parts, |parts|) == Best(ranks, parts, i);
  }

  // ---- what the loop keeps ----

  lemma {:induction false} ConcatOfSum(a: seq<Bytes>, b: seq<Bytes>)
    ensures Concat(a + b) == Concat(a) + Concat(b)
  {
    if a == [] {
      assert a + b == b;
    } else {
      assert (a + b)[1..] == a[1..] + b;
      ConcatOfSum(a[1..], b);
      assert a[0] + (Concat(a[1..]) + Concat(b)) == a[0] + Concat(a[1..]) + Concat(b);
    }
  }

  lemma MergeConcat(parts: seq<Bytes>, i: nat)
    requires i + 1 < |parts|
    ensures Concat(Merge(parts, i)) == Concat(parts)
  {
    hide Concat;
    var a, x, y, b := parts[..i], parts[i], parts[i + 1], parts[i + 2..];
    Around(parts, i, x + y);
    ConcatOfSum(a, [x, y] + b);
    ConcatOfSum([x, y], b);
    ConcatOfSum(a, [x + y] + b);
    ConcatOfSum([x + y], b);
    ConcatTwo(x, y);
  }

  lemma Around<T>(s: seq<T>, i: nat, z: T)
    requires i + 1 < |s|
    ensures s == s[..i] + ([s[i], s[i + 1]] + s[i + 2..])
    ensures s[..i] + [z] + s[i + 2..] == s[..i] + ([z] + s[i + 2..])
  {
  }

  lemma ConcatTwo(x: Bytes, y: Bytes)
    ensures Concat([x, y]) == x + y == Concat([x + y])
  {
    assert [x, y][1..] == [y] && [y][1..] == [] && [x + y][1..] == [];
    assert Concat([y]) == y + [] == y && Concat([x + y]) == x + y + [] == x + y;
  }

  lemma {:induction false} ConcatSingles(token: Bytes)
    ensures Concat(Singles(token)) == token
  {
    if token == [] {
    } else {
      ConcatSingles(token[1..]);
      assert Singles(token)[1..] == Singles(token[1..]);
    }
  }

  /** The parts concatenate to the token. */
  lemma {:induction false} KeepsToken(ranks: Ranks, parts: seq<Bytes>, maxRank: Option<int>)
    ensures Concat(MergeAll(ranks, parts, maxRank)) == Concat(parts)
    decreases |parts|
  {
    match Best(ranks, parts, |parts|)
    case None =>
    case Some(i) =>
      MergeConcat(parts, i);
      KeepsToken(ranks, Merge(parts, i), maxRank);
  }

  /** At the end no two neighbours can be merged below the bound. */
  lemma {:induction false} Exhausted(ranks: Ranks, parts: seq<Bytes>, maxRank: Option<int>, j: nat)
    ensures var r := MergeAll(ranks, parts, maxRank);
      Mergeable(ranks, r, j) ==> !Below(RankOf(ranks, r, j), maxRank)
    decreases |parts|
  {
    match Best(ranks, parts, |parts|)
    case None =>
    case Some(i) =>
      if Below(RankOf(ranks, parts, i), maxRank) {
        Exhausted(ranks, Merge(parts, i), maxRank, j);
      }
  }

  /** A part of the token that the vocabulary knows, below the bound, or a single byte. */
  predicate Known(ranks: Ranks, part: Bytes, maxRank: Option<int>) {
    |part| == 1 || (part in ranks && Below(ranks[part], maxRank))
  }

  predicate AllKnown(ranks: Ranks, parts: seq<Bytes>, maxRank: Option<int>) {
    forall i :: 0 <= i < |parts| ==> Known(ranks, parts[i], maxRank)
  }

  lemma {:induction false} StaysKnown(ranks: Ranks, parts: seq<Bytes>, maxRank: Option<int>)
    requires AllKnown(ranks, parts, maxRank)
    ensures AllKnown(ranks, MergeAll(ranks, parts, maxRank), maxRank)
    decreases |parts|
  {
    match Best(ranks, parts, |parts|)
    case None =>
    case Some(i) =>
      if Below(RankOf(ranks, parts, i), maxRank) {
        assert AllKnown(ranks, Merge(parts, i), maxRank);
        StaysKnown(ranks, Merge(parts, i), maxRank);
      }
  }

  /** Every part is a single byte or a token ranked below the bound. */
  lemma PartsKnown(ranks: Ranks, token: Bytes, maxRank: Option<int>)
    ensures AllKnown(ranks, MergeAll(ranks, Singles(token), maxRank), maxRank)
  {
    StaysKnown(ranks, Singles(token), maxRank);
  }

  /** Bounded by its own rank, a token of two or more bytes is left in at least two parts. */
  lemma OwnRankSplits(ranks: Ranks, token: Bytes)
    requires |token| >= 2 && token in ranks
    ensures |MergeAll(ranks, Singles(token), Some(ranks[token]))| >= 2
  {
    hide MergeAll;
    var parts := MergeAll(ranks, Singles(token), Some(ranks[token]));
    KeepsToken(ranks, Singles(token), Some(ranks[token]));
    ConcatSingles(token);
    PartsKnown(ranks, token, Some(ranks[token]));
    ConcatOne(parts);
  }

  lemma ConcatOne(parts: seq<Bytes>)
    ensures |parts| == 0 ==> Concat(parts) == []
    ensures |parts| == 1 ==> Concat(parts) == parts[0]
  {
  }

  /** A bounded run can be continued with a higher bound, or none. */
  lemma {:induction false} Resumes(ranks: Ranks, parts: seq<Bytes>, low: int, high: Option<int>)
    requires high == None || low <= high.value
    ensures MergeAll(ranks, MergeAll(ranks, parts, Some(low)), high) == MergeAll(ranks, parts, high)
    decreases |parts|
  {
    match Best(ranks, parts, |parts|)
    case None =>
    case Some(i) =>
      if Below(RankOf(ranks, parts, i), Some(low)) {
        Resumes(ranks, Merge(parts, i), low, high);
      }
  }

  /** Where the run bounded by a token's own rank ends in two parts, the merge the token stands for,
      the run without a bound gives back the token itself. */
  lemma TwoPartsMerge(ranks: Ranks, token: Bytes)
    requires |token| >= 2 && token in ranks
    requires |MergeAll(ranks, Singles(token), Some(ranks[token]))| == 2
    ensures MergeAll(ranks, Singles(token), None) == [token]
  {
    hide MergeAll;
    var parts := MergeAll(ranks, Singles(token), Some(ranks[token]));
    KeepsToken(ranks, Singles(token), Some(ranks[token]));
    ConcatSingles(token);
    ConcatTwo(parts[0], parts[1]);
    assert parts == [parts[0], parts[1]];
    Resumes(ranks, Singles(token), ranks[token], None);
    MergeTwo(ranks, parts[0], parts[1]);
  }

  lemma MergeTwo(ranks: Ranks, x: Bytes, y: Bytes)
    requires x + y in ranks
    ensures MergeAll(ranks, [x, y], None) == [x + y]
  {
    assert Mergeable(ranks, [x, y], 0);
    assert Merge([x, y], 0) == [x + y];
    assert Best(ranks, [x + y], 1) == None;
  }

  // ---- the merges written out ----

  predicate Allowed(rank: int, maxRank: Option<int>) {
    match maxRank
    case None => true
    case Some(bound) => rank < bound
  }

  /** Neighbours i and i + 1 may be merged: together they are a key that is ranked below the bound. */
  predicate MayMerge(ranks: Ranks, parts: seq<Bytes>, maxRank: Option<int>, i: int) {
    0 <= i && i + 1 < |parts| && parts[i] + parts[i + 1] in ranks && Allowed(ranks[parts[i] + parts[i + 1]], maxRank)
  }

  /** None of the others has a lower rank, and none before a rank as low. */
  predicate ComesFirst(ranks: Ranks, parts: seq<Bytes>, maxRank: Option<int>, i: int)
    requires MayMerge(ranks, parts, maxRank, i)
  {
    forall j :: 0 <= j < |parts| && MayMerge(ranks, parts, maxRank, j) ==>
      var x, y := ranks[parts[i] + parts[i + 1]], ranks[parts[j] + parts[j + 1]];
      if i <= j then x <= y else x < y
  }

  ghost predicate IsStep(ranks: Ranks, maxRank: Option<int>, parts: seq<Bytes>, next: seq<Bytes>) {
    exists i :: MayMerge(ranks, parts, maxRank, i) && ComesFirst(ranks, parts, maxRank, i)
      && next == parts[..i] + [parts[i] + parts[i + 1]] + parts[i + 2..]
  }

  ghost predicate Steps(ranks: Ranks, maxRank: Option<int>, log: seq<seq<Bytes>>) {
    forall k :: 0 < k < |log| ==> IsStep(ranks, maxRank, log[k - 1], log[k])
  }

  /** The run is a sequence of such merges, until there is none left. */
  lemma {:induction false} Merges(ranks: Ranks, parts: seq<Bytes>, maxRank: Option<int>) returns (log: seq<seq<Bytes>>)
    ensures log != [] && log[0] == parts && Steps(ranks, maxRank, log)
    ensures log[|log| - 1] == MergeAll(ranks, parts, maxRank)
    ensures forall i :: !MayMerge(ranks, MergeAll(ranks, parts, maxRank), maxRank, i)
    decreases |parts|
  {
    log := [parts];
    NextMerge(ranks, parts, maxRank);
    match Best(ranks, parts, |parts|)
    case None =>
    case Some(i) =>
      if Below(RankOf(ranks, parts, i), maxRank) {
        var rest := Merges(ranks, Merge(parts, i), maxRank);
        log := log + rest;
        forall k | 0 < k < |log| ensures IsStep(ranks, maxRank, log[k - 1], log[k]) {
          if k > 1 {
            assert log[k - 1] == rest[k - 2] && log[k] == rest[k - 1];
          }
        }
      }
  }

  lemma NextMerge(ranks: Ranks, parts: seq<Bytes>, maxRank: Option<int>)
    ensures match Best(ranks, parts, |parts|)
            case None => forall i :: !MayMerge(ranks, parts, maxRank, i)
            case Some(i) =>
              if Below(RankOf(ranks, parts, i), maxRank) then IsStep(ranks, maxRank, parts, Merge(parts, i))
              else forall j :: !MayMerge(ranks, parts, maxRank, j)
  {
    hide Best;
    forall j | 0 <= j < |parts| && MayMerge(ranks, parts, maxRank, j)
      ensures Mergeable(ranks, parts, j) && RankOf(ranks, parts, j) == ranks[parts[j] + parts[j + 1]]
      ensures Below(RankOf(ranks, parts, j), maxRank)
    {
    }
    match Best(ranks, parts, |parts|)
    case None =>
    case Some(i) =>
      if Below(RankOf(ranks, parts, i), maxRank) {
        assert MayMerge(ranks, parts, maxRank, i) && ComesFirst(ranks, parts, maxRank, i);
      }
  }
}
