/** The order in which the tensors of a predictor layer arrive does not matter. */
module MtpOrder {
  import opened Wrappers
  import opened Mtp
  import Mxfp4

  type Source = map<Name, Tensor>

  // ---- weights and their scales ----

  /** All that the key needs has arrived. A scale of the head is dropped, so the head then waits. */
  predicate Ready(c: Config, b: Source, k: Key) {
    Weight(k) in b && (k in c.expected ==> Scale(k) in b && k != HEAD)
  }

  /** The tensor of a key, joined with its own scale if it has one. */
  function Value(c: Config, b: Source, k: Key): Tensor
    requires Ready(c, b, k)
  {
    if k !in c.expected then AsFloat(b[Weight(k)])
    else if k.Expert? then Packed(b[Weight(k)], b[Scale(k)])
    else AsFloat(Rescaled(b[Weight(k)], b[Scale(k)]))
  }

  predicate Paired(k: Key, weight: Tensor, scale: Tensor) {
    if k.Expert? then Packable(weight, scale) else Dequantizable(weight, scale)
  }

  /** The weight and its scale go together. */
  predicate Converts(c: Config, b: Source, k: Key)
    requires Ready(c, b, k)
  {
    k in c.expected ==> Paired(k, b[Weight(k)], b[Scale(k)])
  }

  ghost predicate AllConvert(c: Config, b: Source) {
    forall k :: Ready(c, b, k) ==> Converts(c, b, k)
  }

  function Delivered(c: Config, b: Source): (d: map<Key, Tensor>)
    ensures forall k :: k in d <==> Ready(c, b, k)
    ensures forall k :: k in d ==> d[k] == Value(c, b, k)
  {
    var d := map name | name in b && name.Weight? && Ready(c, b, name.key) :: name.key := Value(c, b, name.key);
    assert forall k :: Ready(c, b, k) ==> Weight(k) in b && k in d;
    d
  }

  ghost predicate PendingIs(c: Config, st: State, b: Source) {
    (forall k :: k in st.pending <==> Weight(k) in b && !Ready(c, b, k)) &&
    (forall k :: k in st.pending ==> Weight(k) in b && st.pending[k] == b[Weight(k)])
  }

  ghost predicate ScalesAre(st: State, b: Source) {
    (forall k :: k in st.scales <==> Scale(k) in b && k != HEAD && Weight(k) !in b) &&
    (forall k :: k in st.scales ==> Scale(k) in b && st.scales[k] == b[Scale(k)])
  }

  /** What happens to a key that has become ready. */
  function Handle(c: Config, st: State, k: Key, t: Tensor): Option<State> {
    if k.Expert? then Collect(c, st, k, t, k in c.expected) else Deliver(c, st, k, t)
  }

  predicate SameCollection(s: State, t: State) {
    s.inputs == t.inputs && s.experts == t.experts && s.raw == t.raw && s.written == t.written
  }

  /** The waiting weights and scales after an arrival. */
  function Waiting(c: Config, st: State, b': Source, name: Name): State
    requires !name.Plain? && name in b'
  {
    var k := name.key;
    st.(pending := if name.Weight? && !Ready(c, b', k) then st.pending[k := b'[name]]
                   else if Ready(c, b', k) then st.pending - {k} else st.pending,
        scales := if Weight(k) in b' then st.scales - {k}
                  else if k == HEAD then st.scales else st.scales[k := b'[name]])
  }

  lemma OnlyItsKey(c: Config, b: Source, name: Name, t: Tensor)
    requires name !in b && !name.Plain?
    ensures forall j :: j != name.key ==> (Ready(c, b[name := t], j) <==> Ready(c, b, j))
    ensures forall j :: Ready(c, b, j) ==> Ready(c, b[name := t], j)
    ensures name.Weight? || name.key in c.expected ==> !Ready(c, b, name.key)
  {
  }

  lemma PendingStep(c: Config, st: State, b: Source, name: Name, t: Tensor)
    requires PendingIs(c, st, b) && name !in b && !name.Plain?
    requires name.Scale? ==> name.key in c.expected
    ensures PendingIs(c, Waiting(c, st, b[name := t], name), b[name := t])
  {
    hide Ready;
    OnlyItsKey(c, b, name, t);
    assert Weight(name.key) !in b[name := t] ==> !Ready(c, b[name := t], name.key) by { NeedsWeight(c, b[name := t], name.key); }
  }

  lemma NeedsWeight(c: Config, b: Source, k: Key)
    ensures Ready(c, b, k) ==> Weight(k) in b
  {
  }

  lemma ScalesStep(c: Config, st: State, b: Source, name: Name, t: Tensor)
    requires ScalesAre(st, b) && name !in b && !name.Plain?
    ensures ScalesAre(Waiting(c, st, b[name := t], name), b[name := t])
  {
    hide Ready;
  }

  /** A key that is ready is handled, if its weight and its scale go together. */
  function Settle(c: Config, st: State, b: Source, k: Key): Option<State> {
    if !Ready(c, b, k) then Some(st)
    else if !Converts(c, b, k) then None
    else Handle(c, st, k, Value(c, b, k))
  }

  /** An arrival is handled when it makes its key ready, and waits otherwise. */
  lemma PairStep(c: Config, st: State, b: Source, name: Name, t: Tensor)
    requires PendingIs(c, st, b) && ScalesAre(st, b) && name !in b && !name.Plain?
    requires name.Scale? || Scale(name.key) in b ==> name.key in c.expected
    ensures var b' := b[name := t];
      Arrive(c, st, name, t) == Settle(c, Waiting(c, st, b', name), b', name.key)
  {
    hide Collect, JoinInputs, Write, Deliver, Settle;
    var k := name.key;
    if name.Weight? {
      WeightArrives(c, st, b, k, t);
    } else {
      ScaleArrives(c, st, b, k, t);
    }
  }

  lemma WeightArrives(c: Config, st: State, b: Source, k: Key, t: Tensor)
    requires PendingIs(c, st, b) && ScalesAre(st, b) && Weight(k) !in b
    requires Scale(k) in b ==> k in c.expected
    ensures var b' := b[Weight(k) := t];
      Arrive(c, st, Weight(k), t) == Settle(c, Waiting(c, st, b', Weight(k)), b', k)
  {
    hide Collect, JoinInputs, Write, Packable, Dequantizable, Rescaled;
    assert k !in st.pending && st.pending - {k} == st.pending;
    assert k in st.scales <==> Scale(k) in b && k != HEAD;
    assert k !in st.scales ==> st.scales - {k} == st.scales;
  }

  lemma ScaleArrives(c: Config, st: State, b: Source, k: Key, t: Tensor)
    requires PendingIs(c, st, b) && ScalesAre(st, b) && Scale(k) !in b && k in c.expected
    ensures var b' := b[Scale(k) := t];
      Arrive(c, st, Scale(k), t) == Settle(c, Waiting(c, st, b', Scale(k)), b', k)
  {
    hide Collect, JoinInputs, Write, Deliver, Packable, Dequantizable, Rescaled;
    assert k in st.pending <==> Weight(k) in b;
    assert k !in st.scales && st.scales - {k} == st.scales;
  }

  // ---- collecting ----

  function Member(g: Group, e: nat): Key {
    Expert(g.layer, e, g.projection)
  }

  ghost predicate FullGroup(c: Config, d: map<Key, Tensor>, g: Group) {
    c.nExperts > 0 && forall e: nat :: e < c.nExperts ==> Member(g, e) in d
  }

  /** The members of a group, in order. */
  ghost function Members(c: Config, d: map<Key, Tensor>, g: Group): seq<Tensor>
    requires FullGroup(c, d, g)
  {
    seq(c.nExperts, e requires 0 <= e < c.nExperts => d[Member(g, e)])
  }

  ghost predicate GroupIs(c: Config, st: State, d: map<Key, Tensor>, g: Group) {
    var held := Gathered(st, g);
    (g in st.experts ==> st.experts[g] != map[]) &&
    (forall e: nat :: e in held <==> Member(g, e) in d && !(FullGroup(c, d, g) && e < c.nExperts)) &&
    (forall e: nat :: e in held ==> Member(g, e) in d && held[e] == d[Member(g, e)]) &&
    (c.nExperts > 0 ==> |held| < c.nExperts)
  }

  /** Some expert of the group has a scale, or some has none. */
  predicate SomeExpected(c: Config, g: Group, scaled: bool) {
    exists e: nat :: e < c.nExperts && (Member(g, e) in c.expected) == scaled
  }

  ghost predicate StackIs(c: Config, d: map<Key, Tensor>, g: Group, out: Tensors, packed: bool) {
    Experts(g) in out ==>
      && FullGroup(c, d, g) && out[Experts(g)] == Stacked(Members(c, d, g))
      && SameShapes(Members(c, d, g)) && SomeExpected(c, g, packed)
  }

  /** A full group is in one of the two outputs. */
  ghost predicate OneStack(c: Config, st: State, d: map<Key, Tensor>, g: Group) {
    && (FullGroup(c, d, g) <==> Experts(g) in st.written || Experts(g) in st.raw)
    && !(Experts(g) in st.written && Experts(g) in st.raw)
  }

  ghost predicate GroupsAre(c: Config, st: State, d: map<Key, Tensor>) {
    forall g :: GroupHolds(c, st, d, g)
  }

  ghost predicate GroupHolds(c: Config, st: State, d: map<Key, Tensor>, g: Group) {
    && GroupIs(c, st, d, g) && OneStack(c, st, d, g)
    && StackIs(c, d, g, st.written, false) && StackIs(c, d, g, st.raw, true)
  }

  lemma {:induction false} AtMost(ids: set<nat>, n: nat)
    requires forall e: nat :: e in ids ==> e < n
    ensures |ids| <= n
  {
    if n == 0 {
      assert ids == {};
    } else {
      AtMost(ids - {n - 1}, n - 1);
    }
  }

  lemma {:induction false} AtLeast(ids: set<nat>, n: nat)
    requires forall e: nat :: e < n ==> e in ids
    ensures |ids| >= n
  {
    if n > 0 {
      AtLeast(ids - {n - 1}, n - 1);
    }
  }

  lemma {:induction false} OneMissing(ids: set<nat>, n: nat, e: nat)
    requires (forall i: nat :: i in ids ==> i < n) && e < n && e !in ids
    ensures |ids| < n
  {
    if e == n - 1 {
      AtMost(ids, n - 1);
    } else {
      OneMissing(ids - {n - 1}, n - 1, e);
    }
  }

  /** n different numbers below n are all of them. */
  lemma AllOfRange(ids: set<nat>, n: nat)
    requires (forall i: nat :: i in ids ==> i < n) && |ids| >= n
    ensures IsRange(ids, n)
  {
    forall e | 0 <= e < n ensures e in ids {
      if e !in ids {
        OneMissing(ids, n, e);
      }
    }
  }

  // ---- one more expert ----

  function WithKey(d: map<Key, Tensor>, k: Key, t: Tensor): map<Key, Tensor> {
    d[k := t]
  }

  /** The group with one expert more. */
  function Joining(st: State, k: Key, t: Tensor): map<nat, Tensor>
    requires k.Expert?
  {
    Gathered(st, GroupOf(k))[k.expert := t]
  }

  lemma JoiningIs(c: Config, st: State, d: map<Key, Tensor>, k: Key, t: Tensor)
    requires k.Expert? && k !in d && GroupIs(c, st, d, GroupOf(k))
    ensures var parts := Joining(st, k, t);
      var held := Gathered(st, GroupOf(k));
      k.expert !in held && |parts| == |held| + 1 && parts.Keys == held.Keys + {k.expert}
  {
    var g := GroupOf(k);
    assert Member(g, k.expert) == k;
    var held, parts := Gathered(st, g), Joining(st, k, t);
    assert parts.Keys == held.Keys + {k.expert};
    assert |parts.Keys| == |held.Keys| + 1;
    assert |parts| == |parts.Keys| && |held| == |held.Keys|;
  }

  /** A group can only become full by the expert that fills it. */
  lemma FullStep(c: Config, st: State, d: map<Key, Tensor>, k: Key, t: Tensor)
    requires k.Expert? && k !in d && GroupIs(c, st, d, GroupOf(k)) && c.nExperts > 0
    ensures var g, parts := GroupOf(k), Joining(st, k, t);
      (|parts| < c.nExperts ==> (FullGroup(c, d[k := t], g) <==> FullGroup(c, d, g))) &&
      (|parts| == c.nExperts && IsRange(parts.Keys, c.nExperts) ==>
        !FullGroup(c, d, g) && FullGroup(c, d[k := t], g))
  {
    var g, parts, held := GroupOf(k), Joining(st, k, t), Gathered(st, GroupOf(k));
    JoiningIs(c, st, d, k, t);
    assert Member(g, k.expert) == k;
    assert forall e: nat :: e in parts <==> e in held || e == k.expert;
    assert |parts| == |parts.Keys|;
    if FullGroup(c, d[k := t], g) && !FullGroup(c, d, g) {
      forall e: nat | e < c.nExperts ensures e in parts.Keys {
        assert Member(g, e) in d[k := t];
      }
      AtLeast(parts.Keys, c.nExperts);
    }
    if |parts| == c.nExperts && IsRange(parts.Keys, c.nExperts) {
      assert k.expert in parts.Keys && k.expert < c.nExperts && Member(g, k.expert) !in d;
      forall e: nat | e < c.nExperts ensures Member(g, e) in d[k := t] {
        assert e in parts.Keys;
      }
    }
  }

  /** Another group is not touched. */
  lemma OtherGroup(c: Config, st: State, st': State, d: map<Key, Tensor>, k: Key, t: Tensor, g: Group)
    requires (k.Expert? ==> g != GroupOf(k)) && k !in d
    requires GroupHolds(c, st, d, g)
    requires g in st'.experts <==> g in st.experts
    requires g in st.experts ==> st'.experts[g] == st.experts[g]
    requires Experts(g) in st'.written <==> Experts(g) in st.written
    requires Experts(g) in st.written ==> st'.written[Experts(g)] == st.written[Experts(g)]
    requires Experts(g) in st'.raw <==> Experts(g) in st.raw
    requires Experts(g) in st.raw ==> st'.raw[Experts(g)] == st.raw[Experts(g)]
    ensures GroupHolds(c, st', d[k := t], g)
  {
    var d' := d[k := t];
    assert forall e: nat :: Member(g, e) != k;
    assert forall e: nat :: Member(g, e) in d' <==> Member(g, e) in d;
    assert FullGroup(c, d', g) <==> FullGroup(c, d, g);
    if FullGroup(c, d, g) {
      assert Members(c, d', g) == Members(c, d, g);
    }
  }

  lemma StillGathering(c: Config, st: State, d: map<Key, Tensor>, k: Key, t: Tensor)
    requires k.Expert? && k !in d && GroupHolds(c, st, d, GroupOf(k))
    requires c.nExperts <= 0 || |Joining(st, k, t)| < c.nExperts
    ensures GroupHolds(c, st.(experts := st.experts[GroupOf(k) := Joining(st, k, t)]), d[k := t], GroupOf(k))
  {
    var g, d', parts := GroupOf(k), d[k := t], Joining(st, k, t);
    if c.nExperts > 0 {
      FullStep(c, st, d, k, t);
    }
    JoiningIs(c, st, d, k, t);
    assert Member(g, k.expert) == k;
    assert k.expert in parts;
    assert FullGroup(c, d', g) <==> FullGroup(c, d, g);
    if FullGroup(c, d, g) {
      assert Members(c, d', g) == Members(c, d, g) by {
        assert forall e: nat :: e < c.nExperts ==> Member(g, e) in d;
        assert forall e: nat :: e < c.nExperts ==> d'[Member(g, e)] == d[Member(g, e)];
      }
    }
  }

  lemma MembersJoin(c: Config, st: State, d: map<Key, Tensor>, k: Key, t: Tensor)
    requires k.Expert? && k !in d && GroupIs(c, st, d, GroupOf(k))
    requires c.nExperts > 0 && |Joining(st, k, t)| == c.nExperts && IsRange(Joining(st, k, t).Keys, c.nExperts)
    ensures !FullGroup(c, d, GroupOf(k)) && FullGroup(c, d[k := t], GroupOf(k))
    ensures InOrder(Joining(st, k, t), c.nExperts) == Members(c, d[k := t], GroupOf(k))
  {
    var g, d', parts := GroupOf(k), d[k := t], Joining(st, k, t);
    FullStep(c, st, d, k, t);
    assert Member(g, k.expert) == k;
    assert forall e: nat :: e in parts ==> Member(g, e) in d' && parts[e] == d'[Member(g, e)];
    assert InOrder(parts, c.nExperts) == Members(c, d', g);
  }

  lemma GroupEmpties(c: Config, st: State, d: map<Key, Tensor>, k: Key, t: Tensor, st': State)
    requires k.Expert? && k !in d && GroupIs(c, st, d, GroupOf(k))
    requires c.nExperts > 0 && IsRange(Joining(st, k, t).Keys, c.nExperts)
    requires !FullGroup(c, d, GroupOf(k)) && FullGroup(c, d[k := t], GroupOf(k))
    requires GroupOf(k) !in st'.experts
    ensures GroupIs(c, st', d[k := t], GroupOf(k))
  {
    var g, d', parts := GroupOf(k), d[k := t], Joining(st, k, t);
    hide FullGroup;
    JoiningIs(c, st, d, k, t);
    assert Member(g, k.expert) == k;
    assert Gathered(st', g) == map[];
    forall e: nat ensures Member(g, e) in d' ==> e < c.nExperts {
      if Member(g, e) in d' {
        assert e in Gathered(st, g) || e == k.expert;
        assert e in parts.Keys;
      }
    }
  }

  lemma StackEmitted(c: Config, st: State, d: map<Key, Tensor>, d': map<Key, Tensor>, g: Group, packed: bool)
    requires OneStack(c, st, d, g) && StackIs(c, d, g, st.written, false) && StackIs(c, d, g, st.raw, true)
    requires !FullGroup(c, d, g) && FullGroup(c, d', g) && SameShapes(Members(c, d', g)) && SomeExpected(c, g, packed)
    ensures var st' := Emit(st, g, Stacked(Members(c, d', g)), packed);
      && StackIs(c, d', g, st'.written, false) && StackIs(c, d', g, st'.raw, true) && OneStack(c, st', d', g)
      && g !in st'.experts
  {
    hide FullGroup, Members, SomeExpected, SameShapes;
  }

  lemma GroupCompletes(c: Config, st: State, d: map<Key, Tensor>, k: Key, t: Tensor, packed: bool)
    requires k.Expert? && k !in d && GroupHolds(c, st, d, GroupOf(k)) && packed == (k in c.expected)
    requires c.nExperts > 0 && |Joining(st, k, t)| == c.nExperts && IsRange(Joining(st, k, t).Keys, c.nExperts)
    requires SameShapes(InOrder(Joining(st, k, t), c.nExperts))
    ensures Collect(c, st, k, t, packed).Some?
    ensures GroupHolds(c, Collect(c, st, k, t, packed).value, d[k := t], GroupOf(k))
  {
    hide FullGroup, InOrder, Members, GroupIs, IsRange, StackIs, OneStack, Emit, SomeExpected, SameShapes;
    MembersJoin(c, st, d, k, t);
    ItsOwnKind(c, st, k, t);
    var st' := Emit(st, GroupOf(k), StackOf(Joining(st, k, t), c.nExperts), packed);
    assert Collect(c, st, k, t, packed) == Some(st');
    StackEmitted(c, st, d, d[k := t], GroupOf(k), packed);
    GroupEmpties(c, st, d, k, t, st');
  }

  lemma ItsOwnKind(c: Config, st: State, k: Key, t: Tensor)
    requires k.Expert? && c.nExperts > 0 && IsRange(Joining(st, k, t).Keys, c.nExperts)
    ensures SomeExpected(c, GroupOf(k), k in c.expected)
  {
    assert k.expert in Joining(st, k, t).Keys;
    assert Member(GroupOf(k), k.expert) == k;
  }

  predicate SameElsewhere(a: Tensors, b: Tensors, o: Out) {
    a - {o} == b - {o}
  }

  lemma CollectFrame(c: Config, st: State, k: Key, t: Tensor, packed: bool)
    requires k.Expert?
    ensures match Collect(c, st, k, t, packed)
            case None => true
            case Some(st') =>
              st'.inputs == st.inputs && st'.pending == st.pending && st'.scales == st.scales &&
              st'.experts - {GroupOf(k)} == st.experts - {GroupOf(k)} &&
              SameElsewhere(st'.written, st.written, Experts(GroupOf(k))) &&
              SameElsewhere(st'.raw, st.raw, Experts(GroupOf(k)))
  {
    hide StackOf, IsRange, Emit, SameElsewhere, Gathered, SameShapes;
    var g, parts := GroupOf(k), Joining(st, k, t);
    MapUpdate(st.experts, g, parts);
    if c.nExperts > 0 && |parts| >= c.nExperts && IsRange(parts.Keys, c.nExperts) && SameShapes(InOrder(parts, c.nExperts)) {
      EmitFrame(st, g, StackOf(parts, c.nExperts), packed);
    } else {
      NothingElsewhere(st, g);
    }
  }

  lemma NothingElsewhere(st: State, g: Group)
    ensures SameElsewhere(st.written, st.written, Experts(g)) && SameElsewhere(st.raw, st.raw, Experts(g))
  {
  }

  lemma EmitFrame(st: State, g: Group, stacked: Tensor, packed: bool)
    ensures var st' := Emit(st, g, stacked, packed);
      st'.inputs == st.inputs && st'.pending == st.pending && st'.scales == st.scales &&
      st'.experts - {g} == st.experts - {g} &&
      SameElsewhere(st'.written, st.written, Experts(g)) && SameElsewhere(st'.raw, st.raw, Experts(g))
  {
    MapUpdate(st.experts, g, map[]);
    MapUpdate(st.written, Experts(g), stacked);
    MapUpdate(st.raw, Experts(g), stacked);
  }

  lemma MapUpdate<K, V>(m: map<K, V>, k: K, v: V)
    ensures m[k := v] - {k} == m - {k} && (m - {k}) - {k} == m - {k}
  {
  }

  /** A group holds an expert beyond the range, or is full of experts of different shapes. */
  ghost predicate CannotStack(c: Config, d: map<Key, Tensor>, g: Group) {
    || (exists e: nat :: e >= c.nExperts && Member(g, e) in d)
    || (FullGroup(c, d, g) && !SameShapes(Members(c, d, g)))
  }

  lemma CollectStep(c: Config, st: State, d: map<Key, Tensor>, k: Key, t: Tensor, packed: bool)
    requires k.Expert? && k !in d && GroupsAre(c, st, d) && packed == (k in c.expected)
    ensures match Collect(c, st, k, t, packed)
            case None => CannotStack(c, d[k := t], GroupOf(k))
            case Some(st') => GroupsAre(c, st', d[k := t])
  {
    hide GroupIs, StackIs, OneStack, FullGroup, StackOf, SameShapes, Members, InOrder;
    assert GroupHolds(c, st, d, GroupOf(k));
    var parts := Joining(st, k, t);
    JoiningIs(c, st, d, k, t);
    if c.nExperts > 0 {
      HeldSize(c, st, d, GroupOf(k));
    }
    CollectFrame(c, st, k, t, packed);
    var r := Collect(c, st, k, t, packed);
    if c.nExperts <= 0 || |parts| < c.nExperts {
      StillGathering(c, st, d, k, t);
      AllGroups(c, st, r.value, d, k, t);
    } else if IsRange(parts.Keys, c.nExperts) && SameShapes(InOrder(parts, c.nExperts)) {
      GroupCompletes(c, st, d, k, t, packed);
      AllGroups(c, st, r.value, d, k, t);
    } else if IsRange(parts.Keys, c.nExperts) {
      MembersJoin(c, st, d, k, t);
    } else {
      WrongMember(c, st, d, k, t);
    }
  }

  lemma HeldSize(c: Config, st: State, d: map<Key, Tensor>, g: Group)
    requires GroupIs(c, st, d, g) && c.nExperts > 0
    ensures |Gathered(st, g)| < c.nExperts
  {
  }

  lemma AllGroups(c: Config, st: State, st': State, d: map<Key, Tensor>, k: Key, t: Tensor)
    requires k.Expert? && k !in d && GroupsAre(c, st, d)
    requires st'.experts - {GroupOf(k)} == st.experts - {GroupOf(k)}
    requires SameElsewhere(st'.written, st.written, Experts(GroupOf(k)))
    requires SameElsewhere(st'.raw, st.raw, Experts(GroupOf(k)))
    requires GroupHolds(c, st', d[k := t], GroupOf(k))
    ensures GroupsAre(c, st', d[k := t])
  {
    hide GroupHolds, SameElsewhere;
    var d' := d[k := t];
    forall h ensures GroupHolds(c, st', d', h) {
      if h != GroupOf(k) {
        assert GroupHolds(c, st, d, h);
        Elsewhere(st'.written, st.written, Experts(GroupOf(k)), Experts(h));
        Elsewhere(st'.raw, st.raw, Experts(GroupOf(k)), Experts(h));
        assert h in st'.experts - {GroupOf(k)} <==> h in st'.experts;
        assert h in st.experts - {GroupOf(k)} <==> h in st.experts;
        OtherGroup(c, st, st', d, k, t, h);
      }
    }
  }

  lemma Elsewhere(a: Tensors, b: Tensors, o: Out, p: Out)
    requires SameElsewhere(a, b, o) && p != o
    ensures (p in a <==> p in b) && (p in a ==> a[p] == b[p])
  {
    assert p in a - {o} <==> p in a;
    assert p in b - {o} <==> p in b;
  }

  /** A full group of wrong experts holds one beyond the range. */
  lemma WrongMember(c: Config, st: State, d: map<Key, Tensor>, k: Key, t: Tensor)
    requires k.Expert? && k !in d && GroupIs(c, st, d, GroupOf(k))
    requires 0 < c.nExperts <= |Joining(st, k, t)| && !IsRange(Joining(st, k, t).Keys, c.nExperts)
    ensures exists e: nat :: e >= c.nExperts && Member(GroupOf(k), e) in d[k := t]
  {
    var g, parts := GroupOf(k), Joining(st, k, t);
    JoiningIs(c, st, d, k, t);
    if forall e: nat :: e in parts.Keys ==> e < c.nExperts {
      AllOfRange(parts.Keys, c.nExperts);
    } else {
      var e: nat :| e in parts.Keys && e >= c.nExperts;
      assert Member(g, k.expert) == k;
      assert Member(g, e) in d[k := t];
    }
  }

  // ---- projections and other tensors ----

  function OtherInput(k: Key): Key
    requires k.Input?
  {
    Input(k.layer, !k.ofEmbedding)
  }

  ghost predicate InputsAre(st: State, d: map<Key, Tensor>) {
    (forall k :: k in st.inputs <==> k.Input? && k in d && OtherInput(k) !in d) &&
    (forall k :: k in st.inputs ==> k in d && st.inputs[k] == d[k])
  }

  ghost predicate JoinedAre(d: map<Key, Tensor>, out: Tensors) {
    forall l: nat :: JoinedIs(d, out, l)
  }

  predicate JoinedIs(d: map<Key, Tensor>, out: Tensors, l: nat) {
    (JoinedInput(l) in out <==> Input(l, true) in d && Input(l, false) in d) &&
    (JoinedInput(l) in out ==>
       && out[JoinedInput(l)] == Joined(d[Input(l, true)], d[Input(l, false)])
       && Joinable(Shape(d[Input(l, true)]), Shape(d[Input(l, false)])))
  }

  /** The tensor has been delivered and is written under its own name. */
  predicate Direct(d: map<Key, Tensor>, b: Source, n: Name) {
    match n
    case Plain(_) => n in b
    case Weight(k) => k.Other? && k in d
    case Scale(_) => false
  }

  predicate MappedIs(d: map<Key, Tensor>, b: Source, out: Tensors, n: Name) {
    (Mapped(n) in out <==> Direct(d, b, n)) &&
    (Mapped(n) in out ==> out[Mapped(n)] == if n.Plain? then AsFloat(b[n]) else d[n.key])
  }

  ghost predicate MappedAre(c: Config, d: map<Key, Tensor>, b: Source, out: Tensors) {
    forall n :: MappedIs(d, b, out, n) && (Direct(d, b, n) ==> n in c.known)
  }

  lemma JoinStep(st: State, d: map<Key, Tensor>, k: Key, t: Tensor)
    requires k.Input? && k !in d && InputsAre(st, d) && JoinedAre(d, st.written)
    ensures match JoinInputs(st, k, t)
            case None => CannotJoin(d[k := t], k.layer)
            case Some(st') => InputsAre(st', d[k := t]) && JoinedAre(d[k := t], st'.written)
  {
    hide Joinable, JoinInputs, JoinedIs, InputsAre, CannotJoin;
    JoinsOrNot(st, d, k, t);
    if JoinInputs(st, k, t).Some? {
      var st', d' := JoinInputs(st, k, t).value, d[k := t];
      forall l: nat ensures JoinedIs(d', st'.written, l) {
        assert JoinedIs(d, st.written, l);
        JoinedStep(st, d, k, t, l);
      }
      InputStep(st, d, k, t);
    }
  }

  lemma JoinsOrNot(st: State, d: map<Key, Tensor>, k: Key, t: Tensor)
    requires k.Input? && k !in d && InputsAre(st, d)
    ensures JoinInputs(st, k, t).None? ==> CannotJoin(d[k := t], k.layer)
  {
    hide Joinable;
    InputForms(k);
    assert OtherInput(k) in st.inputs <==> OtherInput(k) in d;
  }

  lemma JoinedStep(st: State, d: map<Key, Tensor>, k: Key, t: Tensor, l: nat)
    requires k.Input? && k !in d && InputsAre(st, d) && JoinedIs(d, st.written, l) && JoinInputs(st, k, t).Some?
    ensures JoinedIs(d[k := t], JoinInputs(st, k, t).value.written, l)
  {
    hide Joinable;
    InputForms(k);
    assert OtherInput(k) in st.inputs <==> OtherInput(k) in d;
    assert OtherInput(OtherInput(k)) == k;
  }

  /** Both projections of a layer are there, and cannot be joined. */
  predicate CannotJoin(d: map<Key, Tensor>, l: nat) {
    var e, h := Input(l, true), Input(l, false);
    e in d && h in d && !Joinable(Shape(d[e]), Shape(d[h]))
  }

  lemma InputStep(st: State, d: map<Key, Tensor>, k: Key, t: Tensor)
    requires k.Input? && k !in d && InputsAre(st, d) && JoinInputs(st, k, t).Some?
    ensures InputsAre(JoinInputs(st, k, t).value, d[k := t])
  {
    hide Joinable;
    var other := OtherInput(k);
    assert other in st.inputs <==> other in d;
    InputForms(k);
    JoinedInputs(st, k, t);
    var inputs := JoinInputs(st, k, t).value.inputs;
    forall j: Key
      ensures (j in inputs <==> j.Input? && j in d[k := t] && OtherInput(j) !in d[k := t]) &&
              (j in inputs ==> inputs[j] == d[k := t][j])
    {
      if j.Input? {
        assert OtherInput(OtherInput(j)) == j;
      }
    }
  }

  lemma JoinedInputs(st: State, k: Key, t: Tensor)
    requires k.Input? && k !in st.inputs && JoinInputs(st, k, t).Some?
    ensures JoinInputs(st, k, t).value.inputs ==
      if OtherInput(k) in st.inputs then st.inputs - {OtherInput(k)} else st.inputs[k := t]
  {
    hide Joinable;
    InputForms(k);
  }

  // ---- the invariant of a run ----

  ghost predicate Collected(c: Config, st: State, d: map<Key, Tensor>, b: Source) {
    GroupsAre(c, st, d) && InputsAre(st, d) && JoinedAre(d, st.written) && MappedAre(c, d, b, st.written)
  }

  ghost predicate Inv(c: Config, st: State, b: Source) {
    PendingIs(c, st, b) && ScalesAre(st, b) && Collected(c, st, Delivered(c, b), b) && AllConvert(c, b)
  }

  lemma ExpertHandled(c: Config, st: State, d: map<Key, Tensor>, b: Source, b': Source, k: Key, t: Tensor)
    requires k.Expert? && k !in d && Collected(c, st, d, b) && SamePlains(b, b')
    ensures match Handle(c, st, k, t)
            case None => CannotStack(c, d[k := t], GroupOf(k))
            case Some(st') => Collected(c, st', d[k := t], b') && st'.pending == st.pending && st'.scales == st.scales
  {
    hide Collect, GroupsAre, FullGroup, CannotStack;
    CollectStep(c, st, d, k, t, k in c.expected);
    CollectFrame(c, st, k, t, k in c.expected);
    var r := Handle(c, st, k, t);
    if r.Some? {
      OutsideGroups(c, st.written, r.value.written, d, b, b', k, t);
      InputsKeep(st, r.value, d, k, t);
    }
  }

  predicate SamePlains(b: Source, b': Source) {
    forall n :: n in b + b' && n.Plain? ==> n in b && n in b' && b[n] == b'[n]
  }

  lemma InputsKeep(st: State, st': State, d: map<Key, Tensor>, k: Key, t: Tensor)
    requires !k.Input? && InputsAre(st, d) && st'.inputs == st.inputs
    ensures InputsAre(st', d[k := t])
  {
  }

  lemma OutsideGroups(c: Config, out: Tensors, out': Tensors, d: map<Key, Tensor>, b: Source, b': Source, k: Key, t: Tensor)
    requires k.Expert? && SameElsewhere(out', out, Experts(GroupOf(k))) && SamePlains(b, b')
    requires JoinedAre(d, out) && MappedAre(c, d, b, out)
    ensures JoinedAre(d[k := t], out') && MappedAre(c, d[k := t], b', out')
  {
    hide SameElsewhere;
    var d' := d[k := t];
    forall l: nat ensures JoinedIs(d', out', l) {
      assert JoinedIs(d, out, l);
      Elsewhere(out', out, Experts(GroupOf(k)), JoinedInput(l));
    }
    forall n: Name ensures MappedIs(d', b', out', n) && (Direct(d', b', n) ==> n in c.known) {
      assert MappedIs(d, b, out, n) && (Direct(d, b, n) ==> n in c.known);
      Elsewhere(out', out, Experts(GroupOf(k)), Mapped(n));
      assert n.Plain? ==> (n in b <==> n in b') && (n in b ==> n in b + b');
    }
  }

  /** Groups do not see a new key that is no expert. */
  lemma GroupsKeep(c: Config, st: State, st': State, d: map<Key, Tensor>, k: Key, t: Tensor)
    requires !k.Expert? && k !in d && GroupsAre(c, st, d) && st'.experts == st.experts
    requires forall g :: SameExperts(st, st', g)
    ensures GroupsAre(c, st', d[k := t])
  {
    hide GroupHolds;
    var d' := d[k := t];
    forall g ensures GroupHolds(c, st', d', g) {
      assert GroupHolds(c, st, d, g) && SameExperts(st, st', g);
      OtherGroup(c, st, st', d, k, t, g);
    }
  }

  predicate SameExperts(st: State, st': State, g: Group) {
    (Experts(g) in st'.written <==> Experts(g) in st.written) &&
    (Experts(g) in st.written ==> st'.written[Experts(g)] == st.written[Experts(g)]) &&
    st'.raw == st.raw
  }

  lemma InputHandled(c: Config, st: State, d: map<Key, Tensor>, b: Source, b': Source, k: Key, t: Tensor)
    requires k.Input? && k !in d && Collected(c, st, d, b) && SamePlains(b, b')
    ensures match JoinInputs(st, k, t)
            case None => CannotJoin(d[k := t], k.layer)
            case Some(st') => Collected(c, st', d[k := t], b') && st'.pending == st.pending && st'.scales == st.scales
  {
    hide GroupsAre, InputsAre, JoinedAre, CannotJoin;
    hide JoinInputs, MappedAre;
    JoinStep(st, d, k, t);
    if JoinInputs(st, k, t).Some? {
      var st' := JoinInputs(st, k, t).value;
      JoinFrame(st, k, t);
      GroupsKeep(c, st, st', d, k, t);
      MappedKeep(c, d, b, st.written, d[k := t], b', st'.written);
    }
  }

  lemma JoinFrame(st: State, k: Key, t: Tensor)
    requires k.Input? && JoinInputs(st, k, t).Some?
    ensures var st' := JoinInputs(st, k, t).value;
      st'.experts == st.experts && (forall g :: SameExperts(st, st', g)) &&
      (forall n :: SameMapped(st.written, st'.written, n)) && st'.pending == st.pending && st'.scales == st.scales
  {
    hide SameExperts, SameMapped, Joinable;
    var st' := JoinInputs(st, k, t).value;
    assert st'.written == st.written ||
      st'.written == st.written[JoinedInput(k.layer) := st'.written[JoinedInput(k.layer)]];
    forall g ensures SameExperts(st, st', g) {
      WrittenElsewhere(st, st', JoinedInput(k.layer), g, Weight(k));
    }
    forall n ensures SameMapped(st.written, st'.written, n) {
      WrittenElsewhere(st, st', JoinedInput(k.layer), Group(0, Gate), n);
    }
  }

  lemma WrittenElsewhere(st: State, st': State, o: Out, g: Group, n: Name)
    requires st'.raw == st.raw && o.JoinedInput?
    requires st'.written == st.written || (o in st'.written && st'.written == st.written[o := st'.written[o]])
    ensures SameExperts(st, st', g) && SameMapped(st.written, st'.written, n)
  {
  }

  predicate SameMapped(out: Tensors, out': Tensors, n: Name) {
    (Mapped(n) in out' <==> Mapped(n) in out) && (Mapped(n) in out ==> out'[Mapped(n)] == out[Mapped(n)])
  }

  lemma MappedKeep(c: Config, d: map<Key, Tensor>, b: Source, out: Tensors, d': map<Key, Tensor>, b': Source, out': Tensors)
    requires MappedAre(c, d, b, out) && SamePlains(b, b') && forall n :: SameMapped(out, out', n)
    requires forall k: Key :: k.Other? ==> (k in d' <==> k in d) && (k in d ==> d'[k] == d[k])
    ensures MappedAre(c, d', b', out')
  {
    forall n: Name ensures MappedIs(d', b', out', n) && (Direct(d', b', n) ==> n in c.known) {
      assert MappedIs(d, b, out, n) && (Direct(d, b, n) ==> n in c.known) && SameMapped(out, out', n);
      assert n.Plain? ==> (n in b <==> n in b') && (n in b ==> n in b + b');
    }
  }

  lemma OtherHandled(c: Config, st: State, d: map<Key, Tensor>, b: Source, b': Source, k: Key, t: Tensor)
    requires k.Other? && k !in d && Collected(c, st, d, b) && SamePlains(b, b')
    ensures match Write(c, st, Weight(k), t)
            case None => Weight(k) !in c.known
            case Some(st') => Collected(c, st', d[k := t], b') && st'.pending == st.pending && st'.scales == st.scales
  {
    hide GroupsAre, InputsAre, JoinedAre, MappedAre;
    if Weight(k) in c.known {
      var st', d' := Write(c, st, Weight(k), t).value, d[k := t];
      GroupsKeep(c, st, st', d, k, t) by {
        assert forall g :: SameExperts(st, st', g);
      }
      InputsKeep(st, st', d, k, t);
      JoinedKeep(d, st.written, d', st'.written, Weight(k));
      MappedGrow(c, d, b, st.written, k, t);
      PlainsMapped(c, d', b, b', st'.written);
    }
  }

  lemma MappedGrow(c: Config, d: map<Key, Tensor>, b: Source, out: Tensors, k: Key, t: Tensor)
    requires k.Other? && MappedAre(c, d, b, out) && Weight(k) in c.known
    ensures MappedAre(c, d[k := t], b, out[Mapped(Weight(k)) := t])
  {
    var d', out' := d[k := t], out[Mapped(Weight(k)) := t];
    forall n: Name ensures MappedIs(d', b, out', n) && (Direct(d', b, n) ==> n in c.known) {
      assert MappedIs(d, b, out, n) && (Direct(d, b, n) ==> n in c.known);
    }
  }

  lemma PlainsMapped(c: Config, d: map<Key, Tensor>, b: Source, b': Source, out: Tensors)
    requires MappedAre(c, d, b, out) && SamePlains(b, b')
    ensures MappedAre(c, d, b', out)
  {
    hide MappedAre;
    assert forall n :: SameMapped(out, out, n);
    MappedKeep(c, d, b, out, d, b', out);
  }

  lemma JoinedKeep(d: map<Key, Tensor>, out: Tensors, d': map<Key, Tensor>, out': Tensors, n: Name)
    requires JoinedAre(d, out) && Mapped(n) in out' && out' == out[Mapped(n) := out'[Mapped(n)]]
    requires forall l, e :: var k := Input(l, e); (k in d' <==> k in d) && (k in d ==> d'[k] == d[k])
    ensures JoinedAre(d', out')
  {
    forall l: nat ensures JoinedIs(d', out', l) {
      assert JoinedIs(d, out, l);
    }
  }

  lemma PlainArrives(c: Config, st: State, b: Source, n: Name, t: Tensor)
    requires n.Plain? && n !in b && Inv(c, st, b)
    ensures match Write(c, st, n, AsFloat(t))
            case None => n !in c.known
            case Some(st') => Inv(c, st', b[n := t])
  {
    hide GroupsAre, InputsAre, JoinedAre, MappedAre, Value;
    if n in c.known {
      var b', st' := b[n := t], Write(c, st, n, AsFloat(t)).value;
      var d := Delivered(c, b);
      assert forall k :: Ready(c, b', k) <==> Ready(c, b, k);
      SameValues(c, b, b');
      ConvertsSame(c, b, b');
      assert Delivered(c, b') == d;
      GroupsWrite(c, st, st', d, n);
      assert InputsAre(st', d) by { InputsSame(st, st', d); }
      JoinedKeep(d, st.written, d, st'.written, n);
      MappedPlain(c, d, b, st.written, n, t);
    }
  }

  lemma MappedPlain(c: Config, d: map<Key, Tensor>, b: Source, out: Tensors, n: Name, t: Tensor)
    requires n.Plain? && MappedAre(c, d, b, out) && n in c.known
    ensures MappedAre(c, d, b[n := t], out[Mapped(n) := AsFloat(t)])
  {
    var b', out' := b[n := t], out[Mapped(n) := AsFloat(t)];
    forall m: Name ensures MappedIs(d, b', out', m) && (Direct(d, b', m) ==> m in c.known) {
      assert MappedIs(d, b, out, m) && (Direct(d, b, m) ==> m in c.known);
    }
  }

  lemma InputsSame(st: State, st': State, d: map<Key, Tensor>)
    requires InputsAre(st, d) && st'.inputs == st.inputs
    ensures InputsAre(st', d)
  {
  }

  /** What was ready stays as it was. */
  lemma SameValues(c: Config, b: Source, b': Source)
    requires forall n :: n in b ==> n in b' && b'[n] == b[n]
    ensures forall k :: Ready(c, b, k) ==> Ready(c, b', k) && Value(c, b', k) == Value(c, b, k)
  {
  }

  lemma GroupsWrite(c: Config, st: State, st': State, d: map<Key, Tensor>, n: Name)
    requires GroupsAre(c, st, d) && Mapped(n) in st'.written
    requires st' == st.(written := st.written[Mapped(n) := st'.written[Mapped(n)]])
    ensures GroupsAre(c, st', d)
  {
    hide FullGroup, Members, SomeExpected;
    forall g ensures GroupHolds(c, st', d, g) {
      assert GroupHolds(c, st, d, g);
    }
  }

  // ---- what a complete source is ----

  /** All experts of a group have a scale, or none has: only then is its output of one kind. */
  ghost predicate Homogeneous(all: Source) {
    forall g: Group, e: nat, f: nat :: Weight(Member(g, e)) in all && Weight(Member(g, f)) in all ==>
      (Scale(Member(g, e)) in all <==> Scale(Member(g, f)) in all)
  }

  ghost predicate GroupComplete(nExperts: int, all: Source, g: Group) {
    forall e: nat :: Weight(Member(g, e)) in all ==>
      e < nExperts && forall f: nat :: f < nExperts ==> Weight(Member(g, f)) in all
  }

  /** The shape with which an expert goes into its stack: with a scale, 17 bytes for each 16 of the weight. */
  function StackShape(all: Source, k: Key): seq<nat>
    requires Weight(k) in all
  {
    var w := Shape(all[Weight(k)]);
    if Scale(k) !in all then w
    else if |w| == 2 then [w[0], w[1] * BytesEach(all[Weight(k)]) / 16 * 17]
    else []
  }

  ghost predicate GroupStacks(all: Source, g: Group) {
    forall e: nat, f: nat :: Weight(Member(g, e)) in all && Weight(Member(g, f)) in all ==>
      StackShape(all, Member(g, e)) == StackShape(all, Member(g, f))
  }

  /** Both are there or none, and they differ in the second axis at most. */
  predicate InputsJoin(all: Source, l: nat) {
    var e, h := Weight(Input(l, true)), Weight(Input(l, false));
    && (e in all <==> h in all)
    && (e in all ==>
         var s, t := Shape(all[e]), Shape(all[h]);
         |s| >= 2 && |t| >= 2 && s[0] == t[0] && s[2..] == t[2..])
  }

  /** An expert has 16 bytes for each byte of its scale; a scale of another matrix has rows and columns. */
  predicate PairGoes(all: Source, k: Key) {
    Weight(k) in all && Scale(k) in all ==>
      var w, s := Shape(all[Weight(k)]), Shape(all[Scale(k)]);
      if k.Expert? then
        && |w| == 2 && |s| == 2 && w[0] == s[0]
        && w[1] * BytesEach(all[Weight(k)]) == 16 * (s[1] * BytesEach(all[Scale(k)]))
      else |w| == 2 && |s| == 2 ==> s[0] > 0 && s[1] > 0
  }

  lemma PairGoesIs(all: Source, k: Key)
    ensures PairGoes(all, k) <==> (Weight(k) in all && Scale(k) in all ==> Paired(k, all[Weight(k)], all[Scale(k)]))
  {
    if Weight(k) in all && Scale(k) in all && k.Expert? {
      PackableIs(all[Weight(k)], all[Scale(k)]);
    }
  }

  lemma PackableIs(weight: Tensor, scale: Tensor)
    ensures var w, s := Shape(weight), Shape(scale);
      Packable(weight, scale) <==>
        |w| == 2 && |s| == 2 && w[0] == s[0] && w[1] * BytesEach(weight) == 16 * (s[1] * BytesEach(scale))
  {
    hide Shape, BytesEach;
    var w, s := Shape(weight), Shape(scale);
    if |w| == 2 && |s| == 2 {
      assert ByteShape(weight) == [w[0], w[1] * BytesEach(weight)] && ByteShape(scale) == [s[0], s[1] * BytesEach(scale)];
      Sixteenth(w[1] * BytesEach(weight), s[1] * BytesEach(scale));
    }
  }

  lemma Sixteenth(n: nat, m: nat)
    ensures n % 16 == 0 && m == n / 16 <==> n == 16 * m
  {
  }

  lemma JoinableIs(e: seq<nat>, h: seq<nat>)
    ensures Joinable(e, h) <==> |e| >= 2 && |h| >= 2 && e[0] == h[0] && e[2..] == h[2..]
  {
    if |e| >= 2 && |h| >= 2 {
      assert |e| == |e[2..]| + 2 && |h| == |h[2..]| + 2;
      assert |e| == |h| ==> (e[2..] == h[2..] <==> forall i :: 2 <= i < |e| ==> e[i] == e[2..][i - 2] == h[2..][i - 2] == h[i]);
    }
  }

  /** Weights that go with their scales; both projections, fit to be joined, or none; whole groups of experts
      numbered from 0, of one shape each when packed where they have scales; names the format knows, and no
      scale for the head. A scale without its weight goes unnoticed. */
  ghost predicate Complete(c: Config, all: Source) {
    !(Weight(HEAD) in all && Scale(HEAD) in all) &&
    (forall k :: PairGoes(all, k)) &&
    (forall l: nat :: InputsJoin(all, l)) &&
    (forall g: Group :: GroupComplete(c.nExperts, all, g) && GroupStacks(all, g)) &&
    (forall n: Name :: n in all && (n.Plain? || (n.Weight? && n.key.Other?)) ==> n in c.known)
  }

  predicate Extends(b: Source, all: Source) {
    forall n :: n in b ==> n in all && all[n] == b[n]
  }

  /** The configuration is the one read off the source. */
  ghost predicate Fits(c: Config, all: Source) {
    forall k :: k in c.expected <==> Scale(k) in all
  }

  /** What happens when a key becomes ready. */
  lemma ReadyStep(c: Config, st: State, b: Source, b': Source, all: Source, k: Key)
    requires Fits(c, all) && Extends(b, b') && Extends(b', all)
    requires PendingIs(c, st, b') && ScalesAre(st, b') && Collected(c, st, Delivered(c, b), b) && SamePlains(b, b')
    requires !Ready(c, b, k) && Ready(c, b', k)
    requires forall j :: j != k ==> (Ready(c, b', j) <==> Ready(c, b, j))
    requires AllConvert(c, b')
    ensures match Handle(c, st, k, Value(c, b', k))
            case None => !Complete(c, all)
            case Some(st') => Inv(c, st', b')
  {
    hide Collected, Ready, Value, Collect, FullGroup, PendingIs, ScalesAre, JoinInputs, AllConvert, Fits, Complete, CannotStack, CannotJoin;
    var d, v := Delivered(c, b), Value(c, b', k);
    SameValues(c, b, b');
    assert Delivered(c, b') == d[k := v];
    var r := Handle(c, st, k, v);
    if k.Expert? {
      ExpertHandled(c, st, d, b, b', k, v);
      if r.None? {
        StackFails(c, b', all, GroupOf(k));
      }
    } else if k.Input? {
      InputHandled(c, st, d, b, b', k, v);
      if r.None? {
        JoinFails(c, b', all, k.layer);
      }
    } else {
      OtherHandled(c, st, d, b, b', k, v);
      if r.None? {
        NameFails(c, b', all, k);
      }
    }
    if r.Some? {
      PairsKeep(c, st, r.value, b');
    }
  }

  lemma PairsKeep(c: Config, st: State, st': State, b: Source)
    requires PendingIs(c, st, b) && ScalesAre(st, b) && st'.pending == st.pending && st'.scales == st.scales
    ensures PendingIs(c, st', b) && ScalesAre(st', b)
  {
  }

  lemma NameFails(c: Config, b: Source, all: Source, k: Key)
    requires Extends(b, all) && k.Other? && Ready(c, b, k) && Weight(k) !in c.known
    ensures !Complete(c, all)
  {
    assert Weight(k) in all;
  }

  /** What a ready key gives has the shape that the source says. */
  lemma ValueShape(c: Config, b: Source, all: Source, k: Key)
    requires Fits(c, all) && Extends(b, all) && Ready(c, b, k)
    ensures Weight(k) in all && Shape(Value(c, b, k)) == if k.Expert? then StackShape(all, k) else Shape(all[Weight(k)])
  {
    hide Rescaled, Shape, BytesEach;
    assert b[Weight(k)] == all[Weight(k)];
    FloatShape(b[Weight(k)]);
    if k in c.expected && k.Expert? {
      PackedShapeIs(b[Weight(k)], b[Scale(k)]);
    } else if k in c.expected {
      FloatShape(Rescaled(b[Weight(k)], b[Scale(k)]));
    }
  }

  lemma FloatShape(t: Tensor)
    ensures Shape(AsFloat(t)) == Shape(t)
  {
  }

  lemma PackedShapeIs(weight: Tensor, scale: Tensor)
    ensures Shape(Packed(weight, scale)) == PackedShape(ByteShape(weight))
  {
  }

  lemma StackFails(c: Config, b: Source, all: Source, g: Group)
    requires Fits(c, all) && Extends(b, all) && CannotStack(c, Delivered(c, b), g)
    ensures !Complete(c, all)
  {
    hide Ready, Value, Fits, StackShape, InputsJoin, PairGoes;
    var d := Delivered(c, b);
    if e: nat :| e >= c.nExperts && Member(g, e) in d {
      NeedsWeight(c, b, Member(g, e));
      assert Weight(Member(g, e)) in all;
      assert !GroupComplete(c.nExperts, all, g);
    } else {
      var e: nat :| e < c.nExperts && Shape(Members(c, d, g)[e]) != Shape(Members(c, d, g)[0]);
      assert Member(g, e) in d && Member(g, 0) in d;
      ValueShape(c, b, all, Member(g, e));
      ValueShape(c, b, all, Member(g, 0));
      assert !GroupStacks(all, g);
    }
  }

  lemma JoinFails(c: Config, b: Source, all: Source, l: nat)
    requires Fits(c, all) && Extends(b, all) && CannotJoin(Delivered(c, b), l)
    ensures !Complete(c, all)
  {
    hide Ready, Value, Fits, Joinable, PairGoes;
    ValueShape(c, b, all, Input(l, true));
    ValueShape(c, b, all, Input(l, false));
    JoinableIs(Shape(all[Weight(Input(l, true))]), Shape(all[Weight(Input(l, false))]));
    assert !InputsJoin(all, l);
  }

  lemma PairFails(c: Config, b: Source, all: Source, k: Key)
    requires Fits(c, all) && Extends(b, all) && Ready(c, b, k) && !Converts(c, b, k)
    ensures !Complete(c, all)
  {
    hide Paired, PairGoes;
    PairGoesIs(all, k);
    assert !PairGoes(all, k);
  }

  lemma KeyArrives(c: Config, st: State, b: Source, name: Name, t: Tensor, all: Source)
    requires Fits(c, all) && Inv(c, st, b) && name !in b && Extends(b[name := t], all)
    requires !name.Plain?
    ensures match Arrive(c, st, name, t)
            case None => !Complete(c, all)
            case Some(st') => Inv(c, st', b[name := t])
  {
    hide Collected, Ready, Converts, AllConvert, Value, PendingIs, ScalesAre, Handle, Arrive, Complete, SameCollection;
    var b' := b[name := t];
    var st' := Waiting(c, st, b', name);
    ExpectedWhere(c, b, name, t, all);
    PairStep(c, st, b, name, t);
    PendingStep(c, st, b, name, t);
    ScalesStep(c, st, b, name, t);
    OnlyItsKey(c, b, name, t);
    CollectedKeeps(c, st, st', Delivered(c, b), b) by { WaitingKeeps(c, st, b', name); }
    NotYet(c, b, name, all);
    if Ready(c, b', name.key) {
      if Converts(c, b', name.key) {
        ConvertsMore(c, b, b', name.key);
        ReadyStep(c, st', b, b', all, name.key);
      } else {
        PairFails(c, b', all, name.key);
      }
    } else {
      ConvertsSame(c, b, b');
      SameDelivered(c, b, b');
      PlainsKeep(c, st', Delivered(c, b), b, b');
    }
  }

  lemma ConvertsMore(c: Config, b: Source, b': Source, k: Key)
    requires AllConvert(c, b) && Extends(b, b') && Ready(c, b', k) && Converts(c, b', k)
    requires forall j :: j != k ==> (Ready(c, b', j) <==> Ready(c, b, j))
    ensures AllConvert(c, b')
  {
    hide Paired;
    forall j | Ready(c, b', j) ensures Converts(c, b', j) {
      if j != k {
        assert Converts(c, b, j);
      }
    }
  }

  lemma ConvertsSame(c: Config, b: Source, b': Source)
    requires AllConvert(c, b) && Extends(b, b') && forall j :: Ready(c, b', j) <==> Ready(c, b, j)
    ensures AllConvert(c, b')
  {
    hide Paired;
    forall j | Ready(c, b', j) ensures Converts(c, b', j) {
      assert Converts(c, b, j);
    }
  }

  lemma ExpectedWhere(c: Config, b: Source, name: Name, t: Tensor, all: Source)
    requires Fits(c, all) && name !in b && Extends(b[name := t], all) && !name.Plain?
    ensures name.Scale? || Scale(name.key) in b ==> name.key in c.expected
    ensures name in all && Extends(b, b[name := t]) && SamePlains(b, b[name := t])
  {
    assert Scale(name.key) in b ==> Scale(name.key) in b[name := t];
  }

  lemma WaitingKeeps(c: Config, st: State, b': Source, name: Name)
    requires !name.Plain? && name in b'
    ensures SameCollection(st, Waiting(c, st, b', name))
  {
  }

  lemma SameDelivered(c: Config, b: Source, b': Source)
    requires Extends(b, b') && forall k :: Ready(c, b', k) <==> Ready(c, b, k)
    ensures Delivered(c, b') == Delivered(c, b)
  {
    hide Value;
    SameValues(c, b, b');
  }

  /** One arrival keeps the invariant, or shows that the source is not complete. */
  lemma ArriveStep(c: Config, st: State, b: Source, name: Name, t: Tensor, all: Source)
    requires Fits(c, all) && Inv(c, st, b) && name !in b && Extends(b[name := t], all)
    ensures match Arrive(c, st, name, t)
            case None => !Complete(c, all)
            case Some(st') => Inv(c, st', b[name := t])
  {
    hide Inv;
    if name.Plain? {
      PlainArrives(c, st, b, name, t);
      assert name in b[name := t] && name in all;
    } else {
      KeyArrives(c, st, b, name, t, all);
    }
  }

  lemma NotYet(c: Config, b: Source, name: Name, all: Source)
    requires Fits(c, all) && name !in b && name in all && !name.Plain?
    ensures !Ready(c, b, name.key)
  {
  }

  lemma CollectedKeeps(c: Config, st: State, st': State, d: map<Key, Tensor>, b: Source)
    requires Collected(c, st, d, b) && SameCollection(st, st')
    ensures Collected(c, st', d, b)
  {
    hide FullGroup, SomeExpected, Members, MappedAre, JoinedAre;
    forall g ensures GroupHolds(c, st', d, g) {
      assert GroupHolds(c, st, d, g);
    }
  }

  lemma PlainsKeep(c: Config, st: State, d: map<Key, Tensor>, b: Source, b': Source)
    requires Collected(c, st, d, b) && SamePlains(b, b')
    ensures Collected(c, st, d, b')
  {
    hide GroupsAre, InputsAre, JoinedAre, MappedAre;
    PlainsMapped(c, d, b, b', st.written);
  }

  lemma StartHolds(c: Config)
    ensures Inv(c, START, map[])
  {
    hide FullGroup, Members, SomeExpected;
    assert Delivered(c, map[]) == map[];
    forall g ensures GroupHolds(c, START, map[], g) {
      assert Gathered(START, g) == map[];
      NotFull(c, g);
    }
  }

  lemma NotFull(c: Config, g: Group)
    ensures !FullGroup(c, map[], g)
  {
    var none: map<Key, Tensor> := map[];
    assert c.nExperts > 0 ==> Member(g, 0) !in none;
  }

  lemma {:induction false} RunHolds(c: Config, a: Arrivals, all: Source)
    requires Fits(c, all) && EachOnce(a) && Extends(AsMap(a), all)
    ensures match Run(c, START, a)
            case None => !Complete(c, all)
            case Some(st) => Inv(c, st, AsMap(a))
  {
    hide Inv, Arrive, Complete, Fits;
    if a == [] {
      StartHolds(c);
    } else {
      var n := |a| - 1;
      var b := AsMap(a[..n]);
      LastArrival(a);
      RunHolds(c, a[..n], all);
      var r := Run(c, START, a[..n]);
      if r.Some? {
        ArriveStep(c, r.value, b, a[n].0, a[n].1, all);
      }
    }
  }

  lemma LastArrival(a: Arrivals)
    requires a != [] && EachOnce(a)
    ensures var n := |a| - 1;
      EachOnce(a[..n]) && a[n].0 !in AsMap(a[..n]) && AsMap(a) == AsMap(a[..n])[a[n].0 := a[n].1] &&
      Extends(AsMap(a[..n]), AsMap(a))
  {
  }

  // ---- the outcome ----

  lemma AllReady(c: Config, all: Source)
    requires Fits(c, all) && !(Weight(HEAD) in all && Scale(HEAD) in all)
    ensures forall k :: Weight(k) in all <==> Ready(c, all, k)
  {
  }

  lemma PendingEmpty(c: Config, st: State, all: Source)
    requires Fits(c, all) && PendingIs(c, st, all)
    ensures st.pending == map[] <==> !(Weight(HEAD) in all && Scale(HEAD) in all)
  {
    if Weight(HEAD) in all && Scale(HEAD) in all {
      assert HEAD in st.pending;
    } else {
      AllReady(c, all);
      assert forall k :: k !in st.pending;
    }
  }

  lemma InputsEmpty(st: State, d: map<Key, Tensor>)
    requires InputsAre(st, d)
    ensures st.inputs == map[] <==> forall l: nat :: Input(l, true) in d <==> Input(l, false) in d
  {
    if forall l: nat :: Input(l, true) in d <==> Input(l, false) in d {
      forall k ensures k !in st.inputs {
        InputForms(k);
      }
    } else {
      var l: nat :| !(Input(l, true) in d <==> Input(l, false) in d);
      assert Input(l, true) in st.inputs || Input(l, false) in st.inputs;
    }
  }

  lemma InputForms(k: Key)
    ensures k.Input? ==> k == Input(k.layer, true) || k == Input(k.layer, false)
  {
  }

  lemma FullInSource(c: Config, d: map<Key, Tensor>, all: Source, g: Group)
    requires forall e: nat :: Member(g, e) in d <==> Weight(Member(g, e)) in all
    ensures FullGroup(c, d, g) <==> c.nExperts > 0 && forall f: nat :: f < c.nExperts ==> Weight(Member(g, f)) in all
  {
  }

  lemma GroupEmpty(c: Config, st: State, all: Source, g: Group)
    requires GroupIs(c, st, Delivered(c, all), g) && forall k :: Weight(k) in all <==> Ready(c, all, k)
    ensures g !in st.experts <==> GroupComplete(c.nExperts, all, g)
  {
    var d, held := Delivered(c, all), Gathered(st, g);
    assert forall e: nat :: Member(g, e) in d <==> Weight(Member(g, e)) in all;
    if g !in st.experts {
      assert held == map[];
      forall e: nat | Weight(Member(g, e)) in all
        ensures e < c.nExperts && forall f: nat :: f < c.nExperts ==> Weight(Member(g, f)) in all
      {
        assert Member(g, e) in d && e !in held;
      }
    } else {
      assert held != map[];
      var e: nat :| e in held;
      assert Member(g, e) in d && !(FullGroup(c, d, g) && e < c.nExperts);
      FullInSource(c, d, all, g);
      assert Weight(Member(g, e)) in all;
    }
  }

  lemma ExpertsEmpty(c: Config, st: State, all: Source)
    requires GroupsAre(c, st, Delivered(c, all)) && forall k :: Weight(k) in all <==> Ready(c, all, k)
    ensures st.experts == map[] <==> forall g: Group :: GroupComplete(c.nExperts, all, g)
  {
    hide GroupIs, GroupComplete, StackIs, Ready;
    var d := Delivered(c, all);
    forall g: Group ensures g !in st.experts <==> GroupComplete(c.nExperts, all, g) {
      assert GroupHolds(c, st, d, g);
      GroupEmpty(c, st, all, g);
    }
    if st.experts != map[] {
      var g :| g in st.experts;
      assert !GroupComplete(c.nExperts, all, g);
    }
  }

  lemma PairsFit(c: Config, all: Source)
    requires Fits(c, all) && AllConvert(c, all) && !(Weight(HEAD) in all && Scale(HEAD) in all)
    ensures forall k :: PairGoes(all, k)
  {
    hide Paired, PairGoes;
    forall k ensures PairGoes(all, k) {
      PairGoesIs(all, k);
      if Weight(k) in all && Scale(k) in all {
        assert Converts(c, all, k);
      }
    }
  }

  lemma InputsFit(c: Config, all: Source, out: Tensors, l: nat)
    requires Fits(c, all) && JoinedIs(Delivered(c, all), out, l) && forall k :: Weight(k) in all <==> Ready(c, all, k)
    requires Weight(Input(l, true)) in all <==> Weight(Input(l, false)) in all
    ensures InputsJoin(all, l)
  {
    hide Ready, Value, Joinable, Fits;
    if Weight(Input(l, true)) in all {
      ValueShape(c, all, all, Input(l, true));
      ValueShape(c, all, all, Input(l, false));
      JoinableIs(Shape(all[Weight(Input(l, true))]), Shape(all[Weight(Input(l, false))]));
    }
  }

  lemma StacksFit(c: Config, st: State, all: Source, g: Group)
    requires Fits(c, all) && GroupHolds(c, st, Delivered(c, all), g) && forall k :: Weight(k) in all <==> Ready(c, all, k)
    requires GroupComplete(c.nExperts, all, g)
    ensures GroupStacks(all, g)
  {
    hide Ready, Value, Fits, StackShape, GroupIs, SomeExpected;
    var d := Delivered(c, all);
    forall e: nat, f: nat | Weight(Member(g, e)) in all && Weight(Member(g, f)) in all
      ensures StackShape(all, Member(g, e)) == StackShape(all, Member(g, f))
    {
      FullInSource(c, d, all, g);
      assert FullGroup(c, d, g);
      assert Shape(Members(c, d, g)[e]) == Shape(Members(c, d, g)[0]) == Shape(Members(c, d, g)[f]);
      ValueShape(c, all, all, Member(g, e));
      ValueShape(c, all, all, Member(g, f));
    }
  }

  lemma FinishExactly(c: Config, st: State, all: Source)
    requires Fits(c, all) && Inv(c, st, all)
    ensures Finish(st).Some? <==> Complete(c, all)
  {
    hide GroupsAre, GroupComplete, GroupStacks, InputsAre, JoinedAre, AllConvert, InputsJoin, PairGoes, Fits, PendingIs, Ready, Value;
    PendingEmpty(c, st, all);
    if Complete(c, all) {
      InputsBoth(all);
    }
    if !(Weight(HEAD) in all && Scale(HEAD) in all) {
      AllReady(c, all);
      var d := Delivered(c, all);
      InputsEmpty(st, d);
      ExpertsEmpty(c, st, all);
      assert forall l: nat :: (Input(l, true) in d <==> Weight(Input(l, true)) in all) && (Input(l, false) in d <==> Weight(Input(l, false)) in all);
      forall n: Name | n in all && (n.Plain? || (n.Weight? && n.key.Other?)) ensures n in c.known {
        assert MappedIs(d, all, st.written, n) && (Direct(d, all, n) ==> n in c.known);
      }
      PairsFit(c, all);
      if st.inputs == map[] && st.experts == map[] {
        AllFit(c, st, all);
      }
    }
  }

  lemma InputsBoth(all: Source)
    requires forall l: nat :: InputsJoin(all, l)
    ensures forall l: nat :: Weight(Input(l, true)) in all <==> Weight(Input(l, false)) in all
  {
    forall l: nat ensures Weight(Input(l, true)) in all <==> Weight(Input(l, false)) in all {
      assert InputsJoin(all, l);
    }
  }

  lemma AllFit(c: Config, st: State, all: Source)
    requires Fits(c, all) && Inv(c, st, all) && forall k :: Weight(k) in all <==> Ready(c, all, k)
    requires forall l: nat :: Weight(Input(l, true)) in all <==> Weight(Input(l, false)) in all
    requires forall g: Group :: GroupComplete(c.nExperts, all, g)
    ensures forall l: nat :: InputsJoin(all, l)
    ensures forall g: Group :: GroupStacks(all, g)
  {
    hide GroupHolds, GroupComplete, GroupStacks, InputsAre, MappedAre, JoinedIs, InputsJoin, Fits, PendingIs, ScalesAre, AllConvert, Ready, Value;
    var d := Delivered(c, all);
    forall l: nat ensures InputsJoin(all, l) {
      assert JoinedIs(d, st.written, l);
      InputsFit(c, all, st.written, l);
    }
    forall g: Group ensures GroupStacks(all, g) {
      assert GroupHolds(c, st, d, g);
      StacksFit(c, st, all, g);
    }
  }

  /** The stack of a group: expert e in place e. */
  ghost predicate StackOfGroup(c: Config, all: Source, g: Group, t: Tensor) {
    t.Stacked? && |t.parts| == c.nExperts &&
    forall e: nat :: e < c.nExperts ==>
      Ready(c, all, Member(g, e)) && t.parts[e] == Value(c, all, Member(g, e))
  }

  ghost predicate SomeScaled(c: Config, all: Source, g: Group, scaled: bool) {
    exists e: nat :: e < c.nExperts && Weight(Member(g, e)) in all && (Scale(Member(g, e)) in all) == scaled
  }

  /** What the two outputs hold: all that arrived, each weight with its own scale, experts packed only
      where some expert of the group has a scale, and unpacked only where some has none. */
  ghost predicate Holds(c: Config, all: Source, written: Tensors, raw: Tensors, o: Out) {
    match o
    case Experts(g) =>
      (Weight(Member(g, 0)) in all <==> o in written || o in raw) && !(o in written && o in raw) &&
      (o in written ==> StackOfGroup(c, all, g, written[o]) && SomeScaled(c, all, g, false)) &&
      (o in raw ==> StackOfGroup(c, all, g, raw[o]) && SomeScaled(c, all, g, true))
    case JoinedInput(l) =>
      var e, h := Input(l, true), Input(l, false);
      o !in raw && (o in written <==> Weight(e) in all) &&
      (o in written ==> Ready(c, all, e) && Ready(c, all, h) && written[o] == Joined(Value(c, all, e), Value(c, all, h)))
    case Mapped(n) =>
      o !in raw && (o in written <==> n in all && (n.Plain? || (n.Weight? && n.key.Other?))) &&
      (o in written && n.Plain? ==> written[o] == AsFloat(all[n])) &&
      (o in written && n.Weight? ==> Ready(c, all, n.key) && written[o] == Value(c, all, n.key))
  }

  predicate RawOnlyExperts(raw: Tensors) {
    forall o :: o in raw ==> o.Experts?
  }

  lemma {:induction false} RunRaw(c: Config, a: Arrivals)
    ensures Run(c, START, a).Some? ==> RawOnlyExperts(Run(c, START, a).value.raw)
  {
    if a != [] {
      RunRaw(c, a[..|a| - 1]);
      var st := Run(c, START, a[..|a| - 1]);
      if st.Some? {
        ArriveRaw(c, st.value, a[|a| - 1].0, a[|a| - 1].1);
      }
    }
  }

  lemma ArriveRaw(c: Config, st: State, name: Name, t: Tensor)
    requires RawOnlyExperts(st.raw)
    ensures Arrive(c, st, name, t).Some? ==> RawOnlyExperts(Arrive(c, st, name, t).value.raw)
  {
    hide Collect, JoinInputs, Write, Pair, Deliver;
    match name
    case Scale(k) =>
      if k in st.pending {
        PairRaw(c, st.(pending := st.pending - {k}, scales := st.scales - {k}), k, st.pending[k], t);
      }
    case Weight(k) =>
      DeliverRaw(c, st, k, AsFloat(t));
      if k in st.scales {
        PairRaw(c, st.(scales := st.scales - {k}), k, t, st.scales[k]);
      }
    case Plain(_) => WriteRaw(c, st, name, AsFloat(t));
  }

  lemma PairRaw(c: Config, st: State, k: Key, weight: Tensor, scale: Tensor)
    requires RawOnlyExperts(st.raw)
    ensures Pair(c, st, k, weight, scale).Some? ==> RawOnlyExperts(Pair(c, st, k, weight, scale).value.raw)
  {
    hide Collect, Deliver, Packable, Dequantizable, Rescaled, RawOnlyExperts;
    HandleRaw(c, st, k, Packed(weight, scale), true);
    DeliverRaw(c, st, k, AsFloat(Rescaled(weight, scale)));
  }

  lemma DeliverRaw(c: Config, st: State, k: Key, t: Tensor)
    requires RawOnlyExperts(st.raw)
    ensures Deliver(c, st, k, t).Some? ==> RawOnlyExperts(Deliver(c, st, k, t).value.raw)
  {
    hide Collect, JoinInputs, Write, RawOnlyExperts;
    HandleRaw(c, st, k, t, false);
  }

  lemma HandleRaw(c: Config, st: State, k: Key, t: Tensor, packed: bool)
    requires RawOnlyExperts(st.raw)
    ensures k.Expert? && Collect(c, st, k, t, packed).Some? ==> RawOnlyExperts(Collect(c, st, k, t, packed).value.raw)
    ensures k.Input? && JoinInputs(st, k, t).Some? ==> JoinInputs(st, k, t).value.raw == st.raw
    ensures Write(c, st, Weight(k), t).Some? ==> Write(c, st, Weight(k), t).value.raw == st.raw
  {
    hide StackOf, IsRange, Gathered, SameShapes, InOrder, Joinable;
  }

  lemma WriteRaw(c: Config, st: State, name: Name, t: Tensor)
    ensures Write(c, st, name, t).Some? ==> Write(c, st, name, t).value.raw == st.raw
  {
  }

  lemma StackOfAll(c: Config, all: Source, g: Group)
    requires forall f: nat :: f < c.nExperts ==> Weight(Member(g, f)) in all
    requires forall k :: Weight(k) in all <==> Ready(c, all, k)
    ensures FullGroup(c, Delivered(c, all), g) ==> StackOfGroup(c, all, g, Stacked(Members(c, Delivered(c, all), g)))
  {
    hide Value, Ready;
  }

  lemma GroupOutcome(c: Config, st: State, all: Source, g: Group)
    requires Fits(c, all) && Complete(c, all) && Inv(c, st, all)
    ensures Holds(c, all, st.written, st.raw, Experts(g))
  {
    hide Value, GroupsAre, Ready, StackOfGroup, SomeScaled, SomeExpected, Members, GroupIs;
    var d := Delivered(c, all);
    AllReady(c, all);
    GroupAt(c, st, d, g);
    assert GroupComplete(c.nExperts, all, g);
    assert forall e: nat :: Member(g, e) in d <==> Weight(Member(g, e)) in all;
    FullInSource(c, d, all, g);
    if FullGroup(c, d, g) {
      assert Weight(Member(g, 0)) in all;
      StackOfAll(c, all, g);
      SomeOf(c, all, g, true);
      SomeOf(c, all, g, false);
    }
  }

  lemma SomeOf(c: Config, all: Source, g: Group, scaled: bool)
    requires Fits(c, all) && forall f: nat :: f < c.nExperts ==> Weight(Member(g, f)) in all
    ensures SomeExpected(c, g, scaled) ==> SomeScaled(c, all, g, scaled)
  {
    if SomeExpected(c, g, scaled) {
      var e: nat :| e < c.nExperts && (Member(g, e) in c.expected) == scaled;
      assert Weight(Member(g, e)) in all && (Scale(Member(g, e)) in all) == scaled;
    }
  }

  lemma GroupAt(c: Config, st: State, d: map<Key, Tensor>, g: Group)
    requires GroupsAre(c, st, d)
    ensures GroupHolds(c, st, d, g)
  {
  }

  lemma Outcome(c: Config, st: State, all: Source, o: Out)
    requires Fits(c, all) && Complete(c, all) && Inv(c, st, all) && RawOnlyExperts(st.raw)
    ensures Holds(c, all, st.written, st.raw, o)
  {
    match o
    case Experts(g) => GroupOutcome(c, st, all, g);
    case JoinedInput(l) => JoinedOutcome(c, st, all, l);
    case Mapped(n) => MappedOutcome(c, st, all, n);
  }

  lemma JoinedOutcome(c: Config, st: State, all: Source, l: nat)
    requires Fits(c, all) && Complete(c, all) && Inv(c, st, all) && RawOnlyExperts(st.raw)
    ensures Holds(c, all, st.written, st.raw, JoinedInput(l))
  {
    hide GroupsAre, GroupComplete, GroupStacks, MappedAre, InputsAre, PendingIs, ScalesAre, AllConvert, PairGoes, Value, Ready, Joinable;
    var d := Delivered(c, all);
    AllReady(c, all);
    assert JoinedIs(d, st.written, l) && InputsJoin(all, l);
    assert Input(l, true) in d <==> Weight(Input(l, true)) in all;
  }

  lemma MappedOutcome(c: Config, st: State, all: Source, n: Name)
    requires Fits(c, all) && Complete(c, all) && Inv(c, st, all) && RawOnlyExperts(st.raw)
    ensures Holds(c, all, st.written, st.raw, Mapped(n))
  {
    hide GroupsAre, GroupComplete, GroupStacks, JoinedAre, InputsAre, PendingIs, ScalesAre, AllConvert, PairGoes, InputsJoin, Value, Ready;
    var d := Delivered(c, all);
    AllReady(c, all);
    assert MappedIs(d, all, st.written, n);
  }

  lemma ConfigFits(a: Arrivals, nExperts: int, known: set<Name>)
    ensures Fits(ConfigOf(AsMap(a), nExperts, known), AsMap(a))
  {
    var all := AsMap(a);
    var c := ConfigOf(all, nExperts, known);
    forall k ensures k in c.expected <==> Scale(k) in all {
      assert Scale(k) in all ==> Scale(k).key in c.expected;
    }
  }

  /** Whatever the order, an export succeeds exactly when the source is complete, and then holds
      exactly what the source holds. */
  lemma ExportExactly(a: Arrivals, nExperts: int, known: set<Name>)
    requires EachOnce(a)
    ensures var c := ConfigOf(AsMap(a), nExperts, known);
      match Export(a, nExperts, known)
      case None => !Complete(c, AsMap(a))
      case Some((w, r)) => Complete(c, AsMap(a)) && forall o :: Holds(c, AsMap(a), w, r, o)
  {
    hide Inv, Complete, Fits, Holds;
    var all := AsMap(a);
    var c := ConfigOf(all, nExperts, known);
    ConfigFits(a, nExperts, known);
    RunHolds(c, a, all);
    RunRaw(c, a);
    var run := Run(c, START, a);
    if run.Some? {
      FinishExactly(c, run.value, all);
      if Complete(c, all) {
        forall o ensures Holds(c, all, run.value.written, run.value.raw, o) {
          Outcome(c, run.value, all, o);
        }
      }
    }
  }

  lemma SameHolds(c: Config, all: Source, w: Tensors, r: Tensors, w': Tensors, r': Tensors, o: Out)
    requires Holds(c, all, w, r, o) && Holds(c, all, w', r', o) && Homogeneous(all)
    ensures (o in w <==> o in w') && (o in r <==> o in r') && (o in w ==> w[o] == w'[o]) && (o in r ==> r[o] == r'[o])
  {
    hide Value;
    match o
    case Experts(g) =>
      OneKind(c, all, g);
      if o in w {
        SameStack(c, all, g, w[o], w'[o]);
      } else if o in r {
        SameStack(c, all, g, r[o], r'[o]);
      }
    case JoinedInput(l) =>
    case Mapped(n) =>
  }

  lemma OneKind(c: Config, all: Source, g: Group)
    requires Homogeneous(all)
    ensures !(SomeScaled(c, all, g, true) && SomeScaled(c, all, g, false))
  {
  }

  lemma SameStack(c: Config, all: Source, g: Group, s: Tensor, t: Tensor)
    requires StackOfGroup(c, all, g, s) && StackOfGroup(c, all, g, t)
    ensures s == t
  {
    hide Value;
    assert s.parts == t.parts;
  }

  /** The same tensors in another order give the same outputs, or fail alike. */
  lemma OrderIndependent(a: Arrivals, b: Arrivals, nExperts: int, known: set<Name>)
    requires EachOnce(a) && EachOnce(b) && AsMap(a) == AsMap(b) && Homogeneous(AsMap(a))
    ensures Export(a, nExperts, known) == Export(b, nExperts, known)
  {
    hide Complete, Homogeneous, Holds, Export;
    var all := AsMap(a);
    var c := ConfigOf(all, nExperts, known);
    ExportExactly(a, nExperts, known);
    ExportExactly(b, nExperts, known);
    var x, y := Export(a, nExperts, known), Export(b, nExperts, known);
    if x.Some? && y.Some? {
      var (w, r) := x.value;
      var (w', r') := y.value;
      forall o ensures (o in w <==> o in w') && (o in r <==> o in r') && (o in w ==> w[o] == w'[o]) && (o in r ==> r[o] == r'[o]) {
        assert Holds(c, all, w, r, o) && Holds(c, all, w', r', o);
        SameHolds(c, all, w, r, w', r', o);
      }
      assert w == w' && r == r';
    }
  }

  /** Permuted arrivals are the same source. */
  lemma PermutedSource(a: Arrivals, b: Arrivals)
    requires EachOnce(a) && EachOnce(b) && multiset(a) == multiset(b)
    ensures AsMap(a) == AsMap(b)
  {
    hide AsMap;
    AsMapHolds(a);
    AsMapHolds(b);
    forall x ensures x in a <==> x in b {
      assert x in multiset(a) <==> x in multiset(b);
    }
    SourceIncluded(AsMap(a), AsMap(b));
    SourceIncluded(AsMap(b), AsMap(a));
  }

  predicate Pairs(b: Source, n: Name, t: Tensor) {
    n in b && b[n] == t
  }

  lemma SourceIncluded(x: Source, y: Source)
    requires forall n, t :: Pairs(x, n, t) ==> Pairs(y, n, t)
    ensures Extends(x, y)
  {
    forall n | n in x ensures n in y && y[n] == x[n] {
      assert Pairs(x, n, x[n]);
    }
  }

  lemma {:induction false} AsMapHolds(a: Arrivals)
    requires EachOnce(a)
    ensures forall n, t :: (n, t) in a <==> Pairs(AsMap(a), n, t)
  {
    if a != [] {
      var last := |a| - 1;
      LastArrival(a);
      AsMapHolds(a[..last]);
      assert a == a[..last] + [a[last]];
    }
  }

  /** A scale for the head is dropped on arrival, and its weight then waits for ever. */
  lemma HeadScaleFails(a: Arrivals, nExperts: int, known: set<Name>)
    requires EachOnce(a) && Weight(HEAD) in AsMap(a) && Scale(HEAD) in AsMap(a)
    ensures Export(a, nExperts, known) == None
  {
    hide Export;
    ExportExactly(a, nExperts, known);
  }

  // ---- when the order matters ----

  predicate OrderOf(a: Arrivals, all: Source) {
    EachOnce(a) && AsMap(a) == all
  }

  /** Every source can arrive in some order. */
  ghost function Enumerated(all: Source): (a: Arrivals)
    ensures OrderOf(a, all)
    decreases |all|
  {
    if all == map[] then []
    else
      var n :| n in all;
      LastSmaller(all, n);
      Appended(Enumerated(all - {n}), all, n);
      Enumerated(all - {n}) + [(n, all[n])]
  }

  lemma LastSmaller(all: Source, n: Name)
    requires n in all
    ensures |all - {n}| < |all|
  {
    assert (all - {n}).Keys == all.Keys - {n};
    assert |(all - {n}).Keys| < |all.Keys|;
    assert |all - {n}| == |(all - {n}).Keys| && |all| == |all.Keys|;
  }

  lemma Appended(a: Arrivals, all: Source, n: Name)
    requires n in all && OrderOf(a, all - {n})
    ensures OrderOf(a + [(n, all[n])], all)
  {
    var b := a + [(n, all[n])];
    assert b[..|a|] == a;
    assert all == (all - {n})[n := all[n]];
  }

  /** The outputs change, if at all, by the stack of the group, in the output of its kind. */
  lemma CollectOutcome(c: Config, st: State, k: Key, t: Tensor, packed: bool)
    requires k.Expert? && Collect(c, st, k, t, packed).Some?
    ensures var st', o := Collect(c, st, k, t, packed).value, Experts(GroupOf(k));
      && (o in st'.written ==> o in st.written || !packed) && (o in st'.raw ==> o in st.raw || packed)
  {
    hide StackOf, IsRange;
  }

  /** The expert whose weight is the last of all to arrive decides to which output its group goes. */
  lemma LastDecides(a: Arrivals, nExperts: int, known: set<Name>, k: Key)
    requires a != [] && EachOnce(a) && k.Expert? && a[|a| - 1].0 == Weight(k)
    requires Complete(ConfigOf(AsMap(a), nExperts, known), AsMap(a))
    ensures Export(a, nExperts, known).Some?
    ensures Experts(GroupOf(k)) in Export(a, nExperts, known).value.1 <==> Scale(k) in AsMap(a)
  {
    hide Complete, Holds, Fits, Inv, Arrive, GroupsAre, Ready, Value, Collect;
    var all, n := AsMap(a), |a| - 1;
    var c, o := ConfigOf(all, nExperts, known), Experts(GroupOf(k));
    ConfigFits(a, nExperts, known);
    ExportExactly(a, nExperts, known);
    LastArrival(a);
    RunHolds(c, a[..n], all);
    var b, st := AsMap(a[..n]), Run(c, START, a[..n]).value;
    NotYetStacked(c, st, b, all, k);
    LastStep(c, st, b, all, k, a[n].1);
    assert Holds(c, all, Export(a, nExperts, known).value.0, Export(a, nExperts, known).value.1, o);
    InOneOutput(c, all, Export(a, nExperts, known).value.0, Export(a, nExperts, known).value.1, k);
  }

  lemma InOneOutput(c: Config, all: Source, w: Tensors, r: Tensors, k: Key)
    requires k.Expert? && Complete(c, all) && Weight(k) in all && Holds(c, all, w, r, Experts(GroupOf(k)))
    ensures (Experts(GroupOf(k)) in w) != (Experts(GroupOf(k)) in r)
  {
    var g := GroupOf(k);
    assert GroupComplete(c.nExperts, all, g);
    assert Member(g, k.expert) == k && k.expert < c.nExperts;
    assert Weight(Member(g, 0)) in all;
  }

  lemma NotYetStacked(c: Config, st: State, b: Source, all: Source, k: Key)
    requires k.Expert? && Inv(c, st, b) && Weight(k) !in b && Weight(k) in all && Complete(c, all)
    ensures Experts(GroupOf(k)) !in st.written && Experts(GroupOf(k)) !in st.raw
  {
    hide Value, GroupIs, StackIs, InputsAre, JoinedAre, MappedAre, PendingIs, ScalesAre;
    var g, d := GroupOf(k), Delivered(c, b);
    NeedsWeight(c, b, k);
    assert Member(g, k.expert) == k;
    assert GroupComplete(c.nExperts, all, g);
    assert !FullGroup(c, d, g);
    assert GroupHolds(c, st, d, g);
  }

  lemma LastStep(c: Config, st: State, b: Source, all: Source, k: Key, t: Tensor)
    requires k.Expert? && Fits(c, all) && Inv(c, st, b) && Weight(k) !in b && all == b[Weight(k) := t]
    requires Experts(GroupOf(k)) !in st.written && Experts(GroupOf(k)) !in st.raw
    requires Arrive(c, st, Weight(k), t).Some?
    ensures var st', o := Arrive(c, st, Weight(k), t).value, Experts(GroupOf(k));
      (o in st'.written ==> Scale(k) !in all) && (o in st'.raw ==> Scale(k) in all)
  {
    hide Arrive, Collect, Collected, PendingIs, ScalesAre, Value;
    var st0 := Waiting(c, st, all, Weight(k));
    WaitingKeeps(c, st, all, Weight(k));
    PairStep(c, st, b, Weight(k), t);
    assert Ready(c, all, k);
    CollectOutcome(c, st0, k, Value(c, all, k), k in c.expected);
  }

  ghost predicate SameForAllOrders(all: Source, nExperts: int, known: set<Name>) {
    forall a, b :: OrderOf(a, all) && OrderOf(b, all) ==> Export(a, nExperts, known) == Export(b, nExperts, known)
  }

  /** The order of arrival matters exactly for a complete source with a group in which only some experts
      have scales: the last to arrive then decides to which output the whole group goes. */
  lemma OrderMattersExactly(all: Source, nExperts: int, known: set<Name>)
    ensures SameForAllOrders(all, nExperts, known) <==>
      !Complete(ConfigOf(all, nExperts, known), all) || Homogeneous(all)
  {
    hide Complete, Holds, Export, Homogeneous, AsMap, EachOnce;
    if !Complete(ConfigOf(all, nExperts, known), all) || Homogeneous(all) {
      forall a, b | OrderOf(a, all) && OrderOf(b, all) ensures Export(a, nExperts, known) == Export(b, nExperts, known) {
        if Homogeneous(all) {
          OrderIndependent(a, b, nExperts, known);
        } else {
          ExportExactly(a, nExperts, known);
          ExportExactly(b, nExperts, known);
        }
      }
    } else {
      MixedGroupDependsOnOrder(all, nExperts, known);
    }
  }

  /** Two orders of a complete mixed source that end in a scaled and in an unscaled expert. */
  lemma MixedGroupDependsOnOrder(all: Source, nExperts: int, known: set<Name>)
    requires Complete(ConfigOf(all, nExperts, known), all) && !Homogeneous(all)
    ensures exists a, b ::
      && OrderOf(a, all) && OrderOf(b, all)
      && Export(a, nExperts, known).Some? && Export(b, nExperts, known).Some?
      && Export(a, nExperts, known) != Export(b, nExperts, known)
  {
    hide Complete, Export;
    var g: Group, e: nat, f: nat :| Weight(Member(g, e)) in all && Weight(Member(g, f)) in all &&
      Scale(Member(g, e)) in all && Scale(Member(g, f)) !in all;
    var a := EndingIn(all, Member(g, e));
    var b := EndingIn(all, Member(g, f));
    LastDecides(a, nExperts, known, Member(g, e));
    LastDecides(b, nExperts, known, Member(g, f));
    assert GroupOf(Member(g, e)) == GroupOf(Member(g, f)) == g;
  }

  // ---- groups in which only some experts have scales ----

  /** The symbolic packing is refused as the real one is, and has its shape. */
  lemma PackAsBlocks(weight: Mxfp4.Matrix, scale: Mxfp4.Matrix, w: Tensor, s: Tensor)
    requires weight.Valid() && scale.Valid()
    requires ByteShape(w) == [|weight.rows|, weight.width] && ByteShape(s) == [|scale.rows|, scale.width]
    ensures var r := Mxfp4.PackBlocks(weight, scale);
      && (Pack(w, s).Some? <==> r.Ok?)
      && (r.Ok? ==> Shape(Pack(w, s).value) == [|r.value.rows|, r.value.width])
  {
    hide ByteShape, Mxfp4.PackBlocks, Mxfp4.Unpack;
    Mxfp4.PackLossless(weight, scale);
    Mxfp4.WholeBlocks(weight.width, scale.width);
    var r := Mxfp4.PackBlocks(weight, scale);
    if r.Ok? {
      Mxfp4.PackBlocksCases(weight, scale);
      PackedShapeIs(w, s);
    }
  }

  /** An expert with a scale stacks with one without exactly when that has as many rows, and 17 columns for
      each 16 bytes of a row of the first. */
  lemma PackedBeside(all: Source, k: Key, j: Key)
    requires k.Expert? && Weight(k) in all && Scale(k) in all && PairGoes(all, k)
    requires Weight(j) in all && Scale(j) !in all
    ensures var w, u := ByteShape(all[Weight(k)]), Shape(all[Weight(j)]);
      StackShape(all, k) == StackShape(all, j) <==> |u| == 2 && u[0] == w[0] && 16 * u[1] == 17 * w[1]
  {
    hide Shape, BytesEach;
    var w := Shape(all[Weight(k)]);
    assert ByteShape(all[Weight(k)]) == [w[0], w[1] * BytesEach(all[Weight(k)])];
    Seventeen(w[1] * BytesEach(all[Weight(k)]));
  }

  lemma Seventeen(n: nat)
    requires n % 16 == 0
    ensures 16 * (n / 16 * 17) == 17 * n
  {
  }

  /** So a group whose experts have one shape in the source, some with scales and some without, fails in
      every order, unless they are empty. */
  lemma MixedGroupFails(a: Arrivals, nExperts: int, known: set<Name>, k: Key, j: Key)
    requires EachOnce(a) && k.Expert? && j.Expert? && GroupOf(k) == GroupOf(j)
    requires {Weight(k), Scale(k), Weight(j)} <= AsMap(a).Keys && Scale(j) !in AsMap(a)
    requires var s := Shape(AsMap(a)[Weight(k)]); s == Shape(AsMap(a)[Weight(j)]) && (|s| == 2 ==> s[1] > 0)
    ensures Export(a, nExperts, known) == None
  {
    hide Export, StackShape, GroupComplete, InputsJoin;
    ExportExactly(a, nExperts, known);
    var all, c := AsMap(a), ConfigOf(AsMap(a), nExperts, known);
    if Complete(c, all) {
      assert PairGoes(all, k) && GroupStacks(all, GroupOf(k));
      assert k == Member(GroupOf(k), k.expert) && j == Member(GroupOf(k), j.expert);
      PackedBeside(all, k, j);
      var s := Shape(all[Weight(k)]);
      Wider(s[1], BytesEach(all[Weight(k)]));
      assert false;
    }
  }

  lemma Wider(n: nat, itemSize: ItemSize)
    requires n > 0
    ensures 16 * n < 17 * (n * itemSize)
  {
    assert n * itemSize >= n;
  }

  /** Two experts, the second without a scale and 17 bytes wide for the 16 of the first. */
  function Mixed(): Source {
    var g := Group(0, Gate);
    map[Weight(Member(g, 0)) := Tensor.Source(0, [1, 16], 1), Scale(Member(g, 0)) := Tensor.Source(1, [1, 1], 1),
        Weight(Member(g, 1)) := Tensor.Source(2, [1, 17], 1)]
  }

  lemma MixedGroupPossible()
    ensures Complete(ConfigOf(Mixed(), 2, {}), Mixed()) && !SameForAllOrders(Mixed(), 2, {})
  {
    hide SameForAllOrders;
    var all, g := Mixed(), Group(0, Gate);
    var k, j := Member(g, 0), Member(g, 1);
    assert all.Keys == {Weight(k), Scale(k), Weight(j)};
    assert !Homogeneous(all);
    MixedStacks();
    OrderMattersExactly(all, 2, {});
  }

  lemma MixedShapes()
    ensures var all, k, j := Mixed(), Member(Group(0, Gate), 0), Member(Group(0, Gate), 1);
      && {Weight(k), Scale(k), Weight(j)} <= all.Keys && Packable(all[Weight(k)], all[Scale(k)])
      && StackShape(all, k) == StackShape(all, j)
  {
    var all, k, j := Mixed(), Member(Group(0, Gate), 0), Member(Group(0, Gate), 1);
    assert ByteShape(all[Weight(k)]) == [1, 16] && ByteShape(all[Scale(k)]) == [1, 1];
    assert StackShape(all, k) == StackShape(all, j) == [1, 17];
  }

  lemma MixedStacks()
    ensures Complete(ConfigOf(Mixed(), 2, {}), Mixed())
  {
    hide ByteShape, PackedShape, Packable, Dequantizable, Joinable, StackShape;
    var all, g := Mixed(), Group(0, Gate);
    var k, j := Member(g, 0), Member(g, 1);
    assert all.Keys == {Weight(k), Scale(k), Weight(j)};
    MixedShapes();
    forall h: Group ensures GroupComplete(2, all, h) && GroupStacks(all, h) {
      forall e: nat | Weight(Member(h, e)) in all ensures h == g && (e == 0 || e == 1) {
      }
    }
  }

  lemma EndingIn(all: Source, k: Key) returns (a: Arrivals)
    requires Weight(k) in all
    ensures a != [] && a[|a| - 1].0 == Weight(k) && OrderOf(a, all)
  {
    var rest := Enumerated(all - {Weight(k)});
    a := rest + [(Weight(k), all[Weight(k)])];
    Appended(rest, all, Weight(k));
  }
}
