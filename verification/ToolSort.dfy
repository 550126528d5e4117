/** Ordering tool results by the order in which the assistant called the tools. */
module ToolSort {
  datatype Role = Assistant | User | Tool | Other

  /** callIds are the ids of an assistant's tool calls, empty where a call has none. */
  datatype Message = Message(role: Role, callIds: seq<string>, toolCallId: string, body: string)

  type CallOrder = map<string, nat>

  predicate Calls(m: Message) {
    m.role == Assistant && m.callIds != []
  }

  predicate InRun(m: Message) {
    m.role == User || m.role == Tool
  }

  /** The last position of each id. */
  function OrderOf(ids: seq<string>): (r: CallOrder)
    ensures forall id :: id in r ==> id != "" && r[id] < |ids| && ids[r[id]] == id
    ensures forall i :: 0 <= i < |ids| && ids[i] != "" ==> ids[i] in r && i <= r[ids[i]]
  {
    if ids == [] then map[]
    else
      var n := |ids| - 1;
      var r := OrderOf(ids[..n]);
      if ids[n] == "" then r else r[ids[n] := n]
  }

  function Key(m: Message, order: CallOrder): nat {
    if m.toolCallId in order then order[m.toolCallId] else 0
  }

  // ---- stable sorting ----

  function Insert(x: Message, s: seq<Message>, order: CallOrder): (r: seq<Message>)
    ensures |r| == |s| + 1
  {
    if s == [] || Key(x, order) <= Key(s[0], order) then [x] + s
    else [s[0]] + Insert(x, s[1..], order)
  }

  function StableSort(s: seq<Message>, order: CallOrder): (r: seq<Message>)
    ensures |r| == |s|
  {
    if s == [] then [] else Insert(s[0], StableSort(s[1..], order), order)
  }

  predicate Ascending(s: seq<Message>, order: CallOrder) {
    forall i :: 0 < i < |s| ==> Key(s[i - 1], order) <= Key(s[i], order)
  }

  /** The messages with a given key, in order. */
  function WithKey(s: seq<Message>, order: CallOrder, k: nat): seq<Message> {
    if s == [] then []
    else (if Key(s[0], order) == k then [s[0]] else []) + WithKey(s[1..], order, k)
  }

  /** One sequence is a stable rearrangement of another: messages with equal keys keep their order. */
  ghost predicate Stable(s: seq<Message>, t: seq<Message>, order: CallOrder) {
    forall k :: WithKey(s, order, k) == WithKey(t, order, k)
  }

  lemma AscendingTail(s: seq<Message>, order: CallOrder)
    requires s != []
    ensures Ascending(s, order) <==>
      Ascending(s[1..], order) && (|s| > 1 ==> Key(s[0], order) <= Key(s[1], order))
  {
    var t := s[1..];
    assert forall i :: 0 < i < |t| ==> t[i - 1] == s[i] && t[i] == s[i + 1];
    if Ascending(t, order) && (|s| > 1 ==> Key(s[0], order) <= Key(s[1], order)) {
      forall i | 0 < i < |s| ensures Key(s[i - 1], order) <= Key(s[i], order) {
        if i > 1 {
          assert Key(t[i - 2], order) <= Key(t[i - 1], order);
        }
      }
    }
  }

  lemma {:induction false} InsertSorted(x: Message, s: seq<Message>, order: CallOrder)
    requires Ascending(s, order)
    ensures Ascending(Insert(x, s, order), order)
  {
    hide Key, Ascending;
    AscendingTail([x] + s, order);
    assert ([x] + s)[1..] == s;
    if s == [] {
      AscendingTail([x], order);
    } else if Key(x, order) > Key(s[0], order) {
      AscendingTail(s, order);
      InsertSorted(x, s[1..], order);
      var r := Insert(x, s[1..], order);
      assert r[0] == x || (|s| > 1 && r[0] == s[1]);
      assert ([s[0]] + r)[1..] == r;
      AscendingTail([s[0]] + r, order);
    }
  }

  lemma {:induction false} InsertKeeps(x: Message, s: seq<Message>, order: CallOrder)
    ensures multiset(Insert(x, s, order)) == multiset{x} + multiset(s)
  {
    hide Key;
    if s != [] && Key(x, order) > Key(s[0], order) {
      InsertKeeps(x, s[1..], order);
      assert s == [s[0]] + s[1..];
    }
  }

  lemma {:induction false} InsertStable(x: Message, s: seq<Message>, order: CallOrder, k: nat)
    requires Ascending(s, order)
    ensures WithKey(Insert(x, s, order), order, k) == WithKey([x] + s, order, k)
  {
    assert ([x] + s)[1..] == s;
    if s == [] || Key(x, order) <= Key(s[0], order) {
    } else {
      AscendingTail(s, order);
      InsertStable(x, s[1..], order, k);
      assert ([x] + s[1..])[1..] == s[1..];
      assert ([s[0]] + Insert(x, s[1..], order))[1..] == Insert(x, s[1..], order);
    }
  }

  /** The sort orders by key, loses and adds nothing, and is stable. */
  lemma {:induction false} SortSorts(s: seq<Message>, order: CallOrder)
    ensures Ascending(StableSort(s, order), order)
    ensures multiset(StableSort(s, order)) == multiset(s)
    ensures Stable(s, StableSort(s, order), order)
  {
    if s != [] {
      var rest := StableSort(s[1..], order);
      SortSorts(s[1..], order);
      InsertSorted(s[0], rest, order);
      InsertKeeps(s[0], rest, order);
      assert s == [s[0]] + s[1..];
      forall k ensures WithKey(s, order, k) == WithKey(StableSort(s, order), order, k) {
        InsertStable(s[0], rest, order, k);
        assert ([s[0]] + rest)[1..] == rest;
      }
    }
  }

  lemma {:induction false} KeyAbsent(s: seq<Message>, order: CallOrder, k: nat)
    requires Ascending(s, order) && (s != [] ==> k < Key(s[0], order))
    ensures WithKey(s, order, k) == []
  {
    if s != [] {
      AscendingTail(s, order);
      KeyAbsent(s[1..], order, k);
    }
  }

  lemma HeadKey(s: seq<Message>, t: seq<Message>, order: CallOrder)
    requires s != [] && Ascending(t, order) && Stable(s, t, order)
    ensures t != [] && Key(t[0], order) <= Key(s[0], order)
  {
    var k := Key(s[0], order);
    assert WithKey(s, order, k) != [];
    assert WithKey(t, order, k) == WithKey(s, order, k);
    if t != [] && k < Key(t[0], order) {
      KeyAbsent(t, order, k);
    }
  }

  /** There is only one ascending stable rearrangement. */
  lemma {:induction false} SortUnique(s: seq<Message>, t: seq<Message>, order: CallOrder)
    requires Ascending(s, order) && Ascending(t, order) && Stable(s, t, order)
    ensures s == t
  {
    if s != [] {
      HeadKey(s, t, order);
      HeadKey(t, s, order);
      var k := Key(s[0], order);
      assert WithKey(s, order, k)[0] == s[0] && WithKey(t, order, k)[0] == t[0];
      AscendingTail(s, order);
      AscendingTail(t, order);
      forall j ensures WithKey(s[1..], order, j) == WithKey(t[1..], order, j) {
        assert WithKey(s, order, j) == WithKey(t, order, j);
        var head := if k == j then [s[0]] else [];
        assert (head + WithKey(s[1..], order, j))[|head|..] == WithKey(s[1..], order, j);
        assert (head + WithKey(t[1..], order, j))[|head|..] == WithKey(t[1..], order, j);
      }
      SortUnique(s[1..], t[1..], order);
      assert s == [s[0]] + s[1..] && t == [t[0]] + t[1..];
    } else if t != [] {
      HeadKey(t, s, order);
    }
  }

  lemma SortOfSorted(s: seq<Message>, order: CallOrder)
    requires Ascending(s, order)
    ensures StableSort(s, order) == s
  {
    SortSorts(s, order);
    SortUnique(s, StableSort(s, order), order);
  }

  // ---- one run of user and tool messages ----

  /** The tool messages, in order. */
  function Tools(s: seq<Message>): seq<Message> {
    if s == [] then []
    else
      var n := |s| - 1;
      Tools(s[..n]) + if s[n].role == Tool then [s[n]] else []
  }

  /** How many tool messages come before position i. */
  function Rank(s: seq<Message>, i: nat): nat
    requires i <= |s|
  {
    |Tools(s[..i])|
  }

  lemma ToolsStep(s: seq<Message>, i: nat)
    requires i < |s|
    ensures Tools(s[..i + 1]) == Tools(s[..i]) + if s[i].role == Tool then [s[i]] else []
  {
    assert s[..i + 1][..i] == s[..i];
  }

  lemma {:induction false} ToolsPrefix(s: seq<Message>, i: nat, j: nat)
    requires i <= j <= |s|
    ensures Tools(s[..i]) <= Tools(s[..j])
    decreases j - i
  {
    if i < j {
      ToolsPrefix(s, i, j - 1);
      ToolsStep(s, j - 1);
    }
  }

  lemma RankTool(s: seq<Message>, i: nat)
    requires i < |s| && s[i].role == Tool
    ensures Rank(s, i) < |Tools(s)| && Tools(s)[Rank(s, i)] == s[i]
  {
    ToolsStep(s, i);
    ToolsPrefix(s, i + 1, |s|);
    assert s[..|s|] == s;
  }

  /** Puts messages at the positions of the tool messages. */
  function Place(s: seq<Message>, tools: seq<Message>): (r: seq<Message>)
    requires |tools| == |Tools(s)|
    ensures |r| == |s|
  {
    seq(|s|, i requires 0 <= i < |s| => PlaceAt(s, tools, i))
  }

  function PlaceAt(s: seq<Message>, tools: seq<Message>, i: nat): Message
    requires |tools| == |Tools(s)| && i < |s|
  {
    if s[i].role == Tool then
      RankTool(s, i);
      tools[Rank(s, i)]
    else s[i]
  }

  predicate AllTools(s: seq<Message>) {
    forall i :: 0 <= i < |s| ==> s[i].role == Tool
  }

  lemma PlaceSame(s: seq<Message>)
    ensures Place(s, Tools(s)) == s
  {
    forall i | 0 <= i < |s| ensures PlaceAt(s, Tools(s), i) == s[i] {
      if s[i].role == Tool {
        RankTool(s, i);
      }
    }
  }

  lemma PlaceAtInit(s: seq<Message>, tools: seq<Message>, rest: seq<Message>, i: nat)
    requires i < |s| - 1 && |tools| == |Tools(s)| && rest <= tools && |rest| == |Tools(s[..|s| - 1])|
    ensures PlaceAt(s, tools, i) == PlaceAt(s[..|s| - 1], rest, i)
  {
    hide Tools;
    var n := |s| - 1;
    assert s[..n][..i] == s[..i];
    if s[i].role == Tool {
      RankTool(s[..n], i);
    }
  }

  lemma PlaceInit(s: seq<Message>, tools: seq<Message>, rest: seq<Message>)
    requires s != [] && |tools| == |Tools(s)| && rest <= tools && |rest| == |Tools(s[..|s| - 1])|
    ensures Place(s, tools) == Place(s[..|s| - 1], rest) + [PlaceAt(s, tools, |s| - 1)]
  {
    hide Tools, PlaceAt, Place;
    var n := |s| - 1;
    var a, b := Place(s, tools), Place(s[..n], rest);
    forall i | 0 <= i < n ensures a[i] == b[i] {
      PlaceIs(s, tools, i);
      PlaceIs(s[..n], rest, i);
      PlaceAtInit(s, tools, rest, i);
    }
    PlaceIs(s, tools, n);
  }

  /** Placing into a sequence one message longer. */
  lemma PlaceSnoc(s: seq<Message>, tools: seq<Message>)
    requires s != [] && |tools| == |Tools(s)|
    ensures var n := |s| - 1;
      if s[n].role == Tool then
        tools != [] && |tools| - 1 == |Tools(s[..n])| &&
        Place(s, tools) == Place(s[..n], tools[..|tools| - 1]) + [tools[|tools| - 1]]
      else |tools| == |Tools(s[..n])| && Place(s, tools) == Place(s[..n], tools) + [s[n]]
  {
    hide Tools, PlaceAt, Place;
    var n := |s| - 1;
    assert s[..n + 1] == s;
    ToolsStep(s, n);
    PlaceInit(s, tools, if s[n].role == Tool then tools[..|tools| - 1] else tools);
    PlaceLast(s, tools);
  }

  lemma PlaceIs(s: seq<Message>, tools: seq<Message>, i: nat)
    requires |tools| == |Tools(s)| && i < |s|
    ensures Place(s, tools)[i] == PlaceAt(s, tools, i)
  {
  }

  lemma PlaceLast(s: seq<Message>, tools: seq<Message>)
    requires s != [] && |tools| == |Tools(s)|
    ensures PlaceAt(s, tools, |s| - 1) == if s[|s| - 1].role == Tool then tools[|tools| - 1] else s[|s| - 1]
  {
    ToolsStep(s, |s| - 1);
    assert s[..|s|] == s;
  }

  lemma PlaceRoles(s: seq<Message>, tools: seq<Message>)
    requires |tools| == |Tools(s)| && AllTools(tools)
    ensures forall i :: 0 <= i < |s| ==>
      Place(s, tools)[i].role == s[i].role && (s[i].role != Tool ==> Place(s, tools)[i] == s[i])
  {
    hide Tools, Place;
    forall i | 0 <= i < |s|
      ensures Place(s, tools)[i].role == s[i].role && (s[i].role != Tool ==> Place(s, tools)[i] == s[i])
    {
      PlaceIs(s, tools, i);
      if s[i].role == Tool {
        RankTool(s, i);
      }
    }
  }

  lemma ToolsSnoc(s: seq<Message>, m: Message)
    ensures Tools(s + [m]) == if m.role == Tool then Tools(s) + [m] else Tools(s)
  {
    ToolsStep(s + [m], |s|);
    assert (s + [m])[..|s|] == s && (s + [m])[..|s| + 1] == s + [m];
  }

  lemma {:induction false} ToolsOfPlace(s: seq<Message>, tools: seq<Message>)
    requires |tools| == |Tools(s)| && AllTools(tools)
    ensures Tools(Place(s, tools)) == tools
  {
    hide Place, Tools;
    if s == [] {
      PlaceNothing(tools);
    } else {
      var n := |s| - 1;
      PlaceSnoc(s, tools);
      var rest := if s[n].role == Tool then tools[..|tools| - 1] else tools;
      ToolsOfPlace(s[..n], rest);
      ToolsSnoc(Place(s[..n], rest), if s[n].role == Tool then tools[|tools| - 1] else s[n]);
    }
  }

  lemma {:induction false} PlaceKeeps(s: seq<Message>, tools: seq<Message>)
    requires |tools| == |Tools(s)|
    ensures multiset(Place(s, tools)) + multiset(Tools(s)) == multiset(s) + multiset(tools)
  {
    hide Tools, Place;
    if s == [] {
      PlaceNothing(tools);
    } else {
      var n := |s| - 1;
      PlaceSnoc(s, tools);
      ToolsStep(s, n);
      assert s[..n + 1] == s;
      MultisetSnoc(s);
      if s[n].role == Tool {
        var rest, last := tools[..|tools| - 1], tools[|tools| - 1];
        PlaceKeeps(s[..n], rest);
        MultisetSnoc(tools);
        Exchange(multiset(Place(s[..n], rest)), multiset(Tools(s[..n])), multiset(s[..n]), multiset(rest), last, s[n]);
      } else {
        PlaceKeeps(s[..n], tools);
        var a, b := multiset(Place(s[..n], tools)), multiset(Tools(s[..n]));
        assert (a + multiset{s[n]}) + b == (a + b) + multiset{s[n]};
        assert (multiset(s[..n]) + multiset{s[n]}) + multiset(tools)
            == (multiset(s[..n]) + multiset(tools)) + multiset{s[n]};
      }
    }
  }

  lemma Exchange(a: multiset<Message>, b: multiset<Message>, c: multiset<Message>, d: multiset<Message>,
                 x: Message, y: Message)
    requires a + b == c + d
    ensures (a + multiset{x}) + (b + multiset{y}) == (c + multiset{y}) + (d + multiset{x})
  {
    assert (a + multiset{x}) + (b + multiset{y}) == (a + b) + multiset{x} + multiset{y};
    assert (c + multiset{y}) + (d + multiset{x}) == (c + d) + multiset{x} + multiset{y};
  }

  lemma MultisetSnoc(s: seq<Message>)
    requires s != []
    ensures multiset(s) == multiset(s[..|s| - 1]) + multiset{s[|s| - 1]}
  {
    assert s == s[..|s| - 1] + [s[|s| - 1]];
  }

  lemma PlaceNothing(tools: seq<Message>)
    requires |tools| == |Tools([])|
    ensures tools == [] && Place([], tools) == [] && Tools([]) == []
  {
  }

  function SortRun(run: seq<Message>, order: CallOrder): (r: seq<Message>)
    ensures |r| == |run|
  {
    Place(run, StableSort(Tools(run), order))
  }

  /** With one tool message or without known calls there is nothing to sort. */
  lemma {:induction false} GuardIrrelevant(run: seq<Message>, order: CallOrder)
    requires |Tools(run)| <= 1 || order == map[]
    ensures SortRun(run, order) == run
  {
    SortOfSorted(Tools(run), order);
    PlaceSame(run);
  }

  lemma {:induction false} OnlyTools(s: seq<Message>)
    ensures AllTools(Tools(s))
  {
    if s != [] {
      OnlyTools(s[..|s| - 1]);
    }
  }

  lemma SortedTools(s: seq<Message>, order: CallOrder)
    requires AllTools(s)
    ensures AllTools(StableSort(s, order))
  {
    SortSorts(s, order);
    var r := StableSort(s, order);
    forall i | 0 <= i < |r| ensures r[i].role == Tool {
      assert r[i] in multiset(r) && r[i] in multiset(s) && r[i] in s;
    }
  }

  lemma Cancel(a: multiset<Message>, b: multiset<Message>, c: multiset<Message>)
    requires a + c == b + c
    ensures a == b
  {
    assert forall m :: (a + c)[m] == a[m] + c[m] && (b + c)[m] == b[m] + c[m];
  }

  /** Sorting a run moves only its tool messages, and sorts them stably. */
  lemma SortRunSorts(run: seq<Message>, order: CallOrder)
    ensures var r := SortRun(run, order);
      multiset(r) == multiset(run) && Tools(r) == StableSort(Tools(run), order) &&
      forall i :: 0 <= i < |run| ==> r[i].role == run[i].role && (run[i].role != Tool ==> r[i] == run[i])
  {
    hide Tools, StableSort, Place, Ascending, Stable;
    var tools := StableSort(Tools(run), order);
    OnlyTools(run);
    SortedTools(Tools(run), order);
    SortSorts(Tools(run), order);
    ToolsOfPlace(run, tools);
    PlaceRoles(run, tools);
    PlaceKeeps(run, tools);
    Cancel(multiset(Place(run, tools)), multiset(run), multiset(tools));
  }

  lemma SortRunTwice(run: seq<Message>, order: CallOrder)
    ensures SortRun(SortRun(run, order), order) == SortRun(run, order)
  {
    SortRunSorts(run, order);
    SortSorts(Tools(run), order);
    var r := SortRun(run, order);
    SortOfSorted(Tools(r), order);
    PlaceSame(r);
  }

  // ---- whole conversations ----

  /** Length of the run that a conversation starts with. */
  function RunLen(ms: seq<Message>): (n: nat)
    ensures n <= |ms| && (forall i :: 0 <= i < n ==> InRun(ms[i])) && (n < |ms| ==> !InRun(ms[n]))
  {
    if ms == [] || !InRun(ms[0]) then 0 else 1 + RunLen(ms[1..])
  }

  /** Each run is sorted by the calls of the last assistant message that made any. */
  function SortAll(ms: seq<Message>, order: CallOrder): (r: seq<Message>)
    ensures |r| == |ms|
    decreases |ms|
  {
    if ms == [] then []
    else if Calls(ms[0]) then [ms[0]] + SortAll(ms[1..], OrderOf(ms[0].callIds))
    else if !InRun(ms[0]) then [ms[0]] + SortAll(ms[1..], order)
    else
      var n := RunLen(ms);
      SortRun(ms[..n], order) + SortAll(ms[n..], order)
  }

  method RecordCalls(toolCalls: seq<string>) returns (callOrder: CallOrder)
    ensures callOrder == OrderOf(toolCalls)
  {
    callOrder := map[];
    for idx := 0 to |toolCalls|
      invariant callOrder == OrderOf(toolCalls[..idx])
    {
      assert toolCalls[..idx + 1][..idx] == toolCalls[..idx];
      var id := toolCalls[idx];
      if id != "" {
        callOrder := callOrder[id := idx];
      }
    }
    assert toolCalls[..|toolCalls|] == toolCalls;
  }

  /** The positions of the tool messages of a run, in order. */
  predicate PositionsOf(positions: seq<nat>, run: seq<Message>, base: nat) {
    |positions| == |Tools(run)| &&
    forall t :: 0 <= t < |positions| ==> PositionAt(positions[t], t, run, base)
  }

  predicate PositionAt(position: nat, t: nat, run: seq<Message>, base: nat) {
    base <= position < base + |run| && run[position - base].role == Tool && Rank(run, position - base) == t
  }

  lemma RunLenIs(ms: seq<Message>, n: nat)
    requires n <= |ms| && (forall i :: 0 <= i < n ==> InRun(ms[i])) && (n < |ms| ==> !InRun(ms[n]))
    ensures RunLen(ms) == n
  {
  }

  lemma PositionsGrow(positions: seq<nat>, run: seq<Message>, base: nat, m: Message)
    requires PositionsOf(positions, run, base)
    ensures PositionsOf(if m.role == Tool then positions + [base + |run|] else positions, run + [m], base)
  {
    hide Tools;
    ToolsSnoc(run, m);
    var positions' := if m.role == Tool then positions + [base + |run|] else positions;
    forall t | 0 <= t < |positions'| ensures PositionAt(positions'[t], t, run + [m], base) {
      var i := positions'[t] - base;
      assert t < |positions| ==> PositionAt(positions[t], t, run, base);
      assert (run + [m])[..i] == run[..i];
      assert run[..|run|] == run;
    }
  }

  method CollectRun(adjusted: seq<Message>, i: nat) returns (toolPositions: seq<nat>, runEnd: nat)
    requires i <= |adjusted|
    ensures runEnd == i + RunLen(adjusted[i..]) && runEnd <= |adjusted|
    ensures PositionsOf(toolPositions, adjusted[i..runEnd], i)
  {
    hide Tools, PositionsOf;
    toolPositions := [];
    runEnd := i;
    NoPositions(adjusted[i..i], i);
    while runEnd < |adjusted|
      invariant i <= runEnd <= |adjusted|
      invariant forall k :: i <= k < runEnd ==> InRun(adjusted[k])
      invariant PositionsOf(toolPositions, adjusted[i..runEnd], i)
    {
      PositionsGrow(toolPositions, adjusted[i..runEnd], i, adjusted[runEnd]);
      assert adjusted[i..runEnd] + [adjusted[runEnd]] == adjusted[i..runEnd + 1];
      if adjusted[runEnd].role == Tool {
        toolPositions := toolPositions + [runEnd];
      } else if adjusted[runEnd].role != User {
        break;
      }
      runEnd := runEnd + 1;
    }
    RunLenIs(adjusted[i..], runEnd - i);
  }

  lemma NoPositions(run: seq<Message>, base: nat)
    requires run == []
    ensures PositionsOf([], run, base)
  {
  }

  method Gather(adjusted: seq<Message>, toolPositions: seq<nat>, i: nat, runEnd: nat) returns (results: seq<Message>)
    requires i <= runEnd <= |adjusted| && PositionsOf(toolPositions, adjusted[i..runEnd], i)
    ensures results == Tools(adjusted[i..runEnd])
  {
    hide Tools;
    results := [];
    for k := 0 to |toolPositions|
      invariant results == Tools(adjusted[i..runEnd])[..k]
    {
      assert PositionAt(toolPositions[k], k, adjusted[i..runEnd], i);
      RankTool(adjusted[i..runEnd], toolPositions[k] - i);
      results := results + [adjusted[toolPositions[k]]];
    }
  }

  lemma RankInjective(run: seq<Message>, p: nat, q: nat)
    requires p < |run| && q < |run| && run[p].role == run[q].role == Tool && Rank(run, p) == Rank(run, q)
    ensures p == q
  {
    hide Tools;
    ToolsStep(run, p);
    ToolsStep(run, q);
    if p < q {
      ToolsPrefix(run, p + 1, q);
    } else if q < p {
      ToolsPrefix(run, q + 1, p);
    }
  }

  /** The run after the first k results were written back. */
  predicate Written(now: seq<Message>, before: seq<Message>, i: nat, runEnd: nat, results: seq<Message>, k: nat)
    requires i <= runEnd <= |before| && |results| == |Tools(before[i..runEnd])|
  {
    |now| == |before| &&
    forall p :: 0 <= p < |before| ==>
      now[p] == if InPlace(before, i, runEnd, p, k) then Place(before[i..runEnd], results)[p - i] else before[p]
  }

  /** Position p holds one of the first k tool messages of the run. */
  predicate InPlace(before: seq<Message>, i: nat, runEnd: nat, p: nat, k: nat)
    requires i <= runEnd <= |before|
  {
    i <= p < runEnd && before[p].role == Tool && Rank(before[i..runEnd], p - i) < k
  }

  lemma WriteOne(now: seq<Message>, before: seq<Message>, positions: seq<nat>, i: nat, runEnd: nat,
                 results: seq<Message>, k: nat)
    requires i <= runEnd <= |before| && |results| == |Tools(before[i..runEnd])| && k < |results|
    requires PositionsOf(positions, before[i..runEnd], i) && Written(now, before, i, runEnd, results, k)
    ensures positions[k] < |now| && Written(now[positions[k] := results[k]], before, i, runEnd, results, k + 1)
  {
    hide Tools, Place;
    var run, at := before[i..runEnd], positions[k];
    assert PositionAt(at, k, run, i);
    PlaceIs(run, results, at - i);
    forall p | 0 <= p < |before| && p != at
      ensures InPlace(before, i, runEnd, p, k + 1) <==> InPlace(before, i, runEnd, p, k)
    {
      if i <= p < runEnd && before[p].role == Tool && Rank(run, p - i) == k {
        RankInjective(run, p - i, at - i);
      }
    }
  }

  lemma WrittenAll(now: seq<Message>, before: seq<Message>, i: nat, runEnd: nat, results: seq<Message>)
    requires i <= runEnd <= |before| && |results| == |Tools(before[i..runEnd])|
    requires Written(now, before, i, runEnd, results, |results|)
    ensures now == before[..i] + Place(before[i..runEnd], results) + before[runEnd..]
  {
    hide Tools, Place;
    var run := before[i..runEnd];
    var all := before[..i] + Place(run, results) + before[runEnd..];
    forall p | 0 <= p < |before| ensures now[p] == all[p] {
      if i <= p < runEnd {
        PlaceIs(run, results, p - i);
        if run[p - i].role == Tool {
          RankTool(run, p - i);
        }
      }
    }
  }

  method WriteBack(before: seq<Message>, toolPositions: seq<nat>, i: nat, runEnd: nat, results: seq<Message>)
    returns (adjusted: seq<Message>)
    requires i <= runEnd <= |before| && |results| == |Tools(before[i..runEnd])|
    requires PositionsOf(toolPositions, before[i..runEnd], i)
    ensures adjusted == before[..i] + Place(before[i..runEnd], results) + before[runEnd..]
  {
    hide Tools, Place, Written;
    adjusted := before;
    WrittenNone(before, i, runEnd, results);
    for k := 0 to |toolPositions|
      invariant Written(adjusted, before, i, runEnd, results, k)
    {
      WriteOne(adjusted, before, toolPositions, i, runEnd, results, k);
      adjusted := adjusted[toolPositions[k] := results[k]];
    }
    WrittenAll(adjusted, before, i, runEnd, results);
  }

  lemma WrittenNone(before: seq<Message>, i: nat, runEnd: nat, results: seq<Message>)
    requires i <= runEnd <= |before| && |results| == |Tools(before[i..runEnd])|
    ensures Written(before, before, i, runEnd, results, 0)
  {
  }

  method SortOneRun(before: seq<Message>, toolPositions: seq<nat>, i: nat, runEnd: nat, callOrder: CallOrder)
    returns (adjusted: seq<Message>)
    requires i <= runEnd <= |before| && PositionsOf(toolPositions, before[i..runEnd], i)
    ensures adjusted == before[..i] + SortRun(before[i..runEnd], callOrder) + before[runEnd..]
  {
    hide SortRun, Tools, Place, PositionsOf, StableSort;
    adjusted := before;
    PositionsSize(toolPositions, before[i..runEnd], i);
    if |toolPositions| > 1 && callOrder != map[] {
      var results := Gather(before, toolPositions, i, runEnd);
      results := StableSort(results, callOrder);
      adjusted := WriteBack(before, toolPositions, i, runEnd, results);
      SortRunIs(before[i..runEnd], callOrder);
    } else {
      GuardIrrelevant(before[i..runEnd], callOrder);
    }
  }

  method SortToolResults(messages: seq<Message>) returns (adjusted: seq<Message>)
    ensures adjusted == SortAll(messages, map[])
  {
    hide SortAll, SortRun, Tools, Place, PositionsOf, StableSort, OrderOf;
    adjusted := messages;
    var callOrder: CallOrder := map[];
    var i := 0;
    assert [] + SortAll(messages, map[]) == SortAll(messages, map[]) && messages[0..] == messages;
    while i < |adjusted|
      invariant i <= |adjusted| == |messages|
      invariant adjusted[..i] + SortAll(adjusted[i..], callOrder) == SortAll(messages, map[])
    {
      var msg := adjusted[i];
      if msg.role == Assistant && msg.callIds != [] {
        SkipOne(adjusted, i, callOrder);
        callOrder := RecordCalls(msg.callIds);
        i := i + 1;
        continue;
      }
      if msg.role != User && msg.role != Tool {
        SkipOne(adjusted, i, callOrder);
        i := i + 1;
        continue;
      }
      var toolPositions, runEnd := CollectRun(adjusted, i);
      ghost var before := adjusted;
      SkipRun(adjusted, i, callOrder);
      adjusted := SortOneRun(adjusted, toolPositions, i, runEnd, callOrder);
      assert adjusted[..runEnd] == before[..i] + SortRun(before[i..runEnd], callOrder);
      assert adjusted[runEnd..] == before[runEnd..];
      i := runEnd;
    }
    assert adjusted[..i] == adjusted && SortAll(adjusted[i..], callOrder) == [];
  }

  lemma SortRunIs(run: seq<Message>, order: CallOrder)
    ensures SortRun(run, order) == Place(run, StableSort(Tools(run), order))
  {
  }

  lemma PositionsSize(positions: seq<nat>, run: seq<Message>, base: nat)
    requires PositionsOf(positions, run, base)
    ensures |positions| == |Tools(run)|
  {
  }

  lemma SkipOne(ms: seq<Message>, i: nat, order: CallOrder)
    requires i < |ms| && !InRun(ms[i])
    ensures var order' := if Calls(ms[i]) then OrderOf(ms[i].callIds) else order;
      ms[..i] + SortAll(ms[i..], order) == ms[..i + 1] + SortAll(ms[i + 1..], order')
  {
    hide OrderOf, SortRun;
    var order' := if Calls(ms[i]) then OrderOf(ms[i].callIds) else order;
    assert ms[i..][1..] == ms[i + 1..] && ms[..i] + [ms[i]] == ms[..i + 1];
    assert SortAll(ms[i..], order) == [ms[i]] + SortAll(ms[i + 1..], order');
    Regroup(ms[..i], [ms[i]], SortAll(ms[i + 1..], order'));
  }

  lemma SkipRun(ms: seq<Message>, i: nat, order: CallOrder)
    requires i < |ms| && InRun(ms[i])
    ensures var e := i + RunLen(ms[i..]);
      i < e <= |ms| &&
      ms[..i] + SortAll(ms[i..], order) == (ms[..i] + SortRun(ms[i..e], order)) + SortAll(ms[e..], order)
  {
    hide SortRun, OrderOf;
    var n := RunLen(ms[i..]);
    var head, rest := SortRun(ms[i..i + n], order), SortAll(ms[i + n..], order);
    assert ms[i..][..n] == ms[i..i + n] && ms[i..][n..] == ms[i + n..];
    assert SortAll(ms[i..], order) == head + rest;
    Regroup(ms[..i], head, rest);
  }

  lemma Regroup(a: seq<Message>, b: seq<Message>, c: seq<Message>)
    ensures a + (b + c) == (a + b) + c
  {
  }

  // ---- what the result is ----

  /** The call order in force at position i, when it is order at the start. */
  function OrderAt(ms: seq<Message>, i: nat, order: CallOrder): CallOrder
    requires i <= |ms|
  {
    if i == 0 then order
    else if Calls(ms[i - 1]) then OrderOf(ms[i - 1].callIds)
    else OrderAt(ms, i - 1, order)
  }

  lemma {:induction false} OrderAtDrop(ms: seq<Message>, n: nat, i: nat, order: CallOrder)
    requires n <= i <= |ms|
    ensures OrderAt(ms[n..], i - n, OrderAt(ms, n, order)) == OrderAt(ms, i, order)
    decreases i - n
  {
    hide OrderOf;
    if n < i {
      assert ms[n..][i - n - 1] == ms[i - 1];
      OrderAtDrop(ms, n, i - 1, order);
    }
  }

  lemma {:induction false} NoCallsInRun(ms: seq<Message>, n: nat, order: CallOrder)
    requires n <= |ms| && forall i :: 0 <= i < n ==> InRun(ms[i])
    ensures OrderAt(ms, n, order) == order
  {
    if n > 0 {
      NoCallsInRun(ms, n - 1, order);
    }
  }

  /** A stretch of user and tool messages with none beside it. */
  predicate MaximalRun(ms: seq<Message>, i: int, j: int) {
    0 <= i < j <= |ms| && (forall k :: i <= k < j ==> InRun(ms[k])) &&
    (i > 0 ==> !InRun(ms[i - 1])) && (j < |ms| ==> !InRun(ms[j]))
  }

  lemma MaximalRunDrop(ms: seq<Message>, n: nat, i: nat, j: nat)
    requires MaximalRun(ms, i, j) && n <= i
    ensures MaximalRun(ms[n..], i - n, j - n)
  {
  }

  lemma RunStarts(ms: seq<Message>, i: nat, j: nat)
    requires MaximalRun(ms, i, j)
    ensures if i == 0 then RunLen(ms) == j else RunLen(ms) < i
  {
    if i == 0 {
      RunLenIs(ms, j);
    }
  }

  /** The first block is a run or a single message; the rest is sorted by the order after it. */
  function BlockLen(ms: seq<Message>): (n: nat)
    requires ms != []
    ensures 0 < n <= |ms|
  {
    if InRun(ms[0]) then RunLen(ms) else 1
  }

  lemma FirstBlock(ms: seq<Message>, order: CallOrder)
    requires ms != []
    ensures var n := BlockLen(ms);
      SortAll(ms, order)[n..] == SortAll(ms[n..], OrderAt(ms, n, order)) &&
      SortAll(ms, order)[..n] == if InRun(ms[0]) then SortRun(ms[..n], order) else ms[..n]
  {
    hide SortRun, OrderOf;
    var n := BlockLen(ms);
    if InRun(ms[0]) {
      NoCallsInRun(ms, n, order);
    } else {
      assert OrderAt(ms, 1, order) == if Calls(ms[0]) then OrderOf(ms[0].callIds) else OrderAt(ms, 0, order);
    }
  }

  /** Every maximal run comes out sorted, by the call order in force where it starts. */
  lemma {:induction false} RunsSorted(ms: seq<Message>, order: CallOrder, i: nat, j: nat)
    requires MaximalRun(ms, i, j)
    ensures SortAll(ms, order)[i..j] == SortRun(ms[i..j], OrderAt(ms, i, order))
    decreases |ms|
  {
    hide SortRun, OrderOf, OrderAt, SortAll, MaximalRun;
    FirstRun(ms, i, j, order);
    var n, r := BlockLen(ms), SortAll(ms, order);
    FirstBlock(ms, order);
    if i == 0 {
      assert r[0..j] == r[..j] && ms[0..j] == ms[..j];
    } else {
      MaximalRunDrop(ms, n, i, j);
      RunsSorted(ms[n..], OrderAt(ms, n, order), i - n, j - n);
      OrderAtDrop(ms, n, i, order);
      SliceAfter(r, n, i, j);
      SliceAfter(ms, n, i, j);
    }
  }

  lemma FirstRun(ms: seq<Message>, i: nat, j: nat, order: CallOrder)
    requires MaximalRun(ms, i, j)
    ensures i < j <= |ms|
    ensures if i == 0 then InRun(ms[0]) && BlockLen(ms) == j && OrderAt(ms, i, order) == order
            else BlockLen(ms) <= i
  {
    RunStarts(ms, i, j);
  }

  lemma SliceAfter(s: seq<Message>, n: nat, i: nat, j: nat)
    requires n <= i <= j <= |s|
    ensures s[n..][i - n..j - n] == s[i..j]
  {
  }

  predicate OnlyToolsMove(ms: seq<Message>, r: seq<Message>) {
    |r| == |ms| && forall i :: 0 <= i < |ms| ==> r[i].role == ms[i].role && (ms[i].role != Tool ==> r[i] == ms[i])
  }

  lemma OnlyToolsMoveConcat(a: seq<Message>, a': seq<Message>, b: seq<Message>, b': seq<Message>)
    requires OnlyToolsMove(a, a') && OnlyToolsMove(b, b')
    ensures OnlyToolsMove(a + b, a' + b')
  {
  }

  /** The result is a permutation in which only tool messages have moved. */
  lemma {:induction false} Permutes(ms: seq<Message>, order: CallOrder)
    ensures multiset(SortAll(ms, order)) == multiset(ms) && OnlyToolsMove(ms, SortAll(ms, order))
    decreases |ms|
  {
    hide SortRun, OrderOf, OnlyToolsMove;
    if ms == [] {
      NothingMoves();
    } else {
      var n := if InRun(ms[0]) then RunLen(ms) else 1;
      var order' := if Calls(ms[0]) then OrderOf(ms[0].callIds) else order;
      var head := if InRun(ms[0]) then SortRun(ms[..n], order) else ms[..n];
      assert ms[..1] == [ms[0]] && ms == ms[..n] + ms[n..];
      Permutes(ms[n..], order');
      HeadMoves(ms[..n], order);
      OnlyToolsMoveConcat(ms[..n], head, ms[n..], SortAll(ms[n..], order'));
    }
  }

  lemma NothingMoves()
    ensures OnlyToolsMove([], [])
  {
  }

  lemma HeadMoves(head: seq<Message>, order: CallOrder)
    ensures OnlyToolsMove(head, head) && OnlyToolsMove(head, SortRun(head, order))
    ensures multiset(SortRun(head, order)) == multiset(head)
  {
    hide SortRun;
    SortRunSorts(head, order);
  }

  /** Sorting twice is sorting once. */
  lemma {:induction false} Idempotent(ms: seq<Message>, order: CallOrder)
    ensures SortAll(SortAll(ms, order), order) == SortAll(ms, order)
    decreases |ms|
  {
    hide SortRun, OrderOf, OnlyToolsMove;
    if ms != [] {
      var n := if InRun(ms[0]) then RunLen(ms) else 1;
      var order' := if Calls(ms[0]) then OrderOf(ms[0].callIds) else order;
      Idempotent(ms[n..], order');
      var rest := SortAll(ms[n..], order');
      var r := SortAll(ms, order);
      Permutes(ms, order);
      SameRunLen(ms, r);
      assert r[n..] == rest;
      if InRun(ms[0]) {
        assert r[..n] == SortRun(ms[..n], order);
        SortRunTwice(ms[..n], order);
      } else {
        assert r[0] == ms[0];
      }
    }
  }

  lemma SameRunLen(ms: seq<Message>, r: seq<Message>)
    requires OnlyToolsMove(ms, r)
    ensures RunLen(r) == RunLen(ms) && (ms != [] ==> InRun(ms[0]) == InRun(r[0]))
  {
    RunLenIs(r, RunLen(ms));
  }
}
