/** The order of tool results told from the messages alone: by the places of the calls they answer. */
module ToolOrder {
  import opened ToolSort

  predicate MakesCalls(m: Message) {
    m.role == Assistant && m.callIds != []
  }

  /** The ids that the last message with calls before position i gives its calls. */
  function CallsBefore(ms: seq<Message>, i: nat): (ids: seq<string>)
    requires i <= |ms|
    ensures (exists c :: LastCalls(ms, i, c) && ids == ms[c].callIds)
         || ((forall c :: 0 <= c < i ==> !MakesCalls(ms[c])) && ids == [])
  {
    if i == 0 then []
    else if MakesCalls(ms[i - 1]) then
      assert LastCalls(ms, i, i - 1);
      ms[i - 1].callIds
    else
      var ids := CallsBefore(ms, i - 1);
      assert forall c :: LastCalls(ms, i - 1, c) ==> LastCalls(ms, i, c);
      ids
  }

  ghost predicate LastCalls(ms: seq<Message>, i: int, c: int) {
    0 <= c < i <= |ms| && MakesCalls(ms[c]) && forall k :: c < k < i ==> !MakesCalls(ms[k])
  }

  /** The last place of an id that is not empty, 0 where there is none. */
  function LastPlace(ids: seq<string>, id: string): (p: nat)
    ensures if id != "" && id in ids then p < |ids| && ids[p] == id && forall q :: p < q < |ids| ==> ids[q] != id
            else p == 0
  {
    if ids == [] || id == "" then 0
    else if ids[|ids| - 1] == id then |ids| - 1
    else
      assert ids == ids[..|ids| - 1] + [ids[|ids| - 1]];
      LastPlace(ids[..|ids| - 1], id)
  }

  /** The place of the call that a message at position i or later in the same run answers. */
  function CallPlace(ms: seq<Message>, i: nat, m: Message): nat
    requires i <= |ms|
  {
    LastPlace(CallsBefore(ms, i), m.toolCallId)
  }

  /** The tool messages of a run that answer the call at one place, in order. */
  function Answering(ms: seq<Message>, i: nat, run: seq<Message>, p: nat): seq<Message>
    requires i <= |ms|
  {
    if run == [] then []
    else
      var m := run[|run| - 1];
      Answering(ms, i, run[..|run| - 1], p) + if m.role == Tool && CallPlace(ms, i, m) == p then [m] else []
  }

  /** Messages of users and tools from i to j, and no other beside them. */
  predicate IsRun(ms: seq<Message>, i: int, j: int) {
    && 0 <= i < j <= |ms|
    && (forall k :: i <= k < j ==> ms[k].role in {User, Tool})
    && (i == 0 || ms[i - 1].role !in {User, Tool}) && (j == |ms| || ms[j].role !in {User, Tool})
  }

  // ---- the same places in the sort ----

  lemma {:induction false} OrderIsCalls(ms: seq<Message>, i: nat)
    requires i <= |ms|
    ensures OrderAt(ms, i, map[]) == OrderOf(CallsBefore(ms, i))
  {
    hide OrderOf;
    if i == 0 {
      NoOrder();
    } else {
      OrderIsCalls(ms, i - 1);
    }
  }

  lemma NoOrder()
    ensures OrderOf([]) == map[]
  {
  }

  lemma KeyIsPlace(ms: seq<Message>, i: nat, m: Message)
    requires i <= |ms|
    ensures Key(m, OrderAt(ms, i, map[])) == CallPlace(ms, i, m)
  {
    hide OrderOf, CallsBefore, LastPlace;
    OrderIsCalls(ms, i);
    var ids := CallsBefore(ms, i);
    assert m.toolCallId in OrderOf(ids) <==> m.toolCallId != "" && m.toolCallId in ids;
  }

  lemma {:induction false} AnsweringIsWithKey(ms: seq<Message>, i: nat, run: seq<Message>, p: nat)
    requires i <= |ms|
    ensures Answering(ms, i, run, p) == WithKey(Tools(run), OrderAt(ms, i, map[]), p)
  {
    hide Key, OrderAt, CallPlace, OrderOf;
    var order := OrderAt(ms, i, map[]);
    if run != [] {
      var n := |run| - 1;
      AnsweringIsWithKey(ms, i, run[..n], p);
      KeyIsPlace(ms, i, run[n]);
      if run[n].role == Tool {
        WithKeySnoc(Tools(run[..n]), run[n], order, p);
      } else {
        assert Tools(run[..n]) + [] == Tools(run[..n]);
      }
    }
  }

  lemma {:induction false} WithKeySnoc(s: seq<Message>, m: Message, order: CallOrder, k: nat)
    ensures WithKey(s + [m], order, k) == WithKey(s, order, k) + if Key(m, order) == k then [m] else []
  {
    hide Key;
    var last := if Key(m, order) == k then [m] else [];
    if s == [] {
      assert s + [m] == [m] && [m][1..] == [] && WithKey([], order, k) == [];
    } else {
      assert (s + [m])[0] == s[0] && (s + [m])[1..] == s[1..] + [m];
      WithKeySnoc(s[1..], m, order, k);
      Regroup(if Key(s[0], order) == k then [s[0]] else [], WithKey(s[1..], order, k), last);
    }
  }

  lemma {:induction false} AscendingApart(s: seq<Message>, order: CallOrder, x: nat, y: nat)
    requires Ascending(s, order) && x < y < |s|
    ensures Key(s[x], order) <= Key(s[y], order)
  {
    hide Key;
    if x + 1 < y {
      AscendingApart(s, order, x, y - 1);
    }
  }

  /** In every run of the result the tool messages come in the order of the calls they answer, and those that
      answer one call, or no known one, as they came. */
  lemma ResultsInCallOrder(ms: seq<Message>, i: nat, j: nat)
    requires IsRun(ms, i, j)
    ensures var out := SortAll(ms, map[]);
      && |out| == |ms|
      && (forall a, b :: i <= a < b < j && out[a].role == out[b].role == Tool ==>
           CallPlace(ms, i, out[a]) <= CallPlace(ms, i, out[b]))
      && (forall p: nat :: Answering(ms, i, out[i..j], p) == Answering(ms, i, ms[i..j], p))
  {
    hide SortAll, SortRun, OrderAt, Key, StableSort, Tools, CallPlace, Answering, Ascending;
    var out, order, run := SortAll(ms, map[]), OrderAt(ms, i, map[]), ms[i..j];
    assert MaximalRun(ms, i, j);
    RunsSorted(ms, map[], i, j);
    SortRunSorts(run, order);
    SortSorts(Tools(run), order);
    assert |out| == |ms| by { Permutes(ms, map[]); }
    var run' := out[i..j];
    forall a, b | i <= a < b < j && out[a].role == out[b].role == Tool
      ensures CallPlace(ms, i, out[a]) <= CallPlace(ms, i, out[b])
    {
      RankTool(run', a - i);
      RankTool(run', b - i);
      RankLater(run', a - i, b - i);
      AscendingApart(Tools(run'), order, Rank(run', a - i), Rank(run', b - i));
      KeyIsPlace(ms, i, out[a]);
      KeyIsPlace(ms, i, out[b]);
    }
    forall p: nat ensures Answering(ms, i, run', p) == Answering(ms, i, run, p) {
      AnsweringIsWithKey(ms, i, run', p);
      AnsweringIsWithKey(ms, i, run, p);
    }
  }

  lemma RankLater(run: seq<Message>, x: nat, y: nat)
    requires x < y < |run| && run[x].role == Tool
    ensures Rank(run, x) < Rank(run, y)
  {
    hide Tools;
    ToolsStep(run, x);
    ToolsPrefix(run, x + 1, y);
  }
}
