/** Printing the arguments of a Gemma tool call as JSON, also while they are still being parsed. */
module Gemma {
  import opened Wrappers
  import opened Json
  import opened JsonValues
  import Streaming

  datatype Rule =
    | Number | Bool | Null | StringContent | String | Array
    | DictKeyName | DictKey | DictKv | Dict | Value | OtherRule

  datatype Tag = Reasoning | Content | Tool | ToolName | ToolArgs | NoTag

  datatype Tree = Tree(rule: Rule, tag: Tag, text: string, children: seq<Tree>, isPartial: bool)

  function ToJson(t: Tree): string {
    if t.text == "" then ""
    else
      match t.rule
      case Number => t.text
      case Bool => t.text
      case Null => t.text
      case StringContent => Escape(t.text)
      case String =>
        if t.children == [] then "\""
        else "\"" + ToJson(t.children[0]) + (if t.isPartial then "" else "\"")
      case Array => "[" + Joined(t.children, false) + (if t.isPartial then "" else "]")
      case DictKeyName => t.text
      case DictKey =>
        "\"" + (if t.children == [] then "" else Escape(ToJson(t.children[0]))) + (if t.isPartial then "" else "\":")
      case DictKv => Concatenated(t.children)
      case Dict => "{" + Joined(t.children, false) + (if t.isPartial then "" else "}")
      case Value => if t.children == [] then "" else ToJson(t.children[0])
      case OtherRule => ""
  }

  function Joined(ts: seq<Tree>, addComma: bool): string {
    if ts == [] then "" else (if addComma then "," else "") + ToJson(ts[0]) + Joined(ts[1..], true)
  }

  function Concatenated(ts: seq<Tree>): string {
    if ts == [] then "" else ToJson(ts[0]) + Concatenated(ts[1..])
  }

  // ---- trees that grow ----

  /** A later tree of the same output: what is complete stays as it is, a partial node keeps its rule,
      its tag, its text and its children, and only its last child may have grown. */
  predicate Grows(t: Tree, u: Tree) {
    t == u ||
    (t.isPartial && t.rule == u.rule && t.tag == u.tag && t.text <= u.text && AllGrow(t.children, u.children))
  }

  predicate AllGrow(ts: seq<Tree>, us: seq<Tree>) {
    ts == [] ||
    (us != [] && if |ts| == 1 then Grows(ts[0], us[0]) else ts[0] == us[0] && AllGrow(ts[1..], us[1..]))
  }

  lemma Under(head: string, x: string, y: string, tail: string)
    requires x <= y
    ensures head + x <= head + y + tail
  {
  }

  lemma {:induction false} JoinedGrows(ts: seq<Tree>, us: seq<Tree>, addComma: bool)
    requires AllGrow(ts, us)
    ensures Joined(ts, addComma) <= Joined(us, addComma)
    decreases ts
  {
    hide ToJson, Grows;
    if ts != [] {
      var comma := if addComma then "," else "";
      if |ts| == 1 {
        TreeGrows(ts[0], us[0]);
        assert ts[1..] == [];
        assert comma + ToJson(ts[0]) + "" == comma + ToJson(ts[0]);
        Under(comma, ToJson(ts[0]), ToJson(us[0]), Joined(us[1..], true));
      } else {
        JoinedGrows(ts[1..], us[1..], true);
        Under(comma + ToJson(ts[0]), Joined(ts[1..], true), Joined(us[1..], true), "");
      }
    }
  }

  lemma {:induction false} ConcatenatedGrows(ts: seq<Tree>, us: seq<Tree>)
    requires AllGrow(ts, us)
    ensures Concatenated(ts) <= Concatenated(us)
    decreases ts
  {
    hide ToJson, Grows;
    if ts != [] {
      if |ts| == 1 {
        TreeGrows(ts[0], us[0]);
        assert ts[1..] == [];
        assert ToJson(ts[0]) + "" == ToJson(ts[0]);
        Under("", ToJson(ts[0]), ToJson(us[0]), Concatenated(us[1..]));
      } else {
        ConcatenatedGrows(ts[1..], us[1..]);
        Under(ToJson(ts[0]), Concatenated(ts[1..]), Concatenated(us[1..]), "");
      }
    }
  }

  lemma {:induction false} FirstGrows(ts: seq<Tree>, us: seq<Tree>)
    requires AllGrow(ts, us) && ts != []
    ensures us != [] && ToJson(ts[0]) <= ToJson(us[0])
    decreases ts, 0
  {
    hide ToJson, Grows;
    if |ts| == 1 {
      TreeGrows(ts[0], us[0]);
    }
  }

  /** What is printed for a tree is a prefix of what is printed for a tree it grows into. */
  lemma {:induction false} TreeGrows(t: Tree, u: Tree)
    requires Grows(t, u)
    ensures ToJson(t) <= ToJson(u)
    decreases t
  {
    hide Grows, AllGrow, Joined, Concatenated;
    if t != u && t.text != "" {
      assert AllGrow(t.children, u.children) && t.isPartial && t.rule == u.rule && t.text <= u.text by { GrowsPartial(t, u); }
      match t.rule
      case StringContent => EscapePrefix(t.text, u.text);
      case String =>
        if t.children != [] {
          FirstGrows(t.children, u.children);
          Under("\"", ToJson(t.children[0]), ToJson(u.children[0]), if u.isPartial then "" else "\"");
        }
      case Array =>
        JoinedGrows(t.children, u.children, false);
        Under("[", Joined(t.children, false), Joined(u.children, false), if u.isPartial then "" else "]");
      case DictKey =>
        if t.children != [] {
          FirstGrows(t.children, u.children);
          EscapePrefix(ToJson(t.children[0]), ToJson(u.children[0]));
          Under("\"", Escape(ToJson(t.children[0])), Escape(ToJson(u.children[0])), if u.isPartial then "" else "\":");
        }
      case DictKv => ConcatenatedGrows(t.children, u.children);
      case Dict =>
        JoinedGrows(t.children, u.children, false);
        Under("{", Joined(t.children, false), Joined(u.children, false), if u.isPartial then "" else "}");
      case Value =>
        if t.children != [] {
          FirstGrows(t.children, u.children);
        }
      case _ =>
    }
  }

  lemma GrowsPartial(t: Tree, u: Tree)
    requires Grows(t, u) && t != u
    ensures t.isPartial && t.rule == u.rule && t.tag == u.tag && t.text <= u.text && AllGrow(t.children, u.children)
  {
  }

  /** So the argument delta between the two can always be computed. */
  lemma DeltaExists(t: Tree, u: Tree)
    requires Grows(t, u)
    ensures var d := Streaming.StringDiff(ToJson(t), ToJson(u)); d.Ok? && ToJson(t) + d.value == ToJson(u)
  {
    hide ToJson;
    TreeGrows(t, u);
  }

  // ---- what a complete tree means ----

  predicate Denotes(t: Tree, v: JsonValue)
    decreases t
  {
    t.rule == Value && t.text != "" && t.children != [] && DenotesChoice(t.children[0], v)
  }

  /** The alternatives of a value in the grammar. */
  predicate DenotesChoice(t: Tree, v: JsonValue)
    decreases t
  {
    t.text != "" &&
    match t.rule
    case String => !t.isPartial && t.children != [] && t.children[0].rule == StringContent && v == Str(t.children[0].text)
    case Array => !t.isPartial && v.Arr? && |t.children| == |v.items| && AllDenote(t.children, v.items)
    case Dict => !t.isPartial && v.Obj? && |t.children| == |v.members| && AllMembers(t.children, v.members)
    case Number => v == Raw(t.text)
    case Bool => v == Raw(t.text)
    case Null => v == Raw(t.text)
    case _ => false
  }

  predicate AllDenote(ts: seq<Tree>, vs: seq<JsonValue>)
    requires |ts| == |vs|
    decreases ts
  {
    ts == [] || (Denotes(ts[0], vs[0]) && AllDenote(ts[1..], vs[1..]))
  }

  predicate AllMembers(ts: seq<Tree>, ms: seq<Member>)
    requires |ts| == |ms|
    decreases ts
  {
    ts == [] || (DenotesMember(ts[0], ms[0]) && AllMembers(ts[1..], ms[1..]))
  }

  predicate DenotesMember(t: Tree, m: Member)
    decreases t
  {
    t.rule == DictKv && t.text != "" && |t.children| == 2 && IsKey(t.children[0], m.key) && Denotes(t.children[1], m.value)
  }

  predicate IsKey(t: Tree, key: string) {
    t.rule == DictKey && t.text != "" && !t.isPartial && t.children != [] &&
    t.children[0].rule == DictKeyName && t.children[0].text == key
  }

  lemma KeyPrints(t: Tree, key: string)
    requires IsKey(t, key)
    ensures ToJson(t) == Dump(key) + ":"
  {
    assert Escape("") == "";
    assert "\"" + Escape(key) + "\":" == "\"" + Escape(key) + "\"" + ":";
  }

  lemma {:induction false} MemberPrints(t: Tree, m: Member)
    requires DenotesMember(t, m)
    ensures ToJson(t) == PrintMember(m)
    decreases t
  {
    hide Dump, Denotes, Print;
    KeyPrints(t.children[0], m.key);
    Prints(t.children[1], m.value);
    var k, v := ToJson(t.children[0]), ToJson(t.children[1]);
    assert t.children[1..] == [t.children[1]] && t.children[1..][1..] == [];
    assert Concatenated(t.children[1..]) == v + "" == v;
    assert Concatenated(t.children) == k + v;
  }

  lemma {:induction false} ItemsPrint(ts: seq<Tree>, vs: seq<JsonValue>, comma: bool)
    requires |ts| == |vs| && AllDenote(ts, vs)
    ensures Joined(ts, comma) == PrintItems(vs, comma)
    decreases ts
  {
    hide ToJson, Print, Denotes;
    if ts != [] {
      Prints(ts[0], vs[0]);
      ItemsPrint(ts[1..], vs[1..], true);
    }
  }

  lemma {:induction false} MembersPrint(ts: seq<Tree>, ms: seq<Member>, comma: bool)
    requires |ts| == |ms| && AllMembers(ts, ms)
    ensures Joined(ts, comma) == PrintMembers(ms, comma)
    decreases ts
  {
    hide ToJson, PrintMember, DenotesMember;
    if ts != [] {
      MemberPrints(ts[0], ms[0]);
      MembersPrint(ts[1..], ms[1..], true);
    }
  }

  lemma {:induction false} ChoicePrints(t: Tree, v: JsonValue)
    requires DenotesChoice(t, v)
    ensures ToJson(t) == Print(v)
    decreases t
  {
    hide Joined, PrintItems, PrintMembers, AllDenote, AllMembers;
    assert Escape("") == "";
    match t.rule
    case Array => ItemsPrint(t.children, v.items, false);
    case Dict => MembersPrint(t.children, v.members, false);
    case _ =>
  }

  /** A complete tree prints the JSON text of the value it stands for. */
  lemma {:induction false} Prints(t: Tree, v: JsonValue)
    requires Denotes(t, v)
    ensures ToJson(t) == Print(v)
    decreases t
  {
    ChoicePrints(t.children[0], v);
  }

  /** The printed arguments of a complete tree are read back as the value it stands for. */
  lemma CompleteReadsBack(t: Tree, v: JsonValue)
    requires Denotes(t, v) && Readable(v)
    ensures ReadValue(ToJson(t)) == Some((v, ""))
  {
    hide Denotes, Readable, ReadValue, ToJson, Print;
    Prints(t, v);
    ReadsBack(v, "");
    assert Print(v) + "" == Print(v);
  }
}
