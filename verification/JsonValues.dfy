/** JSON values: printing them, and reading them back. */
module JsonValues {
  import opened Wrappers
  import opened Json

  datatype Member = Member(key: string, value: JsonValue)

  /** Raw stands for a number, a boolean or null, by its text. */
  datatype JsonValue = Str(s: string) | Raw(text: string) | Arr(items: seq<JsonValue>) | Obj(members: seq<Member>)

  function Print(v: JsonValue): string {
    match v
    case Str(s) => Dump(s)
    case Raw(text) => text
    case Arr(items) => "[" + PrintItems(items, false) + "]"
    case Obj(members) => "{" + PrintMembers(members, false) + "}"
  }

  function PrintItems(items: seq<JsonValue>, comma: bool): string {
    if items == [] then "" else (if comma then "," else "") + Print(items[0]) + PrintItems(items[1..], true)
  }

  function PrintMember(m: Member): string {
    Dump(m.key) + ":" + Print(m.value)
  }

  function PrintMembers(members: seq<Member>, comma: bool): string {
    if members == [] then ""
    else (if comma then "," else "") + PrintMember(members[0]) + PrintMembers(members[1..], true)
  }

  // ---- reading the printed text ----

  predicate IsTokenChar(c: char) {
    c !in {',', ']', '}', ':', '[', '{', '"'}
  }

  function TokenLen(t: string): (n: nat)
    ensures n <= |t| && (n < |t| ==> !IsTokenChar(t[n])) && forall i :: 0 <= i < n ==> IsTokenChar(t[i])
  {
    if t == "" || !IsTokenChar(t[0]) then 0 else 1 + TokenLen(t[1..])
  }

  /** A JSON value at the start of a text, and the text after it. */
  function ReadValue(t: string): (r: Option<(JsonValue, string)>)
    ensures r.Some? ==> |r.value.1| < |t|
    decreases |t|, 1
  {
    if t == "" then None
    else if t[0] == '"' then
      var (s, rest) :- ReadString(t);
      Some((Str(s), rest))
    else if t[0] == '[' then
      if |t| > 1 && t[1] == ']' then Some((Arr([]), t[2..]))
      else
        var (items, rest) :- ReadItems(t[1..]);
        Some((Arr(items), rest))
    else if t[0] == '{' then
      if |t| > 1 && t[1] == '}' then Some((Obj([]), t[2..]))
      else
        var (members, rest) :- ReadMembers(t[1..]);
        Some((Obj(members), rest))
    else if TokenLen(t) == 0 then None
    else Some((Raw(t[..TokenLen(t)]), t[TokenLen(t)..]))
  }

  /** The items up to the closing bracket; at least one. */
  function ReadItems(t: string): (r: Option<(seq<JsonValue>, string)>)
    ensures r.Some? ==> |r.value.1| < |t|
    decreases |t|, 2
  {
    var (item, rest) :- ReadValue(t);
    if rest == "" then None
    else if rest[0] == ']' then Some(([item], rest[1..]))
    else if rest[0] != ',' then None
    else
      var (items, end) :- ReadItems(rest[1..]);
      Some(([item] + items, end))
  }

  function ReadMembers(t: string): (r: Option<(seq<Member>, string)>)
    ensures r.Some? ==> |r.value.1| < |t|
    decreases |t|, 2
  {
    var (key, afterKey) :- ReadString(t);
    if afterKey == "" || afterKey[0] != ':' then None
    else
      var (value, rest) :- ReadValue(afterKey[1..]);
      if rest == "" then None
      else if rest[0] == '}' then Some(([Member(key, value)], rest[1..]))
      else if rest[0] != ',' then None
      else
        var (members, end) :- ReadMembers(rest[1..]);
        Some(([Member(key, value)] + members, end))
  }

  /** Numbers, booleans and null have no character that ends a token. */
  predicate Readable(v: JsonValue) {
    match v
    case Str(_) => true
    case Raw(text) => text != "" && forall i :: 0 <= i < |text| ==> IsTokenChar(text[i])
    case Arr(items) => forall i :: 0 <= i < |items| ==> Readable(items[i])
    case Obj(members) => forall i :: 0 <= i < |members| ==> Readable(members[i].value)
  }

  /** No token goes on here. */
  predicate Stops(rest: string) {
    rest == "" || !IsTokenChar(rest[0])
  }

  lemma TokenLenIs(a: string, rest: string)
    requires (forall i :: 0 <= i < |a| ==> IsTokenChar(a[i])) && Stops(rest)
    ensures TokenLen(a + rest) == |a|
  {
    hide IsTokenChar;
    assert forall i :: 0 <= i < |a| ==> (a + rest)[i] == a[i];
    assert rest != "" ==> (a + rest)[|a|] == rest[0];
  }

  lemma ReadRaw(text: string, rest: string)
    requires Readable(Raw(text)) && Stops(rest)
    ensures ReadValue(text + rest) == Some((Raw(text), rest))
  {
    hide ReadItems, ReadMembers, TokenLen;
    TokenLenIs(text, rest);
    assert (text + rest)[0] == text[0] && IsTokenChar(text[0]);
    assert (text + rest)[..|text|] == text && (text + rest)[|text|..] == rest;
  }

  lemma PrintStarts(v: JsonValue)
    requires Readable(v)
    ensures Print(v) != "" && Print(v)[0] != ']' && Print(v)[0] != '}'
  {
    hide PrintItems, PrintMembers;
  }

  /** Values print to texts that are read back as the same values. */
  lemma {:induction false} ReadsBack(v: JsonValue, rest: string)
    requires Readable(v) && (v.Raw? ==> Stops(rest))
    ensures ReadValue(Print(v) + rest) == Some((v, rest))
    decreases v, 0
  {
    hide ReadItems, ReadMembers, Dump, PrintItems, PrintMembers, ReadString, TokenLen, Stops;
    match v
    case Str(s) =>
      ReadDump(s, rest);
      assert (Dump(s) + rest)[0] == '"' by { DumpQuoted(s); }
    case Raw(text) => ReadRaw(text, rest);
    case Arr(items) =>
      var t := Print(v) + rest;
      if items == [] {
        assert PrintItems(items, false) == "" by { PrintNothing(); }
        assert t == "[" + "]" + rest && t[2..] == rest;
      } else {
        FirstItem(items);
        assert t[1..] == PrintItems(items, false) + ("]" + rest);
        ItemsReadBack(items, rest);
      }
    case Obj(members) =>
      var t := Print(v) + rest;
      if members == [] {
        assert PrintMembers(members, false) == "" by { PrintNothing(); }
        assert t == "{" + "}" + rest && t[2..] == rest;
      } else {
        FirstMember(members);
        assert t[1..] == PrintMembers(members, false) + ("}" + rest);
        MembersReadBack(members, rest);
      }
  }

  lemma DumpQuoted(s: string)
    ensures Dump(s) != "" && Dump(s)[0] == '"'
  {
  }

  lemma PrintNothing()
    ensures forall comma :: PrintItems([], comma) == "" && PrintMembers([], comma) == ""
  {
  }

  lemma FirstItem(items: seq<JsonValue>)
    requires items != [] && Readable(items[0])
    ensures PrintItems(items, false) != "" && PrintItems(items, false)[0] != ']'
  {
    hide Print, Readable;
    PrintStarts(items[0]);
    assert "" + Print(items[0]) + PrintItems(items[1..], true) == Print(items[0]) + PrintItems(items[1..], true);
  }

  lemma FirstMember(members: seq<Member>)
    requires members != []
    ensures PrintMembers(members, false) != "" && PrintMembers(members, false)[0] != '}'
  {
    hide Dump;
    DumpQuoted(members[0].key);
    assert PrintMember(members[0])[0] == '"';
  }

  lemma {:induction false} ItemsReadBack(items: seq<JsonValue>, rest: string)
    requires items != [] && forall i :: 0 <= i < |items| ==> Readable(items[i])
    ensures ReadItems(PrintItems(items, false) + ("]" + rest)) == Some((items, rest))
    decreases items
  {
    hide ReadValue, Print, Readable, PrintItems, ReadItems;
    var more, tail := items[1..], "]" + rest;
    ItemsShape(items, tail);
    if more == [] {
      ItemReadsBack(items[0], tail);
      assert tail[1..] == rest && items == [items[0]];
    } else {
      var inner := PrintItems(more, false) + tail;
      ItemReadsBack(items[0], "," + inner);
      ItemsReadBack(more, rest);
      assert ("," + inner)[1..] == inner && items == [items[0]] + more;
    }
  }

  lemma {:induction false} ItemsShape(items: seq<JsonValue>, tail: string)
    requires items != []
    ensures PrintItems(items, false) + tail ==
      Print(items[0]) + if |items| == 1 then tail else "," + (PrintItems(items[1..], false) + tail)
  {
    hide Print;
    var x, more := Print(items[0]), items[1..];
    if more == [] {
      assert "" + x + "" + tail == x + tail;
    } else {
      var y := PrintItems(more, false);
      assert PrintItems(more, true) == "," + y;
      assert "" + x + ("," + y) + tail == x + ("," + (y + tail));
    }
  }

  lemma {:induction false} MembersShape(members: seq<Member>, tail: string)
    requires members != []
    ensures PrintMembers(members, false) + tail ==
      PrintMember(members[0]) + if |members| == 1 then tail else "," + (PrintMembers(members[1..], false) + tail)
  {
    hide PrintMember;
    var x, more := PrintMember(members[0]), members[1..];
    if more == [] {
      assert "" + x + "" + tail == x + tail;
    } else {
      var y := PrintMembers(more, false);
      assert PrintMembers(more, true) == "," + y;
      assert "" + x + ("," + y) + tail == x + ("," + (y + tail));
    }
  }

  lemma {:induction false} MembersReadBack(members: seq<Member>, rest: string)
    requires members != [] && forall i :: 0 <= i < |members| ==> Readable(members[i].value)
    ensures ReadMembers(PrintMembers(members, false) + ("}" + rest)) == Some((members, rest))
    decreases members
  {
    hide ReadValue, Readable, PrintMember, PrintMembers, ReadMembers;
    var more, tail := members[1..], "}" + rest;
    MembersShape(members, tail);
    if more == [] {
      MemberReadsBack(members[0], tail);
      assert tail[1..] == rest && members == [members[0]];
    } else {
      var inner := PrintMembers(more, false) + tail;
      MemberReadsBack(members[0], "," + inner);
      MembersReadBack(more, rest);
      assert ("," + inner)[1..] == inner && members == [members[0]] + more;
    }
  }

  /** One item, read up to what follows it. */
  lemma {:induction false} ItemReadsBack(v: JsonValue, rest: string)
    requires Readable(v) && rest != "" && Stops(rest)
    ensures ReadItems(Print(v) + rest) ==
      if rest[0] == ']' then Some(([v], rest[1..]))
      else if rest[0] != ',' then None
      else match ReadItems(rest[1..]) case None => None case Some((vs, end)) => Some(([v] + vs, end))
    decreases v, 1
  {
    hide ReadValue, Print, Readable;
    ReadsBack(v, rest);
  }

  /** One member, read up to what follows it. */
  lemma {:induction false} MemberReadsBack(m: Member, rest: string)
    requires Readable(m.value) && rest != "" && Stops(rest)
    ensures ReadMembers(PrintMember(m) + rest) ==
      if rest[0] == '}' then Some(([m], rest[1..]))
      else if rest[0] != ',' then None
      else match ReadMembers(rest[1..]) case None => None case Some((ms, end)) => Some(([m] + ms, end))
    decreases m
  {
    hide ReadValue, Print, Dump, Readable, ReadString;
    var t := ":" + (Print(m.value) + rest);
    assert PrintMember(m) + rest == Dump(m.key) + t;
    ReadDump(m.key, t);
    assert t[1..] == Print(m.value) + rest;
    ReadsBack(m.value, rest);
  }
}
