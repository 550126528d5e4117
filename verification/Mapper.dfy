/** Building messages from the events of a parsed chat output, tool calls piece by piece. */
module Mapper {
  import opened Wrappers
  import opened Json
  import Quotes
  import Streaming

  type Call = Streaming.Call

  datatype Tag =
    | Reasoning | Content
    | ToolOpen | ToolClose | ToolName | ToolId | ToolArgs
    | ArgOpen | ArgClose | ArgName | ArgValue | ArgStringValue
    | OtherTag

  datatype Node = Node(tag: Tag, text: string)

  /** Which call is being built: none, the pending one, the last of the result, or one that was
      discarded without a name. */
  datatype Cursor = NoTool | Pending | Last | Gone

  datatype State = State(
    reasoning: string, content: string, calls: seq<Call>,
    pending: Option<Call>, cursor: Cursor,
    argCount: nat, closing: bool, buffer: string)
  {
    predicate Valid() {
      (cursor == Pending <==> pending.Some?) && (cursor == Last ==> calls != [])
    }

    predicate HasTool() {
      cursor == Pending || cursor == Last
    }
  }

  // ---- trimming ----

  predicate IsSpace(c: char) {
    c == ' ' || '\t' <= c <= '\r'
  }

  function TrimTrailing(s: string): string {
    if s != "" && IsSpace(s[|s| - 1]) then TrimTrailing(s[..|s| - 1]) else s
  }

  function DropLeadingOne(s: string): string {
    if s != "" && IsSpace(s[0]) then s[1..] else s
  }

  function DropTrailingOne(s: string): string {
    if s != "" && IsSpace(s[|s| - 1]) then s[..|s| - 1] else s
  }

  function TrimName(s: string): string {
    TrimTrailing(DropLeadingOne(s))
  }

  function TrimValue(s: string): string {
    DropTrailingOne(DropLeadingOne(s))
  }

  // ---- the specification of one event ----

  function Current(st: State): Call
    requires st.Valid() && st.HasTool()
  {
    if st.cursor == Pending then st.pending.value else st.calls[|st.calls| - 1]
  }

  function WithCurrent(st: State, c: Call): (st': State)
    requires st.Valid() && st.HasTool()
    ensures st'.Valid() && st'.cursor == st.cursor && Current(st') == c
  {
    if st.cursor == Pending then st.(pending := Some(c)) else st.(calls := st.calls[|st.calls| - 1 := c])
  }

  /** Arguments wait in the buffer until the tool has a name. */
  function Target(st: State): string
    requires st.Valid() && st.HasTool()
  {
    if Current(st).name != "" then Current(st).arguments else st.buffer
  }

  function WithTarget(st: State, s: string): (st': State)
    requires st.Valid() && st.HasTool()
    ensures st'.Valid() && st'.HasTool() && Target(st') == s
  {
    if Current(st).name != "" then WithCurrent(st, Current(st).(arguments := s)) else st.(buffer := s)
  }

  function Unquoted(s: string): string {
    if |s| >= 2 && s[0] == '"' && s[|s| - 1] == '"' then s[1..|s| - 1] else s
  }

  function Entry(argCount: nat, name: string): string {
    (if argCount > 0 then "," else "") + Dump(TrimName(name)) + ":"
  }

  function RawText(value: string): string {
    var v := TrimValue(value);
    if v != "" && (v[0] == '[' || v[0] == '{') then Quotes.Normalized(v) else v
  }

  /** What a value adds to the arguments, and whether its closing quote is then missing. */
  function ValueText(value: string, isString: bool, closing: bool): (string, bool) {
    var v := TrimValue(value);
    if !isString then (RawText(value), closing)
    else if v == "" then ("\"", true)
    else ((if closing then "" else "\"") + Escape(v), true)
  }

  function Braces(n: int): string {
    if n <= 0 then "" else Braces(n - 1) + "}"
  }

  function Name(st: State, text: string): State
    requires st.Valid() && st.HasTool()
  {
    var c := Current(st).(name := TrimTrailing(text));
    var c' := if st.buffer != "" then c.(arguments := st.buffer)
              else if c.arguments == "" then c.(arguments := "{") else c;
    if st.cursor == Pending then
      st.(calls := st.calls + [c'], pending := None, cursor := Last, buffer := "")
    else WithCurrent(st.(buffer := ""), c')
  }

  function Close(st: State): State
    requires st.Valid() && st.HasTool()
  {
    var flush := Current(st).name == "" && st.buffer != "";
    var arguments := (if flush then st.buffer else Current(st).arguments) + if st.closing then "\"" else "";
    var c := Current(st).(arguments := arguments + Braces(BraceDepth(arguments)));
    var st' := st.(buffer := if flush then "" else st.buffer, closing := false);
    if st.cursor == Pending then
      st'.(calls := if c.name != "" then st.calls + [c] else st.calls, pending := None, cursor := Gone)
    else WithCurrent(st', c)
  }

  function Step(st: State, node: Node): (st': State)
    requires st.Valid()
    ensures st'.Valid()
  {
    if node.tag == Reasoning then st.(reasoning := st.reasoning + node.text)
    else if node.tag == Content then st.(content := st.content + node.text)
    else if node.tag == ToolOpen then
      st.(pending := Some(Streaming.NOTHING), cursor := Pending, argCount := 0, buffer := "", closing := false)
    else if node.tag == ArgOpen then st.(closing := false)
    else if st.HasTool() then ToolStep(st, node)
    else st
  }

  /** An event of the call that is being built. */
  function ToolStep(st: State, node: Node): (st': State)
    requires st.Valid() && st.HasTool()
    ensures st'.Valid()
  {
    if node.tag == ToolId then WithCurrent(st, Current(st).(id := Unquoted(TrimTrailing(node.text))))
    else if node.tag == ToolName then Name(st, node.text)
    else if node.tag == ToolArgs then
      var text := TrimTrailing(node.text);
      if text != "" && text[0] == '{' then WithTarget(st, text) else st
    else if node.tag == ArgName then
      var target := if Target(st) == "" then "{" else Target(st);
      WithTarget(st, target + Entry(st.argCount, node.text)).(argCount := st.argCount + 1)
    else if node.tag == ArgClose then
      if st.closing then WithTarget(st, Target(st) + "\"").(closing := false) else st
    else if node.tag == ToolClose then Close(st)
    else if node.tag == ArgValue || node.tag == ArgStringValue then
      var (text, closing) := ValueText(node.text, node.tag == ArgStringValue, st.closing);
      WithTarget(st, Target(st) + text).(closing := closing)
    else st
  }

  /** A call that was discarded without a name is not touched again before the next one opens. */
  predicate Allowed(st: State, node: Node) {
    st.cursor == Gone ==> node.tag in {Reasoning, Content, ToolOpen, ArgOpen, OtherTag}
  }

  const START := State("", "", [], None, NoTool, 0, false, "")

  function Run(st: State, nodes: seq<Node>): (st': State)
    requires st.Valid()
    ensures st'.Valid()
    decreases |nodes|
  {
    if nodes == [] then st else Run(Step(st, nodes[0]), nodes[1..])
  }

  predicate AllowedRun(st: State, nodes: seq<Node>)
    requires st.Valid()
    decreases |nodes|
  {
    nodes == [] || (Allowed(st, nodes[0]) && AllowedRun(Step(st, nodes[0]), nodes[1..]))
  }

  /** What is left to do after the last event. */
  function Finish(st: State): State
    requires st.Valid()
  {
    var st' :=
      if st.pending.Some? && st.pending.value.name != "" then
        var c := st.pending.value;
        var arguments := if st.buffer != "" then st.buffer else c.arguments;
        var closed := arguments + if st.closing && arguments != "" then "\"" else "";
        st.(calls := st.calls + [c.(arguments := closed)], pending := None, cursor := Gone)
      else st;
    if OnlyWhitespace(st'.reasoning) then st'.(reasoning := "") else st'
  }

  predicate OnlyWhitespace(s: string) {
    forall i :: 0 <= i < |s| ==> s[i] in {' ', '\n', '\r', '\t'}
  }

  // ---- the mapper object ----

  class ChatMapper {
    var reasoning: string
    var content: string
    var toolCalls: seq<Call>
    var pendingToolCall: Option<Call>
    var currentTool: Cursor
    var argCount: nat
    var closingQuotePending: bool
    var argsBuffer: string

    constructor ()
      ensures Now() == START
    {
      reasoning, content, toolCalls := "", "", [];
      pendingToolCall, currentTool := None, NoTool;
      argCount, closingQuotePending, argsBuffer := 0, false, "";
    }

    function Now(): State
      reads this
    {
      State(reasoning, content, toolCalls, pendingToolCall, currentTool, argCount, closingQuotePending, argsBuffer)
    }

    method SetCurrent(c: Call)
      requires Now().Valid() && Now().HasTool()
      modifies this
      ensures Now() == WithCurrent(old(Now()), c)
    {
      if currentTool == Pending {
        pendingToolCall := Some(c);
      } else {
        toolCalls := toolCalls[|toolCalls| - 1 := c];
      }
    }

    method SetTarget(s: string)
      requires Now().Valid() && Now().HasTool()
      modifies this
      ensures Now() == WithTarget(old(Now()), s)
    {
      if Current(Now()).name != "" {
        SetCurrent(Current(Now()).(arguments := s));
      } else {
        argsBuffer := s;
      }
    }

    method MapName(text: string)
      requires Now().Valid() && Now().HasTool()
      modifies this
      ensures Now() == Name(old(Now()), text)
    {
      var c := Current(Now()).(name := TrimTrailing(text));
      if argsBuffer != "" {
        c := c.(arguments := argsBuffer);
        argsBuffer := "";
      } else if c.arguments == "" {
        c := c.(arguments := "{");
      }
      SetCurrent(c);
      if pendingToolCall.Some? {
        toolCalls := toolCalls + [pendingToolCall.value];
        pendingToolCall := None;
        currentTool := Last;
      }
    }

    static method ArgEntry(argCount: nat, text: string) returns (argEntry: string)
      ensures argEntry == Entry(argCount, text)
    {
      hide Dump, TrimName;
      argEntry := "";
      if argCount > 0 {
        argEntry := ",";
      }
      argEntry := argEntry + Dump(TrimName(text)) + ":";
    }

    method MapArgName(text: string)
      requires Now().Valid() && Now().HasTool()
      modifies this
      ensures Now() == ToolStep(old(Now()), Node(ArgName, text))
    {
      hide Entry;
      var argEntry := ArgEntry(argCount, text);
      argCount := argCount + 1;
      var target := Target(Now());
      if target == "" {
        target := "{";
      }
      SetTarget(target + argEntry);
    }

    static method ValuePiece(text: string, isString: bool, closing: bool) returns (valueToAdd: string, closing': bool)
      ensures (valueToAdd, closing') == ValueText(text, isString, closing)
    {
      var valueContent := TrimValue(text);
      valueToAdd, closing' := "", closing;
      if valueContent == "" && isString {
        valueToAdd := "\"";
        closing' := true;
      } else if valueContent != "" && isString {
        if !closing {
          valueToAdd := "\"";
          closing' := true;
        }
        valueToAdd := valueToAdd + Escape(valueContent);
      } else if valueContent != "" {
        if valueContent[0] == '[' || valueContent[0] == '{' {
          valueContent := Quotes.NormalizeQuotesToJson(valueContent);
        }
        assert valueToAdd + valueContent == valueContent;
        valueToAdd := valueToAdd + valueContent;
      }
    }

    method MapValue(text: string, isString: bool)
      requires Now().Valid() && Now().HasTool()
      modifies this
      ensures Now() == ToolStep(old(Now()), Node(if isString then ArgStringValue else ArgValue, text))
    {
      hide ValueText;
      var valueToAdd, closing := ValuePiece(text, isString, closingQuotePending);
      SetTarget(Target(Now()) + valueToAdd);
      closingQuotePending := closing;
    }

    /** One closing brace for each that is open. */
    static method CloseBraces(arguments: string) returns (closed: string)
      ensures closed == arguments + Braces(BraceDepth(arguments))
    {
      hide BraceDepth;
      closed := arguments;
      var depth := JsonBraceDepth(arguments);
      var d := 0;
      assert arguments + "" == arguments;
      while d < depth
        invariant d == 0 || d <= depth
        invariant closed == arguments + Braces(d)
      {
        closed := closed + "}";
        d := d + 1;
        assert arguments + Braces(d - 1) + "}" == arguments + Braces(d);
      }
    }

    method MapClose()
      requires Now().Valid() && Now().HasTool()
      modifies this
      ensures Now() == Close(old(Now()))
    {
      hide BraceDepth, Braces;
      var c := Current(Now());
      if c.name == "" && argsBuffer != "" {
        c := c.(arguments := argsBuffer);
        argsBuffer := "";
      }
      if closingQuotePending {
        c := c.(arguments := c.arguments + "\"");
        closingQuotePending := false;
      } else {
        assert c.arguments + "" == c.arguments;
      }
      var closed := CloseBraces(c.arguments);
      c := c.(arguments := closed);
      SetCurrent(c);
      if pendingToolCall.Some? {
        if c.name != "" {
          toolCalls := toolCalls + [pendingToolCall.value];
        }
        pendingToolCall := None;
        currentTool := Gone;
      }
    }

    method Map(node: Node)
      requires Now().Valid() && Allowed(Now(), node)
      modifies this
      ensures Now() == Step(old(Now()), node)
    {
      hide Close, Name, ValueText, Entry;
      if node.tag == Reasoning {
        reasoning := reasoning + node.text;
      } else if node.tag == Content {
        content := content + node.text;
      } else if node.tag == ToolOpen {
        pendingToolCall := Some(Streaming.NOTHING);
        currentTool := Pending;
        argCount := 0;
        argsBuffer := "";
        closingQuotePending := false;
      } else if node.tag == ArgOpen {
        closingQuotePending := false;
      } else if Now().HasTool() {
        MapTool(node);
      }
    }

    method MapTool(node: Node)
      requires Now().Valid() && Now().HasTool()
      modifies this
      ensures Now() == ToolStep(old(Now()), node)
    {
      hide Close, Name, ValueText, Entry;
      if node.tag == ToolId {
        SetCurrent(Current(Now()).(id := Unquoted(TrimTrailing(node.text))));
      } else if node.tag == ToolName {
        MapName(node.text);
      } else if node.tag == ToolArgs {
        var text := TrimTrailing(node.text);
        if text != "" && text[0] == '{' {
          SetTarget(text);
        }
      } else if node.tag == ArgName {
        MapArgName(node.text);
      } else if node.tag == ArgClose {
        if closingQuotePending {
          SetTarget(Target(Now()) + "\"");
          closingQuotePending := false;
        }
      } else if node.tag == ToolClose {
        MapClose();
      } else if node.tag == ArgValue || node.tag == ArgStringValue {
        MapValue(node.text, node.tag == ArgStringValue);
      }
    }

    method FromAst(nodes: seq<Node>)
      requires Now().Valid() && AllowedRun(Now(), nodes)
      modifies this
      ensures Now() == Finish(Run(old(Now()), nodes))
    {
      hide Step;
      for i := 0 to |nodes|
        invariant Now().Valid() && AllowedRun(Now(), nodes[i..])
        invariant Run(Now(), nodes[i..]) == Run(old(Now()), nodes)
      {
        assert nodes[i..][1..] == nodes[i + 1..];
        Map(nodes[i]);
      }
      if pendingToolCall.Some? && pendingToolCall.value.name != "" {
        var c := pendingToolCall.value;
        if argsBuffer != "" {
          c := c.(arguments := argsBuffer);
        }
        if closingQuotePending && c.arguments != "" {
          c := c.(arguments := c.arguments + "\"");
        } else {
          assert c.arguments + "" == c.arguments;
        }
        toolCalls := toolCalls + [c];
        pendingToolCall := None;
        currentTool := Gone;
      }
      var allWhitespace := true;
      for i := 0 to |reasoning|
        invariant allWhitespace <==> OnlyWhitespace(reasoning[..i])
      {
        assert reasoning[..i + 1] == reasoning[..i] + [reasoning[i]];
        if reasoning[i] != ' ' && reasoning[i] != '\n' && reasoning[i] != '\r' && reasoning[i] != '\t' {
          allWhitespace := false;
          assert !OnlyWhitespace(reasoning[..i + 1]) by { assert reasoning[..i + 1][i] == reasoning[i]; }
        }
      }
      assert reasoning[..|reasoning|] == reasoning;
      if reasoning != "" && allWhitespace {
        reasoning := "";
      }
    }
  }
}
