/** The event-driven mapper that builds tool calls from the tagged nodes of one parse, visited in
    document order. Arguments written before the tool's name is known wait in a buffer.
 */
module ToolMapper {
  import opened JsonText
  import opened MessageDiff
  import opened Wrappers
  import QuoteTranslator

  datatype Event =
    | Reasoning(text: string)
    | Content(text: string)
    | ToolOpen
    | ToolClose
    | ToolId(text: string)
    | ToolName(text: string)
    | ToolArgs(text: string)
    | ArgOpen
    | ArgClose
    | ArgName(text: string)
    | ArgValue(text: string)
    | ArgString(text: string)
    | OtherNode

  /** The tool call that events refer to: none, the pending one, or the last one in the message. */
  datatype Current = NoTool | PendingTool | LastCall

  datatype State = State(
    reasoning: string, content: string, calls: seq<ToolCall>,
    pending: Option<ToolCall>, current: Current,
    argCount: nat, quotePending: bool, buffer: string)
  {
    predicate Valid() {
      && (current.PendingTool? ==> pending.Some?)
      && (current.LastCall? ==> calls != [])
    }

    function Tool(): ToolCall
      requires Valid() && !current.NoTool?
    {
      if current.PendingTool? then pending.value else calls[|calls| - 1]
    }

    function WithTool(t: ToolCall): (s: State)
      requires Valid() && !current.NoTool?
      ensures s.Valid() && s.current == current && s.Tool() == t
    {
      if current.PendingTool? then this.(pending := Some(t)) else this.(calls := calls[|calls| - 1 := t])
    }

    /** Where argument text goes: the buffer until the tool has a name. */
    function Target(): string
      requires Valid()
    {
      if !current.NoTool? && Tool().name != "" then Tool().arguments else buffer
    }

    function WithTarget(text: string): (s: State)
      requires Valid()
      ensures s.Valid() && s.current == current && s.Target() == text
    {
      if !current.NoTool? && Tool().name != "" then WithTool(Tool().(arguments := text)) else this.(buffer := text)
    }
  }

  const START := State("", "", [], None, NoTool, 0, false, "")

  // ---------- text helpers ----------

  predicate IsSpace(c: char) {
    c == ' ' || '\t' <= c <= '\r'
  }

  function TrimTrailing(s: string): string {
    if s != "" && IsSpace(s[|s| - 1]) then TrimTrailing(s[..|s| - 1]) else s
  }

  /** All trailing blanks and at most one leading blank. */
  function Trim(s: string): string {
    TrimTrailing(if s != "" && IsSpace(s[0]) then s[1..] else s)
  }

  function Unquoted(s: string): string {
    if |s| >= 2 && s[0] == '"' && s[|s| - 1] == '"' then s[1..|s| - 1] else s
  }

  /** The state of the brace counter: depth, inside a string, after a backslash. */
  datatype Braces = Braces(depth: int, inString: bool, escaped: bool)

  function BraceStep(b: Braces, c: char): Braces {
    if b.escaped then b.(escaped := false)
    else if c == '\\' && b.inString then b.(escaped := true)
    else if c == '"' then b.(inString := !b.inString)
    else if b.inString then b
    else if c == '{' then b.(depth := b.depth + 1)
    else if c == '}' then b.(depth := b.depth - 1)
    else b
  }

  function BraceScan(b: Braces, s: string): Braces
    decreases s
  {
    if s == "" then b else BraceScan(BraceStep(b, s[0]), s[1..])
  }

  function BraceDepth(s: string): int {
    BraceScan(Braces(0, false, false), s).depth
  }

  method JsonBraceDepth(s: string) returns (depth: int)
    ensures depth == BraceDepth(s)
  {
    depth := 0;
    var inString, escaped := false, false;
    for i := 0 to |s|
      invariant BraceScan(Braces(depth, inString, escaped), s[i..]) == BraceScan(Braces(0, false, false), s)
    {
      assert s[i..][1..] == s[i + 1..];
      var c := s[i];
      if escaped {
        escaped := false;
      } else if c == '\\' && inString {
        escaped := true;
      } else if c == '"' {
        inString := !inString;
      } else if !inString {
        if c == '{' {
          depth := depth + 1;
        } else if c == '}' {
          depth := depth - 1;
        }
      }
    }
  }

  function Repeat(c: char, n: int): string {
    if n <= 0 then "" else [c] + Repeat(c, n - 1)
  }

  method CloseBraces(text: string) returns (args: string)
    ensures args == text + Repeat('}', BraceDepth(text))
  {
    args := text;
    var d := JsonBraceDepth(args);
    ghost var depth := d;
    while d > 0
      invariant args + Repeat('}', d) == text + Repeat('}', depth)
    {
      args := args + "}";
      d := d - 1;
    }
  }

  // ---------- one event ----------

  function OnName(s: State, name: string): (s': State)
    requires s.Valid() && !s.current.NoTool?
    ensures s'.Valid()
  {
    var named := s.Tool().(name := name);
    var filled := if s.buffer != "" then named.(arguments := s.buffer)
                  else if named.arguments == "" then named.(arguments := "{") else named;
    var s1 := s.WithTool(filled).(buffer := "");
    if s1.pending.Some? then s1.(calls := s1.calls + [s1.pending.value], pending := None, current := LastCall) else s1
  }

  function OnArgName(s: State, name: string): (s': State)
    requires s.Valid()
    ensures s'.Valid()
  {
    var target := if s.Target() == "" then "{" else s.Target();
    var comma := if s.argCount > 0 then "," else "";
    s.WithTarget(target + (comma + Quoted(name) + ":")).(argCount := s.argCount + 1)
  }

  function OnString(s: State, text: string): (s': State)
    requires s.Valid()
    ensures s'.Valid()
  {
    if text == "" then s.WithTarget(s.Target() + "\"").(quotePending := true)
    else s.WithTarget(s.Target() + ((if s.quotePending then "" else "\"") + Escape(text))).(quotePending := true)
  }

  /** A call without a name gets what is buffered. */
  function Flushed(s: State): (s': State)
    requires s.Valid() && !s.current.NoTool?
    ensures s'.Valid() && s'.current == s.current
  {
    if s.Tool().name == "" && s.buffer != "" then s.WithTool(s.Tool().(arguments := s.buffer)).(buffer := "") else s
  }

  /** An open string and open braces are closed. */
  function Finished(s: State): (s': State)
    requires s.Valid() && !s.current.NoTool?
    ensures s'.Valid() && s'.current == s.current
  {
    var args := s.Tool().arguments + (if s.quotePending then "\"" else "");
    s.WithTool(s.Tool().(arguments := args + Repeat('}', BraceDepth(args)))).(quotePending := false)
  }

  /** A call that is still pending is added if it has a name, and dropped otherwise. */
  function Settled(s: State): (s': State)
    requires s.Valid() && !s.current.NoTool?
    ensures s'.Valid()
  {
    if s.pending.None? then s
    else if s.Tool().name != "" then
      s.(calls := s.calls + [s.pending.value], pending := None, current := NoTool)
    else
      s.(pending := None, current := if s.current.PendingTool? then NoTool else s.current)
  }

  function OnClose(s: State): (s': State)
    requires s.Valid() && !s.current.NoTool?
    ensures s'.Valid()
  {
    Settled(Finished(Flushed(s)))
  }

  /** The events that need a current tool. */
  function OnToolEvent(s: State, e: Event): (s': State)
    requires s.Valid() && !s.current.NoTool?
    ensures s'.Valid()
  {
    if e.ToolId? then s.WithTool(s.Tool().(id := Unquoted(TrimTrailing(e.text))))
    else if e.ToolName? then OnName(s, TrimTrailing(e.text))
    else if e.ToolArgs? then
      var t := TrimTrailing(e.text);
      if t != "" && t[0] == '{' then s.WithTarget(t) else s
    else if e.ArgName? then OnArgName(s, Trim(e.text))
    else if e.ArgValue? then s.WithTarget(s.Target() + QuoteTranslator.Translation(e.text))
    else if e.ArgString? then OnString(s, e.text)
    else if e.ArgClose? && s.quotePending then s.WithTarget(s.Target() + "\"").(quotePending := false)
    else if e.ToolClose? then OnClose(s)
    else s
  }

  function Step(s: State, e: Event): (s': State)
    requires s.Valid()
    ensures s'.Valid()
  {
    if e.Reasoning? then s.(reasoning := s.reasoning + e.text)
    else if e.Content? then s.(content := s.content + e.text)
    else if e.ToolOpen? then
      s.(pending := Some(NO_CALL), current := PendingTool, argCount := 0, buffer := "", quotePending := false)
    else if e.ArgOpen? then s.(quotePending := false)
    else if s.current.NoTool? then s
    else OnToolEvent(s, e)
  }

  function Run(s: State, es: seq<Event>): (s': State)
    requires s.Valid()
    ensures s'.Valid()
    decreases es
  {
    if es == [] then s else Run(Step(s, es[0]), es[1..])
  }

  lemma {:induction false} RunConcat(s: State, a: seq<Event>, b: seq<Event>)
    requires s.Valid()
    ensures Run(s, a + b) == Run(Run(s, a), b)
    decreases a
  {
    if a == [] {
      assert a + b == b;
    } else {
      assert (a + b)[1..] == a[1..] + b;
      RunConcat(Step(s, a[0]), a[1..], b);
    }
  }

  lemma RunFirst(s: State, e: Event, es: seq<Event>)
    requires s.Valid()
    ensures Run(s, [e] + es) == Run(Step(s, e), es)
  {
    hide Step;
    assert ([e] + es)[1..] == es;
  }

  // ---------- idle nodes ----------

  predicate IsObjectText(t: string) {
    t != "" && t[0] == '{'
  }

  /** All the arguments in one text. */
  predicate IsObject(e: Event) {
    e.ToolArgs? && IsObjectText(TrimTrailing(e.text))
  }

  /** Nodes that do nothing: other nodes, and an arguments node that only encloses tagged arguments. */
  predicate Idle(e: Event) {
    e.OtherNode? || (e.ToolArgs? && !IsObject(e))
  }

  lemma IdleStays(s: State, e: Event)
    requires s.Valid() && Idle(e)
    ensures Step(s, e) == s
  {
    hide TrimTrailing;
  }

  // ---------- the end of a visit ----------

  /** A named call that is still pending is added, with what is buffered and its open string closed. */
  function FlushedNamed(s: State): (s': State)
    requires s.Valid()
    ensures s'.Valid()
  {
    if s.pending.None? || s.pending.value.name == "" then s
    else
      var args := if s.buffer != "" then s.buffer else s.pending.value.arguments;
      var closed := args + if s.quotePending && args != "" then "\"" else "";
      s.(calls := s.calls + [s.pending.value.(arguments := closed)], pending := None,
         current := if s.current.PendingTool? then NoTool else s.current)
  }

  predicate IsBlank(c: char) {
    c == ' ' || c == '\n' || c == '\r' || c == '\t'
  }

  predicate AllBlank(s: string) {
    forall i :: 0 <= i < |s| ==> IsBlank(s[i])
  }

  /** Reasoning of nothing but white space is dropped. */
  function KeptReasoning(s: string): string {
    if AllBlank(s) then "" else s
  }

  /** A whole visit and what follows it. */
  function Visited(s: State, es: seq<Event>): (s': State)
    requires s.Valid()
    ensures s'.Valid()
  {
    var s1 := FlushedNamed(Run(s, es));
    s1.(reasoning := KeptReasoning(s1.reasoning))
  }

  function MessageOf(s: State): Message {
    Message(s.reasoning, s.content, s.calls)
  }

  // ---------- the mapper object ----------

  class Mapper {
    var reasoning: string
    var content: string
    var calls: seq<ToolCall>
    var pending: Option<ToolCall>
    var current: Current
    var argCount: nat
    var quotePending: bool
    var buffer: string

    function Abs(): State
      reads this
    {
      State(reasoning, content, calls, pending, current, argCount, quotePending, buffer)
    }

    constructor ()
      ensures Abs() == START
    {
      reasoning, content, calls, pending, current := "", "", [], None, NoTool;
      argCount, quotePending, buffer := 0, false, "";
    }

    method SetTool(t: ToolCall)
      requires Abs().Valid() && !current.NoTool?
      modifies this`pending, this`calls
      ensures Abs() == old(Abs()).WithTool(t)
    {
      if current.PendingTool? {
        pending := Some(t);
      } else {
        calls := calls[|calls| - 1 := t];
      }
    }

    method SetTarget(text: string)
      requires Abs().Valid()
      modifies this`pending, this`calls, this`buffer
      ensures Abs() == old(Abs()).WithTarget(text)
    {
      if !current.NoTool? && Abs().Tool().name != "" {
        SetTool(Abs().Tool().(arguments := text));
      } else {
        buffer := text;
      }
    }

    method NameTool(name: string)
      requires Abs().Valid() && !current.NoTool?
      modifies this
      ensures Abs() == OnName(old(Abs()), name)
    {
      var tool := Abs().Tool().(name := name);
      if buffer != "" {
        tool := tool.(arguments := buffer);
      } else if tool.arguments == "" {
        tool := tool.(arguments := "{");
      }
      SetTool(tool);
      buffer := "";
      if pending.Some? {
        calls := calls + [pending.value];
        pending := None;
        current := LastCall;
      }
    }

    method CloseTool()
      requires Abs().Valid() && !current.NoTool?
      modifies this
      ensures Abs() == OnClose(old(Abs()))
    {
      hide Flushed, Finished, Settled, State.Tool;
      FlushBuffer();
      FinishArguments();
      SettlePending();
    }

    method FlushBuffer()
      requires Abs().Valid() && !current.NoTool?
      modifies this
      ensures Abs() == Flushed(old(Abs()))
    {
      var tool := Abs().Tool();
      if tool.name == "" && buffer != "" {
        SetTool(tool.(arguments := buffer));
        buffer := "";
      }
    }

    method FinishArguments()
      requires Abs().Valid() && !current.NoTool?
      modifies this
      ensures Abs() == Finished(old(Abs()))
    {
      var tool := Abs().Tool();
      var args := tool.arguments;
      if quotePending {
        args := args + "\"";
        quotePending := false;
      }
      args := CloseBraces(args);
      SetTool(tool.(arguments := args));
      assert tool.arguments + "" == tool.arguments;
    }

    method SettlePending()
      requires Abs().Valid() && !current.NoTool?
      modifies this
      ensures Abs() == Settled(old(Abs()))
    {
      if pending.Some? {
        if Abs().Tool().name != "" {
          calls := calls + [pending.value];
          current := NoTool;
        } else if current.PendingTool? {
          current := NoTool;
        }
        pending := None;
      }
    }

    /** One node of the parse. */
    method Map(e: Event)
      requires Abs().Valid()
      modifies this
      ensures Abs() == Step(old(Abs()), e)
    {
      if e.Reasoning? {
        reasoning := reasoning + e.text;
      } else if e.Content? {
        content := content + e.text;
      } else if e.ToolOpen? {
        pending, current := Some(NO_CALL), PendingTool;
        argCount, buffer, quotePending := 0, "", false;
      } else if e.ArgOpen? {
        quotePending := false;
      } else if !current.NoTool? {
        MapToolEvent(e);
      }
    }

    method MapToolEvent(e: Event)
      requires Abs().Valid() && !current.NoTool?
      modifies this
      ensures Abs() == OnToolEvent(old(Abs()), e)
    {
      hide TrimTrailing, Unquoted, OnName, OnClose;
      if e.ToolId? {
        SetTool(Abs().Tool().(id := Unquoted(TrimTrailing(e.text))));
      } else if e.ToolName? {
        NameTool(TrimTrailing(e.text));
      } else if e.ToolArgs? {
        var t := TrimTrailing(e.text);
        if t != "" && t[0] == '{' {
          SetTarget(t);
        }
      } else if e.ToolClose? {
        CloseTool();
      } else {
        MapArgEvent(e);
      }
    }

    method MapArgEvent(e: Event)
      requires Abs().Valid() && !current.NoTool?
      requires !e.ToolId? && !e.ToolName? && !e.ToolArgs? && !e.ToolClose?
      modifies this
      ensures Abs() == OnToolEvent(old(Abs()), e)
    {
      hide QuoteTranslator.Translation, Quoted, Trim, Escape;
      if e.ArgName? {
        var entry := if argCount > 0 then "," else "";
        entry := entry + Quoted(Trim(e.text)) + ":";
        argCount := argCount + 1;
        var target := Abs().Target();
        SetTarget((if target == "" then "{" else target) + entry);
      } else if e.ArgValue? {
        var value := QuoteTranslator.NormalizeQuotesToJson(e.text);
        SetTarget(Abs().Target() + value);
      } else if e.ArgString? {
        MapString(e.text);
      } else if e.ArgClose? {
        if quotePending {
          SetTarget(Abs().Target() + "\"");
          quotePending := false;
        }
      }
    }

    method MapString(text: string)
      requires Abs().Valid()
      modifies this
      ensures Abs() == OnString(old(Abs()), text)
    {
      hide Escape;
      var value := "";
      if text == "" {
        value := "\"";
        quotePending := true;
      } else {
        if !quotePending {
          value := "\"";
          quotePending := true;
        }
        value := value + Escape(text);
      }
      SetTarget(Abs().Target() + value);
    }

    method MapAll(es: seq<Event>)
      requires Abs().Valid()
      modifies this
      ensures Abs() == Run(old(Abs()), es)
    {
      for i := 0 to |es|
        invariant Abs().Valid() && Run(Abs(), es[i..]) == Run(old(Abs()), es)
      {
        assert es[i..][1..] == es[i + 1..];
        Map(es[i]);
      }
    }

    method FlushNamed()
      requires Abs().Valid()
      modifies this
      ensures Abs() == FlushedNamed(old(Abs()))
    {
      if pending.Some? && pending.value.name != "" {
        var call := pending.value;
        if buffer != "" {
          call := call.(arguments := buffer);
        }
        if quotePending && call.arguments != "" {
          call := call.(arguments := call.arguments + "\"");
        } else {
          assert call.arguments + "" == call.arguments;
        }
        calls := calls + [call];
        pending := None;
        if current.PendingTool? {
          current := NoTool;
        }
      }
    }

    /** One parse: every node, the flush, and the removal of blank reasoning. */
    method FromAst(es: seq<Event>)
      requires Abs().Valid()
      modifies this
      ensures Abs() == Visited(old(Abs()), es)
    {
      hide Run, FlushedNamed;
      MapAll(es);
      FlushNamed();
      if reasoning != "" {
        var allWhitespace := IsAllBlank(reasoning);
        if allWhitespace {
          reasoning := "";
        }
      }
    }
  }

  method IsAllBlank(s: string) returns (blank: bool)
    ensures blank <==> AllBlank(s)
  {
    for i := 0 to |s|
      invariant forall j :: 0 <= j < i ==> IsBlank(s[j])
    {
      if !IsBlank(s[i]) {
        return false;
      }
    }
    blank := true;
  }
}
