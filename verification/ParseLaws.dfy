/** What the tree search finds, what the printers write of an unfinished value, and what message a parse amounts to. */
module ParseLaws {
  import opened JsonText
  import opened MessageDiff
  import opened ParseStream
  import opened PegAst
  import opened Wrappers
  import G = Gemma4Printer
  import M = MinimaxPrinter

  // ---------- the search by tag ----------

  /** The nodes at most `depth` levels below these, each before the nodes inside it. */
  function Levels(nodes: seq<Node>, depth: nat): seq<Node>
    decreases nodes, |nodes|
  {
    if nodes == [] || depth == 0 then []
    else [nodes[0]] + Levels(nodes[0].children, depth - 1) + Levels(nodes[1..], depth)
  }

  /** The first of them with the tag. */
  predicate FirstTagged(nodes: seq<Node>, tag: Tag, found: Option<Node>) {
    match found
    case None => forall i :: 0 <= i < |nodes| ==> nodes[i].tag != tag
    case Some(n) => exists k :: 0 <= k < |nodes| && nodes[k] == n && n.tag == tag && forall i :: 0 <= i < k ==> nodes[i].tag != tag
  }

  lemma TaggedConcat(a: seq<Node>, b: seq<Node>, tag: Tag, x: Option<Node>, y: Option<Node>)
    requires FirstTagged(a, tag, x) && FirstTagged(b, tag, y)
    ensures FirstTagged(a + b, tag, if x.Some? then x else y)
  {
    var c := a + b;
    if x.Some? {
      var k :| 0 <= k < |a| && a[k] == x.value && x.value.tag == tag && forall i :: 0 <= i < k ==> a[i].tag != tag;
      assert c[k] == x.value && forall i :: 0 <= i < k ==> c[i] == a[i];
    } else if y.Some? {
      var k :| 0 <= k < |b| && b[k] == y.value && y.value.tag == tag && forall i :: 0 <= i < k ==> b[i].tag != tag;
      assert c[|a| + k] == y.value;
      forall i | 0 <= i < |a| + k ensures c[i].tag != tag {
        assert c[i] == if i < |a| then a[i] else b[i - |a|];
      }
    }
  }

  lemma {:induction false} FoundIn(nodes: seq<Node>, tag: Tag, depth: nat)
    ensures FirstTagged(Levels(nodes, depth), tag, FindIn(nodes, tag, depth))
    decreases nodes, |nodes|
  {
    hide FirstTagged;
    if nodes == [] || depth == 0 {
      NoneTagged(tag);
    } else {
      var n := nodes[0];
      FoundIn(n.children, tag, depth - 1);
      FoundIn(nodes[1..], tag, depth);
      OneTagged(n, tag);
      NoDepth(n.children, tag);
      var here := if n.tag == tag then Some(n) else None;
      var deeper := FindIn(n.children, tag, depth - 1);
      TaggedConcat([n], Levels(n.children, depth - 1), tag, here, deeper);
      TaggedConcat([n] + Levels(n.children, depth - 1), Levels(nodes[1..], depth), tag,
                   if here.Some? then here else deeper, FindIn(nodes[1..], tag, depth));
    }
  }

  lemma NoneTagged(tag: Tag)
    ensures FirstTagged([], tag, None)
  {
  }

  lemma OneTagged(n: Node, tag: Tag)
    ensures FirstTagged([n], tag, if n.tag == tag then Some(n) else None)
  {
    assert [n][0] == n;
  }

  lemma NoDepth(nodes: seq<Node>, tag: Tag)
    ensures FindIn(nodes, tag, 0) == None
  {
  }

  /** The search finds the first node with the tag in document order, among those at most `depth` levels down. */
  lemma FoundFirst(n: Node, tag: Tag, depth: nat)
    ensures FirstTagged(Levels(n.children, depth), tag, FindByTag(n, tag, depth))
  {
    FoundIn(n.children, tag, depth);
  }

  /** A tree in which the nodes with the tag hold nothing. */
  function Pruned(nodes: seq<Node>, tag: Tag): seq<Node>
    decreases nodes, |nodes|
  {
    if nodes == [] then []
    else [nodes[0].(children := if nodes[0].tag == tag then [] else Pruned(nodes[0].children, tag))] + Pruned(nodes[1..], tag)
  }

  /** All nodes with the tag, each before those inside it. */
  function Tagged(nodes: seq<Node>, tag: Tag): seq<Node>
    decreases nodes, |nodes|
  {
    if nodes == [] then []
    else (if nodes[0].tag == tag then [nodes[0]] else []) + Tagged(nodes[0].children, tag) + Tagged(nodes[1..], tag)
  }

  function Bare(nodes: seq<Node>): seq<Node> {
    if nodes == [] then [] else [nodes[0].(children := [])] + Bare(nodes[1..])
  }

  lemma {:induction false} BareConcat(a: seq<Node>, b: seq<Node>)
    ensures Bare(a + b) == Bare(a) + Bare(b)
    decreases a
  {
    if a == [] {
      assert a + b == b;
    } else {
      assert (a + b)[1..] == a[1..] + b;
      BareConcat(a[1..], b);
    }
  }

  /** What is collected is every node with the tag that is not inside another one, in document order. */
  lemma {:induction false} CollectedAre(nodes: seq<Node>, tag: Tag)
    ensures Bare(M.CollectIn(nodes, tag)) == Tagged(Pruned(nodes, tag), tag)
    decreases nodes, |nodes|
  {
    if nodes != [] {
      var n, rest := nodes[0], nodes[1..];
      var here := if n.tag == tag then [n] else M.Collect(n, tag);
      CollectedAre(rest, tag);
      BareConcat(here, M.CollectIn(rest, tag));
      var p := n.(children := if n.tag == tag then [] else Pruned(n.children, tag));
      assert Pruned(nodes, tag) == [p] + Pruned(rest, tag) && ([p] + Pruned(rest, tag))[1..] == Pruned(rest, tag);
      if n.tag == tag {
        assert [n][1..] == [] && Bare([n]) == [p] + [] == [p] && [p] + Tagged([], tag) == [p];
      } else {
        CollectedAre(n.children, tag);
        assert [] + Tagged(p.children, tag) == Tagged(p.children, tag);
      }
    }
  }

  /** The value of an entry is its first child that is a value, a string, an object or an array. */
  lemma {:induction false} ValueFirst(nodes: seq<Node>)
    ensures var v := M.ValueOf(nodes);
      && (v.None? ==> forall i :: 0 <= i < |nodes| ==> nodes[i].tag !in {TagArgValue, TagArgString, TagArgObject, TagArgArray})
      && (v.Some? ==> exists k :: 0 <= k < |nodes| && nodes[k] == v.value
                        && v.value.tag in {TagArgValue, TagArgString, TagArgObject, TagArgArray}
                        && forall i :: 0 <= i < k ==> nodes[i].tag !in {TagArgValue, TagArgString, TagArgObject, TagArgArray})
    decreases nodes
  {
    if nodes != [] && !M.IsValue(nodes[0]) {
      ValueFirst(nodes[1..]);
      var v := M.ValueOf(nodes[1..]);
      if v.Some? {
        var k :| 0 <= k < |nodes[1..]| && nodes[1..][k] == v.value
          && forall i :: 0 <= i < k ==> nodes[1..][i].tag !in {TagArgValue, TagArgString, TagArgObject, TagArgArray};
        assert nodes[k + 1] == v.value;
        forall i | 0 <= i < k + 1 ensures nodes[i].tag !in {TagArgValue, TagArgString, TagArgObject, TagArgArray} {
          assert i > 0 ==> nodes[i] == nodes[1..][i - 1];
        }
      }
    }
  }

  // ---------- unfinished values ----------

  function GemmaCloser(n: Node): string {
    match n.rule
    case GemmaString => if n.children == [] then "" else "\""
    case GemmaArray => "]"
    case GemmaDict => "}"
    case GemmaDictKey => "\":"
    case _ => ""
  }

  /** Whatever a Gemma node holds, while it is partial it prints all but what closes it. */
  lemma GemmaUnfinished(n: Node)
    requires n.text != ""
    ensures G.ToJson(n.(partial := false)) == G.ToJson(n.(partial := true)) + GemmaCloser(n)
  {
    hide G.Joined, G.Concatenated, Escape;
    var cs := n.children;
    if cs != [] && n.rule.GemmaString? {
      ClosedLater("\"", G.ToJson(cs[0]), "\"");
    } else if n.rule.GemmaArray? {
      ClosedLater("[", G.Joined(cs), "]");
    } else if n.rule.GemmaDict? {
      ClosedLater("{", G.Joined(cs), "}");
    } else if n.rule.GemmaDictKey? {
      ClosedLater("\"", if cs == [] then "" else Escape(G.ToJson(cs[0])), "\":");
    }
  }

  lemma ClosedLater(open: string, inner: string, close: string)
    ensures open + (inner + close) == open + (inner + "") + close
  {
    assert inner + "" == inner;
  }

  /** A member whose value is still to come shows its key. */
  lemma GemmaKeyAlone(kv: Node)
    requires kv.rule.GemmaDictKv? && kv.text != "" && |kv.children| == 1 && G.CompleteKey(kv.children[0])
    ensures G.ToJson(kv) == Quoted(kv.children[0].children[0].text) + ":"
  {
    hide Escape;
    G.KeyPrinted(kv.children[0]);
    assert kv.children[1..] == [];
    assert G.Concatenated(kv.children) == G.ToJson(kv.children[0]) + "";
  }

  function MinimaxCloser(v: Node): string {
    if v.tag.TagArgObject? then "}" else if v.tag.TagArgArray? then "]" else if v.tag.TagArgString? then "\"" else ""
  }

  /** Whatever a MiniMax value holds, until it is closed it prints all but what closes it. */
  lemma MinimaxUnfinished(v: Node)
    ensures M.ToJson(v, true) == M.ToJson(v, false) + MinimaxCloser(v)
  {
    hide M.Entries, M.Collect, Escape;
    if v.tag.TagArgObject? {
      ClosedLater("{", M.Entries(M.Collect(v, TagArg), true, v), "}");
    } else if v.tag.TagArgArray? {
      ClosedLater("[", M.Entries(M.Collect(v, TagArgItem), false, v), "]");
    } else if v.tag.TagArgString? {
      ClosedLater("\"", Escape(v.text), "\"");
    } else {
      assert v.text + "" == v.text;
    }
  }

  /** An entry that is partial shows its name and its value unclosed; without a value, its name alone. */
  lemma MinimaxEntry(e: Node, isObject: bool)
    ensures var v, name := M.ValueOf(e.children), FindByTag(e, TagArgName, MAX_DEPTH);
      M.Entry(e, isObject) ==
      (if !isObject then "" else if name.Some? then Quoted(name.value.text) + ":" else "")
      + (if v.None? || (isObject && name.None?) then "" else M.ToJson(v.value, !e.partial))
  {
    hide M.ToJson, FindByTag, Quoted;
    var v, name := M.ValueOf(e.children), FindByTag(e, TagArgName, MAX_DEPTH);
    if name.Some? {
      assert Quoted(name.value.text) + ":" + "" == Quoted(name.value.text) + ":";
    }
    if !isObject && v.Some? {
      assert "" + M.ToJson(v.value, !e.partial) == M.ToJson(v.value, !e.partial);
    }
  }

  /** Texts with commas between them. */
  function WithCommas(texts: seq<string>): string {
    if texts == [] then "" else if |texts| == 1 then texts[0] else texts[0] + "," + WithCommas(texts[1..])
  }

  function NonEmpty(texts: seq<string>): seq<string> {
    if texts == [] then [] else (if texts[0] != "" then [texts[0]] else []) + NonEmpty(texts[1..])
  }

  lemma {:induction false} WithCommasSnoc(texts: seq<string>, last: string)
    requires texts != []
    ensures WithCommas(texts + [last]) == WithCommas(texts) + ("," + last)
    decreases texts
  {
    if |texts| == 1 {
      assert (texts + [last])[1..] == [last];
      assert texts[0] + "," + last == texts[0] + ("," + last);
    } else {
      assert (texts + [last])[1..] == texts[1..] + [last];
      WithCommasSnoc(texts[1..], last);
      assert texts[0] + "," + (WithCommas(texts[1..]) + ("," + last)) == texts[0] + "," + WithCommas(texts[1..]) + ("," + last);
    }
  }

  lemma {:induction false} NonEmptySnoc(texts: seq<string>, last: string)
    ensures NonEmpty(texts + [last]) == NonEmpty(texts) + (if last != "" then [last] else [])
    decreases texts
  {
    if texts == [] {
      assert [] + [last] == [last] && [last][1..] == [];
    } else {
      assert (texts + [last])[1..] == texts[1..] + [last];
      NonEmptySnoc(texts[1..], last);
    }
  }

  lemma {:induction false} SomeText(texts: seq<string>)
    requires forall i :: 0 <= i < |texts| ==> texts[i] != ""
    ensures WithCommas(texts) == "" <==> texts == []
  {
  }

  function EntryTexts(es: seq<Node>, isObject: bool): (r: seq<string>)
    ensures |r| == |es|
  {
    seq(|es|, i requires 0 <= i < |es| => M.Entry(es[i], isObject))
  }

  lemma {:induction false} AllNonEmpty(texts: seq<string>)
    ensures forall i :: 0 <= i < |NonEmpty(texts)| ==> NonEmpty(texts)[i] != ""
    decreases texts
  {
    if texts != [] {
      AllNonEmpty(texts[1..]);
    }
  }

  /** The entries of a MiniMax object or array that show something yet, with commas between them. */
  lemma {:induction false} MinimaxEntries(es: seq<Node>, isObject: bool, bound: Node)
    requires forall k :: 0 <= k < |es| ==> es[k] < bound
    ensures M.Entries(es, isObject, bound) == WithCommas(NonEmpty(EntryTexts(es, isObject)))
    decreases |es|
  {
    hide M.Entry, WithCommas, M.Entries;
    if es == [] {
      M.NoEntries(isObject, bound);
      assert WithCommas([]) == "" by { SomeText([]); }
    } else {
      var n := |es| - 1;
      M.LastEntry(es, isObject, bound);
      MinimaxEntries(es[..n], isObject, bound);
      var texts, last := EntryTexts(es[..n], isObject), M.Entry(es[n], isObject);
      assert EntryTexts(es, isObject) == texts + [last];
      NonEmptySnoc(texts, last);
      AllNonEmpty(texts);
      SomeText(NonEmpty(texts));
      if last == "" {
        assert NonEmpty(texts) + [] == NonEmpty(texts);
      } else if NonEmpty(texts) == [] {
        OneText(last);
        assert [] + [last] == [last];
      } else {
        WithCommasSnoc(NonEmpty(texts), last);
      }
    }
  }

  lemma OneText(last: string)
    ensures WithCommas([last]) == last
  {
  }

  /** The elements of a Gemma array or object, with commas between them; the parts of a member, one after the other. */
  lemma {:induction false} GemmaElements(children: seq<Node>)
    ensures G.Joined(children) == WithCommas(GemmaTexts(children))
    ensures G.Concatenated(children) == AllTexts(GemmaTexts(children))
    decreases children
  {
    hide G.ToJson;
    if children != [] {
      GemmaElements(children[1..]);
      assert GemmaTexts(children)[1..] == GemmaTexts(children[1..]);
      if |children| > 1 {
        var first, rest := G.ToJson(children[0]), G.Joined(children[1..]);
        assert first + ("," + rest) == first + "," + rest;
      }
    }
  }

  function GemmaTexts(children: seq<Node>): (r: seq<string>)
    ensures |r| == |children|
  {
    seq(|children|, i requires 0 <= i < |children| => G.ToJson(children[i]))
  }

  function AllTexts(texts: seq<string>): string {
    if texts == [] then "" else texts[0] + AllTexts(texts[1..])
  }

  // ---------- the message ----------

  predicate Speaks(n: Node) {
    n.tag.TagReasoning? || n.tag.TagContent? || n.tag.TagTool?
  }

  /** The outermost nodes of reasoning, content and tools, in document order. */
  function Speaking(nodes: seq<Node>): seq<Node>
    decreases nodes, |nodes|
  {
    if nodes == [] then []
    else (if Speaks(nodes[0]) then [nodes[0]] else Speaking(nodes[0].children)) + Speaking(nodes[1..])
  }

  function TextOf(ns: seq<Node>, tag: Tag): string {
    if ns == [] then "" else (if ns[0].tag == tag then ns[0].text else "") + TextOf(ns[1..], tag)
  }

  function CallsOf(f: Format, ns: seq<Node>): seq<ToolCall> {
    if ns == [] then [] else (if ns[0].tag.TagTool? then ToolCalls(f, ns[0]) else []) + CallsOf(f, ns[1..])
  }

  function With(f: Format, m: Message, ns: seq<Node>): Message {
    Message(m.reasoning + TextOf(ns, TagReasoning), m.content + TextOf(ns, TagContent), m.toolCalls + CallsOf(f, ns))
  }

  lemma {:induction false} TextConcat(a: seq<Node>, b: seq<Node>, tag: Tag)
    ensures TextOf(a + b, tag) == TextOf(a, tag) + TextOf(b, tag)
    decreases a
  {
    if a == [] {
      assert a + b == b;
    } else {
      assert (a + b)[1..] == a[1..] + b;
      TextConcat(a[1..], b, tag);
    }
  }

  lemma {:induction false} CallsConcat(f: Format, a: seq<Node>, b: seq<Node>)
    ensures CallsOf(f, a + b) == CallsOf(f, a) + CallsOf(f, b)
    decreases a
  {
    hide ToolCalls;
    if a == [] {
      assert a + b == b;
    } else {
      assert (a + b)[1..] == a[1..] + b;
      CallsConcat(f, a[1..], b);
    }
  }

  lemma WithBoth(f: Format, m: Message, a: seq<Node>, b: seq<Node>)
    ensures With(f, With(f, m, a), b) == With(f, m, a + b)
  {
    hide TextOf, CallsOf;
    TextConcat(a, b, TagReasoning);
    TextConcat(a, b, TagContent);
    CallsConcat(f, a, b);
    Grouped(m.reasoning, TextOf(a, TagReasoning), TextOf(b, TagReasoning));
    Grouped(m.content, TextOf(a, TagContent), TextOf(b, TagContent));
    assert m.toolCalls + CallsOf(f, a) + CallsOf(f, b) == m.toolCalls + (CallsOf(f, a) + CallsOf(f, b));
  }

  lemma Grouped(a: string, b: string, c: string)
    ensures a + b + c == a + (b + c)
  {
  }

  lemma WithOne(f: Format, m: Message, n: Node)
    requires Speaks(n)
    ensures With(f, m, [n]) == Visit(f, m, n)
  {
    hide ToolCalls;
    OneSpeaks(f, n);
    assert m.reasoning + "" == m.reasoning && m.content + "" == m.content && m.toolCalls + [] == m.toolCalls;
  }

  lemma OneSpeaks(f: Format, n: Node)
    ensures forall tag :: TextOf([n], tag) == if n.tag == tag then n.text else ""
    ensures CallsOf(f, [n]) == if n.tag.TagTool? then ToolCalls(f, n) else []
  {
    hide ToolCalls;
    assert [n][1..] == [];
    assert n.text + "" == n.text && ToolCalls(f, n) + [] == ToolCalls(f, n);
  }

  lemma WithNone(f: Format, m: Message)
    ensures With(f, m, []) == m
  {
    assert m.reasoning + "" == m.reasoning && m.content + "" == m.content && m.toolCalls + [] == m.toolCalls;
  }

  lemma {:induction false} VisitIs(f: Format, m: Message, nodes: seq<Node>)
    ensures VisitAll(f, m, nodes) == With(f, m, Speaking(nodes))
    decreases nodes, |nodes|
  {
    hide With;
    if nodes == [] {
      WithNone(f, m);
    } else {
      var n := nodes[0];
      var here := if Speaks(n) then [n] else Speaking(n.children);
      if Speaks(n) {
        WithOne(f, m, n);
      } else {
        VisitIs(f, m, n.children);
      }
      VisitIs(f, Visit(f, m, n), nodes[1..]);
      WithBoth(f, m, here, Speaking(nodes[1..]));
    }
  }

  /** The message of a parse: the texts of the reasoning nodes and of the content nodes, each in their own field, and
      the calls of the tool nodes in order.
   */
  lemma MessageIs(f: Format, nodes: seq<Node>)
    ensures var ns := Speaking(nodes);
      ParseStream.MessageOf(f, nodes) == Message(TextOf(ns, TagReasoning), TextOf(ns, TagContent), CallsOf(f, ns))
  {
    hide VisitAll;
    var ns := Speaking(nodes);
    VisitIs(f, EMPTY_MESSAGE, nodes);
    assert "" + TextOf(ns, TagReasoning) == TextOf(ns, TagReasoning) && "" + TextOf(ns, TagContent) == TextOf(ns, TagContent);
    assert [] + CallsOf(f, ns) == CallsOf(f, ns);
  }

  /** A complete Gemma tool is one call with its name and the JSON text of its arguments; a tool without a name, with
      a name still partial, or without arguments yet, is none.
   */
  lemma GemmaCall(n: Node)
    ensures var name, args := FindByTag(n, TagToolName, MAX_DEPTH), FindByTag(n, TagToolArgs, MAX_DEPTH);
      && (name.None? || name.value.partial || args.None? ==> ToolCalls(Gemma4, n) == [])
      && (name.Some? && !name.value.partial && args.Some? && args.value.children == [] ==>
            ToolCalls(Gemma4, n) == [ToolCall(name.value.text, "", "")])
      && (name.Some? && !name.value.partial && args.Some? && args.value.children != [] ==>
            ToolCalls(Gemma4, n) == [ToolCall(name.value.text, G.ToJson(args.value.children[0]), "")])
      && (name.Some? && !name.value.partial && args.Some? && args.value.children != [] && G.CompleteDict(args.value.children[0]) ==>
            ToolCalls(Gemma4, n) == [ToolCall(name.value.text, Print(G.DictMeaning(args.value.children[0]), COMPACT), "")])
  {
    hide FindByTag, G.CompleteDict, G.DictMeaning, Print;
    var args := FindByTag(n, TagToolArgs, MAX_DEPTH);
    if args.Some? && args.value.children != [] && G.CompleteDict(args.value.children[0]) {
      G.DictPrinted(args.value.children[0]);
    }
  }

  /** A complete MiniMax tool is one call with its name and the JSON text of its arguments; a tool without a name is
      none.
   */
  lemma MinimaxCall(n: Node)
    ensures var name := FindByTag(n, TagToolName, MAX_DEPTH);
      && (name.None? ==> ToolCalls(MiniMaxM3, n) == [])
      && (name.Some? ==> ToolCalls(MiniMaxM3, n) == [ToolCall(name.value.text, M.Container(n, true, !n.partial), "")])
      && (name.Some? && !n.partial && M.CompleteObject(n) ==>
            ToolCalls(MiniMaxM3, n) == [ToolCall(name.value.text, Print(M.ObjectMeaning(n), COMPACT), "")])
  {
    hide FindByTag, M.CompleteObject, M.ObjectMeaning, Print, M.Container;
    if !n.partial && M.CompleteObject(n) {
      M.ObjectPrinted(n);
    }
  }
}
