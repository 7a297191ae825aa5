/** The syntax trees a (possibly partial) parse produces, and how the tree of a shorter input relates
    to the tree of a longer one.
 */
module PegAst {
  import opened Wrappers

  datatype Rule =
    | GemmaNumber | GemmaBool | GemmaNull | GemmaStringContent | GemmaString | GemmaArray
    | GemmaDictKeyName | GemmaDictKey | GemmaDictKv | GemmaDict | GemmaValue | OtherRule

  datatype Tag =
    | TagReasoning | TagContent | TagTool | TagToolOpen | TagToolId | TagToolName | TagToolArgs | TagToolClose
    | TagArg | TagArgOpen | TagArgName | TagArgClose
    | TagArgValue | TagArgString | TagArgObject | TagArgArray | TagArgItem | Untagged

  datatype Node = Node(rule: Rule, tag: Tag, text: string, children: seq<Node>, partial: bool)

  /** The first node with the tag in document order, at most `depth` levels down. */
  function FindByTag(parent: Node, tag: Tag, depth: nat): Option<Node>
    decreases parent, 1, 0
  {
    FindIn(parent.children, tag, depth)
  }

  function FindIn(children: seq<Node>, tag: Tag, depth: nat): Option<Node>
    decreases children, 0, |children|
  {
    if children == [] || depth == 0 then None
    else if children[0].tag == tag then Some(children[0])
    else
      var deeper := if depth > 1 then FindByTag(children[0], tag, depth - 1) else None;
      if deeper.Some? then deeper else FindIn(children[1..], tag, depth)
  }

  /** The default search depth. */
  const MAX_DEPTH: nat := 3

  // ---------- truncation ----------

  /** Nodes whose text ends with a fixed terminator: unless complete they are flagged partial. */
  predicate Terminated(n: Node) {
    n.rule.GemmaString? || n.rule.GemmaArray? || n.rule.GemmaDictKey? || n.rule.GemmaDict?
    || n.tag.TagTool? || n.tag.TagArg? || n.tag.TagArgItem?
  }

  /** Nodes that appear only once they are complete. */
  predicate Atomic(n: Node) {
    n.tag.TagToolOpen? || n.tag.TagToolId? || n.tag.TagToolName? || n.tag.TagToolClose?
    || n.tag.TagArgOpen? || n.tag.TagArgName? || n.tag.TagArgClose?
  }

  /** `a` is what `b` looked like when less input had arrived: only nodes on the rightmost path of
      `a` may differ from their counterparts in `b`, and those hold a prefix of the text. */
  ghost predicate Truncation(a: Node, b: Node)
    decreases b, 1, 0
  {
    a == b
    || (&& a.rule == b.rule && a.tag == b.tag && a.text <= b.text
        && !Atomic(b)
        && (Terminated(b) ==> a.partial)
        && Truncations(a.children, b.children))
  }

  ghost predicate Truncations(xs: seq<Node>, ys: seq<Node>)
    decreases ys, 0, |ys|
  {
    xs == []
    || (&& |xs| <= |ys|
        && if |xs| == 1 then Truncation(xs[0], ys[0]) else xs[0] == ys[0] && Truncations(xs[1..], ys[1..]))
  }

  lemma {:induction false} TruncationsReflexive(xs: seq<Node>)
    ensures Truncations(xs, xs)
    decreases xs
  {
    if |xs| > 1 {
      TruncationsReflexive(xs[1..]);
    }
  }

  lemma {:induction false} TruncationsAppend(xs: seq<Node>, ys: seq<Node>, more: seq<Node>)
    requires Truncations(xs, ys)
    ensures Truncations(xs, ys + more)
    decreases xs
  {
    hide Truncation;
    if |xs| > 1 {
      TruncationsAppend(xs[1..], ys[1..], more);
      assert (ys + more)[1..] == ys[1..] + more;
    }
  }

  lemma {:induction false} TruncationsPrepend(before: seq<Node>, xs: seq<Node>, ys: seq<Node>)
    requires Truncations(xs, ys)
    ensures Truncations(before + xs, before + ys)
    decreases before
  {
    hide Truncation;
    if before == [] {
      assert before + xs == xs && before + ys == ys;
    } else if xs == [] {
      TruncationsReflexive(before);
      TruncationsAppend(before, before, ys);
      assert before + xs == before;
    } else {
      TruncationsPrepend(before[1..], xs, ys);
      assert (before + xs)[1..] == before[1..] + xs && (before + ys)[1..] == before[1..] + ys;
    }
  }

  lemma {:induction false} TruncationsIndexed(xs: seq<Node>, ys: seq<Node>)
    requires Truncations(xs, ys) && xs != []
    ensures |xs| <= |ys| && xs[..|xs| - 1] == ys[..|xs| - 1]
    ensures Truncation(xs[|xs| - 1], ys[|xs| - 1])
    decreases xs
  {
    hide Truncation;
    if |xs| > 1 {
      TruncationsIndexed(xs[1..], ys[1..]);
      var n := |xs| - 1;
      assert xs[..n] == [xs[0]] + xs[1..][..n - 1] && ys[..n] == [ys[0]] + ys[1..][..n - 1];
    }
  }

  lemma FirstTruncated(xs: seq<Node>, ys: seq<Node>)
    requires Truncations(xs, ys) && xs != []
    ensures ys != [] && Truncation(xs[0], ys[0])
  {
  }

  lemma ApartFacts(a: Node, b: Node)
    requires Truncation(a, b) && a != b
    ensures a.rule == b.rule && a.tag == b.tag && a.text <= b.text && !Atomic(b)
    ensures Terminated(b) ==> a.partial
    ensures Truncations(a.children, b.children)
  {
  }

  /** What is found in a truncated tree is found in the whole tree, in full if it is atomic. */
  lemma {:induction false} FindTruncated(a: Node, b: Node, tag: Tag, depth: nat)
    requires Truncation(a, b) && FindByTag(a, tag, depth).Some?
    ensures FindByTag(b, tag, depth).Some?
    ensures Truncation(FindByTag(a, tag, depth).value, FindByTag(b, tag, depth).value)
    decreases b, 1, 0
  {
    if a != b {
      FindInTruncated(a.children, b.children, tag, depth);
    }
  }

  lemma {:induction false} FindInTruncated(xs: seq<Node>, ys: seq<Node>, tag: Tag, depth: nat)
    requires Truncations(xs, ys) && FindIn(xs, tag, depth).Some?
    ensures FindIn(ys, tag, depth).Some?
    ensures Truncation(FindIn(xs, tag, depth).value, FindIn(ys, tag, depth).value)
    decreases ys, 0, |ys|
  {
    var x, y := xs[0], ys[0];
    assert |xs| == 1 ==> xs[1..] == [];
    assert Truncation(x, y) && x.tag == y.tag;
    if x.tag != tag {
      var deeper := if depth > 1 then FindByTag(x, tag, depth - 1) else None;
      if deeper.Some? {
        FindTruncated(x, y, tag, depth - 1);
      } else {
        assert FindIn(xs, tag, depth) == FindIn(xs[1..], tag, depth);
        FindInTruncated(xs[1..], ys[1..], tag, depth);
      }
    }
  }

  lemma {:induction false} FoundTag(n: Node, tag: Tag, depth: nat)
    ensures FindByTag(n, tag, depth).Some? ==> FindByTag(n, tag, depth).value.tag == tag
    decreases n, 1, 0
  {
    FoundTagIn(n.children, tag, depth);
  }

  lemma {:induction false} FoundTagIn(nodes: seq<Node>, tag: Tag, depth: nat)
    ensures FindIn(nodes, tag, depth).Some? ==> FindIn(nodes, tag, depth).value.tag == tag
    decreases nodes, 0, |nodes|
  {
    if nodes != [] && depth > 0 {
      FoundTagIn(nodes[1..], tag, depth);
      if depth > 1 {
        FoundTag(nodes[0], tag, depth - 1);
      }
    }
  }
}
