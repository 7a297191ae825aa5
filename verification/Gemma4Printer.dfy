/** JSON text from the tree of a Gemma 4 tool call, printed as far as the tree goes. */
module Gemma4Printer {
  import opened JsonText
  import opened PegAst

  function ToJson(n: Node): string
    decreases n, 1, 0
  {
    if n.text == "" then ""
    else
      match n.rule
      case GemmaNumber => n.text
      case GemmaBool => n.text
      case GemmaNull => n.text
      case GemmaStringContent => Escape(n.text)
      case GemmaString =>
        if n.children == [] then "\""
        else "\"" + (ToJson(n.children[0]) + (if n.partial then "" else "\""))
      case GemmaArray => "[" + (Joined(n.children) + (if n.partial then "" else "]"))
      case GemmaDictKeyName => n.text
      case GemmaDictKey =>
        "\"" + ((if n.children == [] then "" else Escape(ToJson(n.children[0]))) + (if n.partial then "" else "\":"))
      case GemmaDictKv => Concatenated(n.children)
      case GemmaDict => "{" + (Joined(n.children) + (if n.partial then "" else "}"))
      case GemmaValue => if n.children == [] then "" else ToJson(n.children[0])
      case OtherRule => ""
  }

  /** The children's texts with commas between them. */
  function Joined(children: seq<Node>): string
    decreases children, 0, |children|
  {
    if children == [] then ""
    else if |children| == 1 then ToJson(children[0])
    else ToJson(children[0]) + ("," + Joined(children[1..]))
  }

  function Concatenated(children: seq<Node>): string
    decreases children, 0, |children|
  {
    if children == [] then "" else ToJson(children[0]) + Concatenated(children[1..])
  }

  // ---------- prefix monotonicity ----------

  lemma PrefixClosed(p: string, a: string, b: string, close: string)
    requires a <= b
    ensures p + (a + "") <= p + (b + close)
  {
    assert a + "" == a;
    PrefixUnder(p, a, b + close);
  }

  /** The text printed for a truncated tree is a prefix of the text printed for the whole tree. */
  lemma {:induction false} PrefixMonotone(a: Node, b: Node)
    requires Truncation(a, b)
    ensures ToJson(a) <= ToJson(b)
    decreases b, 1, 0
  {
    hide Joined, Concatenated, Truncation, Truncations, Escape;
    if a != b && a.text != "" {
      ApartFacts(a, b);
      var xs, ys := a.children, b.children;
      if a.rule.GemmaStringContent? {
        EscapePrefix(a.text, b.text);
      } else if a.rule.GemmaArray? || a.rule.GemmaDict? {
        JoinedMonotone(xs, ys);
        PrefixClosed(if a.rule.GemmaArray? then "[" else "{", Joined(xs), Joined(ys),
                     if b.partial then "" else if a.rule.GemmaArray? then "]" else "}");
      } else if a.rule.GemmaDictKv? {
        ConcatenatedMonotone(xs, ys);
      } else if a.rule.GemmaString? || a.rule.GemmaDictKey? || a.rule.GemmaValue? {
        if xs != [] {
          FirstTruncated(xs, ys);
          PrefixMonotone(xs[0], ys[0]);
          var p, q := ToJson(xs[0]), ToJson(ys[0]);
          if a.rule.GemmaString? {
            PrefixClosed("\"", p, q, if b.partial then "" else "\"");
          } else if a.rule.GemmaDictKey? {
            EscapePrefix(p, q);
            PrefixClosed("\"", Escape(p), Escape(q), if b.partial then "" else "\":");
          }
        }
      }
    }
  }

  lemma {:induction false} JoinedMonotone(xs: seq<Node>, ys: seq<Node>)
    requires Truncations(xs, ys)
    ensures Joined(xs) <= Joined(ys)
    decreases ys, 0, |ys|
  {
    hide ToJson, Truncation;
    if xs != [] {
      FirstTruncated(xs, ys);
      PrefixMonotone(xs[0], ys[0]);
      if |xs| > 1 {
        JoinedMonotone(xs[1..], ys[1..]);
        PrefixUnder(",", Joined(xs[1..]), Joined(ys[1..]));
        PrefixUnder(ToJson(xs[0]), "," + Joined(xs[1..]), "," + Joined(ys[1..]));
      }
    }
  }

  lemma {:induction false} ConcatenatedMonotone(xs: seq<Node>, ys: seq<Node>)
    requires Truncations(xs, ys)
    ensures Concatenated(xs) <= Concatenated(ys)
    decreases ys, 0, |ys|
  {
    hide ToJson, Truncation;
    if xs != [] {
      FirstTruncated(xs, ys);
      PrefixMonotone(xs[0], ys[0]);
      if |xs| > 1 {
        ConcatenatedMonotone(xs[1..], ys[1..]);
        PrefixUnder(ToJson(xs[0]), Concatenated(xs[1..]), Concatenated(ys[1..]));
      } else {
        assert xs[1..] == [] && Concatenated(xs) == ToJson(xs[0]) + "";
      }
    }
  }

  // ---------- complete trees ----------

  predicate IsLeaf(n: Node) {
    n.rule.GemmaNumber? || n.rule.GemmaBool? || n.rule.GemmaNull?
  }

  /** The shape the grammar gives to a complete value. */
  predicate CompleteValue(n: Node)
    decreases n, 1, 0
  {
    n.rule.GemmaValue? && n.text != "" && |n.children| == 1
    && var c := n.children[0];
    c.text != ""
    && (IsLeaf(c)
        || (c.rule.GemmaString? && !c.partial && |c.children| == 1 && c.children[0].rule.GemmaStringContent?)
        || (c.rule.GemmaArray? && !c.partial && CompleteItems(c.children))
        || (c.rule.GemmaDict? && CompleteDict(c)))
  }

  predicate CompleteDict(n: Node)
    decreases n, 1, 0
  {
    n.rule.GemmaDict? && n.text != "" && !n.partial && CompleteMembers(n.children)
  }

  predicate CompleteItems(children: seq<Node>)
    decreases children, 0, |children|
  {
    children != [] ==> CompleteValue(children[0]) && CompleteItems(children[1..])
  }

  predicate CompleteKey(n: Node) {
    n.rule.GemmaDictKey? && n.text != "" && !n.partial && |n.children| == 1
    && n.children[0].rule.GemmaDictKeyName? && n.children[0].text != ""
  }

  predicate CompleteMembers(children: seq<Node>)
    decreases children, 0, |children|
  {
    children != [] ==>
      && var kv := children[0];
      && kv.rule.GemmaDictKv? && kv.text != "" && |kv.children| == 2
      && CompleteKey(kv.children[0]) && CompleteValue(kv.children[1])
      && CompleteMembers(children[1..])
  }

  /** The JSON value a complete tree denotes. */
  function Meaning(n: Node): Value
    requires CompleteValue(n)
    decreases n, 1, 0
  {
    var c := n.children[0];
    if IsLeaf(c) then Scalar(c.text)
    else if c.rule.GemmaString? then Text(c.children[0].text)
    else if c.rule.GemmaArray? then Array(ItemMeanings(c.children))
    else DictMeaning(c)
  }

  function DictMeaning(n: Node): Value
    requires CompleteDict(n)
    decreases n, 1, 0
  {
    Object(MemberMeanings(n.children))
  }

  function ItemMeanings(children: seq<Node>): (r: seq<Value>)
    requires CompleteItems(children)
    ensures |r| == |children|
    decreases children, 0, |children|
  {
    if children == [] then [] else [Meaning(children[0])] + ItemMeanings(children[1..])
  }

  function MemberMeanings(children: seq<Node>): (r: seq<Member>)
    requires CompleteMembers(children)
    ensures |r| == |children|
    decreases children, 0, |children|
  {
    if children == [] then []
    else
      var kv := children[0];
      [Member(kv.children[0].children[0].text, Meaning(kv.children[1]))] + MemberMeanings(children[1..])
  }

  /** For a complete tree the printer writes exactly the JSON text of the value. */
  lemma {:induction false} CompletePrinted(n: Node)
    requires CompleteValue(n)
    ensures ToJson(n) == Print(Meaning(n), COMPACT)
    decreases n, 1, 0
  {
    hide Joined, Concatenated, CompleteItems, CompleteMembers, PrintItems, PrintMembers, Escape;
    var c := n.children[0];
    assert ToJson(n) == ToJson(c);
    if c.rule.GemmaString? {
      ContentPrinted(c.children[0]);
      assert "\"" + (Escape(c.children[0].text) + "\"") == Quoted(c.children[0].text);
    } else if c.rule.GemmaArray? {
      ItemsPrinted(c.children);
      assert "[" + (Joined(c.children) + "]") == "[" + Joined(c.children) + "]";
    } else if c.rule.GemmaDict? {
      DictPrinted(c);
    }
  }

  lemma ContentPrinted(n: Node)
    requires n.rule.GemmaStringContent?
    ensures ToJson(n) == Escape(n.text)
  {
  }

  lemma {:induction false} DictPrinted(n: Node)
    requires CompleteDict(n)
    ensures ToJson(n) == Print(DictMeaning(n), COMPACT)
    decreases n, 1, 0
  {
    hide Joined, Concatenated, CompleteMembers, PrintMembers, MemberMeanings;
    MembersPrinted(n.children);
    assert "{" + (Joined(n.children) + "}") == "{" + Joined(n.children) + "}";
  }

  lemma {:induction false} ItemsPrinted(children: seq<Node>)
    requires CompleteItems(children)
    ensures Joined(children) == PrintItems(ItemMeanings(children), COMPACT)
    decreases children, 0, |children|
  {
    hide ToJson, Print, CompleteValue, Meaning;
    if children != [] {
      CompletePrinted(children[0]);
      ItemsPrinted(children[1..]);
      assert ItemMeanings(children)[1..] == ItemMeanings(children[1..]);
      if |children| > 1 {
        var first, rest := ToJson(children[0]), Joined(children[1..]);
        assert first + ("," + rest) == first + "," + COMPACT.afterComma + rest;
      }
    }
  }

  lemma {:induction false} MemberPrinted(kv: Node)
    requires kv.rule.GemmaDictKv? && kv.text != "" && |kv.children| == 2
    requires CompleteKey(kv.children[0]) && CompleteValue(kv.children[1])
    ensures ToJson(kv) == PrintMember(Member(kv.children[0].children[0].text, Meaning(kv.children[1])), COMPACT)
    decreases kv, 1, 0
  {
    hide Print, CompleteValue, Meaning, Escape;
    var key, value := kv.children[0], kv.children[1];
    CompletePrinted(value);
    KeyPrinted(key);
    TwoConcatenated(kv.children);
    assert Quoted(key.children[0].text) + ":" + ToJson(value)
        == Quoted(key.children[0].text) + ":" + COMPACT.afterColon + ToJson(value);
  }

  lemma KeyPrinted(key: Node)
    requires CompleteKey(key)
    ensures ToJson(key) == Quoted(key.children[0].text) + ":"
  {
    hide Escape;
    var name := key.children[0];
    assert ToJson(name) == name.text;
    assert "\"" + (Escape(name.text) + "\":") == Quoted(name.text) + ":";
  }

  lemma TwoConcatenated(children: seq<Node>)
    requires |children| == 2
    ensures Concatenated(children) == ToJson(children[0]) + ToJson(children[1])
  {
    hide ToJson;
    assert children[1..][1..] == [] && children[1..][0] == children[1];
    assert Concatenated(children[1..]) == ToJson(children[1]) + "";
  }

  lemma {:induction false} MembersPrinted(children: seq<Node>)
    requires CompleteMembers(children)
    ensures Joined(children) == PrintMembers(MemberMeanings(children), COMPACT)
    decreases children, 0, |children|
  {
    hide ToJson, PrintMember, CompleteKey, CompleteValue, Meaning;
    if children != [] {
      MemberPrinted(children[0]);
      MembersPrinted(children[1..]);
      assert MemberMeanings(children)[1..] == MemberMeanings(children[1..]);
      if |children| > 1 {
        var first, rest := ToJson(children[0]), Joined(children[1..]);
        assert first + ("," + rest) == first + "," + COMPACT.afterComma + rest;
      }
    }
  }
}
