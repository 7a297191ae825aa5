/** What the mapper's event handling amounts to over a whole tool call. */
module ToolMapperRuns {
  import opened JsonLexer
  import opened JsonText
  import opened MessageDiff
  import opened Wrappers
  import opened ToolMapper
  import P = PythonText
  import Q = QuoteTranslator

  // ---------- brace counting over JSON text ----------

  lemma {:induction false} BraceScanConcat(b: Braces, x: string, y: string)
    ensures BraceScan(b, x + y) == BraceScan(BraceScan(b, x), y)
    decreases x
  {
    if x == "" {
      assert x + y == y;
    } else {
      assert (x + y)[1..] == x[1..] + y;
      BraceScanConcat(BraceStep(b, x[0]), x[1..], y);
    }
  }

  /** Reading `s` outside a string leaves the brace counter as it was. */
  ghost predicate Neutral(s: string) {
    forall d :: BraceScan(Braces(d, false, false), s) == Braces(d, false, false)
  }

  predicate IsInert(c: char) {
    c != '"' && c != '\\' && c != '{' && c != '}'
  }

  lemma NeutralConcat(x: string, y: string)
    requires Neutral(x) && Neutral(y)
    ensures Neutral(x + y)
  {
    forall d ensures BraceScan(Braces(d, false, false), x + y) == Braces(d, false, false) {
      BraceScanConcat(Braces(d, false, false), x, y);
    }
  }

  lemma {:induction false} NeutralInert(s: string)
    requires forall k :: 0 <= k < |s| ==> IsInert(s[k])
    ensures Neutral(s)
    decreases s
  {
    forall d ensures BraceScan(Braces(d, false, false), s) == Braces(d, false, false) {
      if s != "" {
        NeutralInert(s[1..]);
      }
    }
  }

  lemma EscapeCharInString(d: int, c: char)
    ensures BraceScan(Braces(d, true, false), EscapeChar(c)) == Braces(d, true, false)
  {
    var out := EscapeChar(c);
    var b := Braces(d, true, false);
    if |out| == 2 {
      assert out[1..][1..] == "" && out[1..][0] == out[1];
      assert BraceScan(BraceStep(b, out[0]), out[1..]) == BraceScan(b, out[1..][1..]);
    } else if |out| == 6 {
      var digits := out[2..];
      assert out[1..][1..] == digits && out[1..][0] == 'u';
      assert BraceScan(b, out) == BraceScan(b, digits);
      InertInString(d, digits);
    } else {
      assert out[1..] == "";
    }
  }

  lemma {:induction false} InertInString(d: int, s: string)
    requires forall k :: 0 <= k < |s| ==> s[k] != '"' && s[k] != '\\'
    ensures BraceScan(Braces(d, true, false), s) == Braces(d, true, false)
    decreases s
  {
    if s != "" {
      InertInString(d, s[1..]);
    }
  }

  lemma {:induction false} EscapeInString(d: int, s: string)
    ensures BraceScan(Braces(d, true, false), Escape(s)) == Braces(d, true, false)
    decreases s
  {
    hide EscapeChar;
    if s != "" {
      BraceScanConcat(Braces(d, true, false), EscapeChar(s[0]), Escape(s[1..]));
      EscapeCharInString(d, s[0]);
      EscapeInString(d, s[1..]);
    }
  }

  lemma NeutralQuoted(s: string)
    ensures Neutral(Quoted(s))
  {
    hide Escape;
    forall d ensures BraceScan(Braces(d, false, false), Quoted(s)) == Braces(d, false, false) {
      var b, q := Braces(d, false, false), "\"";
      BraceScanConcat(b, q + Escape(s), q);
      BraceScanConcat(b, q, Escape(s));
      assert q[1..] == "";
      assert BraceScan(b, q) == Braces(d, true, false);
      EscapeInString(d, s);
      assert BraceScan(Braces(d, true, false), q) == b;
    }
  }

  predicate InertScalars(v: Value)
    decreases v, 0
  {
    match v
    case Text(_) => true
    case Scalar(token) => forall k :: 0 <= k < |token| ==> IsInert(token[k])
    case Array(items) => forall k :: 0 <= k < |items| ==> InertScalars(items[k])
    case Object(members) => forall k :: 0 <= k < |members| ==> InertScalars(members[k].value)
  }

  lemma NeutralWrapped(open: string, inner: string, close: string)
    requires Neutral(inner)
    requires (open == "{" && close == "}") || (open == "[" && close == "]")
    ensures Neutral(open + inner + close)
  {
    hide BraceScan;
    forall d ensures BraceScan(Braces(d, false, false), open + inner + close) == Braces(d, false, false) {
      var b := Braces(d, false, false);
      BraceScanConcat(b, open + inner, close);
      BraceScanConcat(b, open, inner);
      BraceScanOne(b, open[0]);
      var e := if open == "{" then d + 1 else d;
      BraceScanOne(Braces(e, false, false), close[0]);
    }
  }

  lemma BraceScanOne(b: Braces, c: char)
    ensures BraceScan(b, [c]) == BraceStep(b, c)
  {
    assert [c][1..] == "";
  }

  lemma {:induction false} NeutralPrint(v: Value, sp: Spacing)
    requires InertScalars(v) && Q.Blank(sp.afterComma) && Q.Blank(sp.afterColon)
    ensures Neutral(Print(v, sp))
    decreases v, 0
  {
    hide Neutral, Quoted, PrintItems, PrintMembers;
    match v
    case Text(chars) => NeutralQuoted(chars);
    case Scalar(token) => NeutralInert(token);
    case Array(items) =>
      NeutralItems(items, sp);
      NeutralWrapped("[", PrintItems(items, sp), "]");
    case Object(members) =>
      NeutralMembers(members, sp);
      NeutralWrapped("{", PrintMembers(members, sp), "}");
  }

  lemma {:induction false} NeutralItems(items: seq<Value>, sp: Spacing)
    requires forall k :: 0 <= k < |items| ==> InertScalars(items[k])
    requires Q.Blank(sp.afterComma) && Q.Blank(sp.afterColon)
    ensures Neutral(PrintItems(items, sp))
    decreases items, 0
  {
    hide Neutral, Print, InertScalars;
    if items == [] {
      NeutralInert("");
    } else {
      NeutralPrint(items[0], sp);
      if |items| > 1 {
        var sep := "," + sp.afterComma;
        NeutralInert(sep);
        NeutralItems(items[1..], sp);
        NeutralConcat(Print(items[0], sp), sep);
        NeutralConcat(Print(items[0], sp) + sep, PrintItems(items[1..], sp));
        assert Print(items[0], sp) + "," + sp.afterComma == Print(items[0], sp) + sep;
      }
    }
  }

  lemma {:induction false} NeutralMember(m: Member, sp: Spacing)
    requires InertScalars(m.value) && Q.Blank(sp.afterComma) && Q.Blank(sp.afterColon)
    ensures Neutral(PrintMember(m, sp))
    decreases m, 1
  {
    hide Neutral, Print, InertScalars, Quoted;
    var sep := ":" + sp.afterColon;
    NeutralQuoted(m.key);
    NeutralInert(sep);
    NeutralPrint(m.value, sp);
    NeutralConcat(Quoted(m.key), sep);
    NeutralConcat(Quoted(m.key) + sep, Print(m.value, sp));
    assert Quoted(m.key) + ":" + sp.afterColon == Quoted(m.key) + sep;
  }

  lemma {:induction false} NeutralMembers(members: seq<Member>, sp: Spacing)
    requires forall k :: 0 <= k < |members| ==> InertScalars(members[k].value)
    requires Q.Blank(sp.afterComma) && Q.Blank(sp.afterColon)
    ensures Neutral(PrintMembers(members, sp))
    decreases members, 0
  {
    hide Neutral, PrintMember, InertScalars;
    if members == [] {
      NeutralInert("");
    } else {
      NeutralMember(members[0], sp);
      if |members| > 1 {
        var first, sep := PrintMember(members[0], sp), "," + sp.afterComma;
        NeutralInert(sep);
        NeutralMembers(members[1..], sp);
        NeutralConcat(first, sep);
        NeutralConcat(first + sep, PrintMembers(members[1..], sp));
        assert first + "," + sp.afterComma == first + sep;
      }
    }
  }

  // ---------- brace counting over translated text ----------

  lemma RenderedCharInString(d: int, x: P.Spelt, quote: P.Quote)
    requires P.SpeltOk(x, quote)
    ensures BraceScan(Braces(d, true, false), P.RenderedChar(x, quote)) == Braces(d, true, false)
  {
    hide BraceScan, Numeral;
    var b := Braces(d, true, false);
    match x.form
    case Raw =>
      if x.c == '"' {
        PairInString(d, '"', "");
        assert ['\\', '"'] + "" == P.RenderedChar(x, quote);
      } else {
        BraceScanOne(b, x.c);
      }
    case Short(letter) =>
      if quote.SingleQuote? && letter == '\'' {
        BraceScanOne(b, '\'');
      } else {
        PairInString(d, letter, "");
        assert ['\\', letter] + "" == P.RenderedChar(x, quote);
      }
    case Unicode(digits) =>
      P.DigitsPlain(digits, 16);
      PairInString(d, 'u', digits);
      assert ['\\', 'u'] + digits == P.RenderedChar(x, quote);
    case Hex(digits) =>
      P.DigitsPlain(digits, 16);
      PairInString(d, 'x', digits);
      assert ['\\', 'x'] + digits == P.RenderedChar(x, quote);
    case Octal(digits) =>
      P.DigitsPlain(digits, 8);
      PairInString(d, digits[0], digits[1..]);
      assert ['\\', digits[0]] + digits[1..] == P.RenderedChar(x, quote);
    case Kept =>
      PairInString(d, x.c, "");
      assert ['\\', x.c] + "" == P.RenderedChar(x, quote);
  }

  /** A backslash, any character, and plain ones. */
  lemma PairInString(d: int, c: char, w: string)
    requires forall k :: 0 <= k < |w| ==> w[k] != '"' && w[k] != '\\'
    ensures BraceScan(Braces(d, true, false), ['\\', c] + w) == Braces(d, true, false)
  {
    var b, s := Braces(d, true, false), ['\\', c] + w;
    assert s[1..][1..] == w && s[1..][0] == c;
    assert BraceScan(BraceStep(b, s[0]), s[1..]) == BraceScan(b, w);
    InertInString(d, w);
  }

  lemma {:induction false} RenderedCharsInString(d: int, s: seq<P.Spelt>, quote: P.Quote)
    requires forall i :: 0 <= i < |s| ==> P.SpeltOk(s[i], quote)
    ensures BraceScan(Braces(d, true, false), P.RenderedChars(s, quote)) == Braces(d, true, false)
    decreases s
  {
    hide P.RenderedChar, P.SpeltOk;
    if s != [] {
      BraceScanConcat(Braces(d, true, false), P.RenderedChar(s[0], quote), P.RenderedChars(s[1..], quote));
      RenderedCharInString(d, s[0], quote);
      RenderedCharsInString(d, s[1..], quote);
    }
  }

  lemma NeutralString(s: seq<P.Spelt>, quote: P.Quote)
    requires P.StringOk(s, quote)
    ensures Neutral(P.RenderedString(s, quote))
  {
    hide P.RenderedChars, P.SpeltOk, BraceScan;
    forall d ensures BraceScan(Braces(d, false, false), P.RenderedString(s, quote)) == Braces(d, false, false) {
      var b, q, body := Braces(d, false, false), "\"", P.RenderedChars(s, quote);
      BraceScanConcat(b, q, body + q);
      BraceScanConcat(Braces(d, true, false), body, q);
      BraceScanOne(b, '"');
      RenderedCharsInString(d, s, quote);
      BraceScanOne(Braces(d, true, false), '"');
    }
  }

  lemma NeutralJoined(first: string, mid: string, last: string)
    requires Neutral(first) && Neutral(last) && forall k :: 0 <= k < |mid| ==> IsInert(mid[k])
    ensures Neutral(first + (mid + last))
  {
    hide Neutral;
    NeutralInert(mid);
    NeutralConcat(mid, last);
    NeutralConcat(first, mid + last);
  }

  /** The translation of any tree, read outside a string, leaves the brace counter as it was. */
  lemma {:induction false} NeutralRendered(t: P.Tree, sp: Spacing)
    requires P.WellFormed(t) && Q.Blank(sp.afterComma) && Q.Blank(sp.afterColon)
    ensures Neutral(P.Rendered(t, sp))
    decreases t, 1
  {
    hide Neutral, P.RenderedString, P.RenderedItems, P.RenderedEntries, P.StringOk;
    match t
    case Str(chars, quote) => NeutralString(chars, quote);
    case Num(token) => NeutralInert(token);
    case Lit(name, _) => NeutralInert(P.LiteralText(name, false));
    case Items(items) =>
      NeutralTrees(items, sp);
      NeutralWrapped("[", P.RenderedItems(items, sp), "]");
      assert "[" + P.RenderedItems(items, sp) + "]" == "[" + (P.RenderedItems(items, sp) + "]");
    case Dict(entries) =>
      NeutralEntries(entries, sp);
      NeutralWrapped("{", P.RenderedEntries(entries, sp), "}");
      assert "{" + P.RenderedEntries(entries, sp) + "}" == "{" + (P.RenderedEntries(entries, sp) + "}");
  }

  lemma {:induction false} NeutralTrees(items: seq<P.Tree>, sp: Spacing)
    requires forall k :: 0 <= k < |items| ==> P.WellFormed(items[k])
    requires Q.Blank(sp.afterComma) && Q.Blank(sp.afterColon)
    ensures Neutral(P.RenderedItems(items, sp))
    decreases items, 0
  {
    hide Neutral, P.Rendered, P.WellFormed;
    if items == [] {
      NeutralInert("");
    } else {
      NeutralRendered(items[0], sp);
      if |items| > 1 {
        NeutralTrees(items[1..], sp);
        NeutralJoined(P.Rendered(items[0], sp), "," + sp.afterComma, P.RenderedItems(items[1..], sp));
      }
    }
  }

  lemma {:induction false} NeutralEntries(entries: seq<P.Entry>, sp: Spacing)
    requires forall k :: 0 <= k < |entries| ==>
               P.StringOk(entries[k].key, entries[k].quote) && P.WellFormed(entries[k].value)
    requires Q.Blank(sp.afterComma) && Q.Blank(sp.afterColon)
    ensures Neutral(P.RenderedEntries(entries, sp))
    decreases entries, 0
  {
    hide Neutral, P.RenderedString, P.Rendered, P.WellFormed, P.StringOk;
    if entries == [] {
      NeutralInert("");
    } else {
      var e := entries[0];
      NeutralString(e.key, e.quote);
      NeutralRendered(e.value, sp);
      NeutralJoined(P.RenderedString(e.key, e.quote), ":" + sp.afterColon, P.Rendered(e.value, sp));
      if |entries| > 1 {
        NeutralEntries(entries[1..], sp);
        NeutralJoined(P.RenderedEntry(e, sp), "," + sp.afterComma, P.RenderedEntries(entries[1..], sp));
      }
    }
  }

  // ---------- events within a call ----------

  predicate IsArgEvent(e: Event) {
    e.ArgOpen? || e.ArgName? || e.ArgValue? || e.ArgString? || e.ArgClose? || IsObject(e)
  }

  predicate Begins(e: Event) {
    e.ArgName? || IsObject(e)
  }

  /** Argument events in which a value or a closing comes only after some argument name or whole object. */
  predicate Admissible(es: seq<Event>, started: bool)
    decreases es
  {
    es != [] ==>
      && IsArgEvent(es[0])
      && (started || es[0].ArgOpen? || Begins(es[0]))
      && Admissible(es[1..], started || Begins(es[0]))
  }

  predicate AwaitingName(s: State) {
    s.current.PendingTool? && s.pending.Some? && s.pending.value.name == "" && s.pending.value.arguments == ""
  }

  /** The part of the state that argument events work on: the text received, how many arguments it
      names, and whether a string value is still open. */
  datatype Receipt = Receipt(text: string, count: nat, quote: bool)

  function ArgEffect(r: Receipt, e: Event): Receipt
    requires IsArgEvent(e)
  {
    if e.ArgOpen? then r.(quote := false)
    else if e.ToolArgs? then r.(text := TrimTrailing(e.text))
    else if e.ArgName? then
      Receipt((if r.text == "" then "{" else r.text) + ((if r.count > 0 then "," else "") + Quoted(Trim(e.text)) + ":"),
              r.count + 1, r.quote)
    else if e.ArgValue? then r.(text := r.text + Q.Translation(e.text))
    else if e.ArgString? then
      if e.text == "" then Receipt(r.text + "\"", r.count, true)
      else Receipt(r.text + ((if r.quote then "" else "\"") + Escape(e.text)), r.count, true)
    else if r.quote then Receipt(r.text + "\"", r.count, false)
    else r
  }

  function Buffering(s: State, r: Receipt): State {
    s.(buffer := r.text, argCount := r.count, quotePending := r.quote)
  }

  function Naming(s: State, r: Receipt): State
    requires s.calls != []
  {
    s.(calls := s.calls[|s.calls| - 1 := s.calls[|s.calls| - 1].(arguments := r.text)],
       argCount := r.count, quotePending := r.quote)
  }

  /** Before the name is known argument events work on the buffer. */
  lemma AwaitingStep(s: State, e: Event)
    requires AwaitingName(s) && IsArgEvent(e)
    ensures Step(s, e) == Buffering(s, ArgEffect(Receipt(s.buffer, s.argCount, s.quotePending), e))
  {
    hide Q.Translation, Escape, Quoted, Trim, TrimTrailing;
  }

  predicate HasName(s: State) {
    s.current.LastCall? && s.calls != [] && s.calls[|s.calls| - 1].name != ""
  }

  /** Afterwards they do the same to the arguments of the last call. */
  lemma NamedStep(s: State, e: Event)
    requires HasName(s) && IsArgEvent(e)
    ensures Step(s, e) == Naming(s, ArgEffect(Receipt(s.calls[|s.calls| - 1].arguments, s.argCount, s.quotePending), e))
  {
    hide Q.Translation, Escape, Quoted, Trim, TrimTrailing;
    var t := s.calls[|s.calls| - 1];
    assert s.Target() == t.arguments && t.(arguments := t.arguments) == t;
  }

  lemma NameStep(s: State, name: string)
    requires AwaitingName(s) && TrimTrailing(name) != ""
    ensures Step(s, ToolName(name))
         == s.(calls := s.calls + [s.pending.value.(name := TrimTrailing(name),
                                                    arguments := if s.buffer != "" then s.buffer else "{")],
               pending := None, current := LastCall, buffer := "")
  {
    hide TrimTrailing;
  }

  // ---------- the order of events within a call ----------

  lemma NameCommutes(s: State, name: string, e: Event)
    requires AwaitingName(s) && IsArgEvent(e) && (s.buffer != "" || e.ArgOpen? || Begins(e))
    requires TrimTrailing(name) != ""
    ensures Step(Step(s, ToolName(name)), e) == Step(Step(s, e), ToolName(name))
  {
    hide Step, TrimTrailing, Q.Translation, Escape, Quoted, Trim;
    NameStep(s, name);
    NamedStep(Step(s, ToolName(name)), e);
    AwaitingStep(s, e);
    NameStep(Step(s, e), name);
  }

  lemma Started(r: Receipt, e: Event)
    requires IsArgEvent(e) && (r.text != "" || e.ArgOpen? || Begins(e))
    ensures ArgEffect(r, e).text != "" <==> r.text != "" || Begins(e)
  {
    hide Q.Translation, Escape, Quoted, Trim, TrimTrailing;
  }

  /** The id of a call after some id events. */
  function IdAfter(id: string, ids: seq<string>): string {
    if ids == [] then id else Unquoted(TrimTrailing(ids[|ids| - 1]))
  }

  function WithId(s: State, ids: seq<string>): (s': State)
    requires s.Valid() && !s.current.NoTool?
    ensures s'.Valid() && s'.current == s.current
  {
    s.WithTool(s.Tool().(id := IdAfter(s.Tool().id, ids)))
  }

  lemma IdStep(s: State, id: string, ids: seq<string>)
    requires s.Valid() && !s.current.NoTool?
    ensures Step(s, ToolId(id)) == WithId(s, [id]) && WithId(WithId(s, [id]), ids) == WithId(s, [id] + ids)
    ensures WithId(s, []) == s
  {
    hide Unquoted, TrimTrailing;
  }

  lemma AwaitingId(s: State, ids: seq<string>)
    requires AwaitingName(s)
    ensures WithId(s, ids) == s.(pending := Some(s.pending.value.(id := IdAfter(s.pending.value.id, ids))))
    ensures AwaitingName(WithId(s, ids)) && WithId(s, ids).buffer == s.buffer
  {
  }

  lemma NamedId(s: State, ids: seq<string>)
    requires HasName(s)
    ensures var k := |s.calls| - 1;
      WithId(s, ids) == s.(calls := s.calls[k := s.calls[k].(id := IdAfter(s.calls[k].id, ids))])
    ensures HasName(WithId(s, ids))
  {
  }

  /** Id events do not mind argument events, before the name, */
  lemma IdCommutesAwaiting(s: State, ids: seq<string>, e: Event)
    requires AwaitingName(s) && IsArgEvent(e)
    ensures AwaitingName(Step(s, e)) && Step(WithId(s, ids), e) == WithId(Step(s, e), ids)
  {
    hide Step, WithId, ArgEffect, IdAfter;
    AwaitingId(s, ids);
    AwaitingStep(s, e);
    AwaitingStep(WithId(s, ids), e);
    AwaitingId(Step(s, e), ids);
  }

  /** after it, */
  lemma IdCommutesNamed(s: State, ids: seq<string>, e: Event)
    requires HasName(s) && IsArgEvent(e)
    ensures HasName(Step(s, e)) && Step(WithId(s, ids), e) == WithId(Step(s, e), ids)
  {
    hide Step, WithId, ArgEffect, IdAfter;
    NamedId(s, ids);
    NamedStep(s, e);
    NamedStep(WithId(s, ids), e);
    NamedId(Step(s, e), ids);
  }

  /** or the name itself. */
  lemma IdCommutesName(s: State, ids: seq<string>, name: string)
    requires AwaitingName(s) && TrimTrailing(name) != ""
    ensures HasName(Step(s, ToolName(name)))
    ensures Step(WithId(s, ids), ToolName(name)) == WithId(Step(s, ToolName(name)), ids)
  {
    hide Step, WithId, IdAfter, TrimTrailing;
    AwaitingId(s, ids);
    NameStep(s, name);
    NameStep(WithId(s, ids), name);
    NamedId(Step(s, ToolName(name)), ids);
  }

  /** What may stand between the opening and the closing of a call, in any order. */
  predicate CallBody(es: seq<Event>) {
    forall i :: 0 <= i < |es| ==> IsArgEvent(es[i]) || es[i].ToolName? || es[i].ToolId? || Idle(es[i])
  }

  function ArgPart(es: seq<Event>): seq<Event> {
    if es == [] then [] else if IsArgEvent(es[0]) then [es[0]] + ArgPart(es[1..]) else ArgPart(es[1..])
  }

  function Names(es: seq<Event>): seq<string> {
    if es == [] then [] else if es[0].ToolName? then [es[0].text] + Names(es[1..]) else Names(es[1..])
  }

  function Ids(es: seq<Event>): seq<string> {
    if es == [] then [] else if es[0].ToolId? then [es[0].text] + Ids(es[1..]) else Ids(es[1..])
  }

  /** Each event is of one kind. */
  lemma {:induction false} PartsStep(es: seq<Event>)
    requires es != []
    ensures var e, rest := es[0], es[1..];
      && (IsArgEvent(e) ==> ArgPart(es) == [e] + ArgPart(rest) && Names(es) == Names(rest) && Ids(es) == Ids(rest))
      && (e.ToolId? ==> ArgPart(es) == ArgPart(rest) && Names(es) == Names(rest) && Ids(es) == [e.text] + Ids(rest))
      && (e.ToolName? ==> ArgPart(es) == ArgPart(rest) && Names(es) == [e.text] + Names(rest) && Ids(es) == Ids(rest))
      && (!IsArgEvent(e) && !e.ToolId? && !e.ToolName? ==>
            ArgPart(es) == ArgPart(rest) && Names(es) == Names(rest) && Ids(es) == Ids(rest))
  {
  }

  lemma NoParts()
    ensures ArgPart([]) == [] && Names([]) == [] && Ids([]) == []
  {
  }

  /** Behind the name: the ids first, then the arguments. */
  lemma {:induction false} NamedBody(s: State, es: seq<Event>)
    requires HasName(s) && CallBody(es) && Names(es) == []
    ensures Run(s, es) == Run(WithId(s, Ids(es)), ArgPart(es))
    decreases es
  {
    hide Step, WithId, IsArgEvent, Idle, HasName, ArgPart, Names, Ids;
    Valid(s);
    if es == [] {
      NoParts();
      IdStep(s, "", []);
    } else {
      PartsStep(es);
      var e, rest, ids := es[0], es[1..], Ids(es[1..]);
      if e.ToolId? {
        NotArgument(e);
        IdStep(s, e.text, ids);
        NamedId(s, [e.text]);
        NamedBody(Step(s, e), rest);
      } else if IsArgEvent(e) {
        IdCommutesNamed(s, ids, e);
        NamedBody(Step(s, e), rest);
        RunFirst(WithId(s, ids), e, ArgPart(rest));
        NotAnId(e);
      } else {
        IdleStays(s, e);
        NamedBody(s, rest);
      }
    }
  }

  lemma Valid(s: State)
    requires AwaitingName(s) || HasName(s)
    ensures s.Valid() && !s.current.NoTool?
  {
  }

  lemma NotArgument(e: Event)
    requires e.ToolId? || e.ToolName?
    ensures !IsArgEvent(e) && !Idle(e)
  {
  }

  lemma NotAnId(e: Event)
    requires IsArgEvent(e)
    ensures !e.ToolId? && !e.ToolName?
  {
  }

  /** The events of a call come to the ids, the name, and the arguments in their order. */
  lemma {:induction false} AwaitingBody(s: State, es: seq<Event>, name: string)
    requires AwaitingName(s) && CallBody(es) && Names(es) == [name] && TrimTrailing(name) != ""
    requires Admissible(ArgPart(es), s.buffer != "")
    ensures AwaitingName(WithId(s, Ids(es)))
    ensures Run(s, es) == Run(Step(WithId(s, Ids(es)), ToolName(name)), ArgPart(es))
    decreases es
  {
    hide Step, WithId, IsArgEvent, Begins, Idle, AwaitingName, TrimTrailing, ArgPart, Names, Ids;
    Valid(s);
    AwaitingId(s, Ids(es));
    NoParts();
    PartsStep(es);
    var e, rest, ids := es[0], es[1..], Ids(es[1..]);
    if e.ToolId? {
      NotArgument(e);
      IdStep(s, e.text, ids);
      AwaitingId(s, [e.text]);
      AwaitingBody(Step(s, e), rest, name);
    } else if e.ToolName? {
      NotArgument(e);
      OnlyName(es, name);
      IdCommutesName(s, ids, name);
      NamedBody(Step(s, e), rest);
    } else if IsArgEvent(e) {
      NotAnId(e);
      ArgBeforeName(s, e, ids, name);
      assert ArgPart(es)[0] == e && ArgPart(es)[1..] == ArgPart(rest);
      AwaitingBody(Step(s, e), rest, name);
      Valid(WithId(s, ids));
      RunFirst(Step(WithId(s, ids), ToolName(name)), e, ArgPart(rest));
    } else {
      IdleStays(s, e);
      AwaitingBody(s, rest, name);
    }
  }

  lemma OnlyName(es: seq<Event>, name: string)
    requires es != [] && es[0].ToolName? && Names(es) == [name]
    ensures es[0] == ToolName(name) && Names(es[1..]) == []
  {
    assert Names(es)[0] == es[0].text && Names(es)[1..] == Names(es[1..]);
  }

  lemma ArgBeforeName(s: State, e: Event, ids: seq<string>, name: string)
    requires AwaitingName(s) && IsArgEvent(e) && (s.buffer != "" || e.ArgOpen? || Begins(e)) && TrimTrailing(name) != ""
    ensures AwaitingName(Step(s, e)) && AwaitingName(WithId(s, ids))
    ensures Step(s, e).buffer != "" <==> s.buffer != "" || Begins(e)
    ensures Step(WithId(Step(s, e), ids), ToolName(name)) == Step(Step(WithId(s, ids), ToolName(name)), e)
  {
    hide Step, WithId, ArgEffect, Begins, TrimTrailing;
    AwaitingStep(s, e);
    Started(Receipt(s.buffer, s.argCount, s.quotePending), e);
    AwaitingId(s, ids);
    IdCommutesAwaiting(s, ids, e);
    NameCommutes(WithId(s, ids), name, e);
  }

  /** A whole call. */
  function Call(body: seq<Event>): seq<Event> {
    [ToolOpen] + body + [ToolClose]
  }

  lemma RunOne(s: State, e: Event)
    requires s.Valid()
    ensures Run(s, [e]) == Step(s, e)
  {
    hide Step;
    assert Run(s, [e]) == Run(Step(s, e), []);
  }

  lemma OpenedAwaits(s: State, ids: seq<string>)
    requires s.Valid()
    ensures AwaitingName(Step(s, ToolOpen))
    ensures var s' := WithId(Step(s, ToolOpen), ids);
            && AwaitingName(s') && s'.buffer == "" && s'.argCount == 0 && !s'.quotePending
            && s'.calls == s.calls && s'.pending == Some(ToolCall("", "", IdAfter("", ids)))
  {
    hide IdAfter;
  }

  /** Wherever the name and the ids stand among the arguments, and whatever idle nodes are around them, a call
      comes to the same as with the last id and the name known from the start.
   */
  lemma EventsAnywhere(s: State, body: seq<Event>, name: string)
    requires s.Valid() && CallBody(body) && Names(body) == [name] && TrimTrailing(name) != "" && Admissible(ArgPart(body), false)
    ensures Run(s, Call(body))
         == Step(Run(Step(WithId(Step(s, ToolOpen), Ids(body)), ToolName(name)), ArgPart(body)), ToolClose)
  {
    hide Step, Run, WithId, CallBody, Admissible, TrimTrailing;
    RunConcat(s, [ToolOpen] + body, [ToolClose]);
    RunConcat(s, [ToolOpen], body);
    RunOne(s, ToolOpen);
    OpenedAwaits(s, []);
    Valid(Step(s, ToolOpen));
    IdStep(Step(s, ToolOpen), "", []);
    AwaitingBody(Step(s, ToolOpen), body, name);
    RunOne(Run(Step(s, ToolOpen), body), ToolClose);
  }

  lemma {:induction false} PartsConcat(a: seq<Event>, b: seq<Event>)
    ensures ArgPart(a + b) == ArgPart(a) + ArgPart(b) && Names(a + b) == Names(a) + Names(b) && Ids(a + b) == Ids(a) + Ids(b)
    decreases a
  {
    hide IsArgEvent, ArgPart, Names, Ids;
    if a == [] {
      assert a + b == b;
      NoParts();
      assert [] + ArgPart(b) == ArgPart(b) && [] + Names(b) == Names(b) && [] + Ids(b) == Ids(b);
    } else {
      assert (a + b)[1..] == a[1..] + b && (a + b)[0] == a[0];
      PartsConcat(a[1..], b);
      PartsStep(a);
      PartsStep(a + b);
      var x, y := ArgPart(a[1..]), ArgPart(b);
      assert [a[0]] + (x + y) == ([a[0]] + x) + y;
      var n, m, i, j := Names(a[1..]), Names(b), Ids(a[1..]), Ids(b);
      if a[0].ToolName? || a[0].ToolId? {
        NotArgument(a[0]);
        assert [a[0].text] + (n + m) == ([a[0].text] + n) + m && [a[0].text] + (i + j) == ([a[0].text] + i) + j;
      }
    }
  }

  lemma {:induction false} PartsOfArgs(es: seq<Event>)
    requires forall i :: 0 <= i < |es| ==> IsArgEvent(es[i])
    ensures ArgPart(es) == es && Names(es) == [] && Ids(es) == []
    decreases es
  {
    hide IsArgEvent;
    if es != [] {
      NotAnId(es[0]);
      PartsOfArgs(es[1..]);
    }
  }

  lemma PartsOfOne(e: Event)
    requires e.ToolId? || e.ToolName?
    ensures ArgPart([e]) == [] && Names([e]) == (if e.ToolName? then [e.text] else []) && Ids([e]) == (if e.ToolId? then [e.text] else [])
  {
    hide IsArgEvent;
    NotArgument(e);
    assert [e][1..] == [];
  }

  /** `e` at place `k`. */
  function Inserted(es: seq<Event>, k: nat, e: Event): seq<Event>
    requires k <= |es|
  {
    es[..k] + [e] + es[k..]
  }

  /** In particular: argument events with the name at any place `k` and an id at any place `j` of the list that
      makes, independently.
   */
  lemma InsertedBody(es: seq<Event>, k: nat, name: string, j: nat, id: string)
    requires k <= |es| && j <= |es| + 1 && forall i :: 0 <= i < |es| ==> IsArgEvent(es[i])
    ensures var body := Inserted(Inserted(es, k, ToolName(name)), j, ToolId(id));
      CallBody(body) && Names(body) == [name] && Ids(body) == [id] && ArgPart(body) == es
  {
    hide IsArgEvent, Idle;
    var named := Inserted(es, k, ToolName(name));
    InsertedParts(es, k, ToolName(name));
    InsertedParts(named, j, ToolId(id));
    PartsOfArgs(es);
  }

  lemma InsertedParts(es: seq<Event>, k: nat, e: Event)
    requires k <= |es| && (e.ToolId? || e.ToolName?)
    ensures var r := Inserted(es, k, e);
      && ArgPart(r) == ArgPart(es) && (CallBody(es) ==> CallBody(r))
      && (e.ToolId? ==> Names(r) == Names(es)) && (e.ToolName? ==> Ids(r) == Ids(es))
      && (e.ToolName? && Names(es) == [] ==> Names(r) == [e.text]) && (e.ToolId? && Ids(es) == [] ==> Ids(r) == [e.text])
  {
    hide IsArgEvent, Idle, ArgPart, Names, Ids, CallBody;
    var a, b := es[..k], es[k..];
    assert es == a + b;
    PartsConcat(a, b);
    PartsConcat(a + [e], b);
    PartsConcat(a, [e]);
    PartsOfOne(e);
    assert ArgPart(a) + [] == ArgPart(a) && Names(a) + [] == Names(a) && Ids(a) + [] == Ids(a);
    if CallBody(es) {
      BodyInserted(es, k, e);
    }
    if e.ToolName? && Names(es) == [] {
      assert Names(a) == [] && Names(b) == [] && [] + [e.text] + [] == [e.text];
    }
    if e.ToolId? && Ids(es) == [] {
      assert Ids(a) == [] && Ids(b) == [] && [] + [e.text] + [] == [e.text];
    }
  }

  lemma BodyInserted(es: seq<Event>, k: nat, e: Event)
    requires k <= |es| && (e.ToolId? || e.ToolName?) && CallBody(es)
    ensures CallBody(Inserted(es, k, e))
  {
    hide IsArgEvent, Idle;
    var r := Inserted(es, k, e);
    forall i | 0 <= i < |r| ensures IsArgEvent(r[i]) || r[i].ToolName? || r[i].ToolId? || Idle(r[i]) {
      assert i < k ==> r[i] == es[i];
      assert i > k ==> r[i] == es[i - 1];
    }
  }

  // ---------- whole tool calls ----------

  /** An argument: a schema-declared string with its literal text, or any other value as written, with some
      white space after its commas and colons.
   */
  datatype Arg = StringArg(name: string, text: string) | ValueArg(name: string, tree: P.Tree, spaced: Spacing)

  function ArgEvents(a: Arg): seq<Event> {
    [ArgOpen, ArgName(a.name), if a.StringArg? then ArgString(a.text) else ArgValue(P.Spelled(a.tree, a.spaced)), ArgClose]
  }

  function AllArgEvents(args: seq<Arg>): seq<Event> {
    if args == [] then [] else ArgEvents(args[0]) + AllArgEvents(args[1..])
  }

  /** The JSON member an argument stands for. */
  function ArgMember(a: Arg): Member {
    Member(Trim(a.name), if a.StringArg? then Text(a.text) else P.Meaning(a.tree))
  }

  function ArgMembers(args: seq<Arg>): seq<Member> {
    seq(|args|, i requires 0 <= i < |args| => ArgMember(args[i]))
  }

  predicate WellFormedArg(a: Arg) {
    a.ValueArg? ==> P.WellFormed(a.tree) && Q.Blank(a.spaced.afterComma) && Q.Blank(a.spaced.afterColon)
  }

  predicate WellFormedArgs(args: seq<Arg>) {
    forall k :: 0 <= k < |args| ==> WellFormedArg(args[k])
  }

  lemma {:induction false} ArgsAdmissible(args: seq<Arg>, started: bool)
    ensures Admissible(AllArgEvents(args), started)
    decreases args
  {
    hide Admissible, P.Spelled;
    if args == [] {
      NoneAdmissible(started);
    } else {
      ArgsAdmissible(args[1..], true);
      FourAdmissible(ArgEvents(args[0]), AllArgEvents(args[1..]), started);
    }
  }

  lemma FourAdmissible(es: seq<Event>, rest: seq<Event>, started: bool)
    requires |es| == 4 && es[0].ArgOpen? && es[1].ArgName? && IsArgEvent(es[2]) && IsArgEvent(es[3])
    requires !es[2].ToolArgs? && !es[3].ToolArgs? && Admissible(rest, true)
    ensures Admissible(es + rest, started)
  {
    hide Admissible;
    var t := es + rest;
    assert t[3..][1..] == rest && t[2..][1..] == t[3..] && t[1..][1..] == t[2..];
    AdmissibleStep(t[3..], true);
    AdmissibleStep(t[2..], true);
    AdmissibleStep(t[1..], started);
    AdmissibleStep(t, started);
  }

  lemma NoneAdmissible(started: bool)
    ensures Admissible([], started)
  {
  }

  lemma {:induction false} AdmissibleStep(es: seq<Event>, started: bool)
    requires es != [] && IsArgEvent(es[0]) && (started || es[0].ArgOpen? || Begins(es[0]))
    requires Admissible(es[1..], started || Begins(es[0]))
    ensures Admissible(es, started)
  {
  }

  /** A named tool call that is receiving arguments, with `text` received so far. */
  predicate Receiving(s: State, text: string) {
    && s.current.LastCall? && s.calls != [] && s.pending.None? && s.buffer == "" && !s.quotePending
    && s.calls[|s.calls| - 1].name != "" && s.calls[|s.calls| - 1].arguments == text && text != ""
  }

  function Received(s: State, text: string, count: nat): State
    requires s.calls != []
  {
    s.(calls := s.calls[|s.calls| - 1 := s.calls[|s.calls| - 1].(arguments := text)], argCount := count)
  }

  lemma ArgNameReceived(s: State, text: string, name: string)
    requires Receiving(s, text)
    ensures Step(Step(s, ArgOpen), ArgName(name))
         == Received(s, text + ((if s.argCount > 0 then "," else "") + Quoted(Trim(name)) + ":"), s.argCount + 1)
  {
    hide Step, Quoted, Trim;
    NamedStep(s, ArgOpen);
    assert Step(s, ArgOpen) == s;
    NamedStep(s, ArgName(name));
  }

  lemma ValueReceived(s: State, head: string, text: string)
    requires Receiving(s, head)
    ensures Step(Step(s, ArgValue(text)), ArgClose) == Received(s, head + Q.Translation(text), s.argCount)
  {
    hide Step, Q.Translation;
    NamedStep(s, ArgValue(text));
    NamedStep(Step(s, ArgValue(text)), ArgClose);
  }

  lemma StringReceived(s: State, head: string, text: string)
    requires Receiving(s, head)
    ensures Step(Step(s, ArgString(text)), ArgClose) == Received(s, head + Quoted(text), s.argCount)
  {
    hide Step, Escape;
    EscapeNothing();
    NamedStep(s, ArgString(text));
    NamedStep(Step(s, ArgString(text)), ArgClose);
    assert text == "" ==> "\"" + Escape(text) == "\"";
    assert head + ("\"" + Escape(text)) + "\"" == head + Quoted(text);
  }

  lemma EscapeNothing()
    ensures Escape("") == ""
  {
  }

  lemma UnrollRun(s: State, es: seq<Event>)
    requires s.Valid() && |es| == 4
    ensures Run(s, es) == Step(Step(Step(Step(s, es[0]), es[1]), es[2]), es[3])
  {
    hide Step;
    var s1, e1 := Step(s, es[0]), es[1..];
    var s2, e2 := Step(s1, e1[0]), e1[1..];
    var s3, e3 := Step(s2, e2[0]), e2[1..];
    assert Run(s, es) == Run(s1, e1) == Run(s2, e2) == Run(s3, e3);
    assert e3[1..] == [];
    assert Run(s3, e3) == Run(Step(s3, e3[0]), e3[1..]);
  }

  /** What an argument's value comes to: the literal text as a JSON string, or the translation. */
  function ArgValueText(a: Arg): string {
    if a.StringArg? then Quoted(a.text) else P.Rendered(a.tree, a.spaced)
  }

  /** The value event and the closing event of an argument append its value. */
  lemma ArgValueReceived(s: State, head: string, a: Arg)
    requires Receiving(s, head)
    requires WellFormedArg(a)
    ensures Step(Step(s, ArgEvents(a)[2]), ArgClose) == Received(s, head + ArgValueText(a), s.argCount)
  {
    hide Step, Quoted, P.Spelled, P.Rendered, Q.Translation;
    if a.StringArg? {
      StringReceived(s, head, a.text);
    } else {
      ValueReceived(s, head, P.Spelled(a.tree, a.spaced));
      P.TreeRendered(a.tree, a.spaced);
    }
  }

  /** The four events of one argument append its JSON member. */
  lemma OneArg(s: State, text: string, a: Arg)
    requires Receiving(s, text)
    requires WellFormedArg(a)
    ensures Run(s, ArgEvents(a))
         == Received(s, text + ((if s.argCount > 0 then "," else "") + ArgText(a)), s.argCount + 1)
  {
    hide Step, Run, Quoted, Trim, ArgText, ArgValueText, P.Spelled, WellFormedArg, Received;
    UnrollRun(s, ArgEvents(a));
    ArgNameReceived(s, text, a.name);
    var comma := if s.argCount > 0 then "," else "";
    var head := text + (comma + Quoted(Trim(a.name)) + ":");
    var s1 := Received(s, head, s.argCount + 1);
    StillReceiving(s, text, comma + Quoted(Trim(a.name)) + ":", s.argCount + 1);
    ArgValueReceived(s1, head, a);
    ArgTextGrouped(text, comma, a);
    ReceivedTwice(s, text, head, s.argCount + 1, head + ArgValueText(a), s1.argCount);
  }

  lemma StillReceiving(s: State, text: string, more: string, count: nat)
    requires Receiving(s, text)
    ensures var s1 := Received(s, text + more, count); Receiving(s1, text + more) && s1.argCount == count
  {
  }

  lemma ReceivedTwice(s: State, text: string, a: string, m: nat, b: string, n: nat)
    requires Receiving(s, text)
    ensures Received(Received(s, a, m), b, n) == Received(s, b, n)
  {
  }

  lemma ArgTextGrouped(text: string, comma: string, a: Arg)
    ensures text + (comma + Quoted(Trim(a.name)) + ":") + ArgValueText(a) == text + (comma + ArgText(a))
  {
    hide Quoted, Trim, ArgValueText;
  }

  function ArgText(a: Arg): string {
    Quoted(Trim(a.name)) + ":" + ArgValueText(a)
  }

  /** The members an object under construction gains, each preceded by a comma if it is not the first. */
  function ArgsText(args: seq<Arg>, count: nat): string
    decreases args
  {
    if args == [] then ""
    else (if count > 0 then "," else "") + ArgText(args[0]) + ArgsText(args[1..], count + 1)
  }

  lemma {:induction false} AllArgs(s: State, text: string, args: seq<Arg>)
    requires Receiving(s, text) && WellFormedArgs(args)
    ensures Run(s, AllArgEvents(args))
         == Received(s, text + ArgsText(args, s.argCount), s.argCount + |args|)
    decreases args
  {
    hide Step, ArgText, ArgEvents, Received, WellFormedArg, Run;
    if args == [] {
      NothingReceived(s, text);
    } else {
      var es, rest := ArgEvents(args[0]), AllArgEvents(args[1..]);
      RunConcat(s, es, rest);
      OneArg(s, text, args[0]);
      var more := (if s.argCount > 0 then "," else "") + ArgText(args[0]);
      var s1 := Received(s, text + more, s.argCount + 1);
      StillReceiving(s, text, more, s.argCount + 1);
      AllArgs(s1, text + more, args[1..]);
      var tail := ArgsText(args[1..], s.argCount + 1);
      assert text + more + tail == text + (more + tail) && more + tail == ArgsText(args, s.argCount);
      ReceivedTwice(s, text, text + more, s.argCount + 1, text + more + tail, s.argCount + |args|);
    }
  }

  lemma NothingReceived(s: State, text: string)
    requires Receiving(s, text)
    ensures Run(s, []) == s == Received(s, text + "", s.argCount)
  {
    assert text + "" == text;
  }

  // ---------- the finished call ----------

  lemma {:induction false} NeutralArgs(args: seq<Arg>, count: nat)
    requires WellFormedArgs(args)
    ensures Neutral(ArgsText(args, count))
    decreases args
  {
    hide Neutral, ArgText, WellFormedArg;
    NeutralInert("");
    if args != [] {
      var comma := if count > 0 then "," else "";
      NeutralInert(",");
      NeutralArg(args[0]);
      NeutralArgs(args[1..], count + 1);
      NeutralConcat(comma, ArgText(args[0]));
      NeutralConcat(comma + ArgText(args[0]), ArgsText(args[1..], count + 1));
    }
  }

  lemma NeutralArg(a: Arg)
    requires WellFormedArg(a)
    ensures Neutral(ArgText(a))
  {
    hide Neutral, P.Rendered, Quoted, Trim;
    NeutralQuoted(Trim(a.name));
    if a.StringArg? {
      NeutralQuoted(a.text);
    } else {
      NeutralRendered(a.tree, a.spaced);
    }
    NeutralJoined(Quoted(Trim(a.name)), ":", ArgValueText(a));
    assert Quoted(Trim(a.name)) + (":" + ArgValueText(a)) == ArgText(a);
  }

  /** Closing a call whose text is an opened object with balanced members closes exactly that brace. */
  lemma Closed(s: State, body: string)
    requires Receiving(s, "{" + body) && Neutral(body)
    ensures Step(s, ToolClose) == Received(s, "{" + body + "}", s.argCount)
  {
    hide BraceScan;
    var b, text := Braces(0, false, false), "{" + body;
    BraceScanConcat(b, "{", body);
    OpenBrace(b);
    assert BraceDepth(text) == 1;
    assert text + "" == text;
    assert Repeat('}', 1) == "}";
  }

  lemma OpenBrace(b: Braces)
    requires !b.inString && !b.escaped
    ensures BraceScan(b, "{") == b.(depth := b.depth + 1)
  {
    var open: string := "{";
    assert open[1..] == "";
  }

  lemma Named(s: State, name: string)
    requires AwaitingName(s) && s.buffer == "" && TrimTrailing(name) != "" && !s.quotePending
    ensures var s' := Step(s, ToolName(name));
            && Receiving(s', "{") && s'.argCount == s.argCount
            && s'.calls == s.calls + [s.pending.value.(name := TrimTrailing(name), arguments := "{")]
  {
    hide TrimTrailing;
  }

  /** The events of a call in any order: a name that is not blank, ids, idle nodes, and the argument events `es`. */
  predicate CallOf(body: seq<Event>, name: string, es: seq<Event>) {
    CallBody(body) && Names(body) == [name] && TrimTrailing(name) != "" && ArgPart(body) == es
  }

  /** A well-formed tool call adds one call to the message, with its trimmed name, its last id, and arguments
      that are the object of its members in order, wherever name and ids stand.
   */
  lemma CallMapped(s: State, body: seq<Event>, name: string, args: seq<Arg>)
    requires s.Valid() && CallOf(body, name, AllArgEvents(args)) && WellFormedArgs(args)
    ensures Run(s, Call(body)).calls
         == s.calls + [ToolCall(TrimTrailing(name), "{" + ArgsText(args, 0) + "}", IdAfter("", Ids(body)))]
  {
    hide AllArgEvents, TrimTrailing, ArgsText, IdAfter, Neutral, Run, WithId, Step, CallBody, WellFormedArgs;
    ArgsAdmissible(args, false);
    EventsAnywhere(s, body, name);
    OpenedAwaits(s, Ids(body));
    var s0 := WithId(Step(s, ToolOpen), Ids(body));
    var s1 := Step(s0, ToolName(name));
    Named(s0, name);
    AllArgs(s1, "{", args);
    NeutralArgs(args, 0);
    StillReceiving(s1, "{", ArgsText(args, 0), |args|);
    Closed(Received(s1, "{" + ArgsText(args, 0), |args|), ArgsText(args, 0));
  }

  predicate ArgReadable(a: Arg) {
    a.ValueArg? ==> P.TreeReadable(a.tree)
  }

  predicate ArgCanonical(a: Arg) {
    a.ValueArg? ==> P.TreeCanonical(a.tree)
  }

  /** The white space inside an argument's value. */
  function Inside(a: Arg): Spacing {
    if a.StringArg? then COMPACT else a.spaced
  }

  function ArgTokens(a: Arg): seq<Token> {
    [Chars(ArgMember(a).key)] + (Marks(":") + Tokens(ArgMember(a).value, Inside(a)))
  }

  function MemberTokens(args: seq<Arg>): seq<Token> {
    if args == [] then []
    else if |args| == 1 then ArgTokens(args[0])
    else ArgTokens(args[0]) + (Marks(",") + MemberTokens(args[1..]))
  }

  /** The tokens of the object of the arguments: compact between members, spaced inside values as they were. */
  function ObjectTokens(args: seq<Arg>): seq<Token> {
    [Mark('{')] + (MemberTokens(args) + [Mark('}')])
  }

  function PrintedMembers(args: seq<Arg>): string {
    if args == [] then ""
    else
      var m := ArgMember(args[0]);
      var first := Quoted(m.key) + ":" + Print(m.value, Inside(args[0]));
      if |args| == 1 then first else first + ("," + PrintedMembers(args[1..]))
  }

  /** The serializer's text of that object, with the same white space. */
  function PrintedObject(args: seq<Arg>): string {
    "{" + PrintedMembers(args) + "}"
  }

  /** Where no value has white space these are the tokens and the text of the object itself. */
  lemma CompactObject(args: seq<Arg>)
    requires forall i :: 0 <= i < |args| ==> Inside(args[i]) == COMPACT
    ensures ObjectTokens(args) == Tokens(Object(ArgMembers(args)), COMPACT)
    ensures PrintedObject(args) == Print(Object(ArgMembers(args)), COMPACT)
  {
    hide TokensOfMembers, PrintMembers, MemberTokens, PrintedMembers;
    CompactMembers(args);
  }

  lemma {:induction false} CompactMembers(args: seq<Arg>)
    requires forall i :: 0 <= i < |args| ==> Inside(args[i]) == COMPACT
    ensures MemberTokens(args) == TokensOfMembers(ArgMembers(args), COMPACT)
    ensures PrintedMembers(args) == PrintMembers(ArgMembers(args), COMPACT)
    decreases args
  {
    hide Tokens, Print, Quoted, ArgMember, Inside;
    var ms := ArgMembers(args);
    if args != [] {
      CompactMembers(args[1..]);
      assert ms[1..] == ArgMembers(args[1..]) && ms[0] == ArgMember(args[0]);
      assert ":" + "" == ":" && "," + "" == ",";
      var key, value := Quoted(ms[0].key), Print(ms[0].value, COMPACT);
      assert key + ":" + "" + value == key + ":" + value;
      if |args| > 1 {
        var rest := PrintedMembers(args[1..]);
        assert key + ":" + value + "," + "" + rest == key + ":" + value + ("," + rest);
      }
    }
  }

  // The arguments as they are built up, with a comma before each but the first.

  lemma {:induction false} LaterArgs(args: seq<Arg>, count: nat)
    requires args != []
    ensures ArgsText(args, count + 1) == "," + ArgsText(args, 0)
    decreases args
  {
    hide ArgText;
    if |args| > 1 {
      LaterArgs(args[1..], count + 1);
      LaterArgs(args[1..], 0);
    } else {
      assert ArgsText(args[1..], count + 2) == "" == ArgsText(args[1..], 1);
    }
    var rest := ArgsText(args[1..], 1);
    assert "," + ArgText(args[0]) + rest == "," + ("" + ArgText(args[0]) + rest);
  }

  lemma {:induction false} ArgsTextIs(args: seq<Arg>)
    requires args != []
    ensures ArgsText(args, 0) == if |args| == 1 then ArgText(args[0]) else ArgText(args[0]) + ("," + ArgsText(args[1..], 0))
  {
    hide ArgText;
    var first, rest := ArgText(args[0]), ArgsText(args[1..], 1);
    assert ArgsText(args, 0) == "" + first + rest == first + rest;
    if |args| == 1 {
      assert args[1..] == [] && rest == "" && first + "" == first;
    } else {
      LaterArgs(args[1..], 0);
    }
  }

  lemma ArgRead(a: Arg, rest: string)
    requires WellFormedArg(a)
    ensures Lex(ArgText(a) + rest) == if ArgReadable(a) then Before(ArgTokens(a), Lex(rest)) else None
  {
    hide Lex, Quoted, Trim, P.Rendered, P.Meaning, Tokens, P.TreeReadable;
    var key, value := Quoted(Trim(a.name)), ArgValueText(a);
    assert ArgText(a) == key + (":" + value);
    P.QuotedRead(Trim(a.name), ":" + (value + rest));
    if a.StringArg? {
      P.QuotedRead(a.text, rest);
      TextTokens(a.text);
    } else {
      P.RenderedRead(a.tree, a.spaced, rest);
    }
    P.PartsRead(key, ":", value, [Chars(Trim(a.name))], Tokens(ArgMember(a).value, Inside(a)), true, ArgReadable(a), rest);
  }

  lemma TextTokens(text: string)
    ensures Tokens(Text(text), COMPACT) == [Chars(text)]
  {
  }

  predicate ArgsReadable(args: seq<Arg>) {
    forall i :: 0 <= i < |args| ==> ArgReadable(args[i])
  }

  lemma {:induction false} ArgsRead(args: seq<Arg>, rest: string)
    requires WellFormedArgs(args)
    ensures Lex(ArgsText(args, 0) + rest) == if ArgsReadable(args) then Before(MemberTokens(args), Lex(rest)) else None
    decreases args
  {
    hide Lex, ArgText, ArgsText, ArgTokens, ArgReadable, WellFormedArg;
    if args == [] {
      NoArgsText();
      assert "" + rest == rest;
      BeforeNone(Lex(rest));
    } else {
      ArgsTextIs(args);
      if |args| == 1 {
        ArgRead(args[0], rest);
      } else {
        var tail := ArgsText(args[1..], 0);
        ArgRead(args[0], "," + (tail + rest));
        ArgsRead(args[1..], rest);
        ReadableTail(args);
        P.PartsRead(ArgText(args[0]), ",", tail, ArgTokens(args[0]), MemberTokens(args[1..]), ArgReadable(args[0]),
                    ArgsReadable(args[1..]), rest);
      }
    }
  }

  lemma NoArgsText()
    ensures ArgsText([], 0) == ""
  {
  }

  lemma ReadableTail(args: seq<Arg>)
    requires args != []
    ensures ArgsReadable(args) <==> ArgReadable(args[0]) && ArgsReadable(args[1..])
  {
    hide ArgReadable;
    if ArgReadable(args[0]) && ArgsReadable(args[1..]) {
      forall i | 0 <= i < |args| ensures ArgReadable(args[i]) {
        assert i > 0 ==> args[i] == args[1..][i - 1];
      }
    }
  }

  /** The arguments are JSON for the object of the arguments exactly when no value has a spelling JSON does not
      know; otherwise they are no JSON.
   */
  lemma CallArgumentsRead(s: State, body: seq<Event>, name: string, args: seq<Arg>)
    requires s.Valid() && CallOf(body, name, AllArgEvents(args)) && WellFormedArgs(args)
    ensures var calls := Run(s, Call(body)).calls;
      && |calls| == |s.calls| + 1
      && Lex(calls[|s.calls|].arguments) == if ArgsReadable(args) then Some(ObjectTokens(args)) else None
  {
    hide CallOf, Run, TrimTrailing, WellFormedArgs, Lex, MemberTokens, ArgsReadable, ArgsText;
    CallMapped(s, body, name, args);
    var text := ArgsText(args, 0);
    ArgsRead(args, "}" + "");
    P.EnclosedRead('{', text, '}', MemberTokens(args), ArgsReadable(args), "");
    assert ['}'] + "" == "}" + "" && ['{'] + (text + ['}']) + "" == "{" + text + "}";
    P.LexNothing();
    assert ObjectTokens(args) + [] == ObjectTokens(args);
  }

  lemma {:induction false} CanonicalArgs(args: seq<Arg>)
    requires WellFormedArgs(args) && forall i :: 0 <= i < |args| ==> ArgCanonical(args[i])
    ensures ArgsText(args, 0) == PrintedMembers(args)
    decreases args
  {
    hide ArgsText, Quoted, Print, P.Rendered, P.Meaning, Trim;
    if args == [] {
      NoArgsText();
    } else {
      var a := args[0];
      ArgsTextIs(args);
      if a.ValueArg? {
        P.CanonicalRendered(a.tree, a.spaced);
      } else {
        TextPrinted(a.text);
      }
      CanonicalArgs(args[1..]);
    }
  }

  lemma TextPrinted(text: string)
    ensures Print(Text(text), COMPACT) == Quoted(text)
  {
  }

  /** With spellings the serializer would choose they are its text of that object. */
  lemma CallArgumentsAreJson(s: State, body: seq<Event>, name: string, args: seq<Arg>)
    requires s.Valid() && CallOf(body, name, AllArgEvents(args)) && WellFormedArgs(args)
    requires forall i :: 0 <= i < |args| ==> ArgCanonical(args[i])
    ensures var calls := Run(s, Call(body)).calls;
            |calls| == |s.calls| + 1 && calls[|s.calls|].arguments == PrintedObject(args)
  {
    hide CallOf, Run, TrimTrailing, WellFormedArgs, ArgsText, PrintedMembers, ArgCanonical;
    CallMapped(s, body, name, args);
    CanonicalArgs(args);
  }

  // ---------- arguments that come as one object ----------

  /** The arguments of a call that come as one text: the trimmed text with its open braces closed; a text that
      begins otherwise is not taken.
   */
  function ObjectArguments(text: string): string {
    var t := TrimTrailing(text);
    if IsObjectText(t) then t + Repeat('}', BraceDepth(t)) else "{}"
  }

  lemma CloseReceiving(s: State, args: string)
    requires Receiving(s, args)
    ensures Step(s, ToolClose) == Received(s, args + Repeat('}', BraceDepth(args)), s.argCount)
  {
    hide BraceDepth, Repeat;
    assert args + "" == args;
  }

  lemma LoneBrace()
    ensures "{" + Repeat('}', BraceDepth("{")) == "{}"
  {
    OpenBrace(Braces(0, false, false));
    assert BraceDepth("{") == 1 && Repeat('}', 1) == "}";
  }

  /** A lone arguments node: taken when it is an object, idle otherwise. */
  lemma ObjectReceived(s: State, text: string)
    requires Receiving(s, "{")
    ensures var t := TrimTrailing(text); var args := if IsObjectText(t) then t else "{";
      && ArgPart([ToolArgs(text)]) == (if IsObjectText(t) then [ToolArgs(text)] else [])
      && Run(s, ArgPart([ToolArgs(text)])) == Received(s, args, s.argCount) && Receiving(Received(s, args, s.argCount), args)
      && Admissible(ArgPart([ToolArgs(text)]), false)
  {
    hide TrimTrailing;
    var e := ToolArgs(text);
    assert [e][1..] == [];
    if IsObject(e) {
      NamedStep(s, e);
      RunOne(s, e);
    }
  }

  /** Such a call adds one call with the trimmed name, the last id and those arguments, wherever name, ids and
      arguments stand.
   */
  lemma ObjectCallMapped(s: State, body: seq<Event>, name: string, text: string)
    requires s.Valid() && CallOf(body, name, ArgPart([ToolArgs(text)]))
    ensures Run(s, Call(body)).calls
         == s.calls + [ToolCall(TrimTrailing(name), ObjectArguments(text), IdAfter("", Ids(body)))]
  {
    hide Step, TrimTrailing, IdAfter, BraceDepth, Repeat, Run, WithId, CallBody, ArgPart, Admissible;
    OpenedAwaits(s, Ids(body));
    var s0 := WithId(Step(s, ToolOpen), Ids(body));
    var s1 := Step(s0, ToolName(name));
    Named(s0, name);
    ObjectReceived(s1, text);
    EventsAnywhere(s, body, name);
    var t := TrimTrailing(text);
    var args := if IsObjectText(t) then t else "{";
    var s2 := Received(s1, args, s1.argCount);
    CloseReceiving(s2, args);
    LoneBrace();
    var n := |s.calls|;
    assert s2.calls[n := s2.calls[n].(arguments := ObjectArguments(text))] == s.calls + [s2.calls[n].(arguments := ObjectArguments(text))];
  }

  lemma {:induction false} RepeatLength(c: char, n: int)
    ensures |Repeat(c, n)| == if n <= 0 then 0 else n
  {
    if n > 0 {
      RepeatLength(c, n - 1);
    }
  }

  /** The arguments are the trimmed text as it came exactly when no brace of it is left open. */
  lemma ObjectArgumentsKept(text: string)
    requires IsObjectText(TrimTrailing(text))
    ensures ObjectArguments(text) == TrimTrailing(text) <==> BraceDepth(TrimTrailing(text)) <= 0
  {
    hide BraceDepth, TrimTrailing;
    var t := TrimTrailing(text);
    RepeatLength('}', BraceDepth(t));
    assert t + "" == t;
  }

  /** So a JSON object arrives as it came, whatever its strings contain. */
  lemma JsonObjectKept(members: seq<Member>, sp: Spacing, text: string)
    requires TrimTrailing(text) == Print(Object(members), sp) && InertScalars(Object(members))
    requires Q.Blank(sp.afterComma) && Q.Blank(sp.afterColon)
    ensures ObjectArguments(text) == Print(Object(members), sp)
  {
    hide TrimTrailing, PrintMembers, BraceScan;
    NeutralPrint(Object(members), sp);
    ObjectArgumentsKept(text);
  }

  // ---------- the flush at the end of a parse ----------

  /** A tool call that has been given a name is no longer pending, so the final flush of named
      pending calls never finds one. */
  lemma {:induction false} NothingToFlush(s: State, es: seq<Event>)
    requires s.Valid() && (s.pending.Some? ==> s.pending.value.name == "" && s.current.PendingTool?)
    ensures var s' := Run(s, es); s'.pending.Some? ==> s'.pending.value.name == "" && s'.current.PendingTool?
    decreases es
  {
    if es != [] {
      StillUnnamed(s, es[0]);
      NothingToFlush(Step(s, es[0]), es[1..]);
    }
  }

  lemma StillUnnamed(s: State, e: Event)
    requires s.Valid() && (s.pending.Some? ==> s.pending.value.name == "" && s.current.PendingTool?)
    ensures var s' := Step(s, e); s'.pending.Some? ==> s'.pending.value.name == "" && s'.current.PendingTool?
  {
    hide Q.Translation, Escape, Quoted, TrimTrailing, Trim, Unquoted, BraceScan;
  }
}
