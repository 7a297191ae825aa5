/** Reading JSON text: strings with their escapes decoded (section 7 of RFC 8259), and every character outside
    of strings as it stands.
 */
module JsonLexer {
  import opened JsonText
  import opened Wrappers

  datatype Token = Chars(text: string) | Mark(c: char)

  function Digit(c: char): Option<nat> {
    if '0' <= c <= '9' then Some(c as int - '0' as int)
    else if 'a' <= c <= 'f' then Some(c as int - 'a' as int + 10)
    else if 'A' <= c <= 'F' then Some(c as int - 'A' as int + 10)
    else None
  }

  /** The number that digits stand for. */
  function Numeral(digits: string, base: nat): Option<nat>
    decreases |digits|
  {
    if digits == "" then Some(0)
    else
      var n := |digits| - 1;
      var high, low := Numeral(digits[..n], base), Digit(digits[n]);
      if high.None? || low.None? || low.value >= base then None else Some(high.value * base + low.value)
  }

  /** What a backslash and one letter stand for. */
  function ShortEscape(letter: char): Option<char> {
    if letter == '"' || letter == '\\' || letter == '/' then Some(letter)
    else if letter == 'b' then Some(8 as char)
    else if letter == 'f' then Some(12 as char)
    else if letter == 'n' then Some('\n')
    else if letter == 'r' then Some('\r')
    else if letter == 't' then Some('\t')
    else None
  }

  function Led(c: char, r: Option<(string, string)>): Option<(string, string)> {
    if r.None? then None else Some(([c] + r.value.0, r.value.1))
  }

  predicate IsCodePoint(v: nat) {
    v < 0xD800 || 0xE000 <= v < 0x11_0000
  }

  /** The rest of a string, decoded, and the text behind its closing quote; half of a surrogate pair is not
      read.
   */
  function Body(s: string): (r: Option<(string, string)>)
    ensures r.Some? ==> |r.value.1| < |s|
    decreases |s|
  {
    if s == "" || s[0] < ' ' then None
    else if s[0] == '"' then Some(("", s[1..]))
    else if s[0] != '\\' then Led(s[0], Body(s[1..]))
    else if |s| < 2 then None
    else if s[1] == 'u' then
      var v := if |s| < 6 then None else Numeral(s[2..6], 16);
      if v.None? || !IsCodePoint(v.value) then None else Led(v.value as char, Body(s[6..]))
    else
      var c := ShortEscape(s[1]);
      if c.None? then None else Led(c.value, Body(s[2..]))
  }

  function Before(ts: seq<Token>, r: Option<seq<Token>>): Option<seq<Token>> {
    if r.None? then None else Some(ts + r.value)
  }

  /** The tokens of a text, unless some string in it is not JSON. */
  function Lex(s: string): Option<seq<Token>>
    decreases |s|
  {
    if s == "" then Some([])
    else if s[0] != '"' then Before([Mark(s[0])], Lex(s[1..]))
    else
      var body := Body(s[1..]);
      if body.None? then None else Before([Chars(body.value.0)], Lex(body.value.1))
  }

  lemma BeforeTwice(a: seq<Token>, b: seq<Token>, r: Option<seq<Token>>)
    ensures Before(a, Before(b, r)) == Before(a + b, r)
  {
    if r.Some? {
      assert a + (b + r.value) == a + b + r.value;
    }
  }

  lemma BeforeNone(r: Option<seq<Token>>)
    ensures Before([], r) == r
  {
    if r.Some? {
      assert [] + r.value == r.value;
    }
  }

  function Marks(s: string): (ts: seq<Token>)
    ensures |ts| == |s|
  {
    seq(|s|, i requires 0 <= i < |s| => Mark(s[i]))
  }

  /** Outside of strings characters are read one by one. */
  lemma {:induction false} LexMarks(w: string, rest: string)
    requires '"' !in w
    ensures Lex(w + rest) == Before(Marks(w), Lex(rest))
    decreases w
  {
    hide Body;
    if w == "" {
      assert w + rest == rest;
      BeforeNone(Lex(rest));
    } else {
      var s := w + rest;
      assert s[1..] == w[1..] + rest && s[0] == w[0] && w[0] in w;
      LexMarks(w[1..], rest);
      BeforeTwice([Mark(w[0])], Marks(w[1..]), Lex(rest));
      assert [Mark(w[0])] + Marks(w[1..]) == Marks(w);
    }
  }

  lemma LexString(body: string)
    ensures Lex("\"" + body) == if Body(body).None? then None
                                else Before([Chars(Body(body).value.0)], Lex(Body(body).value.1))
  {
    hide Body;
    assert ("\"" + body)[1..] == body;
  }

  // ---------- the tokens of a value ----------

  function Tokens(v: Value, sp: Spacing): seq<Token>
    decreases v, 0
  {
    match v
    case Text(chars) => [Chars(chars)]
    case Scalar(token) => Marks(token)
    case Array(items) => [Mark('[')] + (TokensOfItems(items, sp) + [Mark(']')])
    case Object(members) => [Mark('{')] + (TokensOfMembers(members, sp) + [Mark('}')])
  }

  function TokensOfItems(items: seq<Value>, sp: Spacing): seq<Token>
    decreases items, 0
  {
    if items == [] then []
    else if |items| == 1 then Tokens(items[0], sp)
    else Tokens(items[0], sp) + (Marks("," + sp.afterComma) + TokensOfItems(items[1..], sp))
  }

  function TokensOfMember(m: Member, sp: Spacing): seq<Token>
    decreases m, 1
  {
    [Chars(m.key)] + (Marks(":" + sp.afterColon) + Tokens(m.value, sp))
  }

  function TokensOfMembers(members: seq<Member>, sp: Spacing): seq<Token>
    decreases members, 0
  {
    if members == [] then []
    else if |members| == 1 then TokensOfMember(members[0], sp)
    else TokensOfMember(members[0], sp) + (Marks("," + sp.afterComma) + TokensOfMembers(members[1..], sp))
  }
}
