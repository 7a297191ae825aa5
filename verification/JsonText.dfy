/** JSON text as the serializer writes it: string escaping, and printing of value trees. */
module JsonText {

  const HEX := "0123456789abcdef"

  /** The escape of one character. Control characters without a short form become `\u00xx`. */
  function EscapeChar(c: char): (r: string)
    ensures r != ""
  {
    if c == '"' then "\\\""
    else if c == '\\' then "\\\\"
    else if c == '\n' then "\\n"
    else if c == '\r' then "\\r"
    else if c == '\t' then "\\t"
    else if c == 8 as char then "\\b"
    else if c == 12 as char then "\\f"
    else if c < ' ' then ['\\', 'u', '0', '0', HEX[c as int / 16], HEX[c as int % 16]]
    else [c]
  }

  function Escape(s: string): string {
    if s == "" then "" else EscapeChar(s[0]) + Escape(s[1..])
  }

  function Quoted(s: string): string {
    "\"" + Escape(s) + "\""
  }

  lemma {:induction false} EscapeConcat(a: string, b: string)
    ensures Escape(a + b) == Escape(a) + Escape(b)
  {
    if a == "" {
      assert a + b == b;
    } else {
      assert (a + b)[1..] == a[1..] + b;
      EscapeConcat(a[1..], b);
    }
  }

  /** Escaping is monotone: more text can only add escaped text at the end. */
  lemma EscapePrefix(a: string, b: string)
    requires a <= b
    ensures Escape(a) <= Escape(b)
  {
    assert b == a + b[|a|..];
    EscapeConcat(a, b[|a|..]);
  }

  lemma PrefixUnder(p: string, a: string, b: string)
    ensures p + a <= p + b <==> a <= b
  {
    if p + a <= p + b {
      assert (p + b)[|p|..] == b && (p + a)[|p|..] == a;
    }
  }

  // ---------- values ----------

  /** A JSON value; `Scalar` holds the spelling of a number, `true`, `false` or `null`. */
  datatype Value =
    | Text(chars: string)
    | Scalar(token: string)
    | Array(items: seq<Value>)
    | Object(members: seq<Member>)

  datatype Member = Member(key: string, value: Value)

  /** The white space written after a comma and after a colon. */
  datatype Spacing = Spacing(afterComma: string, afterColon: string)

  const COMPACT := Spacing("", "")

  function Print(v: Value, sp: Spacing): string
    decreases v, 0
  {
    match v
    case Text(chars) => Quoted(chars)
    case Scalar(token) => token
    case Array(items) => "[" + PrintItems(items, sp) + "]"
    case Object(members) => "{" + PrintMembers(members, sp) + "}"
  }

  function PrintItems(items: seq<Value>, sp: Spacing): string
    decreases items, 0
  {
    if items == [] then ""
    else if |items| == 1 then Print(items[0], sp)
    else Print(items[0], sp) + "," + sp.afterComma + PrintItems(items[1..], sp)
  }

  function PrintMember(m: Member, sp: Spacing): string
    decreases m, 1
  {
    Quoted(m.key) + ":" + sp.afterColon + Print(m.value, sp)
  }

  function PrintMembers(members: seq<Member>, sp: Spacing): string
    decreases members, 0
  {
    if members == [] then ""
    else if |members| == 1 then PrintMember(members[0], sp)
    else PrintMember(members[0], sp) + "," + sp.afterComma + PrintMembers(members[1..], sp)
  }
}
