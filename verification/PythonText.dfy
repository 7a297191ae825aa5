/** Values written with Python's strings and literals, and what the translation makes of them. */
module PythonText {
  import opened JsonLexer
  import opened JsonText
  import opened QuoteTranslator
  import opened Wrappers

  // ---------- spellings ----------

  datatype Quote = DoubleQuote | SingleQuote

  /** How one character of a string is spelled: as itself, or behind a backslash by a letter (or by itself,
      for a quote or a backslash), by `u` and four digits, by `x` and two, or by up to three octal digits. Python
      keeps a backslash before a letter that it has no escape for: `Kept` spells the backslash and that letter.
   */
  datatype Form = Raw | Short(letter: char) | Unicode(digits: string) | Hex(digits: string) | Octal(digits: string) | Kept

  datatype Spelt = Spelt(c: char, form: Form)

  datatype Literal = TrueLit | FalseLit | NoneLit

  /** A value together with the way each of its parts is spelled. */
  datatype Tree =
    | Str(chars: seq<Spelt>, quote: Quote)
    | Num(token: string)
    | Lit(name: Literal, python: bool)
    | Items(items: seq<Tree>)
    | Dict(entries: seq<Entry>)

  datatype Entry = Entry(key: seq<Spelt>, quote: Quote, value: Tree)

  function QuoteMark(quote: Quote): char {
    if quote.DoubleQuote? then '"' else '\''
  }

  /** What Python reads a backslash and one letter as; a slash is escaped as in JSON (see `EscapedSlashRead`). */
  function PythonEscape(letter: char): Option<char> {
    if letter == '\'' then Some('\'')
    else if letter == 'a' then Some(7 as char)
    else if letter == 'v' then Some(11 as char)
    else ShortEscape(letter)
  }

  /** A backslash and one of these begin an escape of more characters, or continue the line. */
  predicate LongEscape(letter: char) {
    letter == 'x' || letter == 'u' || letter == 'U' || letter == 'N' || letter == '\n' || '0' <= letter <= '7'
  }

  predicate SpeltOk(x: Spelt, quote: Quote) {
    match x.form
    case Raw => x.c != '\\' && x.c != QuoteMark(quote)
    case Short(letter) => PythonEscape(letter) == Some(x.c)
    case Unicode(digits) => |digits| == 4 && Numeral(digits, 16) == Some(x.c as int)
    case Hex(digits) => |digits| == 2 && Numeral(digits, 16) == Some(x.c as int)
    case Octal(digits) => 1 <= |digits| <= 3 && Numeral(digits, 8) == Some(x.c as int)
    case Kept => PythonEscape(x.c).None? && !LongEscape(x.c)
  }

  /** Octal digits are read as far as they go, up to three. */
  predicate OctalEnds(x: Spelt, next: Spelt) {
    x.form.Octal? && |x.form.digits| < 3 && next.form.Raw? ==> !('0' <= next.c <= '7')
  }

  predicate StringOk(s: seq<Spelt>, quote: Quote) {
    && (forall i :: 0 <= i < |s| ==> SpeltOk(s[i], quote))
    && forall i :: 0 < i < |s| ==> OctalEnds(s[i - 1], s[i])
  }

  /** A number is spelled with digits, signs, a point and an exponent letter. */
  predicate IsNumberChar(c: char) {
    '0' <= c <= '9' || c == '-' || c == '+' || c == '.' || c == 'e' || c == 'E'
  }

  predicate WellFormed(t: Tree)
    decreases t, 0
  {
    match t
    case Str(chars, quote) => StringOk(chars, quote)
    case Num(token) => forall k :: 0 <= k < |token| ==> IsNumberChar(token[k])
    case Lit(_, _) => true
    case Items(items) => forall k :: 0 <= k < |items| ==> WellFormed(items[k])
    case Dict(entries) =>
      forall k :: 0 <= k < |entries| ==> StringOk(entries[k].key, entries[k].quote) && WellFormed(entries[k].value)
  }

  function LiteralText(name: Literal, python: bool): string {
    match name
    case TrueLit => if python then "True" else "true"
    case FalseLit => if python then "False" else "false"
    case NoneLit => if python then "None" else "null"
  }

  function SpelledChar(x: Spelt): string {
    match x.form
    case Raw => [x.c]
    case Short(letter) => ['\\', letter]
    case Unicode(digits) => "\\u" + digits
    case Hex(digits) => "\\x" + digits
    case Octal(digits) => "\\" + digits
    case Kept => ['\\', x.c]
  }

  function SpelledChars(s: seq<Spelt>): string {
    if s == [] then "" else SpelledChar(s[0]) + SpelledChars(s[1..])
  }

  function SpelledString(s: seq<Spelt>, quote: Quote): string {
    [QuoteMark(quote)] + (SpelledChars(s) + [QuoteMark(quote)])
  }

  function Spelled(t: Tree, sp: Spacing): string
    decreases t, 0
  {
    match t
    case Str(chars, quote) => SpelledString(chars, quote)
    case Num(token) => token
    case Lit(name, python) => LiteralText(name, python)
    case Items(items) => "[" + (SpelledItems(items, sp) + "]")
    case Dict(entries) => "{" + (SpelledEntries(entries, sp) + "}")
  }

  function SpelledItems(items: seq<Tree>, sp: Spacing): string
    decreases items, 0
  {
    if items == [] then ""
    else if |items| == 1 then Spelled(items[0], sp)
    else Spelled(items[0], sp) + ("," + sp.afterComma + SpelledItems(items[1..], sp))
  }

  function SpelledEntry(e: Entry, sp: Spacing): string
    decreases e, 1
  {
    SpelledString(e.key, e.quote) + (":" + sp.afterColon + Spelled(e.value, sp))
  }

  function SpelledEntries(entries: seq<Entry>, sp: Spacing): string
    decreases entries, 0
  {
    if entries == [] then ""
    else if |entries| == 1 then SpelledEntry(entries[0], sp)
    else SpelledEntry(entries[0], sp) + ("," + sp.afterComma + SpelledEntries(entries[1..], sp))
  }

  // ---------- meaning ----------

  function CharsOf(s: seq<Spelt>): string {
    if s == [] then "" else (if s[0].form.Kept? then ['\\', s[0].c] else [s[0].c]) + CharsOf(s[1..])
  }

  /** The JSON value a tree denotes, whatever its spelling. */
  function Meaning(t: Tree): Value
    decreases t, 0
  {
    match t
    case Str(chars, _) => Text(CharsOf(chars))
    case Num(token) => Scalar(token)
    case Lit(name, _) => Scalar(LiteralText(name, false))
    case Items(items) => Array(MeaningOfItems(items))
    case Dict(entries) => Object(MeaningOfEntries(entries))
  }

  function MeaningOfItems(items: seq<Tree>): (r: seq<Value>)
    ensures |r| == |items|
    decreases items, 0
  {
    if items == [] then [] else [Meaning(items[0])] + MeaningOfItems(items[1..])
  }

  function MeaningOfEntries(entries: seq<Entry>): (r: seq<Member>)
    ensures |r| == |entries|
    decreases entries, 0
  {
    if entries == [] then []
    else [Member(CharsOf(entries[0].key), Meaning(entries[0].value))] + MeaningOfEntries(entries[1..])
  }

  // ---------- the translation, part by part ----------

  function Within(quote: Quote): Mode {
    if quote.DoubleQuote? then Double else Single
  }

  /** What becomes of one character: in single quotes a bare double quote is escaped and an escaped single
      quote is bared; everything else is copied.
   */
  function RenderedChar(x: Spelt, quote: Quote): string {
    if quote.SingleQuote? && x == Spelt('"', Raw) then "\\\""
    else if quote.SingleQuote? && x.form == Short('\'') then "'"
    else SpelledChar(x)
  }

  function RenderedChars(s: seq<Spelt>, quote: Quote): string {
    if s == [] then "" else RenderedChar(s[0], quote) + RenderedChars(s[1..], quote)
  }

  function RenderedString(s: seq<Spelt>, quote: Quote): string {
    "\"" + (RenderedChars(s, quote) + "\"")
  }

  function Rendered(t: Tree, sp: Spacing): string
    decreases t, 0
  {
    match t
    case Str(chars, quote) => RenderedString(chars, quote)
    case Num(token) => token
    case Lit(name, _) => LiteralText(name, false)
    case Items(items) => "[" + (RenderedItems(items, sp) + "]")
    case Dict(entries) => "{" + (RenderedEntries(entries, sp) + "}")
  }

  function RenderedItems(items: seq<Tree>, sp: Spacing): string
    decreases items, 0
  {
    if items == [] then ""
    else if |items| == 1 then Rendered(items[0], sp)
    else Rendered(items[0], sp) + ("," + sp.afterComma + RenderedItems(items[1..], sp))
  }

  function RenderedEntry(e: Entry, sp: Spacing): string
    decreases e, 1
  {
    RenderedString(e.key, e.quote) + (":" + sp.afterColon + Rendered(e.value, sp))
  }

  function RenderedEntries(entries: seq<Entry>, sp: Spacing): string
    decreases entries, 0
  {
    if entries == [] then ""
    else if |entries| == 1 then RenderedEntry(entries[0], sp)
    else RenderedEntry(entries[0], sp) + ("," + sp.afterComma + RenderedEntries(entries[1..], sp))
  }

  /** Inside a string anything but quotes and backslashes is copied. */
  lemma {:induction false} CopiedInside(w: string, rest: string, mode: Mode)
    requires !mode.Outside? && forall k :: 0 <= k < |w| ==> w[k] != '\\' && w[k] != '"' && w[k] != '\''
    ensures Normalized(false, w + rest, mode) == w + Normalized(false, rest, mode)
    decreases w
  {
    hide Normalized;
    if w == "" {
      assert w + rest == rest;
    } else {
      assert w + rest == [w[0]] + (w[1..] + rest);
      PlainChar(false, w[0], w[1..] + rest, mode);
      ContextFree(IsWordChar(w[0]), w[1..] + rest, mode);
      CopiedInside(w[1..], rest, mode);
    }
  }

  lemma {:induction false} DigitsPlain(digits: string, base: nat)
    requires Numeral(digits, base).Some?
    ensures forall k :: 0 <= k < |digits| ==> Digit(digits[k]).Some? && Digit(digits[k]).value < base
    decreases |digits|
  {
    if digits != "" {
      DigitsPlain(digits[..|digits| - 1], base);
    }
  }

  lemma DigitsCopied(digits: string, base: nat, rest: string, mode: Mode)
    requires !mode.Outside? && Numeral(digits, base).Some?
    ensures Normalized(false, digits + rest, mode) == digits + Normalized(false, rest, mode)
  {
    hide Normalized, Numeral;
    DigitsPlain(digits, base);
    CopiedInside(digits, rest, mode);
  }

  /** A backslash, a letter, and digits. */
  lemma NumericTranslated(letter: char, digits: string, base: nat, rest: string, mode: Mode)
    requires !mode.Outside? && letter != '\'' && Numeral(digits, base).Some?
    ensures Normalized(false, ['\\', letter] + digits + rest, mode) == ['\\', letter] + digits + Normalized(false, rest, mode)
  {
    hide Normalized, Numeral;
    assert ['\\', letter] + digits + rest == ['\\', letter] + (digits + rest);
    EscapedChar(letter, digits + rest, mode);
    DigitsCopied(digits, base, rest, mode);
  }

  lemma OctalTranslated(digits: string, rest: string, mode: Mode)
    requires !mode.Outside? && digits != "" && Numeral(digits, 8).Some?
    ensures Normalized(false, "\\" + digits + rest, mode) == "\\" + digits + Normalized(false, rest, mode)
  {
    hide Normalized, Numeral;
    DigitsPlain(digits, 8);
    var d, tail := digits[0], digits[1..];
    assert "\\" + digits + rest == ['\\', d] + (tail + rest);
    EscapedChar(d, tail + rest, mode);
    CopiedInside(tail, rest, mode);
    assert ['\\', d] + tail == "\\" + digits;
  }

  lemma CharTranslated(x: Spelt, quote: Quote, rest: string)
    requires SpeltOk(x, quote)
    ensures Normalized(false, SpelledChar(x) + rest, Within(quote))
         == RenderedChar(x, quote) + Normalized(false, rest, Within(quote))
  {
    hide Normalized, Numeral;
    var mode := Within(quote);
    match x.form
    case Raw =>
      if x.c == '"' {
        RawDoubleQuote(rest);
      } else {
        PlainChar(false, x.c, rest, mode);
        ContextFree(IsWordChar(x.c), rest, mode);
      }
    case Short(letter) => EscapedChar(letter, rest, mode);
    case Unicode(digits) =>
      NumericTranslated('u', digits, 16, rest, mode);
      assert ['\\', 'u'] == "\\u";
    case Hex(digits) =>
      NumericTranslated('x', digits, 16, rest, mode);
      assert ['\\', 'x'] == "\\x";
    case Octal(digits) => OctalTranslated(digits, rest, mode);
    case Kept => EscapedChar(x.c, rest, mode);
  }

  lemma {:induction false} CharsTranslated(s: seq<Spelt>, quote: Quote, rest: string)
    requires forall i :: 0 <= i < |s| ==> SpeltOk(s[i], quote)
    ensures Normalized(false, SpelledChars(s) + ([QuoteMark(quote)] + rest), Within(quote))
         == RenderedChars(s, quote) + ("\"" + Normalized(false, rest, Outside))
    decreases s
  {
    hide Normalized, SpelledChar, RenderedChar, SpeltOk;
    var mode, q := Within(quote), [QuoteMark(quote)] + rest;
    if s == [] {
      assert SpelledChars(s) + q == q;
      NormalizedTurn(false, q, mode, Turn("\"", 1, Outside));
      assert q[1..] == rest;
    } else {
      var tail := SpelledChars(s[1..]) + q;
      assert SpelledChars(s) + q == SpelledChar(s[0]) + tail;
      CharTranslated(s[0], quote, tail);
      CharsTranslated(s[1..], quote, rest);
    }
  }

  lemma StringTranslated(s: seq<Spelt>, quote: Quote, rest: string)
    requires StringOk(s, quote)
    ensures Normalized(false, SpelledString(s, quote) + rest, Outside)
         == RenderedString(s, quote) + Normalized(false, rest, Outside)
  {
    hide Normalized, SpelledChars, RenderedChars, SpeltOk, OctalEnds;
    var body := SpelledChars(s) + ([QuoteMark(quote)] + rest);
    var all := SpelledString(s, quote) + rest;
    assert all == [QuoteMark(quote)] + body;
    NormalizedTurn(false, all, Outside, Turn("\"", 1, Within(quote)));
    assert all[1..] == body;
    CharsTranslated(s, quote, rest);
  }

  lemma LiteralTranslated(name: Literal, python: bool, rest: string)
    requires Separated(rest)
    ensures Normalized(false, LiteralText(name, python) + rest, Outside)
         == LiteralText(name, false) + Normalized(false, rest, Outside)
  {
    hide Normalized;
    var w := LiteralText(name, python);
    if python {
      assert StartsLiteral(w[0]);
      BareWord(w, rest);
      ContextFree(true, rest, Outside);
      assert Translated(w) == LiteralText(name, false);
    } else {
      PlainText(false, w, rest, Outside);
    }
  }

  /** A spelled tree is translated part by part, wherever it stands. */
  lemma {:induction false} SpelledTranslated(t: Tree, sp: Spacing, rest: string)
    requires WellFormed(t) && Blank(sp.afterComma) && Blank(sp.afterColon) && Separated(rest)
    ensures Normalized(false, Spelled(t, sp) + rest, Outside) == Rendered(t, sp) + Normalized(false, rest, Outside)
    decreases t, 1
  {
    hide Normalized, SpelledString, RenderedString, StringOk, LiteralText, SpelledItems, SpelledEntries, RenderedItems, RenderedEntries;
    match t
    case Str(chars, quote) => StringTranslated(chars, quote, rest);
    case Num(token) => PlainText(false, token, rest, Outside);
    case Lit(name, python) => LiteralTranslated(name, python, rest);
    case Items(items) =>
      ItemsTranslated(items, sp, "]" + rest);
      Bracketed('[', SpelledItems(items, sp), RenderedItems(items, sp), ']', rest);
    case Dict(entries) =>
      EntriesTranslated(entries, sp, "}" + rest);
      Bracketed('{', SpelledEntries(entries, sp), RenderedEntries(entries, sp), '}', rest);
  }

  lemma {:induction false} ItemsTranslated(items: seq<Tree>, sp: Spacing, rest: string)
    requires forall k :: 0 <= k < |items| ==> WellFormed(items[k])
    requires Blank(sp.afterComma) && Blank(sp.afterColon) && Separated(rest)
    ensures Normalized(false, SpelledItems(items, sp) + rest, Outside)
         == RenderedItems(items, sp) + Normalized(false, rest, Outside)
    decreases items, 0
  {
    hide Normalized, Spelled, Rendered;
    if items == [] {
      assert SpelledItems(items, sp) + rest == rest;
    } else if |items| == 1 {
      SpelledTranslated(items[0], sp, rest);
    } else {
      var tail := SpelledItems(items[1..], sp) + rest;
      var sep := "," + sp.afterComma;
      assert SpelledItems(items, sp) + rest == Spelled(items[0], sp) + (sep + tail);
      SpelledTranslated(items[0], sp, sep + tail);
      PlainSeparator(sep, tail);
      ItemsTranslated(items[1..], sp, rest);
    }
  }

  lemma {:induction false} EntriesTranslated(entries: seq<Entry>, sp: Spacing, rest: string)
    requires forall k :: 0 <= k < |entries| ==> StringOk(entries[k].key, entries[k].quote) && WellFormed(entries[k].value)
    requires Blank(sp.afterComma) && Blank(sp.afterColon) && Separated(rest)
    ensures Normalized(false, SpelledEntries(entries, sp) + rest, Outside)
         == RenderedEntries(entries, sp) + Normalized(false, rest, Outside)
    decreases entries, 0
  {
    hide Normalized, SpelledEntry, RenderedEntry, StringOk;
    if entries == [] {
      assert SpelledEntries(entries, sp) + rest == rest;
    } else if |entries| == 1 {
      EntryTranslated(entries[0], sp, rest);
    } else {
      var tail := SpelledEntries(entries[1..], sp) + rest;
      var sep := "," + sp.afterComma;
      assert SpelledEntries(entries, sp) + rest == SpelledEntry(entries[0], sp) + (sep + tail);
      EntryTranslated(entries[0], sp, sep + tail);
      PlainSeparator(sep, tail);
      EntriesTranslated(entries[1..], sp, rest);
    }
  }

  lemma {:induction false} EntryTranslated(e: Entry, sp: Spacing, rest: string)
    requires StringOk(e.key, e.quote) && WellFormed(e.value)
    requires Blank(sp.afterComma) && Blank(sp.afterColon) && Separated(rest)
    ensures Normalized(false, SpelledEntry(e, sp) + rest, Outside) == RenderedEntry(e, sp) + Normalized(false, rest, Outside)
    decreases e, 2
  {
    hide Normalized, SpelledString, RenderedString, Spelled, Rendered, StringOk;
    var sep := ":" + sp.afterColon;
    var tail := Spelled(e.value, sp) + rest;
    assert SpelledEntry(e, sp) + rest == SpelledString(e.key, e.quote) + (sep + tail);
    StringTranslated(e.key, e.quote, sep + tail);
    PlainSeparator(sep, tail);
    SpelledTranslated(e.value, sp, rest);
  }

  lemma TreeRendered(t: Tree, sp: Spacing)
    requires WellFormed(t) && Blank(sp.afterComma) && Blank(sp.afterColon)
    ensures Translation(Spelled(t, sp)) == Rendered(t, sp)
  {
    hide Normalized, Spelled, Rendered, WellFormed;
    SpelledTranslated(t, sp, "");
    assert Spelled(t, sp) + "" == Spelled(t, sp);
    NormalizedEmpty(false, Outside);
  }

  // ---------- what JSON makes of the translation ----------

  /** The translation of the character is one JSON knows: not a bare control character, not one of Python's own
      escapes, not an escaped single quote in double quotes, and not a backslash that Python keeps.
   */
  predicate Readable(x: Spelt, quote: Quote) {
    match x.form
    case Raw => x.c >= ' '
    case Short(letter) => ShortEscape(letter).Some? || (letter == '\'' && quote.SingleQuote?)
    case Unicode(_) => true
    case Hex(_) => false
    case Octal(_) => false
    case Kept => false
  }

  predicate StringReadable(s: seq<Spelt>, quote: Quote) {
    forall i :: 0 <= i < |s| ==> Readable(s[i], quote)
  }

  predicate TreeReadable(t: Tree)
    decreases t, 0
  {
    match t
    case Str(chars, quote) => StringReadable(chars, quote)
    case Num(_) => true
    case Lit(_, _) => true
    case Items(items) => forall k :: 0 <= k < |items| ==> TreeReadable(items[k])
    case Dict(entries) =>
      forall k :: 0 <= k < |entries| ==> StringReadable(entries[k].key, entries[k].quote) && TreeReadable(entries[k].value)
  }

  lemma RawRead(c: char, tail: string)
    requires c != '"' && c != '\\'
    ensures Body([c] + tail) == if c >= ' ' then Led(c, Body(tail)) else None
  {
    assert ([c] + tail)[1..] == tail;
  }

  lemma ShortRead(letter: char, tail: string)
    requires letter != 'u'
    ensures Body(['\\', letter] + tail) ==
            if ShortEscape(letter).Some? then Led(ShortEscape(letter).value, Body(tail)) else None
  {
    hide ShortEscape;
    assert (['\\', letter] + tail)[2..] == tail;
  }

  lemma UnicodeRead(digits: string, c: char, tail: string)
    requires |digits| == 4 && Numeral(digits, 16) == Some(c as int)
    ensures Body("\\u" + digits + tail) == Led(c, Body(tail))
  {
    hide Numeral;
    var s := "\\u" + digits + tail;
    assert s[2..6] == digits && s[6..] == tail;
  }

  lemma CharRead(x: Spelt, quote: Quote, tail: string)
    requires SpeltOk(x, quote)
    ensures Body(RenderedChar(x, quote) + tail) == if Readable(x, quote) then Led(x.c, Body(tail)) else None
  {
    hide Numeral, Body;
    match x.form
    case Raw =>
      if x.c == '"' {
        ShortRead('"', tail);
      } else {
        RawRead(x.c, tail);
      }
    case Short(letter) =>
      if quote.SingleQuote? && letter == '\'' {
        RawRead('\'', tail);
      } else {
        ShortRead(letter, tail);
      }
    case Unicode(digits) => UnicodeRead(digits, x.c, tail);
    case Hex(digits) =>
      assert "\\x" + digits + tail == ['\\', 'x'] + (digits + tail);
      ShortRead('x', digits + tail);
    case Octal(digits) =>
      DigitsPlain(digits, 8);
      assert "\\" + digits + tail == ['\\', digits[0]] + (digits[1..] + tail);
      ShortRead(digits[0], digits[1..] + tail);
    case Kept => ShortRead(x.c, tail);
  }

  lemma ReadableChar(s: seq<Spelt>, quote: Quote)
    requires s != []
    ensures Readable(s[0], quote) ==> CharsOf(s) == [s[0].c] + CharsOf(s[1..])
  {
  }

  lemma {:induction false} CharsRead(s: seq<Spelt>, quote: Quote, rest: string)
    requires forall i :: 0 <= i < |s| ==> SpeltOk(s[i], quote)
    ensures Body(RenderedChars(s, quote) + ("\"" + rest)) ==
            if StringReadable(s, quote) then Some((CharsOf(s), rest)) else None
    decreases s
  {
    hide Body, SpeltOk, Readable, RenderedChar;
    var q := "\"" + rest;
    if s == [] {
      assert RenderedChars(s, quote) + q == q;
      BodyEnds(rest);
    } else {
      var tail := RenderedChars(s[1..], quote) + q;
      assert RenderedChars(s, quote) + q == RenderedChar(s[0], quote) + tail;
      CharRead(s[0], quote, tail);
      ReadableChar(s, quote);
      CharsRead(s[1..], quote, rest);
    }
  }

  lemma BodyEnds(rest: string)
    ensures Body("\"" + rest) == Some(("", rest))
  {
    assert ("\"" + rest)[1..] == rest;
  }

  lemma StringRead(s: seq<Spelt>, quote: Quote, rest: string)
    requires StringOk(s, quote)
    ensures Lex(RenderedString(s, quote) + rest) ==
            if StringReadable(s, quote) then Before([Chars(CharsOf(s))], Lex(rest)) else None
  {
    hide Lex, Body, StringReadable, RenderedChars, CharsOf, SpeltOk;
    var body := RenderedChars(s, quote) + ("\"" + rest);
    assert RenderedString(s, quote) + rest == "\"" + body;
    LexString(body);
    CharsRead(s, quote, rest);
  }

  /** The tokens of one part before those of the next, unless one of them cannot be read. */
  lemma PartsRead(first: string, mid: string, last: string, a: seq<Token>, b: seq<Token>, okA: bool, okB: bool, rest: string)
    requires '"' !in mid
    requires Lex(first + (mid + (last + rest))) == if okA then Before(a, Lex(mid + (last + rest))) else None
    requires Lex(last + rest) == if okB then Before(b, Lex(rest)) else None
    ensures Lex(first + (mid + last) + rest) == if okA && okB then Before(a + (Marks(mid) + b), Lex(rest)) else None
  {
    hide Lex;
    assert first + (mid + last) + rest == first + (mid + (last + rest));
    LexMarks(mid, last + rest);
    if okA && okB {
      BeforeTwice(Marks(mid), b, Lex(rest));
      BeforeTwice(a, Marks(mid) + b, Lex(rest));
    }
  }

  lemma EnclosedRead(open: char, inner: string, close: char, ts: seq<Token>, ok: bool, rest: string)
    requires open != '"' && close != '"'
    requires Lex(inner + ([close] + rest)) == if ok then Before(ts, Lex([close] + rest)) else None
    ensures Lex([open] + (inner + [close]) + rest) ==
            if ok then Before([Mark(open)] + (ts + [Mark(close)]), Lex(rest)) else None
  {
    hide Lex;
    assert [open] + (inner + [close]) + rest == [open] + (inner + ([close] + rest));
    LexMarks([open], inner + ([close] + rest));
    LexMarks([close], rest);
    assert Marks([open]) == [Mark(open)] && Marks([close]) == [Mark(close)];
    BeforeTwice(ts, [Mark(close)], Lex(rest));
    BeforeTwice([Mark(open)], ts + [Mark(close)], Lex(rest));
  }

  lemma {:induction false} RenderedRead(t: Tree, sp: Spacing, rest: string)
    requires WellFormed(t) && Blank(sp.afterComma) && Blank(sp.afterColon)
    ensures Lex(Rendered(t, sp) + rest) == if TreeReadable(t) then Before(Tokens(Meaning(t), sp), Lex(rest)) else None
    decreases t, 1
  {
    hide Lex, RenderedString, StringOk, StringReadable, RenderedItems, RenderedEntries, TokensOfItems, TokensOfMembers, CharsOf;
    match t
    case Str(chars, quote) => StringRead(chars, quote, rest);
    case Num(token) => LexMarks(token, rest);
    case Lit(name, _) => LexMarks(LiteralText(name, false), rest);
    case Items(items) =>
      ItemsRead(items, sp, "]" + rest);
      EnclosedRead('[', RenderedItems(items, sp), ']', TokensOfItems(MeaningOfItems(items), sp), TreeReadable(t), rest);
    case Dict(entries) =>
      EntriesRead(entries, sp, "}" + rest);
      EnclosedRead('{', RenderedEntries(entries, sp), '}', TokensOfMembers(MeaningOfEntries(entries), sp), TreeReadable(t), rest);
  }

  lemma {:induction false} ItemsRead(items: seq<Tree>, sp: Spacing, rest: string)
    requires forall k :: 0 <= k < |items| ==> WellFormed(items[k])
    requires Blank(sp.afterComma) && Blank(sp.afterColon)
    ensures Lex(RenderedItems(items, sp) + rest) ==
            if forall k :: 0 <= k < |items| ==> TreeReadable(items[k])
            then Before(TokensOfItems(MeaningOfItems(items), sp), Lex(rest)) else None
    decreases items, 0
  {
    hide Lex, Rendered, Tokens, Meaning, TreeReadable, WellFormed;
    if items == [] {
      assert RenderedItems(items, sp) + rest == rest;
      BeforeNone(Lex(rest));
    } else if |items| == 1 {
      RenderedRead(items[0], sp, rest);
    } else {
      var mid, last := "," + sp.afterComma, RenderedItems(items[1..], sp);
      RenderedRead(items[0], sp, mid + (last + rest));
      ItemsRead(items[1..], sp, rest);
      var ok := forall k :: 0 <= k < |items[1..]| ==> TreeReadable(items[1..][k]);
      AllReadableTail(items);
      assert MeaningOfItems(items)[1..] == MeaningOfItems(items[1..]);
      PartsRead(Rendered(items[0], sp), mid, last, Tokens(Meaning(items[0]), sp),
                TokensOfItems(MeaningOfItems(items[1..]), sp), TreeReadable(items[0]), ok, rest);
    }
  }

  lemma AllReadableTail(items: seq<Tree>)
    requires items != []
    ensures (forall k :: 0 <= k < |items| ==> TreeReadable(items[k]))
       <==> TreeReadable(items[0]) && forall k :: 0 <= k < |items[1..]| ==> TreeReadable(items[1..][k])
  {
    hide TreeReadable;
    if TreeReadable(items[0]) && forall k :: 0 <= k < |items[1..]| ==> TreeReadable(items[1..][k]) {
      forall k | 0 <= k < |items| ensures TreeReadable(items[k]) {
        assert k > 0 ==> items[k] == items[1..][k - 1];
      }
    }
  }

  predicate EntryReadable(e: Entry) {
    StringReadable(e.key, e.quote) && TreeReadable(e.value)
  }

  lemma {:induction false} EntriesRead(entries: seq<Entry>, sp: Spacing, rest: string)
    requires forall k :: 0 <= k < |entries| ==> StringOk(entries[k].key, entries[k].quote) && WellFormed(entries[k].value)
    requires Blank(sp.afterComma) && Blank(sp.afterColon)
    ensures Lex(RenderedEntries(entries, sp) + rest) ==
            if forall k :: 0 <= k < |entries| ==> StringReadable(entries[k].key, entries[k].quote) && TreeReadable(entries[k].value)
            then Before(TokensOfMembers(MeaningOfEntries(entries), sp), Lex(rest)) else None
    decreases entries, 0
  {
    hide Lex, RenderedEntry, TokensOfMember, Meaning, TreeReadable, StringReadable, WellFormed, StringOk, CharsOf;
    if entries == [] {
      assert RenderedEntries(entries, sp) + rest == rest;
      BeforeNone(Lex(rest));
    } else if |entries| == 1 {
      EntryRead(entries[0], sp, rest);
    } else {
      var mid, last := "," + sp.afterComma, RenderedEntries(entries[1..], sp);
      EntryRead(entries[0], sp, mid + (last + rest));
      EntriesRead(entries[1..], sp, rest);
      var ok := forall k :: 0 <= k < |entries[1..]| ==> EntryReadable(entries[1..][k]);
      EntriesReadableTail(entries);
      var ms := MeaningOfEntries(entries);
      assert ms[1..] == MeaningOfEntries(entries[1..]);
      PartsRead(RenderedEntry(entries[0], sp), mid, last, TokensOfMember(ms[0], sp), TokensOfMembers(ms[1..], sp),
                EntryReadable(entries[0]), ok, rest);
    }
  }

  lemma EntriesReadableTail(entries: seq<Entry>)
    requires entries != []
    ensures (forall k :: 0 <= k < |entries| ==> StringReadable(entries[k].key, entries[k].quote) && TreeReadable(entries[k].value))
       <==> EntryReadable(entries[0]) && forall k :: 0 <= k < |entries[1..]| ==> EntryReadable(entries[1..][k])
  {
    hide TreeReadable, StringReadable;
    if EntryReadable(entries[0]) && forall k :: 0 <= k < |entries[1..]| ==> EntryReadable(entries[1..][k]) {
      forall k | 0 <= k < |entries| ensures StringReadable(entries[k].key, entries[k].quote) && TreeReadable(entries[k].value) {
        assert k > 0 ==> EntryReadable(entries[1..][k - 1]);
      }
    }
    if forall k :: 0 <= k < |entries| ==> StringReadable(entries[k].key, entries[k].quote) && TreeReadable(entries[k].value) {
      forall k | 0 <= k < |entries[1..]| ensures EntryReadable(entries[1..][k]) {
        assert StringReadable(entries[k + 1].key, entries[k + 1].quote);
      }
    }
  }

  lemma {:induction false} EntryRead(e: Entry, sp: Spacing, rest: string)
    requires StringOk(e.key, e.quote) && WellFormed(e.value) && Blank(sp.afterComma) && Blank(sp.afterColon)
    ensures Lex(RenderedEntry(e, sp) + rest) ==
            if EntryReadable(e) then Before(TokensOfMember(Member(CharsOf(e.key), Meaning(e.value)), sp), Lex(rest)) else None
    decreases e, 2
  {
    hide Lex, RenderedString, Rendered, Tokens, Meaning, TreeReadable, StringReadable, WellFormed, StringOk, CharsOf;
    var mid, last := ":" + sp.afterColon, Rendered(e.value, sp);
    StringRead(e.key, e.quote, mid + (last + rest));
    RenderedRead(e.value, sp, rest);
    PartsRead(RenderedString(e.key, e.quote), mid, last, [Chars(CharsOf(e.key))], Tokens(Meaning(e.value), sp),
              StringReadable(e.key, e.quote), TreeReadable(e.value), rest);
  }

  /** The translation of a Python-style text is JSON for the same value exactly when no string in it has a
      spelling that JSON does not know; otherwise it is no JSON at all.
   */
  lemma TreeTranslated(t: Tree, sp: Spacing)
    requires WellFormed(t) && Blank(sp.afterComma) && Blank(sp.afterColon)
    ensures Lex(Translation(Spelled(t, sp))) == if TreeReadable(t) then Some(Tokens(Meaning(t), sp)) else None
  {
    hide Lex, Rendered, Spelled, TreeReadable, WellFormed, Tokens, Meaning;
    TreeRendered(t, sp);
    RenderedRead(t, sp, "");
    assert Rendered(t, sp) + "" == Rendered(t, sp);
    assert Lex("") == Some([]) by { LexNothing(); }
    assert Tokens(Meaning(t), sp) + [] == Tokens(Meaning(t), sp);
  }

  lemma LexNothing()
    ensures Lex("") == Some([])
  {
  }

  // ---------- any layout ----------

  /** A stretch of a text: a string, a bare literal, or numbers, punctuation and white space however laid out. */
  datatype Piece = StringPiece(chars: seq<Spelt>, quote: Quote) | LiteralPiece(name: Literal, python: bool) | PlainPiece(text: string)

  function PieceText(p: Piece): string {
    match p
    case StringPiece(chars, quote) => SpelledString(chars, quote)
    case LiteralPiece(name, python) => LiteralText(name, python)
    case PlainPiece(text) => text
  }

  function PiecesText(ps: seq<Piece>): string {
    if ps == [] then "" else PieceText(ps[0]) + PiecesText(ps[1..])
  }

  /** Nothing that begins like a word follows a word directly. */
  predicate PieceOk(p: Piece, rest: string) {
    match p
    case StringPiece(chars, quote) => StringOk(chars, quote)
    case LiteralPiece(_, _) => Separated(rest)
    case PlainPiece(text) =>
      && (forall k :: 0 <= k < |text| ==> IsPlain(text[k]))
      && (text != "" ==> !IsWordChar(text[|text| - 1]) || Separated(rest))
  }

  predicate PiecesOk(ps: seq<Piece>) {
    ps != [] ==> PieceOk(ps[0], PiecesText(ps[1..])) && PiecesOk(ps[1..])
  }

  predicate PiecesReadable(ps: seq<Piece>) {
    forall i :: 0 <= i < |ps| ==> ps[i].StringPiece? ==> StringReadable(ps[i].chars, ps[i].quote)
  }

  function PieceTokens(p: Piece): seq<Token> {
    match p
    case StringPiece(chars, _) => [Chars(CharsOf(chars))]
    case LiteralPiece(name, _) => Marks(LiteralText(name, false))
    case PlainPiece(text) => Marks(text)
  }

  function PiecesTokens(ps: seq<Piece>): seq<Token> {
    if ps == [] then [] else PieceTokens(ps[0]) + PiecesTokens(ps[1..])
  }

  function RenderedPiece(p: Piece): string {
    match p
    case StringPiece(chars, quote) => RenderedString(chars, quote)
    case LiteralPiece(name, _) => LiteralText(name, false)
    case PlainPiece(text) => text
  }

  lemma {:induction false} PlainTranslated(afterWord: bool, w: string, rest: string)
    requires w != "" && !IsWordChar(w[|w| - 1]) && forall k :: 0 <= k < |w| ==> IsPlain(w[k])
    ensures Normalized(afterWord, w + rest, Outside) == w + Normalized(false, rest, Outside)
    decreases w
  {
    hide Normalized;
    assert w + rest == [w[0]] + (w[1..] + rest);
    PlainChar(afterWord, w[0], w[1..] + rest, Outside);
    if |w| > 1 {
      PlainTranslated(IsWordChar(w[0]), w[1..], rest);
    } else {
      assert w[1..] + rest == rest;
    }
  }

  lemma PieceTranslated(p: Piece, rest: string)
    requires PieceOk(p, rest)
    ensures Normalized(false, PieceText(p) + rest, Outside) == RenderedPiece(p) + Normalized(false, rest, Outside)
  {
    hide Normalized, SpelledString, RenderedString, LiteralText, StringOk;
    match p
    case StringPiece(chars, quote) => StringTranslated(chars, quote, rest);
    case LiteralPiece(name, python) => LiteralTranslated(name, python, rest);
    case PlainPiece(text) =>
      if text == "" {
        assert "" + rest == rest;
      } else if Separated(rest) {
        PlainText(false, text, rest, Outside);
      } else {
        PlainTranslated(false, text, rest);
      }
  }

  lemma PieceRead(p: Piece, rest: string, tail: string)
    requires PieceOk(p, rest)
    ensures Lex(RenderedPiece(p) + tail) ==
            if p.StringPiece? && !StringReadable(p.chars, p.quote) then None else Before(PieceTokens(p), Lex(tail))
  {
    hide Lex, RenderedString, StringOk, StringReadable, CharsOf;
    match p
    case StringPiece(chars, quote) => StringRead(chars, quote, tail);
    case LiteralPiece(name, _) => LexMarks(LiteralText(name, false), tail);
    case PlainPiece(text) => LexMarks(text, tail);
  }

  lemma {:induction false} PiecesRead(ps: seq<Piece>)
    requires PiecesOk(ps)
    ensures Lex(Normalized(false, PiecesText(ps), Outside)) == if PiecesReadable(ps) then Some(PiecesTokens(ps)) else None
    decreases ps
  {
    hide Lex, Normalized, PieceText, PieceTokens, PieceOk, RenderedPiece, StringReadable;
    if ps == [] {
      NormalizedEmpty(false, Outside);
      LexNothing();
    } else {
      var rest := PiecesText(ps[1..]);
      PieceTranslated(ps[0], rest);
      PieceRead(ps[0], rest, Normalized(false, rest, Outside));
      PiecesRead(ps[1..]);
      ReadableFirst(ps);
    }
  }

  lemma ReadableFirst(ps: seq<Piece>)
    requires ps != []
    ensures PiecesReadable(ps) <==>
            (ps[0].StringPiece? ==> StringReadable(ps[0].chars, ps[0].quote)) && PiecesReadable(ps[1..])
  {
    hide StringReadable;
    if (ps[0].StringPiece? ==> StringReadable(ps[0].chars, ps[0].quote)) && PiecesReadable(ps[1..]) {
      forall i | 0 <= i < |ps| && ps[i].StringPiece? ensures StringReadable(ps[i].chars, ps[i].quote) {
        assert i > 0 ==> ps[i] == ps[1..][i - 1];
      }
    }
  }

  /** Whatever the layout and nesting of a text, its translation reads as the same pieces, strings decoded and
      literals those of JSON, exactly when no string in it has a spelling that JSON does not know; otherwise it is
      no JSON at all.
   */
  lemma PiecesTranslated(ps: seq<Piece>)
    requires PiecesOk(ps)
    ensures Lex(Translation(PiecesText(ps))) == if PiecesReadable(ps) then Some(PiecesTokens(ps)) else None
  {
    PiecesRead(ps);
  }

  // ---------- spellings the serializer would choose ----------

  /** The translation of the character is the serializer's own spelling of it. */
  predicate Canonical(x: Spelt, quote: Quote) {
    Readable(x, quote) && (x.form.Unicode? ==> SpelledChar(x) == EscapeChar(x.c)) && x.form != Short('/')
  }

  predicate StringCanonical(s: seq<Spelt>, quote: Quote) {
    forall i :: 0 <= i < |s| ==> Canonical(s[i], quote)
  }

  predicate TreeCanonical(t: Tree)
    decreases t, 0
  {
    match t
    case Str(chars, quote) => StringCanonical(chars, quote)
    case Num(_) => true
    case Lit(_, _) => true
    case Items(items) => forall k :: 0 <= k < |items| ==> TreeCanonical(items[k])
    case Dict(entries) =>
      forall k :: 0 <= k < |entries| ==> StringCanonical(entries[k].key, entries[k].quote) && TreeCanonical(entries[k].value)
  }

  lemma CanonicalChar(x: Spelt, quote: Quote)
    requires SpeltOk(x, quote) && Canonical(x, quote)
    ensures RenderedChar(x, quote) == EscapeChar(x.c) && Readable(x, quote)
  {
    hide Numeral;
  }

  lemma {:induction false} CanonicalString(s: seq<Spelt>, quote: Quote)
    requires StringOk(s, quote) && StringCanonical(s, quote)
    ensures RenderedChars(s, quote) == Escape(CharsOf(s)) && RenderedString(s, quote) == Quoted(CharsOf(s))
    decreases s
  {
    hide RenderedChar, EscapeChar, SpeltOk, Canonical, Readable;
    if s != [] {
      CanonicalChar(s[0], quote);
      CanonicalString(s[1..], quote);
      ReadableChar(s, quote);
      assert CharsOf(s)[1..] == CharsOf(s[1..]);
    }
  }

  /** The translation is then the serializer's text of the value, character by character. */
  lemma {:induction false} CanonicalRendered(t: Tree, sp: Spacing)
    requires WellFormed(t) && TreeCanonical(t)
    ensures Rendered(t, sp) == Print(Meaning(t), sp)
    decreases t, 1
  {
    hide RenderedString, Quoted, RenderedItems, RenderedEntries, PrintItems, PrintMembers, StringOk, StringCanonical;
    match t
    case Str(chars, quote) => CanonicalString(chars, quote);
    case Num(_) =>
    case Lit(_, _) =>
    case Items(items) => CanonicalItems(items, sp);
    case Dict(entries) => CanonicalEntries(entries, sp);
  }

  lemma {:induction false} CanonicalItems(items: seq<Tree>, sp: Spacing)
    requires forall k :: 0 <= k < |items| ==> WellFormed(items[k]) && TreeCanonical(items[k])
    ensures RenderedItems(items, sp) == PrintItems(MeaningOfItems(items), sp)
    decreases items, 0
  {
    hide Rendered, Print, Meaning, WellFormed, TreeCanonical;
    if items != [] {
      CanonicalRendered(items[0], sp);
      CanonicalItems(items[1..], sp);
      assert MeaningOfItems(items)[1..] == MeaningOfItems(items[1..]);
    }
  }

  lemma {:induction false} CanonicalEntries(entries: seq<Entry>, sp: Spacing)
    requires forall k :: 0 <= k < |entries| ==>
               && StringOk(entries[k].key, entries[k].quote) && StringCanonical(entries[k].key, entries[k].quote)
               && WellFormed(entries[k].value) && TreeCanonical(entries[k].value)
    ensures RenderedEntries(entries, sp) == PrintMembers(MeaningOfEntries(entries), sp)
    decreases entries, 0
  {
    hide RenderedEntry, PrintMember, Meaning, WellFormed, TreeCanonical, StringOk, StringCanonical, CharsOf;
    if entries != [] {
      CanonicalEntry(entries[0], sp);
      CanonicalEntries(entries[1..], sp);
      var ms := MeaningOfEntries(entries);
      assert ms[1..] == MeaningOfEntries(entries[1..]);
    }
  }

  lemma {:induction false} CanonicalEntry(e: Entry, sp: Spacing)
    requires StringOk(e.key, e.quote) && StringCanonical(e.key, e.quote) && WellFormed(e.value) && TreeCanonical(e.value)
    ensures RenderedEntry(e, sp) == PrintMember(Member(CharsOf(e.key), Meaning(e.value)), sp)
    decreases e, 2
  {
    hide RenderedString, Quoted, Rendered, Print, Meaning, WellFormed, TreeCanonical, StringOk, StringCanonical, CharsOf;
    CanonicalRendered(e.value, sp);
    CanonicalString(e.key, e.quote);
  }

  lemma TreePrinted(t: Tree, sp: Spacing)
    requires WellFormed(t) && TreeCanonical(t) && Blank(sp.afterComma) && Blank(sp.afterColon)
    ensures Translation(Spelled(t, sp)) == Print(Meaning(t), sp)
  {
    TreeRendered(t, sp);
    CanonicalRendered(t, sp);
  }

  /** A character as the serializer spells it in double quotes. */
  function JsonForm(c: char): Spelt {
    if c == '"' || c == '\\' then Spelt(c, Short(c))
    else if c == '\n' then Spelt(c, Short('n'))
    else if c == '\r' then Spelt(c, Short('r'))
    else if c == '\t' then Spelt(c, Short('t'))
    else if c == 8 as char then Spelt(c, Short('b'))
    else if c == 12 as char then Spelt(c, Short('f'))
    else if c < ' ' then Spelt(c, Unicode(['0', '0', HEX[c as int / 16], HEX[c as int % 16]]))
    else Spelt(c, Raw)
  }

  function JsonForms(s: string): (r: seq<Spelt>)
    ensures |r| == |s| && forall i :: 0 <= i < |r| ==> r[i] == JsonForm(s[i])
  {
    hide JsonForm;
    seq(|s|, i requires 0 <= i < |s| => JsonForm(s[i]))
  }

  lemma JsonFormOk(c: char)
    ensures SpeltOk(JsonForm(c), DoubleQuote) && Canonical(JsonForm(c), DoubleQuote)
    ensures JsonForm(c).c == c && !JsonForm(c).form.Octal?
  {
    hide Numeral;
    if JsonForm(c).form.Unicode? {
      HexDigit(c as int / 16);
      HexDigit(c as int % 16);
      FourDigits(c as int / 16, c as int % 16);
    }
  }

  lemma HexDigit(k: nat)
    requires k < 16
    ensures Digit(HEX[k]) == Some(k)
  {
  }

  lemma NumeralSnoc(digits: string, c: char, base: nat)
    requires Numeral(digits, base).Some? && Digit(c).Some? && Digit(c).value < base
    ensures Numeral(digits + [c], base) == Some(Numeral(digits, base).value * base + Digit(c).value)
  {
    assert (digits + [c])[..|digits|] == digits;
  }

  lemma FourDigits(high: nat, low: nat)
    requires high < 16 && low < 16
    ensures Numeral(['0', '0', HEX[high], HEX[low]], 16) == Some(high * 16 + low)
  {
    hide Numeral;
    var h, l := HEX[high], HEX[low];
    HexDigit(high);
    HexDigit(low);
    NoDigits(16);
    NumeralSnoc("", '0', 16);
    assert "" + ['0'] == ['0'] && ['0'] + ['0'] == ['0', '0'];
    NumeralSnoc(['0'], '0', 16);
    NumeralSnoc(['0', '0'], h, 16);
    assert ['0', '0'] + [h] == ['0', '0', h] && ['0', '0', h] + [l] == ['0', '0', h, l];
    NumeralSnoc(['0', '0', h], l, 16);
  }

  lemma NoDigits(base: nat)
    ensures Numeral("", base) == Some(0)
  {
  }

  lemma JsonFormsOk(s: string)
    ensures StringOk(JsonForms(s), DoubleQuote) && StringCanonical(JsonForms(s), DoubleQuote) && CharsOf(JsonForms(s)) == s
  {
    hide SpeltOk, Canonical, JsonForm, JsonForms, CharsOf;
    forall i | 0 <= i < |s|
      ensures SpeltOk(JsonForms(s)[i], DoubleQuote) && Canonical(JsonForms(s)[i], DoubleQuote)
      ensures !JsonForms(s)[i].form.Octal?
    {
      JsonFormOk(s[i]);
    }
    JsonFormsSpell(s);
  }

  lemma {:induction false} JsonFormsSpell(s: string)
    ensures CharsOf(JsonForms(s)) == s
  {
    hide JsonForm;
    if s != "" {
      JsonFormOk(s[0]);
      JsonFormsSpell(s[1..]);
      assert JsonForms(s)[1..] == JsonForms(s[1..]);
      assert s == [s[0]] + s[1..];
    }
  }

  /** A string the serializer quoted is read back. */
  lemma QuotedRead(s: string, rest: string)
    ensures Lex(Quoted(s) + rest) == Before([Chars(s)], Lex(rest))
  {
    hide Lex, RenderedString, Quoted, JsonForms, StringOk, CharsOf, Readable;
    JsonFormsOk(s);
    CanonicalString(JsonForms(s), DoubleQuote);
    StringRead(JsonForms(s), DoubleQuote, rest);
    forall i | 0 <= i < |JsonForms(s)| ensures Readable(JsonForms(s)[i], DoubleQuote) {
      assert Canonical(JsonForms(s)[i], DoubleQuote);
    }
  }

  // ---------- spellings that are lost ----------

  /** `'\x1b'`, an escape character, becomes a string that is not JSON. */
  lemma HexEscapeLost()
    ensures var t := Str([Spelt(27 as char, Hex("1b"))], SingleQuote);
      && WellFormed(t) && Spelled(t, COMPACT) == "'\\x1b'"
      && Translation("'\\x1b'") == "\"\\x1b\"" && Lex("\"\\x1b\"") == None
  {
    hide Lex, Normalized;
    var x := Spelt(27 as char, Hex("1b"));
    var t := Str([x], SingleQuote);
    HexDigits("1b", 1, 11);
    OneSpelt(x, SingleQuote);
    TreeRendered(t, COMPACT);
    TreeTranslated(t, COMPACT);
  }

  lemma HexDigits(digits: string, high: nat, low: nat)
    requires |digits| == 2 && Digit(digits[0]) == Some(high) && Digit(digits[1]) == Some(low) && high < 16 && low < 16
    ensures Numeral(digits, 16) == Some(high * 16 + low)
  {
    hide Numeral;
    NoDigits(16);
    NumeralSnoc("", digits[0], 16);
    assert "" + [digits[0]] == [digits[0]] && [digits[0]] + [digits[1]] == digits;
    NumeralSnoc([digits[0]], digits[1], 16);
  }

  lemma OneSpelt(x: Spelt, quote: Quote)
    ensures SpelledChars([x]) == SpelledChar(x) && RenderedChars([x], quote) == RenderedChar(x, quote)
  {
    assert [x][1..] == [];
    assert SpelledChar(x) + "" == SpelledChar(x) && RenderedChar(x, quote) + "" == RenderedChar(x, quote);
  }

  /** An escaped single quote in double quotes is left as it is, and is not JSON. */
  lemma EscapedQuoteLost()
    ensures var t := Str([Spelt('\'', Short('\''))], DoubleQuote);
      && WellFormed(t) && Spelled(t, COMPACT) == "\"\\'\""
      && Translation("\"\\'\"") == "\"\\'\"" && Lex("\"\\'\"") == None
  {
    hide Lex, Normalized;
    var x := Spelt('\'', Short('\''));
    var t := Str([x], DoubleQuote);
    OneSpelt(x, DoubleQuote);
    TreeRendered(t, COMPACT);
    TreeTranslated(t, COMPACT);
  }

  /** `'\d'`, a backslash and a letter to Python, is left as it is, and is not JSON. */
  lemma KeptBackslashLost()
    ensures var t := Str([Spelt('d', Kept)], SingleQuote);
      && WellFormed(t) && Meaning(t) == Text("\\d") && Spelled(t, COMPACT) == "'\\d'"
      && Translation("'\\d'") == "\"\\d\"" && Lex("\"\\d\"") == None
  {
    hide Lex, Normalized;
    var x := Spelt('d', Kept);
    var t := Str([x], SingleQuote);
    assert CharsOf([x][1..]) == "";
    OneSpelt(x, SingleQuote);
    TreeRendered(t, COMPACT);
    TreeTranslated(t, COMPACT);
  }

  /** `'\/'` is read as JSON reads it, a slash alone; Python keeps the backslash here too. */
  lemma EscapedSlashRead()
    ensures var t := Str([Spelt('/', Short('/'))], SingleQuote);
      && WellFormed(t) && Spelled(t, COMPACT) == "'\\/'"
      && Translation("'\\/'") == "\"\\/\"" && Lex("\"\\/\"") == Some([Chars("/")])
  {
    hide Lex, Normalized;
    var x := Spelt('/', Short('/'));
    var t := Str([x], SingleQuote);
    assert CharsOf([x][1..]) == "";
    OneSpelt(x, SingleQuote);
    TreeRendered(t, COMPACT);
    TreeTranslated(t, COMPACT);
    assert CharsOf([x]) == "/" && Tokens(Meaning(t), COMPACT) == [Chars("/")];
  }
}
