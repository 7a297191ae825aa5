/** What the translation makes of words and of strings that are not finished. */
module TranslatorLaws {
  import opened JsonLexer
  import opened JsonText
  import opened PythonText
  import opened QuoteTranslator
  import opened Wrappers

  predicate IsWord(w: string) {
    w != "" && forall i :: 0 <= i < |w| ==> 'a' <= w[i] <= 'z' || 'A' <= w[i] <= 'Z' || '0' <= w[i] <= '9' || w[i] == '_'
  }

  predicate EndsWord(rest: string) {
    rest == "" || !IsWord(rest[..1])
  }

  /** A Python literal, or as much of it as there is yet, becomes as much of the JSON literal; other words stay. */
  function WordOut(w: string): string {
    if w <= "True" then "true"[..|w|]
    else if w <= "False" then "false"[..|w|]
    else if w <= "None" then "null"[..|w|]
    else w
  }

  /** So it is with every word outside strings, and what follows it is translated on its own. */
  lemma WordTranslated(w: string, rest: string)
    requires IsWord(w) && EndsWord(rest)
    ensures Normalized(false, w + rest, Outside) == WordOut(w) + Normalized(true, rest, Outside)
    ensures Translation(w) == WordOut(w)
  {
    WordLengthOf(w);
    WordBehind(w, rest);
    WordBehind(w, "");
    assert w + "" == w;
    NormalizedEmpty(true, Outside);
    assert WordOut(w) + "" == WordOut(w);
  }

  lemma {:induction false} WordLengthOf(w: string)
    requires forall i :: 0 <= i < |w| ==> IsWordChar(w[i])
    ensures WordLength(w) == |w|
    decreases w
  {
    if w != "" {
      WordLengthOf(w[1..]);
    }
  }

  lemma WordBehind(w: string, rest: string)
    requires w != "" && EndsWord(rest) && WordLength(w) == |w|
    ensures Normalized(false, w + rest, Outside) == WordOut(w) + Normalized(true, rest, Outside)
  {
    hide Normalized, WordOut, IsWord;
    WordEnds(rest);
    if StartsLiteral(w[0]) {
      BareWord(w, rest);
      WordOutIs(w);
    } else {
      OtherWord(w, rest);
      NotLiteral(w);
    }
  }

  lemma WordEnds(rest: string)
    requires EndsWord(rest)
    ensures rest == "" || !IsWordChar(rest[0])
  {
    assert rest != "" ==> rest[..1] == [rest[0]];
  }

  lemma OtherWord(w: string, rest: string)
    requires w != "" && !StartsLiteral(w[0]) && WordLength(w) == |w|
    ensures Normalized(false, w + rest, Outside) == w + Normalized(true, rest, Outside)
  {
    hide Normalized, WordLength;
    var tail := w[1..];
    assert w + rest == [w[0]] + (tail + rest);
    assert IsWordChar(w[0]);
    PlainChar(false, w[0], tail + rest, Outside);
    WordLengthOf(tail);
    WordCopied(tail, rest);
    assert [w[0]] + (tail + Normalized(true, rest, Outside)) == w + Normalized(true, rest, Outside);
  }

  lemma WordOutIs(w: string)
    requires w != "" && StartsLiteral(w[0])
    ensures BareWordOut(w) == WordOut(w)
  {
  }

  lemma NotLiteral(w: string)
    requires w != "" && !StartsLiteral(w[0])
    ensures WordOut(w) == w
  {
  }

  /** A string that is not closed yet comes to all of its translation but the closing quote. */
  lemma OpenString(s: seq<Spelt>, quote: Quote)
    requires StringOk(s, quote)
    ensures Translation([QuoteMark(quote)] + SpelledChars(s)) + "\"" == Translation([QuoteMark(quote)] + SpelledChars(s) + [QuoteMark(quote)])
  {
    hide Normalized, SpelledChars, RenderedChars, SpeltOk, OctalEnds;
    var q := [QuoteMark(quote)];
    StringTranslated(s, quote, "");
    assert SpelledString(s, quote) + "" == q + SpelledChars(s) + q;
    NormalizedEmpty(false, Outside);
    assert RenderedString(s, quote) + "" == RenderedString(s, quote);
    NormalizedTurn(false, q + SpelledChars(s), Outside, Turn("\"", 1, Within(quote)));
    assert (q + SpelledChars(s))[1..] == SpelledChars(s);
    OpenChars(s, quote);
    assert "\"" + RenderedChars(s, quote) + "\"" == "\"" + (RenderedChars(s, quote) + "\"");
  }

  lemma {:induction false} OpenChars(s: seq<Spelt>, quote: Quote)
    requires forall i :: 0 <= i < |s| ==> SpeltOk(s[i], quote)
    ensures Normalized(false, SpelledChars(s), Within(quote)) == RenderedChars(s, quote)
    decreases s
  {
    hide Normalized, SpelledChar, RenderedChar, SpeltOk;
    if s == [] {
      NormalizedEmpty(false, Within(quote));
    } else {
      CharTranslated(s[0], quote, SpelledChars(s[1..]));
      OpenChars(s[1..], quote);
    }
  }

  /** Outside strings a lone backslash and a quote within the other kind of string are kept as they are. */
  lemma KeptCharacters(rest: string)
    ensures Normalized(false, "'" + rest, Double) == "'" + Normalized(false, rest, Double)
    ensures rest != "" ==> Normalized(false, "\\" + rest, Outside) == "\\" + Normalized(false, rest, Outside)
  {
    hide Normalized;
    PlainChar(false, '\'', rest, Double);
    if rest != "" {
      NormalizedTurn(false, "\\" + rest, Outside, Turn("\\", 1, Outside));
      assert ("\\" + rest)[1..] == rest;
    }
  }

  // ---------- the writer ----------

  predicate NeedsNoEscape(c: char) {
    c >= ' ' && c != '"' && c != '\\'
  }

  /** A character that may stand for itself does; another has its short escape if there is one, and else the
      four-digit one.
   */
  lemma EscapeShortest(c: char)
    ensures NeedsNoEscape(c) ==> EscapeChar(c) == [c]
    ensures forall letter :: !NeedsNoEscape(c) && ShortEscape(letter) == Some(c) ==> EscapeChar(c) == ['\\', letter]
    ensures !NeedsNoEscape(c) && (forall letter :: ShortEscape(letter) != Some(c)) ==>
              |EscapeChar(c)| == 6 && EscapeChar(c)[..2] == "\\u" && Numeral(EscapeChar(c)[2..], 16) == Some(c as int)
  {
    hide Numeral;
    if c < ' ' {
      assert ShortEscape('n') == Some('\n') && ShortEscape('r') == Some('\r') && ShortEscape('t') == Some('\t')
          && ShortEscape('b') == Some(8 as char) && ShortEscape('f') == Some(12 as char);
      HexDigit(c as int / 16);
      HexDigit(c as int % 16);
      FourDigits(c as int / 16, c as int % 16);
      var h, l := HEX[c as int / 16], HEX[c as int % 16];
      assert ['\\', 'u', '0', '0', h, l][2..] == ['0', '0', h, l] && ['\\', 'u', '0', '0', h, l][..2] == "\\u";
    } else if c == '"' || c == '\\' {
      assert ShortEscape(c) == Some(c);
    }
  }
}
