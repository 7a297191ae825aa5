/** Translation of Python-style literals to JSON: single-quoted strings become double-quoted, and the
    bare words True, False and None become true, false and null.
 */
module QuoteTranslator {
  import opened JsonText

  datatype Mode = Outside | Single | Double

  predicate IsWordChar(c: char) {
    '0' <= c <= '9' || 'A' <= c <= 'Z' || 'a' <= c <= 'z' || c == '_'
  }

  predicate StartsLiteral(c: char) {
    c == 'T' || c == 'F' || c == 'N'
  }

  const LITERALS: seq<(string, string)> := [("True", "true"), ("False", "false"), ("None", "null")]

  /** The length of the run of word characters at the start of `s`. */
  function WordLength(s: string): (n: nat)
    ensures n <= |s|
    ensures forall k :: 0 <= k < n ==> IsWordChar(s[k])
    ensures n < |s| ==> !IsWordChar(s[n])
  {
    if s == "" || !IsWordChar(s[0]) then 0 else 1 + WordLength(s[1..])
  }

  /** A (possibly cut off) Python literal. */
  predicate IsLiteral(token: string) {
    token <= "True" || token <= "False" || token <= "None"
  }

  function Translated(token: string): (r: string)
    requires IsLiteral(token)
    ensures |r| == |token|
  {
    if token <= "True" then "true"[..|token|]
    else if token <= "False" then "false"[..|token|]
    else "null"[..|token|]
  }

  /** One turn of the scan: what is written, how much is read, and the mode afterwards. */
  datatype Turn = Turn(out: string, taken: nat, mode: Mode)

  /** A backslash and the character after it. */
  function EscapeTurn(next: char, mode: Mode): (t: Turn)
    ensures 0 < t.taken <= 2
  {
    match mode
    case Single => Turn(if next == '\'' then "'" else ['\\', next], 2, mode)
    case Double => Turn(['\\', next], 2, mode)
    case Outside => Turn("\\", 1, mode)
  }

  function QuoteTurn(quote: char, mode: Mode): (t: Turn)
    ensures t.taken == 1
  {
    if quote == '"' then
      match mode
      case Single => Turn("\\\"", 1, mode)
      case Double => Turn("\"", 1, Outside)
      case Outside => Turn("\"", 1, Double)
    else
      match mode
      case Double => Turn([quote], 1, mode)
      case Single => Turn("\"", 1, Outside)
      case Outside => Turn("\"", 1, Single)
  }

  /** A bare word that starts like a literal. */
  function WordTurn(s: string): (t: Turn)
    requires s != "" && IsWordChar(s[0])
    ensures 0 < t.taken <= |s|
  {
    var n := WordLength(s);
    if IsLiteral(s[..n]) then Turn(Translated(s[..n]), n, Outside) else Turn([s[0]], 1, Outside)
  }

  /** The turn taken at the start of a non-empty `s`; `afterWord` says whether the character before
      `s` was a word character. */
  function NextTurn(afterWord: bool, s: string, mode: Mode): (t: Turn)
    requires s != ""
    ensures 0 < t.taken <= |s|
  {
    var c := s[0];
    if c == '\\' && |s| > 1 then EscapeTurn(s[1], mode)
    else if c == '"' || c == '\'' then QuoteTurn(c, mode)
    else if mode.Outside? && StartsLiteral(c) && !afterWord then WordTurn(s)
    else Turn([c], 1, mode)
  }

  /** What is written for `s`. */
  function Normalized(afterWord: bool, s: string, mode: Mode): string
    decreases |s|
  {
    if s == "" then ""
    else
      var t := NextTurn(afterWord, s, mode);
      t.out + Normalized(IsWordChar(s[t.taken - 1]), s[t.taken..], t.mode)
  }

  lemma NormalizedTurn(afterWord: bool, s: string, mode: Mode, t: Turn)
    requires s != "" && t == NextTurn(afterWord, s, mode)
    ensures Normalized(afterWord, s, mode) == t.out + Normalized(IsWordChar(s[t.taken - 1]), s[t.taken..], t.mode)
  {
  }

  lemma NormalizedEmpty(afterWord: bool, mode: Mode)
    ensures Normalized(afterWord, "", mode) == ""
  {
  }

  function Translation(input: string): string {
    Normalized(false, input, Outside)
  }

  /** The scanning loop of the original, proved against `Translation`. */
  method NormalizeQuotesToJson(input: string) returns (result: string)
    ensures result == Translation(input)
  {
    hide Normalized, NextTurn;
    result := "";
    var inSingle, inDouble := false, false;
    var i := 0;
    while i < |input|
      invariant 0 <= i <= |input|
      invariant !(inSingle && inDouble)
      invariant Remaining(input, i, ModeOf(inSingle, inDouble), result)
    {
      TurnTaken(result, input, i, ModeOf(inSingle, inDouble));
      var out;
      out, i, inSingle, inDouble := LoopBody(input, i, inSingle, inDouble);
      result := result + out;
    }
    assert input[i..] == "";
    NormalizedEmpty(AfterWord(input, i), ModeOf(inSingle, inDouble));
  }

  /** The body of the loop: what one pass appends to the result, and the updated index and flags. */
  method LoopBody(input: string, i: nat, inSingle: bool, inDouble: bool)
    returns (out: string, i': nat, inSingle': bool, inDouble': bool)
    requires i < |input| && !(inSingle && inDouble)
    ensures !(inSingle' && inDouble') && i < i' <= |input|
    ensures NextTurn(AfterWord(input, i), input[i..], ModeOf(inSingle, inDouble))
         == Turn(out, i' - i, ModeOf(inSingle', inDouble'))
  {
    i', inSingle', inDouble' := i + 1, inSingle, inDouble;
    var c := input[i];
    if c == '\\' && i + 1 < |input| {
      var next := input[i + 1];
      if inSingle {
        out := if next == '\'' then "'" else if next == '"' then "\\\"" else [c, next];
        i' := i + 2;
      } else if inDouble {
        out, i' := [c, next], i + 2;
      } else {
        out := [c];
      }
    } else if c == '"' {
      if inSingle {
        out := "\\\"";
      } else {
        inDouble' := !inDouble;
        out := [c];
      }
    } else if c == '\'' {
      if inDouble {
        out := [c];
      } else {
        inSingle' := !inSingle;
        out := "\"";
      }
    } else if !inSingle && !inDouble && StartsLiteral(c) && (i == 0 || !IsWordChar(input[i - 1])) {
      var n := TokenLength(input, i);
      var matched, js := FindLiteral(input[i..i + n]);
      assert input[i..][..n] == input[i..i + n];
      if matched {
        out, i' := js[..n], i + n;
      } else {
        out := [c];
      }
    } else {
      out := [c];
    }
  }

  ghost predicate Remaining(input: string, i: nat, mode: Mode, result: string)
    requires i <= |input|
  {
    result + Normalized(AfterWord(input, i), input[i..], mode) == Translation(input)
  }

  lemma TurnTaken(result: string, input: string, i: nat, mode: Mode)
    requires i < |input| && Remaining(input, i, mode, result)
    ensures var t := NextTurn(AfterWord(input, i), input[i..], mode);
            Remaining(input, i + t.taken, t.mode, result + t.out)
  {
    hide Normalized, NextTurn;
    var t := NextTurn(AfterWord(input, i), input[i..], mode);
    NormalizedTurn(AfterWord(input, i), input[i..], mode, t);
    assert input[i..][t.taken..] == input[i + t.taken..];
  }

  function ModeOf(inSingle: bool, inDouble: bool): Mode {
    if inSingle then Single else if inDouble then Double else Outside
  }

  predicate AfterWord(input: string, i: nat)
    requires i <= |input|
  {
    i > 0 && IsWordChar(input[i - 1])
  }

  /** The loop over the literal table. */
  method FindLiteral(token: string) returns (matched: bool, js: string)
    ensures matched == IsLiteral(token)
    ensures matched ==> |token| <= |js| && js[..|token|] == Translated(token)
  {
    js := "";
    for k := 0 to |LITERALS|
      invariant forall j :: 0 <= j < k ==> !(token <= LITERALS[j].0)
    {
      if token <= LITERALS[k].0 {
        return true, LITERALS[k].1;
      }
    }
    assert !(token <= LITERALS[0].0) && !(token <= LITERALS[1].0) && !(token <= LITERALS[2].0);
    return false, "";
  }

  method TokenLength(input: string, i: nat) returns (n: nat)
    requires i < |input| && IsWordChar(input[i])
    ensures n == WordLength(input[i..]) && 0 < n && i + n <= |input|
  {
    n := 0;
    while i + n < |input| && IsWordChar(input[i + n])
      invariant i + n <= |input|
      invariant n + WordLength(input[i + n..]) == WordLength(input[i..])
      decreases |input| - n
    {
      assert input[i + n..][1..] == input[i + n + 1..];
      n := n + 1;
    }
  }

  // ---------- cutting the input ----------

  /** What is unfinished at the end of a scanned text: nothing, a backslash that would escape the
      next character, or a bare word that begins like a Python literal. */
  datatype Pending = Nothing | Backslash | Word(token: string)

  /** The state of the scan after reading all of `s`. */
  function Scanned(afterWord: bool, s: string, mode: Mode): (Mode, Pending)
    decreases |s|
  {
    if s == "" then (mode, Nothing)
    else if s == "\\" then (mode, Backslash)
    else if mode.Outside? && StartsLiteral(s[0]) && !afterWord && WordLength(s) == |s| then (mode, Word(s))
    else
      var t := NextTurn(afterWord, s, mode);
      Scanned(IsWordChar(s[t.taken - 1]), s[t.taken..], t.mode)
  }

  lemma ScannedTurn(afterWord: bool, s: string, mode: Mode)
    ensures Scanned(afterWord, s, mode)
         == if s == "" then (mode, Nothing)
            else if s == "\\" then (mode, Backslash)
            else if mode.Outside? && StartsLiteral(s[0]) && !afterWord && WordLength(s) == |s| then (mode, Word(s))
            else
              var t := NextTurn(afterWord, s, mode);
              Scanned(IsWordChar(s[t.taken - 1]), s[t.taken..], t.mode)
  {
  }

  /** The cut separates a backslash from the single quote it escapes in a single-quoted string. */
  predicate CutSplitsEscape(state: (Mode, Pending), rest: string) {
    state.0.Single? && state.1.Backslash? && rest != "" && rest[0] == '\''
  }

  /** The cut leaves the start of a literal in a bare word that turns out not to be one. */
  predicate CutSplitsWord(state: (Mode, Pending), rest: string) {
    state.1.Word? && IsLiteral(state.1.token) && !IsLiteral(state.1.token + rest[..WordLength(rest)])
  }

  lemma SplitNeedsPending(state: (Mode, Pending), rest: string)
    ensures CutSplitsEscape(state, rest) ==> state.1.Backslash?
    ensures CutSplitsWord(state, rest) ==> state.1.Word?
  {
  }

  lemma {:induction false} WordLengthConcat(a: string, b: string)
    ensures WordLength(a + b) == if WordLength(a) == |a| then |a| + WordLength(b) else WordLength(a)
  {
    if a == "" {
      assert a + b == b;
    } else {
      assert (a + b)[1..] == a[1..] + b;
      WordLengthConcat(a[1..], b);
    }
  }

  /** Inside a word nothing is translated. */
  lemma {:induction false} WordCopied(w: string, rest: string)
    requires WordLength(w) == |w|
    ensures Normalized(true, w + rest, Outside) == w + Normalized(true, rest, Outside)
  {
    hide Normalized;
    if w == "" {
      assert w + rest == rest;
    } else {
      var s := w + rest;
      NormalizedTurn(true, s, Outside, Turn([w[0]], 1, Outside));
      assert s[1..] == w[1..] + rest;
      WordCopied(w[1..], rest);
    }
  }

  function BareWordOut(w: string): string {
    if IsLiteral(w) then Translated(w) else w
  }

  /** A bare word starting like a literal is translated as a whole or copied as a whole. */
  lemma BareWord(w: string, rest: string)
    requires w != "" && StartsLiteral(w[0]) && WordLength(w) == |w|
    requires rest == "" || !IsWordChar(rest[0])
    ensures Normalized(false, w + rest, Outside) == BareWordOut(w) + Normalized(true, rest, Outside)
  {
    hide Normalized, WordTurn, IsLiteral, Translated, WordLength, IsWordChar;
    var s := w + rest;
    BareWordTurn(w, rest);
    NormalizedTurn(false, s, Outside, WordTurn(s));
    if IsLiteral(w) {
      assert s[|w|..] == rest && s[|w| - 1] == w[|w| - 1];
    } else {
      assert s[1..] == w[1..] + rest;
      WordCopied(w[1..], rest);
      HeadAndTail(w, Normalized(true, rest, Outside));
    }
  }

  lemma HeadAndTail(w: string, rest: string)
    requires w != ""
    ensures [w[0]] + (w[1..] + rest) == w + rest
  {
  }

  lemma BareWordTurn(w: string, rest: string)
    requires w != "" && StartsLiteral(w[0]) && WordLength(w) == |w|
    requires rest == "" || !IsWordChar(rest[0])
    ensures WordTurn(w + rest) == if IsLiteral(w) then Turn(Translated(w), |w|, Outside) else Turn([w[0]], 1, Outside)
    ensures IsWordChar(w[|w| - 1]) && IsWordChar(w[0]) && WordLength(w[1..]) == |w| - 1
  {
    hide IsLiteral, Translated;
    WordLengthConcat(w, rest);
    assert (w + rest)[..|w|] == w;
  }

  lemma WordTurnStable(a: string, b: string)
    requires a != "" && IsWordChar(a[0]) && WordLength(a) < |a|
    ensures WordTurn(a + b) == WordTurn(a)
  {
    hide IsLiteral, Translated;
    var n := WordLength(a);
    WordLengthConcat(a, b);
    assert (a + b)[..n] == a[..n];
  }

  /** Away from a pending end the turn taken does not depend on what follows. */
  lemma TurnStable(afterWord: bool, a: string, b: string, mode: Mode)
    requires a != "" && a != "\\"
    requires !(mode.Outside? && StartsLiteral(a[0]) && !afterWord && WordLength(a) == |a|)
    ensures NextTurn(afterWord, a + b, mode) == NextTurn(afterWord, a, mode)
  {
    hide WordTurn, EscapeTurn, QuoteTurn;
    var s := a + b;
    assert s[0] == a[0];
    if a[0] == '\\' {
      assert a == [a[0]] + a[1..];
      assert |a| > 1 && s[1] == a[1];
    } else if mode.Outside? && StartsLiteral(a[0]) && !afterWord {
      WordTurnStable(a, b);
    }
  }

  lemma TrailingBackslash(afterWord: bool, b: string, mode: Mode)
    ensures Normalized(afterWord, "\\", mode) <= Normalized(afterWord, "\\" + b, mode)
       <==> !CutSplitsEscape((mode, Backslash), b)
  {
    hide Normalized;
    var bs: string := ['\\'];
    assert bs[1..] == "";
    NormalizedTurn(afterWord, bs, mode, Turn(bs, 1, mode));
    NormalizedEmpty(IsWordChar(bs[0]), mode);
    assert Normalized(afterWord, bs, mode) == bs;
    var s := bs + b;
    var t := NextTurn(afterWord, s, mode);
    NormalizedTurn(afterWord, s, mode, t);
    if b != "" {
      assert s[1] == b[0];
    }
  }

  lemma LongerWord(a: string, b: string)
    requires a != "" && WordLength(a) == |a|
    ensures var n := WordLength(b);
            && WordLength(a + b[..n]) == |a| + n
            && (n < |b| ==> !IsWordChar(b[n]))
  {
    var n := WordLength(b);
    WordLengthConcat(b[..n], b[n..]);
    assert b[..n] + b[n..] == b;
    WordLengthConcat(a, b[..n]);
  }

  lemma TrailingWord(a: string, b: string)
    requires a != "" && StartsLiteral(a[0]) && WordLength(a) == |a|
    ensures Normalized(false, a, Outside) <= Normalized(false, a + b, Outside) <==> !CutSplitsWord((Outside, Word(a)), b)
  {
    hide Normalized, IsLiteral, Translated, WordLength, StartsLiteral;
    var n := WordLength(b);
    var whole, rest := a + b[..n], b[n..];
    assert a + b == whole + rest && a + "" == a;
    LongerWord(a, b);
    BareWord(a, "");
    BareWord(whole, rest);
    NormalizedEmpty(true, Outside);
    assert Normalized(false, a, Outside) == BareWordOut(a);
    WholeOrPart(a, whole, Normalized(true, rest, Outside));
  }

  /** Two cut-off forms of one word: their outputs agree unless only the shorter looks like a literal. */
  lemma WholeOrPart(a: string, whole: string, tail: string)
    requires a != "" && StartsLiteral(a[0]) && a <= whole
    ensures BareWordOut(a) <= BareWordOut(whole) + tail <==> (IsLiteral(a) ==> IsLiteral(whole))
  {
    if IsLiteral(whole) {
      assert BareWordOut(a) <= BareWordOut(whole);
    } else if IsLiteral(a) {
      assert Translated(a)[0] != a[0];
    } else {
      assert a <= whole + tail;
    }
  }

  /** The exact condition under which translating a text cut short gives a prefix of the whole
      translation, so that a client that has been sent the one can be sent the rest of the other. */
  lemma {:induction false} CutMonotone(afterWord: bool, a: string, b: string, mode: Mode)
    ensures Normalized(afterWord, a, mode) <= Normalized(afterWord, a + b, mode)
       <==> var state := Scanned(afterWord, a, mode); !CutSplitsEscape(state, b) && !CutSplitsWord(state, b)
    decreases |a|
  {
    hide Normalized, NextTurn, Scanned, CutSplitsEscape, CutSplitsWord;
    ScannedTurn(afterWord, a, mode);
    SplitNeedsPending(Scanned(afterWord, a, mode), b);
    if a == "" {
      NormalizedEmpty(afterWord, mode);
    } else if a == "\\" {
      TrailingBackslash(afterWord, b, mode);
    } else if mode.Outside? && StartsLiteral(a[0]) && !afterWord && WordLength(a) == |a| {
      TrailingWord(a, b);
    } else {
      TurnStable(afterWord, a, b, mode);
      var t := NextTurn(afterWord, a, mode);
      NormalizedTurn(afterWord, a, mode, t);
      NormalizedTurn(afterWord, a + b, mode, t);
      SplitConcat(a, b, t.taken);
      CutMonotone(IsWordChar(a[t.taken - 1]), a[t.taken..], b, t.mode);
      PrefixUnder(t.out, Normalized(IsWordChar(a[t.taken - 1]), a[t.taken..], t.mode),
                  Normalized(IsWordChar(a[t.taken - 1]), a[t.taken..] + b, t.mode));
    }
  }

  /** The translation of a cut text is never the longer. */
  lemma {:induction false} CutShorter(afterWord: bool, a: string, b: string, mode: Mode)
    ensures |Normalized(afterWord, a, mode)| <= |Normalized(afterWord, a + b, mode)|
    decreases |a|
  {
    hide Normalized, NextTurn;
    if a == "" {
      NormalizedEmpty(afterWord, mode);
    } else if a == "\\" {
      NormalizedTurn(afterWord, a, mode, NextTurn(afterWord, a, mode));
      NormalizedEmpty(IsWordChar(a[0]), mode);
      assert a[1..] == "";
      NormalizedTurn(afterWord, a + b, mode, NextTurn(afterWord, a + b, mode));
      BackslashTurn(afterWord, b, mode);
    } else if mode.Outside? && StartsLiteral(a[0]) && !afterWord && WordLength(a) == |a| {
      var n := WordLength(b);
      assert a + b == (a + b[..n]) + b[n..] && a + "" == a;
      LongerWord(a, b);
      BareWord(a, "");
      BareWord(a + b[..n], b[n..]);
      NormalizedEmpty(true, Outside);
    } else {
      TurnStable(afterWord, a, b, mode);
      var t := NextTurn(afterWord, a, mode);
      NormalizedTurn(afterWord, a, mode, t);
      NormalizedTurn(afterWord, a + b, mode, t);
      SplitConcat(a, b, t.taken);
      CutShorter(IsWordChar(a[t.taken - 1]), a[t.taken..], b, t.mode);
    }
  }

  lemma BackslashTurn(afterWord: bool, b: string, mode: Mode)
    ensures NextTurn(afterWord, "\\", mode) == Turn("\\", 1, mode)
    ensures |NextTurn(afterWord, "\\" + b, mode).out| >= 1
  {
  }

  lemma SplitConcat(a: string, b: string, n: nat)
    requires 0 < n <= |a|
    ensures (a + b)[n..] == a[n..] + b && (a + b)[n - 1] == a[n - 1]
  {
  }

  lemma StreamedTranslation(input: string, cut: nat)
    requires cut <= |input|
    ensures Translation(input[..cut]) <= Translation(input)
       <==> var state := Scanned(false, input[..cut], Outside);
            !CutSplitsEscape(state, input[cut..]) && !CutSplitsWord(state, input[cut..])
  {
    assert input == input[..cut] + input[cut..];
    CutMonotone(false, input[..cut], input[cut..], Outside);
  }

  // ---------- a cut that shows ----------

  lemma ScannedOn(afterWord: bool, s: string, mode: Mode, t: Turn)
    requires s != "" && s != "\\" && (mode.Outside? ==> !StartsLiteral(s[0])) && t == NextTurn(afterWord, s, mode)
    ensures Scanned(afterWord, s, mode) == Scanned(IsWordChar(s[t.taken - 1]), s[t.taken..], t.mode)
  {
    hide NextTurn;
  }

  /** Between the backslash and the quote of `'it\'s'` the translation is not a prefix. */
  lemma CutEscape()
    ensures !(Translation("'it\\'s'"[..4]) <= Translation("'it\\'s'"))
  {
    hide Normalized, Scanned, Translation;
    var s: string := "'it\\";
    assert "'it\\'s'"[..4] == s && "'it\\'s'"[4..] == "'s'";
    ScannedOn(false, s, Outside, Turn("\"", 1, Single));
    assert s[1..] == "it\\";
    ScannedOn(false, "it\\", Single, Turn("i", 1, Single));
    assert "it\\"[1..] == "t\\";
    ScannedOn(true, "t\\", Single, Turn("t", 1, Single));
    assert "t\\"[1..] == "\\";
    ScannedTurn(true, "\\", Single);
    StreamedTranslation("'it\\'s'", 4);
  }

  // ---------- pieces of text ----------

  predicate IsPlain(c: char) {
    c != '\\' && c != '"' && c != '\'' && !StartsLiteral(c)
  }

  predicate IsSpace(c: char) {
    c == ' ' || c == '\t' || c == '\n' || c == '\r'
  }

  predicate Blank(s: string) {
    forall k :: 0 <= k < |s| ==> IsSpace(s[k])
  }

  lemma PlainChar(afterWord: bool, c: char, rest: string, mode: Mode)
    requires IsPlain(c) || (c == '\'' && mode.Double?) || (StartsLiteral(c) && !mode.Outside?)
    ensures Normalized(afterWord, [c] + rest, mode) == [c] + Normalized(IsWordChar(c), rest, mode)
  {
    hide Normalized;
    var s := [c] + rest;
    NormalizedTurn(afterWord, s, mode, Turn([c], 1, mode));
    assert s[1..] == rest;
  }

  lemma PlainText(afterWord: bool, w: string, rest: string, mode: Mode)
    requires forall k :: 0 <= k < |w| ==> IsPlain(w[k])
    requires mode.Outside? ==> rest == "" || !IsWordChar(rest[0])
    ensures Normalized(afterWord, w + rest, mode) == w + Normalized(false, rest, mode)
    decreases w
  {
    hide Normalized;
    if w == "" {
      assert w + rest == rest;
      ContextFree(afterWord, rest, mode);
    } else {
      assert w + rest == [w[0]] + (w[1..] + rest);
      PlainChar(afterWord, w[0], w[1..] + rest, mode);
      PlainText(IsWordChar(w[0]), w[1..], rest, mode);
    }
  }

  /** The character before matters only for a word outside strings. */
  lemma ContextFree(afterWord: bool, s: string, mode: Mode)
    requires mode.Outside? ==> s == "" || !IsWordChar(s[0])
    ensures Normalized(afterWord, s, mode) == Normalized(false, s, mode)
  {
    hide Normalized;
    if s == "" {
      NormalizedEmpty(afterWord, mode);
      NormalizedEmpty(false, mode);
    } else {
      var t := NextTurn(false, s, mode);
      NormalizedTurn(afterWord, s, mode, t);
      NormalizedTurn(false, s, mode, t);
    }
  }

  lemma EscapedChar(next: char, rest: string, mode: Mode)
    requires !mode.Outside?
    ensures Normalized(false, ['\\', next] + rest, mode)
         == (if mode.Single? && next == '\'' then "'" else ['\\', next]) + Normalized(false, rest, mode)
  {
    hide Normalized;
    var s := ['\\', next] + rest;
    NormalizedTurn(false, s, mode, EscapeTurn(next, mode));
    assert s[2..] == rest;
    ContextFree(IsWordChar(next), rest, mode);
  }

  lemma RawDoubleQuote(rest: string)
    ensures Normalized(false, "\"" + rest, Single) == "\\\"" + Normalized(false, rest, Single)
  {
    hide Normalized;
    var s := "\"" + rest;
    NormalizedTurn(false, s, Single, QuoteTurn('"', Single));
    assert s[1..] == rest;
  }

  predicate Separated(rest: string) {
    rest == "" || !IsWordChar(rest[0])
  }

  lemma Bracketed(open: char, inner: string, out: string, close: char, rest: string)
    requires open == '[' || open == '{'
    requires close == ']' || close == '}'
    requires Separated(rest)
    requires Normalized(false, inner + ([close] + rest), Outside) == out + Normalized(false, [close] + rest, Outside)
    ensures Normalized(false, [open] + (inner + [close]) + rest, Outside)
         == [open] + out + [close] + Normalized(false, rest, Outside)
  {
    hide Normalized;
    assert [open] + (inner + [close]) + rest == [open] + (inner + ([close] + rest));
    PlainChar(false, open, inner + ([close] + rest), Outside);
    PlainChar(false, close, rest, Outside);
  }

  /** A comma or colon and its blanks: what follows starts afresh. */
  lemma PlainSeparator(sep: string, tail: string)
    requires |sep| > 0 && (sep[0] == ',' || sep[0] == ':') && Blank(sep[1..])
    ensures Normalized(false, sep + tail, Outside) == sep + Normalized(false, tail, Outside)
    decreases |sep|
  {
    hide Normalized;
    assert sep + tail == [sep[0]] + (sep[1..] + tail);
    PlainChar(false, sep[0], sep[1..] + tail, Outside);
    BlankText(sep[1..], tail);
  }

  lemma {:induction false} BlankText(w: string, tail: string)
    requires Blank(w)
    ensures Normalized(false, w + tail, Outside) == w + Normalized(false, tail, Outside)
    decreases w
  {
    hide Normalized;
    if w == "" {
      assert w + tail == tail;
    } else {
      assert w + tail == [w[0]] + (w[1..] + tail);
      PlainChar(false, w[0], w[1..] + tail, Outside);
      BlankText(w[1..], tail);
    }
  }

  // ---------- translating twice ----------

  /** The mode in which the output of a mode is read again. */
  function Image(mode: Mode): Mode {
    if mode.Outside? then Outside else Double
  }

  /** Away from bare words, what a turn has written is read back in one turn that writes it again. */
  lemma TurnTwice(afterWord: bool, s: string, mode: Mode, rest: string)
    requires s != "" && !(mode.Outside? && StartsLiteral(s[0]) && !afterWord)
    requires s == "\\" ==> rest == ""
    ensures var t := NextTurn(afterWord, s, mode);
      && t.out != "" && NextTurn(afterWord, t.out + rest, Image(mode)) == Turn(t.out, |t.out|, Image(t.mode))
      && (t.mode.Outside? ==> IsWordChar(t.out[|t.out| - 1]) == IsWordChar(s[t.taken - 1]))
  {
    hide WordTurn;
    var t := NextTurn(afterWord, s, mode);
    var u := t.out + rest;
    assert u[0] == t.out[0] && (|t.out| > 1 ==> u[1] == t.out[1]);
  }

  lemma TurnSplits(afterWord: bool, out: string, rest: string, mode: Mode, t: Turn)
    requires out != "" && NextTurn(afterWord, out + rest, mode) == t == Turn(out, |out|, t.mode)
    ensures Normalized(afterWord, out + rest, mode) == out + Normalized(IsWordChar(out[|out| - 1]), rest, t.mode)
  {
    hide Normalized, NextTurn;
    NormalizedTurn(afterWord, out + rest, mode, t);
    assert (out + rest)[|out|..] == rest;
  }

  /** A non-word character or the end stays one. */
  lemma StaysApart(afterWord: bool, s: string)
    requires s == "" || !IsWordChar(s[0])
    ensures var r := Normalized(afterWord, s, Outside); r == "" || !IsWordChar(r[0])
  {
    hide Normalized;
    if s == "" {
      NormalizedEmpty(afterWord, Outside);
    } else {
      NormalizedTurn(afterWord, s, Outside, NextTurn(afterWord, s, Outside));
    }
  }

  lemma WordOutTwice(w: string, rest: string)
    requires w != "" && StartsLiteral(w[0]) && WordLength(w) == |w|
    requires rest == "" || !IsWordChar(rest[0])
    ensures Normalized(false, BareWordOut(w) + rest, Outside) == BareWordOut(w) + Normalized(true, rest, Outside)
  {
    hide Normalized;
    if IsLiteral(w) {
      PlainText(false, Translated(w), rest, Outside);
      ContextFree(true, rest, Outside);
    } else {
      BareWord(w, rest);
    }
  }

  lemma WordTwice(s: string)
    requires s != "" && StartsLiteral(s[0])
    requires var r := Normalized(true, s[WordLength(s)..], Outside); Normalized(true, r, Outside) == r
    ensures Normalized(false, Normalized(false, s, Outside), Outside) == Normalized(false, s, Outside)
  {
    hide Normalized, BareWordOut;
    var n := WordLength(s);
    var w, rest := s[..n], s[n..];
    assert s == w + rest;
    WordLengthConcat(w, rest);
    BareWord(w, rest);
    StaysApart(true, rest);
    WordOutTwice(w, Normalized(true, rest, Outside));
  }

  lemma {:induction false} NormalizedTwice(afterWord: bool, s: string, mode: Mode)
    ensures Normalized(afterWord, Normalized(afterWord, s, mode), Image(mode)) == Normalized(afterWord, s, mode)
    decreases |s|
  {
    hide Normalized, NextTurn, BareWordOut;
    if s == "" {
      NormalizedEmpty(afterWord, mode);
      NormalizedEmpty(afterWord, Image(mode));
    } else if mode.Outside? && StartsLiteral(s[0]) && !afterWord {
      var n := WordLength(s);
      NormalizedTwice(true, s[n..], Outside);
      WordTwice(s);
    } else {
      var t := NextTurn(afterWord, s, mode);
      var flag, rest := IsWordChar(s[t.taken - 1]), s[t.taken..];
      var r := Normalized(flag, rest, t.mode);
      NormalizedTurn(afterWord, s, mode, t);
      if s == "\\" {
        NormalizedEmpty(flag, t.mode);
      }
      TurnTwice(afterWord, s, mode, r);
      TurnSplits(afterWord, t.out, r, Image(mode), Turn(t.out, |t.out|, Image(t.mode)));
      NormalizedTwice(flag, rest, t.mode);
      if !t.mode.Outside? {
        ContextFree(flag, r, Double);
        ContextFree(IsWordChar(t.out[|t.out| - 1]), r, Double);
      }
    }
  }

  /** Translating twice is translating once, for any text. */
  lemma TranslatedTwice(input: string)
    ensures Translation(Translation(input)) == Translation(input)
  {
    NormalizedTwice(false, input, Outside);
  }

  // ---------- text that is JSON already ----------

  /** The lexical shape of JSON text, whoever wrote it: strings in double quotes with any escapes, and
      outside of strings no quote, no backslash and no capital that starts a Python literal. */
  predicate JsonShaped(s: string, inString: bool)
    decreases |s|
  {
    if s == "" then !inString
    else if inString then
      if s[0] == '\\' then |s| > 1 && JsonShaped(s[2..], true)
      else JsonShaped(s[1..], s[0] != '"')
    else if s[0] == '"' then JsonShaped(s[1..], true)
    else IsPlain(s[0]) && JsonShaped(s[1..], false)
  }

  lemma {:induction false} ShapedCopied(afterWord: bool, s: string, inString: bool)
    requires JsonShaped(s, inString)
    ensures Normalized(afterWord, s, if inString then Double else Outside) == s
    decreases |s|
  {
    hide Normalized;
    var mode := if inString then Double else Outside;
    if s == "" {
      NormalizedEmpty(afterWord, mode);
    } else {
      var n := if inString && s[0] == '\\' then 2 else 1;
      var next := if n == 2 then true else (s[0] == '"') != inString;
      ShapedCopied(IsWordChar(s[n - 1]), s[n..], next);
      NormalizedTurn(afterWord, s, mode, Turn(s[..n], n, if next then Double else Outside));
      assert s[..n] + s[n..] == s;
    }
  }

  /** Any JSON text is left as it is. */
  lemma JsonTextUnchanged(s: string)
    requires JsonShaped(s, false)
    ensures Translation(s) == s
  {
    ShapedCopied(false, s, false);
  }

  /** Numbers, `true`, `false`, `null`: scalars that the translation has nothing to do with. */
  predicate PlainScalars(v: Value)
    decreases v, 0
  {
    match v
    case Text(_) => true
    case Scalar(token) => forall k :: 0 <= k < |token| ==> IsPlain(token[k])
    case Array(items) => forall k :: 0 <= k < |items| ==> PlainScalars(items[k])
    case Object(members) => forall k :: 0 <= k < |members| ==> PlainScalars(members[k].value)
  }

  lemma {:induction false} PlainShaped(w: string, rest: string)
    requires (forall k :: 0 <= k < |w| ==> IsPlain(w[k])) && JsonShaped(rest, false)
    ensures JsonShaped(w + rest, false)
    decreases w
  {
    if w == "" {
      assert w + rest == rest;
    } else {
      assert (w + rest)[1..] == w[1..] + rest;
      PlainShaped(w[1..], rest);
    }
  }

  lemma {:induction false} CopiedShaped(w: string, rest: string)
    requires (forall k :: 0 <= k < |w| ==> w[k] != '"' && w[k] != '\\') && JsonShaped(rest, true)
    ensures JsonShaped(w + rest, true)
    decreases w
  {
    if w == "" {
      assert w + rest == rest;
    } else {
      assert (w + rest)[1..] == w[1..] + rest;
      CopiedShaped(w[1..], rest);
    }
  }

  lemma EscapeCharShaped(c: char, rest: string)
    requires JsonShaped(rest, true)
    ensures JsonShaped(EscapeChar(c) + rest, true)
  {
    var out := EscapeChar(c);
    var s := out + rest;
    if |out| == 1 {
      assert s[1..] == rest;
    } else if |out| == 2 {
      assert s[2..] == rest;
    } else {
      CopiedShaped(out[2..], rest);
      assert s[2..] == out[2..] + rest;
    }
  }

  lemma {:induction false} EscapeShaped(s: string, rest: string)
    requires JsonShaped(rest, false)
    ensures JsonShaped(Escape(s) + ("\"" + rest), true)
    decreases s
  {
    hide EscapeChar;
    var q := "\"" + rest;
    if s == "" {
      assert Escape(s) + q == q && q[1..] == rest;
    } else {
      hide JsonShaped;
      EscapeShaped(s[1..], rest);
      EscapeCharShaped(s[0], Escape(s[1..]) + q);
      assert Escape(s) + q == EscapeChar(s[0]) + (Escape(s[1..]) + q);
    }
  }

  lemma QuotedShaped(s: string, rest: string)
    requires JsonShaped(rest, false)
    ensures JsonShaped(Quoted(s) + rest, false)
  {
    hide Escape;
    EscapeShaped(s, rest);
    var all := Quoted(s) + rest;
    assert all[1..] == Escape(s) + ("\"" + rest);
  }

  lemma {:induction false} PrintShaped(v: Value, sp: Spacing, rest: string)
    requires PlainScalars(v) && Blank(sp.afterComma) && Blank(sp.afterColon) && JsonShaped(rest, false)
    ensures JsonShaped(Print(v, sp) + rest, false)
    decreases v, 0
  {
    hide JsonShaped, Quoted, PrintItems, PrintMembers;
    match v
    case Text(chars) => QuotedShaped(chars, rest);
    case Scalar(token) => PlainShaped(token, rest);
    case Array(items) =>
      PlainShaped("]", rest);
      ItemsShaped(items, sp, "]" + rest);
      PlainShaped("[", PrintItems(items, sp) + ("]" + rest));
      assert "[" + PrintItems(items, sp) + "]" + rest == "[" + (PrintItems(items, sp) + ("]" + rest));
    case Object(members) =>
      PlainShaped("}", rest);
      MembersShaped(members, sp, "}" + rest);
      PlainShaped("{", PrintMembers(members, sp) + ("}" + rest));
      assert "{" + PrintMembers(members, sp) + "}" + rest == "{" + (PrintMembers(members, sp) + ("}" + rest));
  }

  lemma {:induction false} ItemsShaped(items: seq<Value>, sp: Spacing, rest: string)
    requires forall k :: 0 <= k < |items| ==> PlainScalars(items[k])
    requires Blank(sp.afterComma) && Blank(sp.afterColon) && JsonShaped(rest, false)
    ensures JsonShaped(PrintItems(items, sp) + rest, false)
    decreases items, 0
  {
    hide JsonShaped, Print, PlainScalars;
    if items == [] {
      assert PrintItems(items, sp) + rest == rest;
    } else if |items| == 1 {
      PrintShaped(items[0], sp, rest);
    } else {
      var sep, tail := "," + sp.afterComma, PrintItems(items[1..], sp) + rest;
      ItemsShaped(items[1..], sp, rest);
      PlainShaped(sep, tail);
      PrintShaped(items[0], sp, sep + tail);
      assert PrintItems(items, sp) + rest == Print(items[0], sp) + (sep + tail);
    }
  }

  lemma {:induction false} MembersShaped(members: seq<Member>, sp: Spacing, rest: string)
    requires forall k :: 0 <= k < |members| ==> PlainScalars(members[k].value)
    requires Blank(sp.afterComma) && Blank(sp.afterColon) && JsonShaped(rest, false)
    ensures JsonShaped(PrintMembers(members, sp) + rest, false)
    decreases members, 0
  {
    hide JsonShaped, PrintMember, PlainScalars;
    if members == [] {
      assert PrintMembers(members, sp) + rest == rest;
    } else if |members| == 1 {
      MemberShaped(members[0], sp, rest);
    } else {
      var sep, tail := "," + sp.afterComma, PrintMembers(members[1..], sp) + rest;
      MembersShaped(members[1..], sp, rest);
      PlainShaped(sep, tail);
      MemberShaped(members[0], sp, sep + tail);
      assert PrintMembers(members, sp) + rest == PrintMember(members[0], sp) + (sep + tail);
    }
  }

  lemma {:induction false} MemberShaped(m: Member, sp: Spacing, rest: string)
    requires PlainScalars(m.value) && Blank(sp.afterComma) && Blank(sp.afterColon) && JsonShaped(rest, false)
    ensures JsonShaped(PrintMember(m, sp) + rest, false)
    decreases m, 1
  {
    hide JsonShaped, Print, Quoted;
    var sep, tail := ":" + sp.afterColon, Print(m.value, sp) + rest;
    PrintShaped(m.value, sp, rest);
    PlainShaped(sep, tail);
    QuotedShaped(m.key, sep + tail);
    assert PrintMember(m, sp) + rest == Quoted(m.key) + (sep + tail);
  }

  /** The JSON text of any value is left as it is. */
  lemma JsonUnchanged(v: Value, sp: Spacing)
    requires PlainScalars(v) && Blank(sp.afterComma) && Blank(sp.afterColon)
    ensures Translation(Print(v, sp)) == Print(v, sp)
  {
    hide Translation, Print;
    PrintShaped(v, sp, "");
    assert Print(v, sp) + "" == Print(v, sp);
    JsonTextUnchanged(Print(v, sp));
  }
}
