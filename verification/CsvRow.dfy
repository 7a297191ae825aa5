/** One row of comma-separated values, section 2 of RFC 4180. */
module CsvRow {

  // ---------- parsing ----------

  /** The fields of the rest of a row, given the field so far and whether it is inside quotes. */
  function Row(s: string, field: string, quoted: bool): (r: seq<string>)
    ensures r != []
    decreases |s|
  {
    if s == "" then [field]
    else if s[0] == '"' then
      if !quoted then
        if field != "" then Row(s[1..], field + "\"", false) else Row(s[1..], field, true)
      else if |s| > 1 && s[1] == '"' then Row(s[2..], field + "\"", true)
      else Row(s[1..], field, false)
    else if s[0] == ',' then
      if quoted then Row(s[1..], field + ",", quoted) else [field] + Row(s[1..], "", false)
    else Row(s[1..], field + [s[0]], quoted)
  }

  function Parse(s: string): seq<string> {
    Row(s, "", false)
  }

  lemma RowStep(s: string, field: string, quoted: bool)
    requires s != ""
    ensures s[0] == '"' && !quoted && field != "" ==> Row(s, field, quoted) == Row(s[1..], field + "\"", false)
    ensures s[0] == '"' && !quoted && field == "" ==> Row(s, field, quoted) == Row(s[1..], field, true)
    ensures s[0] == '"' && quoted && |s| > 1 && s[1] == '"' ==> Row(s, field, quoted) == Row(s[2..], field + "\"", true)
    ensures s[0] == '"' && quoted && !(|s| > 1 && s[1] == '"') ==> Row(s, field, quoted) == Row(s[1..], field, false)
    ensures s[0] == ',' && quoted ==> Row(s, field, quoted) == Row(s[1..], field + ",", true)
    ensures s[0] == ',' && !quoted ==> Row(s, field, quoted) == [field] + Row(s[1..], "", false)
    ensures s[0] != '"' && s[0] != ',' ==> Row(s, field, quoted) == Row(s[1..], field + [s[0]], quoted)
  {
  }

  /** The scanning loop over the row. */
  method ParseCsvRow(input: string) returns (fields: seq<string>)
    ensures fields == Parse(input)
  {
    hide Row;
    fields := [];
    var field, inQuotes := "", false;
    var i: nat := 0;
    assert input[0..] == input;
    while i < |input|
      invariant i <= |input|
      invariant fields + Row(input[i..], field, inQuotes) == Parse(input)
    {
      var ch := input[i];
      ghost var rest := input[i..];
      RowStep(rest, field, inQuotes);
      assert rest[1..] == input[i + 1..];
      if ch == '"' {
        if !inQuotes {
          if field != "" {
            field := field + "\"";
          } else {
            inQuotes := true;
          }
        } else if i + 1 < |input| && input[i + 1] == '"' {
          assert rest[2..] == input[i + 2..];
          field := field + "\"";
          i := i + 1;
        } else {
          inQuotes := false;
        }
      } else if ch == ',' {
        if inQuotes {
          field := field + ",";
        } else {
          assert fields + ([field] + Row(rest[1..], "", false)) == (fields + [field]) + Row(rest[1..], "", false);
          fields := fields + [field];
          field := "";
        }
      } else {
        field := field + [ch];
      }
      i := i + 1;
    }
    assert input[i..] == "";
    RowEnd(field, inQuotes);
    fields := fields + [field];
  }

  lemma RowEnd(field: string, quoted: bool)
    ensures Row("", field, quoted) == [field]
  {
  }

  // ---------- writing ----------

  function Doubled(f: string): string {
    if f == "" then "" else (if f[0] == '"' then "\"\"" else [f[0]]) + Doubled(f[1..])
  }

  datatype Style = Plain | Quoted

  /** A field as it stands, or in quotes with each quote doubled. */
  function Written(f: string, style: Style): string {
    if style == Plain then f else "\"" + Doubled(f) + "\""
  }

  /** A field that may stand without quotes. */
  predicate PlainOk(f: string) {
    ',' !in f && (f == "" || f[0] != '"')
  }

  function Joined(parts: seq<string>): string {
    if parts == [] then "" else if |parts| == 1 then parts[0] else parts[0] + "," + Joined(parts[1..])
  }

  function AllWritten(fields: seq<string>, styles: seq<Style>): (r: seq<string>)
    requires |fields| == |styles|
    ensures |r| == |fields|
  {
    seq(|fields|, i requires 0 <= i < |fields| => Written(fields[i], styles[i]))
  }

  /** Inside quotes, doubled text is read back and the closing quote ends it. */
  lemma {:induction false} ReadDoubled(f: string, rest: string, field: string)
    requires rest == "" || rest[0] != '"'
    ensures Row(Doubled(f) + "\"" + rest, field, true) == Row(rest, field + f, false)
    decreases f
  {
    hide Row;
    var s := Doubled(f) + "\"" + rest;
    RowStep(s, field, true);
    if f == "" {
      assert s == "\"" + rest && s[1..] == rest && field + f == field;
    } else {
      var tail := Doubled(f[1..]) + "\"" + rest;
      if f[0] == '"' {
        assert s == "\"\"" + tail && s[2..] == tail;
      } else {
        assert s == [f[0]] + tail && s[1..] == tail;
      }
      ReadDoubled(f[1..], rest, field + [f[0]]);
      assert field + [f[0]] + f[1..] == field + f;
    }
  }

  /** Plain text is read as it stands once the field has begun, or when it does not begin with a quote. */
  lemma {:induction false} ReadPlain(f: string, rest: string, field: string)
    requires ',' !in f && (f == "" || field != "" || f[0] != '"')
    ensures Row(f + rest, field, false) == Row(rest, field + f, false)
    decreases f
  {
    hide Row;
    if f == "" {
      assert f + rest == rest && field + f == field;
    } else {
      RowStep(f + rest, field, false);
      assert (f + rest)[1..] == f[1..] + rest && f[0] in f;
      ReadPlain(f[1..], rest, field + [f[0]]);
      assert field + [f[0]] + f[1..] == field + f;
    }
  }

  lemma ReadWritten(f: string, style: Style, rest: string)
    requires style == Plain ==> PlainOk(f)
    requires rest == "" || rest[0] != '"'
    ensures Row(Written(f, style) + rest, "", false) == Row(rest, f, false)
  {
    hide Row, Doubled;
    assert "" + f == f;
    if style == Plain {
      ReadPlain(f, rest, "");
    } else {
      var s := Written(f, style) + rest;
      var body := Doubled(f) + "\"" + rest;
      assert s == "\"" + body;
      RowStep(s, "", false);
      assert s[1..] == body;
      ReadDoubled(f, rest, "");
    }
  }

  /** Any non-empty list of fields, each written in either admissible style, is read back as it was. */
  lemma {:induction false} RoundTrip(fields: seq<string>, styles: seq<Style>)
    requires fields != [] && |fields| == |styles|
    requires forall i :: 0 <= i < |fields| && styles[i] == Plain ==> PlainOk(fields[i])
    ensures Parse(Joined(AllWritten(fields, styles))) == fields
    decreases fields
  {
    hide Row, Written, PlainOk;
    var ws := AllWritten(fields, styles);
    var w := Written(fields[0], styles[0]);
    if |fields| == 1 {
      assert ws == [w] && w + "" == w;
      ReadWritten(fields[0], styles[0], "");
      RowEnd(fields[0], false);
    } else {
      assert ws[1..] == AllWritten(fields[1..], styles[1..]);
      var rest := "," + Joined(ws[1..]);
      assert Joined(ws) == w + rest;
      ReadWritten(fields[0], styles[0], rest);
      RowStep(rest, fields[0], false);
      assert rest[1..] == Joined(ws[1..]);
      RoundTrip(fields[1..], styles[1..]);
      assert fields == [fields[0]] + fields[1..];
    }
  }

  // ---------- what parsing keeps ----------

  /** The text without its quotes. */
  function Unquoted(s: string): string {
    if s == "" then "" else (if s[0] == '"' then "" else [s[0]]) + Unquoted(s[1..])
  }

  lemma {:induction false} UnquotedConcat(a: string, b: string)
    ensures Unquoted(a + b) == Unquoted(a) + Unquoted(b)
    decreases a
  {
    if a == "" {
      assert a + b == b;
    } else {
      assert (a + b)[1..] == a[1..] + b;
      UnquotedConcat(a[1..], b);
    }
  }

  lemma UnquotedOne(c: char)
    ensures Unquoted([c]) == if c == '"' then "" else [c]
  {
    assert [c][1..] == "";
  }

  lemma JoinedCons(f: string, parts: seq<string>)
    requires parts != []
    ensures Joined([f] + parts) == f + "," + Joined(parts)
  {
    assert ([f] + parts)[1..] == parts;
  }

  lemma UnquotedAfter(field: string, c: char, s: string)
    requires s != "" && s[0] == c
    ensures Unquoted(field + s) == Unquoted(field + [c] + s[1..])
    ensures c == '"' ==> Unquoted(field + s) == Unquoted(field + s[1..])
  {
    hide Unquoted;
    assert field + s == field + [c] + s[1..] && [c] + s[1..] == s;
    UnquotedConcat(field, s);
    UnquotedConcat([c], s[1..]);
    UnquotedOne(c);
    UnquotedConcat(field, s[1..]);
    assert c == '"' ==> Unquoted(s) == Unquoted(s[1..]);
  }

  /** Every character but quotes is kept, in order, as text of a field or as a separator between two. */
  lemma {:induction false} RowKeeps(s: string, field: string, quoted: bool)
    ensures Unquoted(Joined(Row(s, field, quoted))) == Unquoted(field + s)
    decreases |s|
  {
    hide Row, Unquoted, Joined;
    if s == "" {
      RowEnd(field, quoted);
      JoinedOne(field);
      assert field + s == field;
    } else {
      RowStep(s, field, quoted);
      UnquotedAfter(field, s[0], s);
      if s[0] == '"' {
        if !quoted {
          RowKeeps(s[1..], if field != "" then field + "\"" else field, field == "");
        } else if |s| > 1 && s[1] == '"' {
          UnquotedAfter(field + "\"", s[1], s[1..]);
          assert s[1..][1..] == s[2..];
          RowKeeps(s[2..], field + "\"", true);
        } else {
          RowKeeps(s[1..], field, false);
        }
      } else if s[0] == ',' && !quoted {
        RowKeeps(s[1..], "", false);
        var r := Row(s[1..], "", false);
        JoinedCons(field, r);
        UnquotedConcat(field + ",", Joined(r));
        UnquotedConcat(field + ",", s[1..]);
        assert "" + s[1..] == s[1..];
      } else {
        RowKeeps(s[1..], field + [s[0]], quoted);
      }
    }
  }

  lemma JoinedOne(f: string)
    ensures Joined([f]) == f
  {
  }

  lemma ParseKeeps(s: string)
    ensures Unquoted(Joined(Parse(s))) == Unquoted(s)
  {
    hide Row, Unquoted, Joined;
    RowKeeps(s, "", false);
    assert "" + s == s;
  }

  function Commas(s: string): nat {
    if s == "" then 0 else (if s[0] == ',' then 1 else 0) + Commas(s[1..])
  }

  function AllCommas(parts: seq<string>): nat {
    if parts == [] then 0 else Commas(parts[0]) + AllCommas(parts[1..])
  }

  lemma {:induction false} CommasConcat(a: string, b: string)
    ensures Commas(a + b) == Commas(a) + Commas(b)
    decreases a
  {
    if a == "" {
      assert a + b == b;
    } else {
      assert (a + b)[1..] == a[1..] + b;
      CommasConcat(a[1..], b);
    }
  }

  lemma {:induction false} CommasUnquoted(s: string)
    ensures Commas(Unquoted(s)) == Commas(s)
  {
    if s != "" {
      CommasUnquoted(s[1..]);
      CommasConcat(if s[0] == '"' then "" else [s[0]], Unquoted(s[1..]));
      assert [s[0]][1..] == "";
    }
  }

  lemma {:induction false} CommasJoined(parts: seq<string>)
    requires parts != []
    ensures Commas(Joined(parts)) == AllCommas(parts) + |parts| - 1
    decreases parts
  {
    hide Commas;
    if |parts| == 1 {
      assert AllCommas(parts[1..]) == 0;
    } else {
      CommasJoined(parts[1..]);
      CommasConcat(parts[0] + ",", Joined(parts[1..]));
      CommasConcat(parts[0], ",");
      assert Commas(",") == 1 by { OneComma(); }
    }
  }

  lemma OneComma()
    ensures Commas(",") == 1
  {
    assert ","[1..] == "";
  }

  /** One field more than there are commas that no field kept. */
  lemma FieldCount(s: string)
    ensures |Parse(s)| == 1 + Commas(s) - AllCommas(Parse(s))
  {
    hide Row, Unquoted, Joined, Commas, AllCommas;
    ParseKeeps(s);
    CommasUnquoted(s);
    CommasUnquoted(Joined(Parse(s)));
    CommasJoined(Parse(s));
  }

  // ---------- separators ----------

  /** The commas outside quotes, read without building any field: a quote opens only where the field is still
      empty, and of two quotes inside quotes neither closes.
   */
  function Outside(s: string, fieldEmpty: bool, quoted: bool): nat
    decreases |s|
  {
    if s == "" then 0
    else if s[0] == ',' && !quoted then 1 + Outside(s[1..], true, false)
    else if s[0] != '"' then Outside(s[1..], false, quoted)
    else if !quoted then Outside(s[1..], fieldEmpty, fieldEmpty)
    else if |s| > 1 && s[1] == '"' then Outside(s[2..], false, true)
    else Outside(s[1..], fieldEmpty, false)
  }

  lemma {:induction false} RowCount(s: string, field: string, quoted: bool)
    ensures |Row(s, field, quoted)| == 1 + Outside(s, field == "", quoted)
    decreases |s|
  {
    hide Row;
    if s == "" {
      RowEnd(field, quoted);
    } else {
      RowStep(s, field, quoted);
      if s[0] == '"' {
        if !quoted {
          RowCount(s[1..], if field != "" then field + "\"" else field, field == "");
        } else if |s| > 1 && s[1] == '"' {
          RowCount(s[2..], field + "\"", true);
        } else {
          RowCount(s[1..], field, false);
        }
      } else if s[0] == ',' && !quoted {
        RowCount(s[1..], "", false);
      } else {
        RowCount(s[1..], field + [s[0]], quoted);
      }
    }
  }

  /** For any input there is one field more than there are commas outside quotes. */
  lemma OneFieldPerSeparator(s: string)
    ensures |Parse(s)| == 1 + Outside(s, true, false)
  {
    hide Row, Outside;
    RowCount(s, "", false);
  }

  // ---------- when quotes are needed ----------

  function Total(parts: seq<string>): nat {
    if parts == [] then 0 else |parts[0]| + Total(parts[1..])
  }

  lemma {:induction false} RowShrinks(s: string, field: string, quoted: bool)
    ensures Total(Row(s, field, quoted)) <= |field| + |s|
    decreases |s|
  {
    hide Row;
    if s == "" {
      RowEnd(field, quoted);
      assert Total([field][1..]) == 0;
    } else {
      RowStep(s, field, quoted);
      if s[0] == '"' {
        if !quoted {
          RowShrinks(s[1..], if field != "" then field + "\"" else field, field == "");
        } else if |s| > 1 && s[1] == '"' {
          RowShrinks(s[2..], field + "\"", true);
        } else {
          RowShrinks(s[1..], field, false);
        }
      } else if s[0] == ',' && !quoted {
        RowShrinks(s[1..], "", false);
        var r := Row(s[1..], "", false);
        assert ([field] + r)[1..] == r;
      } else {
        RowShrinks(s[1..], field + [s[0]], quoted);
      }
    }
  }

  lemma FirstComma(f: string) returns (k: nat)
    requires ',' in f
    ensures k < |f| && f[k] == ',' && ',' !in f[..k]
  {
    k := 0;
    while f[k] != ','
      invariant k < |f| && ',' !in f[..k] && exists j :: k <= j < |f| && f[j] == ','
      decreases |f| - k
    {
      k := k + 1;
    }
  }

  /** A field survives without quotes exactly when it holds no comma and does not begin with a quote. */
  lemma PlainReads(f: string)
    ensures Parse(f) == [f] <==> PlainOk(f)
  {
    hide Row;
    assert f + "" == f && "" + f == f;
    RowEnd(f, false);
    if PlainOk(f) {
      ReadPlain(f, "", "");
    } else if f != "" && f[0] == '"' {
      RowStep(f, "", false);
      RowShrinks(f[1..], "", true);
      assert Total([f]) == |f| by { assert [f][1..] == []; }
    } else {
      var k := FirstComma(f);
      var rest := f[k..];
      assert f == f[..k] + rest;
      ReadPlain(f[..k], rest, "");
      RowStep(rest, "" + f[..k], false);
      assert |Parse(f)| >= 2;
    }
  }

  // ---------- rows not written by the rules ----------

  /** Text behind a closed quoted field belongs to it, quotes and all. */
  lemma TextBehindQuotes(f: string, g: string)
    requires f != "" && ',' !in g && (g == "" || g[0] != '"')
    ensures Parse("\"" + Doubled(f) + "\"" + g) == [f + g]
  {
    hide Row, Doubled;
    var body := Doubled(f) + "\"" + g;
    assert "\"" + Doubled(f) + "\"" + g == "\"" + body;
    OpenQuote(body);
    ReadDoubled(f, g, "");
    assert "" + f == f && g + "" == g;
    ReadPlain(g, "", f);
    RowEnd(f + g, false);
  }

  /** Behind an empty quoted field the field begins anew. */
  lemma TextBehindEmpty(g: string)
    requires g == "" || g[0] != '"'
    ensures Parse("\"\"" + g) == Parse(g)
  {
    hide Row;
    var s := "\"\"" + g;
    assert s[1..] == "\"" + g && ("\"" + g)[1..] == g;
    RowStep(s, "", false);
    RowStep("\"" + g, "", true);
  }

  /** A quoted field that is not closed goes to the end. */
  lemma UnclosedQuotes(f: string)
    ensures Parse("\"" + Doubled(f)) == [f]
  {
    hide Row, Doubled;
    OpenQuote(Doubled(f));
    UnclosedRead(f, "");
    assert "" + f == f;
  }

  lemma OpenQuote(body: string)
    ensures Parse("\"" + body) == Row(body, "", true)
  {
    hide Row;
    var s := "\"" + body;
    assert s[1..] == body;
    RowStep(s, "", false);
  }

  lemma {:induction false} UnclosedRead(f: string, field: string)
    ensures Row(Doubled(f), field, true) == [field + f]
    decreases f
  {
    hide Row;
    if f == "" {
      RowEnd(field, true);
      assert field + "" == field;
    } else {
      var rest := Doubled(f[1..]);
      RowStep(Doubled(f), field, true);
      if f[0] == '"' {
        assert Doubled(f)[2..] == rest;
        UnclosedRead(f[1..], field + "\"");
        assert field + "\"" + f[1..] == field + f;
      } else {
        assert Doubled(f)[1..] == rest && [f[0]] + rest == Doubled(f);
        if f[0] == ',' {
          UnclosedRead(f[1..], field + ",");
          assert field + "," + f[1..] == field + f;
        } else {
          UnclosedRead(f[1..], field + [f[0]]);
          assert field + [f[0]] + f[1..] == field + f;
        }
      }
    }
  }
}
