/**
 `parse_csv_row`: fields separated by commas, optionally in double quotes with inner
 quotes doubled (RFC 4180, section 2).
 */
module CsvRow {
  import opened Sequences

  /** The fields of the rest of a row, with the field under way and whether it is inside quotes. */
  function Parsed(s: string, field: string, inQuotes: bool): (fields: seq<string>)
    ensures fields != []
    decreases |s|
  {
    if s == "" then [field]
    else if s[0] == '"' then
      if !inQuotes then (if field != "" then Parsed(s[1..], field + "\"", false) else Parsed(s[1..], field, true))
      else if |s| > 1 && s[1] == '"' then Parsed(s[2..], field + "\"", true)
      else Parsed(s[1..], field, false)
    else if s[0] == ',' && !inQuotes then [field] + Parsed(s[1..], "", false)
    else Parsed(s[1..], field + [s[0]], inQuotes)
  }

  method ParseCsvRow(input: string) returns (fields: seq<string>)
    ensures fields == Parsed(input, "", false)
  {
    fields := [];
    var field, inQuotes, i := "", false, 0;
    while i < |input|
      invariant i <= |input|
      invariant fields + Parsed(input[i..], field, inQuotes) == Parsed(input, "", false)
    {
      var ch := input[i];
      assert input[i..][1..] == input[i + 1..];
      if ch == '"' {
        if !inQuotes {
          if field != "" {
            field := field + "\"";
          } else {
            inQuotes := true;
          }
        } else if i + 1 < |input| && input[i + 1] == '"' {
          assert input[i..][2..] == input[i + 2..];
          field := field + "\"";
          i := i + 1;
        } else {
          inQuotes := false;
        }
      } else if ch == ',' {
        if inQuotes {
          field := field + ",";
        } else {
          Assoc(fields, [field], Parsed(input[i + 1..], "", false));
          fields := fields + [field];
          field := "";
        }
      } else {
        field := field + [ch];
      }
      i := i + 1;
    }
    fields := fields + [field];
  }

  // ----- writing a row

  /** A field as it is written: in quotes, or as it stands. */
  datatype Field = Quoted(text: string) | Bare(text: string)

  /** Without quotes a text must have no comma and not begin with a quote; a later quote is taken literally. */
  predicate CanBeBare(t: string) { ',' !in t && (t == "" || t[0] != '"') }

  predicate Writable(f: Field) { f.Bare? ==> CanBeBare(f.text) }

  function Doubled(t: string): string {
    if t == "" then "" else (if t[0] == '"' then "\"\"" else [t[0]]) + Doubled(t[1..])
  }

  function Written(f: Field): string { if f.Bare? then f.text else "\"" + Doubled(f.text) + "\"" }

  function Row(fields: seq<Field>): string
    requires fields != []
  {
    if |fields| == 1 then Written(fields[0]) else Written(fields[0]) + "," + Row(fields[1..])
  }

  function Texts(fields: seq<Field>): seq<string> {
    if fields == [] then [] else [fields[0].text] + Texts(fields[1..])
  }

  predicate Ends(rest: string) { rest == "" || rest[0] == ',' }

  /** The inside of a quoted field, and its closing quote. */
  lemma {:induction false} ReadsQuoted(t: string, rest: string, field: string)
    requires Ends(rest)
    ensures Parsed(Doubled(t) + ("\"" + rest), field, true) == Parsed(rest, field + t, false)
    decreases |t|
  {
    var s := Doubled(t) + ("\"" + rest);
    if t == "" {
      assert s == "\"" + rest && s[1..] == rest && field + t == field;
    } else {
      var tail := Doubled(t[1..]) + ("\"" + rest);
      var first := if t[0] == '"' then "\"\"" else [t[0]];
      assert s == first + tail && s[|first|..] == tail;
      ReadsQuoted(t[1..], rest, field + [t[0]]);
      assert (field + [t[0]]) + t[1..] == field + t;
    }
  }

  lemma {:induction false} ReadsBare(t: string, rest: string, field: string)
    requires ',' !in t && (t == "" || t[0] != '"' || field != "")
    ensures Parsed(t + rest, field, false) == Parsed(rest, field + t, false)
    decreases |t|
  {
    if t == "" {
      assert t + rest == rest && field + t == field;
    } else {
      assert (t + rest)[1..] == t[1..] + rest && (t + rest)[0] == t[0];
      assert t[0] in t;
      ReadsBare(t[1..], rest, field + [t[0]]);
      assert (field + [t[0]]) + t[1..] == field + t;
    }
  }

  lemma ReadsField(f: Field, rest: string)
    requires Writable(f) && Ends(rest)
    ensures Parsed(Written(f) + rest, "", false) == Parsed(rest, f.text, false)
  {
    hide Parsed, Doubled;
    assert "" + f.text == f.text;
    if f.Bare? {
      ReadsBare(f.text, rest, "");
    } else {
      var inside := Doubled(f.text) + ("\"" + rest);
      assert Written(f) + rest == "\"" + inside;
      OpensQuotes(inside);
      ReadsQuoted(f.text, rest, "");
    }
  }

  lemma InsideStep(c: char, rest: string, field: string)
    ensures Parsed((if c == '"' then "\"\"" else [c]) + rest, field, true) == Parsed(rest, field + [c], true)
  {
    var first := if c == '"' then "\"\"" else [c];
    assert (first + rest)[|first|..] == rest;
  }

  /** Quotes that are never closed are closed by the end of the row. */
  lemma {:induction false} Unclosed(t: string, field: string)
    ensures Parsed(Doubled(t), field, true) == [field + t]
    decreases |t|
  {
    if t == "" {
      assert field + t == field;
    } else {
      hide Parsed;
      InsideStep(t[0], Doubled(t[1..]), field);
      Unclosed(t[1..], field + [t[0]]);
      assert (field + [t[0]]) + t[1..] == field + t;
    }
  }

  lemma OpensQuotes(inside: string)
    ensures Parsed("\"" + inside, "", false) == Parsed(inside, "", true)
  {
    assert ("\"" + inside)[1..] == inside;
  }

  /** Parsing undoes writing: every non-empty list of fields comes back. */
  lemma {:induction false} RowRoundTrip(fields: seq<Field>)
    requires fields != [] && forall f :: f in fields ==> Writable(f)
    ensures Parsed(Row(fields), "", false) == Texts(fields)
    decreases |fields|
  {
    hide Parsed, Written, Writable;
    var f := fields[0];
    if |fields| == 1 {
      ReadsField(f, "");
      RowEnds(f.text);
      assert Written(f) + "" == Written(f) && Texts(fields[1..]) == [];
    } else {
      var row := Row(fields[1..]);
      ReadsField(f, "," + row);
      CommaEnds(row, f.text);
      RowRoundTrip(fields[1..]);
      assert Row(fields) == Written(f) + ("," + row);
    }
  }

  lemma RowEnds(field: string)
    ensures Parsed("", field, false) == [field]
  {
  }

  lemma CommaEnds(row: string, field: string)
    ensures Parsed("," + row, field, false) == [field] + Parsed(row, "", false)
  {
    assert ("," + row)[1..] == row;
  }

  // ----- when quotes are needed

  function Size(fields: seq<string>): nat {
    if fields == [] then 0 else |fields[0]| + Size(fields[1..])
  }

  /** Parsing never makes characters: a comma or a quote read as such is gone. */
  lemma {:induction false} NothingAdded(s: string, field: string, inQuotes: bool)
    ensures Size(Parsed(s, field, inQuotes)) <= |field| + |s|
    decreases |s|
  {
    if s != "" {
      NothingAdded(s[1..], field, inQuotes);
      NothingAdded(s[1..], field + [s[0]], inQuotes);
      NothingAdded(s[1..], field, !inQuotes);
      NothingAdded(s[1..], "", false);
      if |s| > 1 {
        NothingAdded(s[2..], field + "\"", true);
      }
    }
  }

  lemma {:induction false} CommaSplits(s: string, field: string)
    requires ',' in s && (s[0] != '"' || field != "")
    ensures |Parsed(s, field, false)| > 1
    decreases |s|
  {
    if s[0] != ',' {
      CommaSplits(s[1..], field + [s[0]]);
    }
  }

  /** A text may stand without quotes exactly when it has no comma and does not begin with a quote. */
  lemma BareExactly(t: string)
    ensures Parsed(t, "", false) == [t] <==> CanBeBare(t)
  {
    if CanBeBare(t) {
      ReadsField(Bare(t), "");
      assert t + "" == t;
    } else if t[0] == '"' {
      NothingAdded(t[1..], "", true);
      assert Size([t]) == |t| + Size([t][1..]);
    } else {
      CommaSplits(t, "");
    }
  }
}
