/**
 What `normalize_quotes_to_json` does to the meaning of a text: a single-quoted literal becomes
 the JSON string of the same characters, everything else stays as it is.
 */
module QuoteMeaning {
  import opened Wrappers
  import opened JsonText
  import opened JsonValue
  import opened QuoteNormalizer

  /**
   One character of a single-quoted literal: a double quote stands for itself, a single quote
   needs a backslash, and the other escapes are those of JSON.  (`\/` is none in Python.)
   */
  function ReadSingle(s: string): (g: Option<Got<char>>)
    ensures g.Some? ==> |g.value.rest| < |s|
  {
    if s == "" || s[0] == '\'' then None
    else if s[0] == '"' then Some(Got('"', s[1..]))
    else if s[0] == '\\' && |s| >= 2 && s[1] == '\'' then Some(Got('\'', s[2..]))
    else if s[0] == '\\' && |s| >= 2 && s[1] == '/' then None
    else ReadChar(s)
  }

  /** The characters up to the closing single quote. */
  function ReadSingles(s: string): (g: Option<Got<string>>)
    ensures g.Some? ==> |g.value.rest| < |s|
    decreases |s|
  {
    if s != "" && s[0] == '\'' then Some(Got("", s[1..]))
    else
      var c := ReadSingle(s);
      if c == None then None
      else
        var more := ReadSingles(c.value.rest);
        if more == None then None else Some(Got([c.value.value] + more.value.value, more.value.rest))
  }

  predicate IsPlain(mode: Mode, c: char) { c != '"' && c != '\'' && (c != '\\' || mode == Outside) }

  lemma PlainTurn(mode: Mode, s: string)
    requires s != "" && IsPlain(mode, s[0])
    ensures Normalized(mode, s) == [s[0]] + Normalized(mode, s[1..])
  {
    hide Normalized;
    Unfold(mode, s);
  }

  /** Characters other than quotes stay; so do backslashes outside strings. */
  lemma {:induction false} PlainStays(mode: Mode, p: string, more: string)
    requires forall i :: 0 <= i < |p| ==> IsPlain(mode, p[i])
    ensures Normalized(mode, p + more) == p + Normalized(mode, more)
    decreases |p|
  {
    hide Normalized, IsPlain;
    if p == "" {
      assert p + more == more;
    } else {
      PlainTurn(mode, p + more);
      assert (p + more)[1..] == p[1..] + more;
      PlainStays(mode, p[1..], more);
      Cons(p, Normalized(mode, more));
    }
  }

  lemma Cons(p: string, x: string)
    requires p != ""
    ensures [p[0]] + (p[1..] + x) == p + x
  {
  }

  /** One character of a single-quoted literal becomes the same character of a JSON string. */
  lemma CharMeans(s: string)
    requires ReadSingle(s).Some?
    ensures var c := ReadSingle(s).value;
            ReadChar(Normalized(Single, s)) == Some(Got(c.value, Normalized(Single, c.rest)))
    ensures Normalized(Single, s) != "" && Normalized(Single, s)[0] != '"'
  {
    hide Normalized;
    if s[0] == '\\' && s[1] == 'u' {
      HexMeans(s);
    } else {
      ShortMeans(s);
    }
  }

  lemma ShortMeans(s: string)
    requires ReadSingle(s).Some? && !(s[0] == '\\' && s[1] == 'u')
    ensures var c := ReadSingle(s).value;
            ReadChar(Normalized(Single, s)) == Some(Got(c.value, Normalized(Single, c.rest)))
    ensures Normalized(Single, s) != "" && Normalized(Single, s)[0] != '"'
  {
    hide Normalized, Take, ReadSingle, ReadChar;
    Unfold(Single, s);
    var t := Take(Single, s);
    ShortTaken(s);
    ShortReads(s, Normalized(t.mode, s[t.used..]));
    assert (t.out + Normalized(t.mode, s[t.used..]))[0] == t.out[0];
  }

  lemma ShortTaken(s: string)
    requires ReadSingle(s).Some? && !(s[0] == '\\' && s[1] == 'u')
    ensures s != "" && var t := Take(Single, s);
            t.mode == Single && s[t.used..] == ReadSingle(s).value.rest && t.out[0] != '"'
  {
  }

  lemma ShortReads(s: string, x: string)
    requires ReadSingle(s).Some? && !(s[0] == '\\' && s[1] == 'u')
    ensures s != "" && ReadChar(Take(Single, s).out + x) == Some(Got(ReadSingle(s).value.value, x))
  {
    var out := Take(Single, s).out;
    if s[0] == '\\' && s[1] != '\'' {
      PairReads(out, x);
      PairReads(s[..2], s[2..]);
      assert s == s[..2] + s[2..];
    } else if s[0] == '"' {
      PairReads(out, x);
    } else {
      assert (out + x)[0] == out[0] && (out + x)[1..] == x;
    }
  }

  /** What an escape of two characters means depends only on them. */
  lemma PairReads(e: string, x: string)
    requires |e| == 2 && e[0] == '\\' && e[1] != 'u'
    ensures ReadChar(e + x).Some? == ReadChar(e).Some?
    ensures ReadChar(e).Some? ==> ReadChar(e + x) == Some(Got(ReadChar(e).value.value, x))
  {
    assert (e + x)[0] == e[0] && (e + x)[1] == e[1] && (e + x)[2..] == x && e[2..] == "";
  }

  lemma HexReads4(e: string, x: string)
    requires |e| == 6 && e[0] == '\\' && e[1] == 'u'
    ensures ReadChar(e + x).Some? == ReadChar(e).Some?
    ensures ReadChar(e).Some? ==> ReadChar(e + x) == Some(Got(ReadChar(e).value.value, x))
  {
    var s := e + x;
    assert s[0] == e[0] && s[1] == e[1] && s[6..] == x && e[6..] == "";
    assert s[2..][0] == e[2] && s[2..][1] == e[3] && s[2..][2] == e[4] && s[2..][3] == e[5];
    assert e[2..][0] == e[2] && e[2..][1] == e[3] && e[2..][2] == e[4] && e[2..][3] == e[5];
    assert Hex4(s[2..]) == Hex4(e[2..]);
  }

  lemma HexIsPlain(s: string)
    requires |s| >= 2 && s[0] == '\\' && s[1] == 'u' && ReadChar(s).Some?
    ensures |s| >= 6 && ReadChar(s).value.rest == s[6..]
    ensures forall i :: 0 <= i < 4 ==> IsPlain(Single, s[2..6][i])
  {
    var d := s[2..];
    assert Hex4(d) >= 0;
    assert HexValue(d[0]) >= 0 && HexValue(d[1]) >= 0 && HexValue(d[2]) >= 0 && HexValue(d[3]) >= 0;
    assert s[2..6] == d[..4];
  }

  lemma HexMeans(s: string)
    requires |s| >= 2 && s[0] == '\\' && s[1] == 'u' && ReadChar(s).Some?
    ensures var c := ReadChar(s).value;
            ReadChar(Normalized(Single, s)) == Some(Got(c.value, Normalized(Single, c.rest)))
    ensures Normalized(Single, s) != "" && Normalized(Single, s)[0] != '"'
  {
    hide Normalized, ReadChar;
    HexIsPlain(s);
    Unfold(Single, s);
    assert Take(Single, s) == Turn("\\u", 2, Single);
    hide Take;
    var e, rest := s[..6], s[6..];
    assert s == e + rest && s[2..] == s[2..6] + rest;
    PlainStays(Single, s[2..6], rest);
    HexReads4(e, rest);
    HexReads4(e, Normalized(Single, rest));
    assert "\\u" + (s[2..6] + Normalized(Single, rest)) == e + Normalized(Single, rest);
  }

  /** A single-quoted literal becomes the JSON string of the same characters; what follows is converted by itself. */
  lemma {:induction false} SinglesMean(s: string)
    requires ReadSingles(s).Some?
    ensures var l := ReadSingles(s).value;
            ReadChars(Normalized(Single, s)) == Some(Got(l.value, Normalized(Outside, l.rest)))
    decreases |s|
  {
    if s != "" && s[0] == '\'' {
      Unfold(Single, s);
      assert Take(Single, s) == Turn("\"", 1, Outside);
      QuoteEnds(Normalized(Outside, s[1..]));
    } else {
      var c := ReadSingle(s).value;
      CharMeans(s);
      SinglesMean(c.rest);
      hide ReadSingle, ReadChar, Normalized;
    }
  }

  lemma SingleMeans(s: string)
    requires ReadSingles(s).Some?
    ensures var l := ReadSingles(s).value;
            ReadString(Normalized(Outside, "'" + s)) == Some(Got(l.value, Normalized(Outside, l.rest)))
  {
    Unfold(Outside, "'" + s);
    assert Take(Outside, "'" + s) == Turn("\"", 1, Single);
    SinglesMean(s);
    hide Take, Normalized, ReadSingles, ReadChars;
    assert ("'" + s)[1..] == s;
    assert ("\"" + Normalized(Single, s))[1..] == Normalized(Single, s);
  }

  // ----- the literal of a text

  /** A character in a single-quoted literal; `both`: double quotes are escaped as well. */
  function Spelled(c: char, both: bool): (e: string)
    ensures e != ""
  {
    if c == '\'' then "\\'" else if c == '"' && !both then "\"" else EscapeChar(c)
  }

  function Literal(t: string, both: bool): string {
    if t == "" then "" else Spelled(t[0], both) + Literal(t[1..], both)
  }

  lemma SpelledReads(c: char, both: bool, rest: string)
    ensures ReadSingle(Spelled(c, both) + rest) == Some(Got(c, rest))
    ensures (Spelled(c, both) + rest)[0] != '\''
  {
    CharReads(c, rest);
    var e := Spelled(c, both);
    assert (e + rest)[|e|..] == rest;
  }

  lemma {:induction false} LiteralReads(t: string, both: bool, rest: string)
    ensures ReadSingles(Literal(t, both) + "'" + rest) == Some(Got(t, rest))
  {
    hide Spelled, ReadSingle;
    if t == "" {
      assert Literal(t, both) + "'" + rest == "'" + rest;
      assert ("'" + rest)[1..] == rest;
    } else {
      var more := Literal(t[1..], both) + "'" + rest;
      assert Literal(t, both) + "'" + rest == Spelled(t[0], both) + more;
      SpelledReads(t[0], both, more);
      LiteralReads(t[1..], both, rest);
      hide Literal;
      assert [t[0]] + t[1..] == t;
    }
  }

  /** Whatever the text: its single-quoted literal becomes a JSON string that reads as the text. */
  lemma LiteralMeans(t: string, both: bool, rest: string)
    ensures ReadString(Normalized(Outside, "'" + (Literal(t, both) + "'" + rest))) == Some(Got(t, Normalized(Outside, rest)))
  {
    hide *;
    LiteralReads(t, both, rest);
    SingleMeans(Literal(t, both) + "'" + rest);
  }

  // ----- double-quoted literals, and JSON

  /** The inside of a double-quoted literal: no bare double quote, and every backslash has its partner. */
  predicate Inside(body: string)
    decreases |body|
  {
    body == "" ||
    (if body[0] == '\\' then |body| >= 2 && Inside(body[2..]) else body[0] != '"' && Inside(body[1..]))
  }

  lemma InsideTurn(s: string)
    requires s != "" && s[0] != '"' && (s[0] == '\\' ==> |s| >= 2)
    ensures var n := if s[0] == '\\' then 2 else 1;
            Normalized(Double, s) == s[..n] + Normalized(Double, s[n..])
  {
    hide Normalized;
    Unfold(Double, s);
  }

  lemma {:induction false} InsideStays(body: string, more: string)
    requires Inside(body)
    ensures Normalized(Double, body + more) == body + Normalized(Double, more)
    decreases |body|
  {
    hide Normalized;
    if body == "" {
      assert body + more == more;
    } else {
      var n := if body[0] == '\\' then 2 else 1;
      InsideTurn(body + more);
      Parts(body, n, more);
      InsideStays(body[n..], more);
      Parts(body, n, Normalized(Double, more));
    }
  }

  lemma Parts(body: string, n: nat, x: string)
    requires n <= |body|
    ensures (body + x)[n..] == body[n..] + x && (body + x)[..n] == body[..n]
    ensures body[..n] + (body[n..] + x) == body + x
  {
  }

  lemma Delimiters(x: string)
    ensures Normalized(Outside, "\"" + x) == "\"" + Normalized(Double, x)
    ensures Normalized(Double, "\"" + x) == "\"" + Normalized(Outside, x)
  {
    hide Normalized;
    Unfold(Outside, "\"" + x);
    Unfold(Double, "\"" + x);
    assert ("\"" + x)[1..] == x;
  }

  /** A double-quoted literal stays as it is. */
  lemma DoubleStays(body: string, rest: string)
    requires Inside(body)
    ensures Normalized(Outside, "\"" + (body + "\"" + rest)) == "\"" + (body + "\"" + Normalized(Outside, rest))
  {
    hide *;
    Delimiters(body + "\"" + rest);
    assert body + "\"" + rest == body + ("\"" + rest);
    InsideStays(body, "\"" + rest);
    Delimiters(rest);
    assert body + ("\"" + Normalized(Outside, rest)) == body + "\"" + Normalized(Outside, rest);
  }

  lemma {:induction false} EscapeIsInside(t: string, more: string)
    requires Inside(more)
    ensures Inside(Escape(t) + more)
  {
    if t == "" {
      assert Escape(t) + more == more;
    } else {
      EscapeIsInside(t[1..], more);
      assert Escape(t) + more == EscapeChar(t[0]) + (Escape(t[1..]) + more);
      OneIsInside(t[0], Escape(t[1..]) + more);
    }
  }

  lemma OneIsInside(c: char, more: string)
    requires Inside(more)
    ensures Inside(EscapeChar(c) + more)
  {
    var e := EscapeChar(c);
    assert (e + more)[0] == e[0];
    if |e| == 6 {
      HexPlain(c as int / 16);
      HexPlain(c as int % 16);
      var hex := e[2..];
      assert (e + more)[2..] == hex + more;
      assert e[0] == '\\' && hex[0] == '0' && hex[1] == '0';
      PlainIsInside(hex, more);
    } else if |e| == 2 {
      assert (e + more)[2..] == more;
      assert e[0] == '\\';
    } else {
      assert (e + more)[1..] == more;
      assert e[0] != '\\' && e[0] != '"';
    }
  }

  lemma {:induction false} PlainIsInside(p: string, more: string)
    requires Inside(more) && forall i :: 0 <= i < |p| ==> p[i] != '"' && p[i] != '\\'
    ensures Inside(p + more)
    decreases |p|
  {
    if p == "" {
      assert p + more == more;
    } else {
      assert (p + more)[1..] == p[1..] + more;
      PlainIsInside(p[1..], more);
    }
  }

  lemma QuotedStays(t: string, rest: string)
    ensures Normalized(Outside, Quoted(t) + rest) == Quoted(t) + Normalized(Outside, rest)
  {
    hide Normalized, Escape;
    EscapeIsInside(t, "");
    assert Escape(t) + "" == Escape(t);
    DoubleStays(Escape(t), rest);
    assert Quoted(t) + rest == "\"" + (Escape(t) + "\"" + rest);
    assert Quoted(t) + Normalized(Outside, rest) == "\"" + (Escape(t) + "\"" + Normalized(Outside, rest));
  }

  /** What is JSON already stays as it is. */
  lemma {:induction false} PrintStays(v: Json, rest: string)
    requires Worded(v)
    ensures Normalized(Outside, Print(v) + rest) == Print(v) + Normalized(Outside, rest)
    decreases v, Width(v) + 2
  {
    hide Normalized, Quoted, PrintItem, PrintItems;
    match v
    case Raw(t) =>
      PlainStays(Outside, t, rest);
    case Text(t) =>
      QuotedStays(t, rest);
    case List(es) =>
      ItemsStay(v, 0, "]" + rest);
      Bracketed("[", PrintItems(v, 0), "]", rest);
    case Record(ms) =>
      ItemsStay(v, 0, "}" + rest);
      Bracketed("{", PrintItems(v, 0), "}", rest);
  }

  lemma Bracketed(open: string, items: string, close: string, rest: string)
    requires Normalized(Outside, items + (close + rest)) == items + Normalized(Outside, close + rest)
    requires |open| == |close| == 1 && open[0] in "[{" && close[0] in "]}"
    ensures Normalized(Outside, open + items + close + rest) == open + items + close + Normalized(Outside, rest)
  {
    hide Normalized;
    assert open + items + close + rest == open + (items + (close + rest));
    PlainStays(Outside, open, items + (close + rest));
    PlainStays(Outside, close, rest);
    assert open + (items + (close + Normalized(Outside, rest))) == open + items + close + Normalized(Outside, rest);
  }

  lemma {:induction false} ItemsStay(v: Json, i: nat, rest: string)
    requires Worded(v) && (v.List? || v.Record?) && i <= Width(v)
    ensures Normalized(Outside, PrintItems(v, i) + rest) == PrintItems(v, i) + Normalized(Outside, rest)
    decreases v, Width(v) - i + 1
  {
    hide Normalized, Quoted, PrintItem, Print, Worded;
    if i == Width(v) {
      assert "" + rest == rest;
    } else {
      var comma, item, more := if i > 0 then "," else "", PrintItem(v, i), PrintItems(v, i + 1);
      assert comma + item + more + rest == comma + (item + (more + rest));
      PlainStays(Outside, comma, item + (more + rest));
      ItemStays(v, i, more + rest);
      ItemsStay(v, i + 1, rest);
      assert comma + (item + (more + Normalized(Outside, rest))) == comma + item + more + Normalized(Outside, rest);
    }
  }

  lemma {:induction false} ItemStays(v: Json, i: nat, rest: string)
    requires Worded(v) && (v.List? || v.Record?) && i < Width(v)
    ensures Normalized(Outside, PrintItem(v, i) + rest) == PrintItem(v, i) + Normalized(Outside, rest)
    decreases v, 0
  {
    hide Normalized, Quoted, Print, Worded;
    ElementWorded(v, i);
    if v.List? {
      PrintStays(v.elements[i], rest);
    } else {
      var key, value := Quoted(v.members[i].key), Print(v.members[i].value);
      assert key + ":" + value + rest == key + (":" + (value + rest));
      QuotedStays(v.members[i].key, ":" + (value + rest));
      PlainStays(Outside, ":", value + rest);
      PrintStays(v.members[i].value, rest);
      assert key + (":" + (value + Normalized(Outside, rest))) == key + ":" + value + Normalized(Outside, rest);
    }
  }

  // ----- a whole text

  datatype Piece =
    | Between(text: string)             // outside strings: no quotes
    | SingleQuoted(body: string)        // with the closing quote
    | DoubleQuoted(body: string)        // without it

  predicate Proper(p: Piece) {
    match p
    case Between(text) => forall i :: 0 <= i < |text| ==> IsPlain(Outside, text[i])
    case SingleQuoted(body) => ReadSingles(body).Some? && ReadSingles(body).value.rest == ""
    case DoubleQuoted(body) => Inside(body)
  }

  function Source(ps: seq<Piece>): string {
    if ps == [] then ""
    else
      (match ps[0]
       case Between(text) => text
       case SingleQuoted(body) => "'" + body
       case DoubleQuoted(body) => "\"" + body + "\"") + Source(ps[1..])
  }

  /** `out` is made of the same pieces, with a JSON string of the same characters for each single-quoted literal. */
  ghost predicate Means(ps: seq<Piece>, out: string)
    requires forall p :: p in ps ==> Proper(p)
  {
    if ps == [] then out == ""
    else
      assert Proper(ps[0]);
      match ps[0]
      case Between(text) => text <= out && Means(ps[1..], out[|text|..])
      case SingleQuoted(body) =>
        var read := ReadString(out);
        read.Some? && read.value.value == ReadSingles(body).value.value && Means(ps[1..], read.value.rest)
      case DoubleQuoted(body) =>
        var same := "\"" + body + "\"";
        same <= out && Means(ps[1..], out[|same|..])
  }

  lemma {:induction false} SinglesAppend(s: string, more: string)
    requires ReadSingles(s).Some?
    ensures var l := ReadSingles(s).value;
            ReadSingles(s + more) == Some(Got(l.value, l.rest + more))
    decreases |s|
  {
    if s[0] == '\'' {
      assert (s + more)[1..] == s[1..] + more;
    } else {
      var c := ReadSingle(s).value;
      SingleAppend(s, more);
      SinglesAppend(c.rest, more);
      assert (s + more)[0] == s[0];
      hide ReadSingle;
    }
  }

  lemma SingleAppend(s: string, more: string)
    requires ReadSingle(s).Some?
    ensures var c := ReadSingle(s).value;
            ReadSingle(s + more) == Some(Got(c.value, c.rest + more))
  {
    var x := s + more;
    assert x[0] == s[0] && x[1..] == s[1..] + more;
    if |s| >= 2 {
      assert x[1] == s[1] && x[2..] == s[2..] + more;
    }
    if |s| >= 6 {
      assert forall i :: 0 <= i < 4 ==> x[2..][i] == s[2..][i];
      assert x[6..] == s[6..] + more;
    }
  }

  lemma BetweenMeans(text: string, more: string)
    requires Proper(Between(text))
    ensures var out := Normalized(Outside, text + more);
            text <= out && out[|text|..] == Normalized(Outside, more)
  {
    hide Normalized;
    PlainStays(Outside, text, more);
  }

  lemma SingleQuotedMeans(body: string, more: string)
    requires Proper(SingleQuoted(body))
    ensures ReadString(Normalized(Outside, "'" + body + more)) == Some(Got(ReadSingles(body).value.value, Normalized(Outside, more)))
  {
    hide Normalized, ReadSingles, ReadString;
    SinglesAppend(body, more);
    assert "" + more == more;
    SingleMeans(body + more);
    assert "'" + body + more == "'" + (body + more);
  }

  lemma DoubleQuotedMeans(body: string, more: string)
    requires Proper(DoubleQuoted(body))
    ensures var same := "\"" + body + "\"";
            var out := Normalized(Outside, same + more);
            same <= out && out[|same|..] == Normalized(Outside, more)
  {
    hide Normalized, Inside;
    var same := "\"" + body + "\"";
    DoubleStays(body, more);
    assert same + more == "\"" + (body + "\"" + more);
    assert same + Normalized(Outside, more) == "\"" + (body + "\"" + Normalized(Outside, more));
  }

  /** The converted text means what the text meant, literal by literal. */
  lemma {:induction false} MeaningKept(ps: seq<Piece>)
    requires forall p :: p in ps ==> Proper(p)
    ensures Means(ps, Normalized(Outside, Source(ps)))
  {
    hide Normalized, Inside, ReadSingles, ReadString, Proper;
    if ps == [] {
      NothingNormalized(Outside);
    } else {
      var more := Source(ps[1..]);
      MeaningKept(ps[1..]);
      assert Proper(ps[0]);
      match ps[0]
      case Between(text) =>
        BetweenMeans(text, more);
      case SingleQuoted(body) =>
        SingleQuotedMeans(body, more);
      case DoubleQuoted(body) =>
        DoubleQuotedMeans(body, more);
    }
  }

  /** `{'msg': 'He said "hi"'}` */
  lemma DoubleInSingle()
    ensures Normalized(Outside, "'" + ("He said \"hi\"" + "'" + "}")) == "\"" + ("He said \\\"hi\\\"" + "\"" + "}")
  {
    hide Normalized, Take;
    var s := "He said \"hi\"" + "'" + "}";
    OneQuote("}");
    TwoTurns(s);
    assert ("'" + s)[1..] == s;
    assert s == "He said " + ("\"" + ("hi" + ("\"" + ("'" + "}"))));
    PlainStays(Single, "He said ", "\"" + ("hi" + ("\"" + ("'" + "}"))));
    QuoteInside("hi" + ("\"" + ("'" + "}")));
    PlainStays(Single, "hi", "\"" + ("'" + "}"));
    QuoteInside("'" + "}");
    assert "\"" + ("He said " + ("\\\"" + ("hi" + ("\\\"" + ("\"" + "}"))))) == "\"" + ("He said \\\"hi\\\"" + "\"" + "}");
  }

  lemma TwoTurns(s: string)
    ensures Normalized(Outside, "'" + s) == "\"" + Normalized(Single, s)
  {
    Unfold(Outside, "'" + s);
    assert ("'" + s)[1..] == s;
  }

  lemma QuoteInside(more: string)
    ensures Normalized(Single, "\"" + more) == "\\\"" + Normalized(Single, more)
  {
    Unfold(Single, "\"" + more);
    assert ("\"" + more)[1..] == more;
  }

  lemma OneQuote(more: string)
    requires more == "}"
    ensures Normalized(Single, "'" + more) == "\"" + more
  {
    Unfold(Single, "'" + more);
    assert ("'" + more)[1..] == more;
    PlainStays(Outside, more, "");
    assert more + "" == more;
  }
}
