/**
 JSON values (RFC 8259), without white space: printing them, and a reader that follows the
 grammar and knows nothing of the printer.
 */
module JsonValue {
  import opened Wrappers
  import opened JsonScan
  import opened JsonText

  /** `Raw` is a number, `true`, `false` or `null`, as a word. */
  datatype Json = Raw(text: string) | Text(text: string) | List(elements: seq<Json>) | Record(members: seq<Member>)
  datatype Member = Member(key: string, value: Json)

  // ----- the reader

  datatype Got<T> = Got(value: T, rest: string)

  function HexValue(c: char): int {
    if '0' <= c <= '9' then c as int - '0' as int
    else if 'a' <= c <= 'f' then c as int - 'a' as int + 10
    else if 'A' <= c <= 'F' then c as int - 'A' as int + 10
    else -1
  }

  /** The code of the four hexadecimal digits at the start of `s`, -1 without them. */
  function Hex4(s: string): int {
    if |s| < 4 || HexValue(s[0]) < 0 || HexValue(s[1]) < 0 || HexValue(s[2]) < 0 || HexValue(s[3]) < 0 then -1
    else 4096 * HexValue(s[0]) + 256 * HexValue(s[1]) + 16 * HexValue(s[2]) + HexValue(s[3])
  }

  /** One character of a string (section 7): itself, or an escape. A surrogate is not a character on its own, and pairs are not read. */
  function ReadChar(s: string): (g: Option<Got<char>>)
    ensures g.Some? ==> |g.value.rest| < |s| && g.value.rest == s[|s| - |g.value.rest|..]
  {
    if s == "" || s[0] == '"' || s[0] < ' ' then None
    else if s[0] != '\\' then Some(Got(s[0], s[1..]))
    else if |s| < 2 then None
    else if s[1] == 'u' then
      var n := Hex4(s[2..]);
      if 0 <= n < 0xd800 || 0xe000 <= n < 0x10000 then Some(Got(n as char, s[6..])) else None
    else if s[1] in "\"\\/" then Some(Got(s[1], s[2..]))
    else if s[1] == 'b' then Some(Got('\U{08}', s[2..]))
    else if s[1] == 'f' then Some(Got('\U{0c}', s[2..]))
    else if s[1] == 'n' then Some(Got('\n', s[2..]))
    else if s[1] == 'r' then Some(Got('\r', s[2..]))
    else if s[1] == 't' then Some(Got('\t', s[2..]))
    else None
  }

  /** The characters up to the closing quote. */
  function ReadChars(s: string): (g: Option<Got<string>>)
    ensures g.Some? ==> |g.value.rest| < |s| && g.value.rest == s[|s| - |g.value.rest|..]
    decreases |s|
  {
    if s != "" && s[0] == '"' then Some(Got("", s[1..]))
    else
      var c := ReadChar(s);
      if c == None then None
      else
        var more := ReadChars(c.value.rest);
        if more == None then None else Some(Got([c.value.value] + more.value.value, more.value.rest))
  }

  function ReadString(s: string): (g: Option<Got<string>>)
    ensures g.Some? ==> |g.value.rest| < |s|
  {
    if s == "" || s[0] != '"' then None else ReadChars(s[1..])
  }

  /** Numbers and literals are made of these. */
  predicate IsWordChar(c: char) { '0' <= c <= '9' || 'a' <= c <= 'z' || 'A' <= c <= 'Z' || c in "+-." }

  function WordLength(s: string): (n: nat)
    ensures n <= |s|
  {
    if s == "" || !IsWordChar(s[0]) then 0 else 1 + WordLength(s[1..])
  }

  function ReadValue(s: string): (g: Option<Got<Json>>)
    ensures g.Some? ==> |g.value.rest| < |s|
    decreases |s|, 2
  {
    if s == "" then None
    else if s[0] == '"' then
      var t := ReadString(s);
      if t == None then None else Some(Got(Text(t.value.value), t.value.rest))
    else if s[0] == '[' then
      if |s| > 1 && s[1] == ']' then Some(Got(List([]), s[2..]))
      else
        var es := ReadElements(s[1..]);
        if es == None then None else Some(Got(List(es.value.value), es.value.rest))
    else if s[0] == '{' then
      if |s| > 1 && s[1] == '}' then Some(Got(Record([]), s[2..]))
      else
        var ms := ReadMembers(s[1..]);
        if ms == None then None else Some(Got(Record(ms.value.value), ms.value.rest))
    else
      var n := WordLength(s);
      if n == 0 then None else Some(Got(Raw(s[..n]), s[n..]))
  }

  /** One element or more, up to the closing bracket. */
  function ReadElements(s: string): (g: Option<Got<seq<Json>>>)
    ensures g.Some? ==> |g.value.rest| < |s|
    decreases |s|, 3
  {
    var e := ReadValue(s);
    if e == None || e.value.rest == "" then None
    else if e.value.rest[0] == ']' then Some(Got([e.value.value], e.value.rest[1..]))
    else if e.value.rest[0] != ',' then None
    else
      var more := ReadElements(e.value.rest[1..]);
      if more == None then None else Some(Got([e.value.value] + more.value.value, more.value.rest))
  }

  function ReadMember(s: string): (g: Option<Got<Member>>)
    ensures g.Some? ==> |g.value.rest| < |s|
    decreases |s|, 2
  {
    var k := ReadString(s);
    if k == None || k.value.rest == "" || k.value.rest[0] != ':' then None
    else
      var v := ReadValue(k.value.rest[1..]);
      if v == None then None else Some(Got(Member(k.value.value, v.value.value), v.value.rest))
  }

  /** One member or more, up to the closing brace. */
  function ReadMembers(s: string): (g: Option<Got<seq<Member>>>)
    ensures g.Some? ==> |g.value.rest| < |s|
    decreases |s|, 3
  {
    var m := ReadMember(s);
    if m == None || m.value.rest == "" then None
    else if m.value.rest[0] == '}' then Some(Got([m.value.value], m.value.rest[1..]))
    else if m.value.rest[0] != ',' then None
    else
      var more := ReadMembers(m.value.rest[1..]);
      if more == None then None else Some(Got([m.value.value] + more.value.value, more.value.rest))
  }

  // ----- the printer

  function Width(v: Json): nat {
    match v
    case Raw(_) => 0
    case Text(_) => 0
    case List(es) => |es|
    case Record(ms) => |ms|
  }

  /** The JSON text of a value. */
  function Print(v: Json): string
    decreases v, Width(v) + 2
  {
    match v
    case Raw(t) => t
    case Text(t) => Quoted(t)
    case List(_) => "[" + PrintItems(v, 0) + "]"
    case Record(_) => "{" + PrintItems(v, 0) + "}"
  }

  function PrintItems(v: Json, i: nat): string
    requires (v.List? || v.Record?) && i <= Width(v)
    decreases v, Width(v) - i + 1
  {
    if i == Width(v) then ""
    else (if i > 0 then "," else "") + PrintItem(v, i) + PrintItems(v, i + 1)
  }

  function PrintItem(v: Json, i: nat): string
    requires (v.List? || v.Record?) && i < Width(v)
    decreases v, 0
  {
    if v.List? then Print(v.elements[i]) else Quoted(v.members[i].key) + ":" + Print(v.members[i].value)
  }

  // ----- reading what was printed

  predicate IsShort(c: char) { c in "\"\\" || c in "\U{08}\U{0c}\n\r\t" }

  lemma SixCharacters(e: string, rest: string)
    requires |e| == 6
    ensures (e + rest)[0] == e[0] && (e + rest)[1] == e[1] && (e + rest)[6..] == rest
    ensures |(e + rest)[2..]| >= 4 && forall i :: 0 <= i < 4 ==> (e + rest)[2..][i] == e[2 + i]
  {
  }

  lemma ControlEscape(c: char)
    requires c < ' ' && EscapeChar(c) == "\\u00" + [HexDigit(c as int / 16), HexDigit(c as int % 16)]
    ensures var e := EscapeChar(c);
            && |e| == 6 && e[0] == '\\' && e[1] == 'u' && e[2] == '0' && e[3] == '0'
            && e[4] == HexDigit(c as int / 16) && e[5] == HexDigit(c as int % 16)
  {
    hide EscapeChar, HexDigit;
    var u, hex := "\\u00", [HexDigit(c as int / 16), HexDigit(c as int % 16)];
    assert (u + hex)[4] == hex[0] && (u + hex)[5] == hex[1];
    assert forall i :: 0 <= i < 4 ==> (u + hex)[i] == u[i];
  }

  lemma ControlReads(c: char, rest: string)
    requires c < ' ' && EscapeChar(c) == "\\u00" + [HexDigit(c as int / 16), HexDigit(c as int % 16)]
    ensures ReadChar(EscapeChar(c) + rest) == Some(Got(c, rest))
    ensures EscapeChar(c) != "" && EscapeChar(c)[0] != '"'
  {
    ControlEscape(c);
    HexReads(c as int / 16);
    HexReads(c as int % 16);
    HexReads(0);
    hide EscapeChar, HexDigit;
    var e := EscapeChar(c);
    SixCharacters(e, rest);
    assert HexValue('0') == 0;
    assert Hex4((e + rest)[2..]) == 16 * (c as int / 16) + c as int % 16 == c as int;
  }

  /** An escaped character is read as that character. */
  lemma CharReads(c: char, rest: string)
    ensures ReadChar(EscapeChar(c) + rest) == Some(Got(c, rest))
    ensures EscapeChar(c) != "" && EscapeChar(c)[0] != '"'
  {
    if c < ' ' && !IsShort(c) {
      ControlReads(c, rest);
    } else {
      var e := EscapeChar(c);
      assert (e + rest)[0] == e[0] && (e + rest)[|e|..] == rest;
      assert |e| == 2 ==> (e + rest)[1] == e[1];
    }
  }

  lemma HexReads(n: int)
    requires 0 <= n < 16
    ensures HexValue(HexDigit(n)) == n
  {
  }

  lemma ConsReads(c: char, more: string, t: string, rest: string)
    requires ReadChars(more) == Some(Got(t, rest))
    ensures ReadChars(EscapeChar(c) + more) == Some(Got([c] + t, rest))
  {
    hide EscapeChar, ReadChar;
    CharReads(c, more);
    assert (EscapeChar(c) + more)[0] == EscapeChar(c)[0];
  }

  /** Reading an escaped text gives the text, whatever it is. */
  lemma {:induction false} EscapeReads(t: string, rest: string)
    ensures ReadChars(Escape(t) + "\"" + rest) == Some(Got(t, rest))
  {
    hide ReadChars, EscapeChar;
    if t == "" {
      assert Escape(t) + "\"" + rest == "\"" + rest;
      QuoteEnds(rest);
    } else {
      var more := Escape(t[1..]) + "\"" + rest;
      assert Escape(t) + "\"" + rest == EscapeChar(t[0]) + more;
      EscapeReads(t[1..], rest);
      ConsReads(t[0], more, t[1..], rest);
      assert [t[0]] + t[1..] == t;
    }
  }

  lemma QuoteEnds(rest: string)
    ensures ReadChars("\"" + rest) == Some(Got("", rest))
  {
    assert ("\"" + rest)[1..] == rest;
  }

  lemma QuotedReads(t: string, rest: string)
    ensures ReadString(Quoted(t) + rest) == Some(Got(t, rest))
    ensures (Quoted(t) + rest)[0] == '"'
  {
    hide ReadChars, Escape;
    EscapeReads(t, rest);
    assert (Quoted(t) + rest)[1..] == Escape(t) + "\"" + rest;
  }

  /** Words are words. */
  predicate Worded(v: Json)
    decreases v
  {
    match v
    case Raw(t) => t != "" && forall i :: 0 <= i < |t| ==> IsWordChar(t[i])
    case Text(_) => true
    case List(es) => forall e :: e in es ==> Worded(e)
    case Record(ms) => forall m :: m in ms ==> Worded(m.value)
  }

  predicate Ends(rest: string) { rest == "" || !IsWordChar(rest[0]) }

  lemma {:induction false} WordReads(t: string, rest: string)
    requires Ends(rest) && forall i :: 0 <= i < |t| ==> IsWordChar(t[i])
    ensures WordLength(t + rest) == |t|
  {
    if t == "" {
      assert t + rest == rest;
    } else {
      assert (t + rest)[1..] == t[1..] + rest;
      WordReads(t[1..], rest);
    }
  }

  lemma RawReads(t: string, rest: string)
    requires Worded(Raw(t)) && Ends(rest)
    ensures ReadValue(t + rest) == Some(Got(Raw(t), rest))
  {
    hide WordLength;
    WordReads(t, rest);
    assert (t + rest)[0] == t[0];
    assert (t + rest)[..|t|] == t && (t + rest)[|t|..] == rest;
  }

  lemma TextReads(t: string, rest: string)
    ensures ReadValue(Quoted(t) + rest) == Some(Got(Text(t), rest))
  {
    hide Quoted, ReadString;
    QuotedReads(t, rest);
  }

  lemma ListReads(es: seq<Json>, inner: string, rest: string)
    requires es == [] ==> inner == "]" + rest
    requires es != [] ==> inner != "" && inner[0] != ']' && ReadElements(inner) == Some(Got(es, rest))
    ensures ReadValue("[" + inner) == Some(Got(List(es), rest))
  {
    hide ReadElements;
    assert ("[" + inner)[1..] == inner;
    assert es == [] ==> ("[" + inner)[2..] == rest;
  }

  lemma RecordReads(ms: seq<Member>, inner: string, rest: string)
    requires ms == [] ==> inner == "}" + rest
    requires ms != [] ==> inner != "" && inner[0] != '}' && ReadMembers(inner) == Some(Got(ms, rest))
    ensures ReadValue("{" + inner) == Some(Got(Record(ms), rest))
  {
    hide ReadMembers;
    assert ("{" + inner)[1..] == inner;
    assert ms == [] ==> ("{" + inner)[2..] == rest;
  }

  /** What stands between the brackets. */
  function Inner(v: Json, close: string): string
    requires v.List? || v.Record?
  {
    if Width(v) == 0 then close else PrintItem(v, 0) + PrintItems(v, 1) + close
  }

  lemma PrintIs(v: Json, rest: string)
    requires v.List? || v.Record?
    ensures v.List? ==> Print(v) + rest == "[" + Inner(v, "]" + rest) && Print(v)[0] == '['
    ensures v.Record? ==> Print(v) + rest == "{" + Inner(v, "}" + rest) && Print(v)[0] == '{'
  {
    hide PrintItem;
    if Width(v) > 0 {
      assert PrintItems(v, 0) == "" + PrintItem(v, 0) + PrintItems(v, 1);
    }
  }

  lemma WholeList<T>(s: seq<T>)
    ensures s[0..] == s
  {
  }

  /** Reading what was printed gives the value, and leaves what comes behind it. */
  lemma {:induction false} PrintReads(v: Json, rest: string)
    requires Worded(v) && Ends(rest)
    ensures ReadValue(Print(v) + rest) == Some(Got(v, rest))
    ensures Print(v) != "" && Print(v)[0] !in "]}"
    decreases v, Width(v) + 2
  {
    hide Quoted, ReadValue, ReadElements, ReadMembers, PrintItem, PrintItems, Ends;
    match v
    case Raw(t) =>
      RawReads(t, rest);
    case Text(t) =>
      TextReads(t, rest);
      QuotedReads(t, "");
      assert Quoted(t) + "" == Quoted(t);
    case List(es) =>
      PrintIs(v, rest);
      if es != [] {
        ElementsRead(v, 0, rest);
        WholeList(es);
      }
      ListReads(es, Inner(v, "]" + rest), rest);
    case Record(ms) =>
      PrintIs(v, rest);
      if ms != [] {
        MembersRead(v, 0, rest);
        WholeList(ms);
      }
      RecordReads(ms, Inner(v, "}" + rest), rest);
  }

  lemma LastElement(s: string, e: Json, rest: string)
    requires ReadValue(s) == Some(Got(e, "]" + rest))
    ensures ReadElements(s) == Some(Got([e], rest))
  {
    hide ReadValue;
    assert ("]" + rest)[1..] == rest;
  }

  lemma NextElement(s: string, e: Json, next: string, es: seq<Json>, rest: string)
    requires ReadValue(s) == Some(Got(e, "," + next)) && ReadElements(next) == Some(Got(es, rest))
    ensures ReadElements(s) == Some(Got([e] + es, rest))
  {
    hide ReadValue;
    assert ("," + next)[1..] == next;
  }

  lemma LastMember(s: string, m: Member, rest: string)
    requires ReadMember(s) == Some(Got(m, "}" + rest))
    ensures ReadMembers(s) == Some(Got([m], rest))
  {
    hide ReadMember;
    assert ("}" + rest)[1..] == rest;
  }

  lemma NextMember(s: string, m: Member, next: string, ms: seq<Member>, rest: string)
    requires ReadMember(s) == Some(Got(m, "," + next)) && ReadMembers(next) == Some(Got(ms, rest))
    ensures ReadMembers(s) == Some(Got([m] + ms, rest))
  {
    hide ReadMember;
    assert ("," + next)[1..] == next;
  }

  /** The items behind the i-th one. */
  lemma After(v: Json, i: nat, close: string)
    requires (v.List? || v.Record?) && i < Width(v)
    ensures PrintItem(v, i) + PrintItems(v, i + 1) + close == PrintItem(v, i) + (PrintItems(v, i + 1) + close)
    ensures PrintItems(v, i + 1) + close ==
              if i + 1 == Width(v) then close else "," + (PrintItem(v, i + 1) + PrintItems(v, i + 2) + close)
  {
    hide PrintItem;
    if i + 1 < Width(v) {
      assert PrintItems(v, i + 1) == "," + PrintItem(v, i + 1) + PrintItems(v, i + 2);
    }
  }

  lemma Tail<T>(s: seq<T>, i: nat)
    requires i < |s|
    ensures s[i..] == [s[i]] + s[i + 1..]
    ensures i + 1 == |s| ==> s[i..] == [s[i]]
  {
  }

  lemma {:induction false} ElementsRead(v: Json, i: nat, rest: string)
    requires v.List? && Worded(v) && i < Width(v)
    ensures ReadElements(PrintItem(v, i) + PrintItems(v, i + 1) + ("]" + rest)) == Some(Got(v.elements[i..], rest))
    ensures PrintItem(v, i) != "" && PrintItem(v, i)[0] != ']'
    decreases v, Width(v) - i + 1
  {
    hide Print, Worded, PrintItems, ReadElements, ReadValue;
    var e, close := v.elements[i], "]" + rest;
    ElementWorded(v, i);
    After(v, i, close);
    PrintReads(e, PrintItems(v, i + 1) + close);
    if i + 1 < Width(v) {
      ElementsRead(v, i + 1, rest);
      NextElement(PrintItem(v, i) + (PrintItems(v, i + 1) + close), e,
                  PrintItem(v, i + 1) + PrintItems(v, i + 2) + close, v.elements[i + 1..], rest);
    } else {
      LastElement(PrintItem(v, i) + (PrintItems(v, i + 1) + close), e, rest);
    }
    Tail(v.elements, i);
  }

  lemma ElementWorded(v: Json, i: nat)
    requires Worded(v) && (v.List? || v.Record?) && i < Width(v)
    ensures Worded(if v.List? then v.elements[i] else v.members[i].value)
  {
  }

  lemma {:induction false} MembersRead(v: Json, i: nat, rest: string)
    requires v.Record? && Worded(v) && i < Width(v)
    ensures ReadMembers(PrintItem(v, i) + PrintItems(v, i + 1) + ("}" + rest)) == Some(Got(v.members[i..], rest))
    ensures PrintItem(v, i) != "" && PrintItem(v, i)[0] != '}'
    decreases v, Width(v) - i + 1
  {
    hide Print, Worded, PrintItem, PrintItems, ReadMembers, ReadMember;
    var m, close := v.members[i], "}" + rest;
    After(v, i, close);
    MemberReads(v, i, PrintItems(v, i + 1) + close);
    if i + 1 < Width(v) {
      MembersRead(v, i + 1, rest);
      NextMember(PrintItem(v, i) + (PrintItems(v, i + 1) + close), m,
                 PrintItem(v, i + 1) + PrintItems(v, i + 2) + close, v.members[i + 1..], rest);
    } else {
      LastMember(PrintItem(v, i) + (PrintItems(v, i + 1) + close), m, rest);
    }
    Tail(v.members, i);
  }

  lemma {:induction false} MemberReads(v: Json, i: nat, after: string)
    requires v.Record? && Worded(v) && i < Width(v)
    ensures Ends(after) ==> ReadMember(PrintItem(v, i) + after) == Some(Got(v.members[i], after))
    ensures PrintItem(v, i) != "" && PrintItem(v, i)[0] != '}'
    decreases v, 0
  {
    hide Print, Worded, ReadString, Quoted, ReadValue, Ends;
    var m := v.members[i];
    ElementWorded(v, i);
    var tail := ":" + Print(m.value) + after;
    assert PrintItem(v, i) + after == Quoted(m.key) + tail;
    QuotedReads(m.key, tail);
    QuotedReads(m.key, "");
    assert Quoted(m.key) + "" == Quoted(m.key);
    if Ends(after) {
      PrintReads(m.value, after);
      assert tail[1..] == Print(m.value) + after;
    }
  }

  // ----- the text is balanced

  predicate PlainRaws(v: Json)
    decreases v
  {
    match v
    case Raw(t) => forall i :: 0 <= i < |t| ==> t[i] !in {'"', '{', '}'}
    case Text(_) => true
    case List(es) => forall e :: e in es ==> PlainRaws(e)
    case Record(ms) => forall m :: m in ms ==> PlainRaws(m.value)
  }

  lemma {:induction false} PlainOutside(st: Scan, s: string)
    requires !st.inString && !st.escaped
    requires forall i :: 0 <= i < |s| ==> s[i] !in {'"', '{', '}'}
    ensures Over(st, s) == st
  {
    if s != "" {
      PlainOutside(st, s[1..]);
    }
  }

  /** The brace scanner passes over the text of a value, whatever its strings contain. */
  lemma {:induction false} Balanced(st: Scan, v: Json)
    requires !st.inString && !st.escaped && PlainRaws(v)
    ensures Over(st, Print(v)) == st
    decreases v, Width(v) + 2
  {
    if v.Raw? {
      PlainOutside(st, v.text);
    } else if v.Text? {
      QuotedSkipped(st, v.text);
    } else {
      var open, close := if v.List? then '[' else '{', if v.List? then ']' else '}';
      var inner := ScanStep(st, open);
      OneChar(st, open);
      OneChar(inner, close);
      BalancedItems(inner, v, 0);
      OverAppend(st, [open] + PrintItems(v, 0), [close]);
      OverAppend(st, [open], PrintItems(v, 0));
      assert Print(v) == [open] + PrintItems(v, 0) + [close];
    }
  }

  lemma {:induction false} BalancedItems(st: Scan, v: Json, i: nat)
    requires !st.inString && !st.escaped && PlainRaws(v)
    requires (v.List? || v.Record?) && i <= Width(v)
    ensures Over(st, PrintItems(v, i)) == st
    decreases v, Width(v) - i + 1
  {
    if i < Width(v) {
      var comma, item, rest := if i > 0 then "," else "", PrintItem(v, i), PrintItems(v, i + 1);
      PlainOutside(st, comma);
      BalancedItem(st, v, i);
      BalancedItems(st, v, i + 1);
      OverAppend(st, comma + item, rest);
      OverAppend(st, comma, item);
    }
  }

  lemma {:induction false} BalancedItem(st: Scan, v: Json, i: nat)
    requires !st.inString && !st.escaped && PlainRaws(v)
    requires (v.List? || v.Record?) && i < Width(v)
    ensures Over(st, PrintItem(v, i)) == st
    decreases v, 0
  {
    if v.List? {
      Balanced(st, v.elements[i]);
    } else {
      var key, value := Quoted(v.members[i].key), v.members[i].value;
      QuotedSkipped(st, v.members[i].key);
      PlainOutside(st, ":");
      Balanced(st, value);
      OverAppend(st, key + ":", Print(value));
      OverAppend(st, key, ":");
    }
  }

  lemma WordsArePlain(v: Json)
    requires Worded(v)
    ensures PlainRaws(v)
    decreases v
  {
  }
}
