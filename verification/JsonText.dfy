/**
 The text helpers of the tool-call mapper: trimming, and the string escaping of
 the JSON library it prints with (section 7 of RFC 8259).
 */
module JsonText {
  import opened JsonScan

  predicate IsSpace(c: char) { c in {' ', '\t', '\n', '\r', '\U{0b}', '\U{0c}'} }

  /** The space character and the five control characters from 9 to 13. */
  lemma SpacesAre(c: char)
    ensures IsSpace(c) <==> c as int == 32 || 9 <= c as int <= 13
  {
  }

  /** `trim_trailing_space` with a limit; a negative one means all. */
  function TrimTrailing(s: string, max: int): (t: string)
    ensures t <= s
    ensures max < 0 && t != "" ==> !IsSpace(t[|t| - 1])
    decreases |s|
  {
    if s == "" || max == 0 || !IsSpace(s[|s| - 1]) then s
    else TrimTrailing(s[..|s| - 1], if max < 0 then max else max - 1)
  }

  function TrimLeading(s: string, max: nat): string {
    if s == "" || max == 0 || !IsSpace(s[0]) then s else TrimLeading(s[1..], max - 1)
  }

  /** `trim`: at most one space in front, all of them behind. */
  function Trim(s: string): string { TrimTrailing(TrimLeading(s, 1), -1) }

  /** At most one space on either side. */
  function TrimOne(s: string): string { TrimTrailing(TrimLeading(s, 1), 1) }

  /** `s` without the first `a` and the last `b` characters. */
  predicate IsMiddle(t: string, s: string, a: nat, b: nat) { a + b <= |s| && t == s[a..|s| - b] }

  /**
   What trimming leaves: all but at most one space in front, and at most one or all spaces
   behind.
   */
  lemma {:induction false} TrimmedBehind(s: string, max: int)
    ensures var t := TrimTrailing(s, max);
            && t <= s && (max >= 0 ==> |s| - |t| <= max)
            && (forall i :: |t| <= i < |s| ==> IsSpace(s[i]))
            && (t == "" || !IsSpace(t[|t| - 1]) || |s| - |t| == max)
    decreases |s|
  {
    if s != "" && max != 0 && IsSpace(s[|s| - 1]) {
      TrimmedBehind(s[..|s| - 1], if max < 0 then max else max - 1);
    }
  }

  lemma TrimmedOne(s: string)
    ensures var a := if s != "" && IsSpace(s[0]) then 1 else 0;
            var b := if |s| > a && IsSpace(s[|s| - 1]) then 1 else 0;
            IsMiddle(TrimOne(s), s, a, b)
  {
    OneInFront(s);
    TrimmedBehind(TrimLeading(s, 1), 1);
  }

  lemma TrimmedAll(s: string)
    ensures var a := if s != "" && IsSpace(s[0]) then 1 else 0;
            var b := |s| - a - |Trim(s)|;
            && b >= 0 && IsMiddle(Trim(s), s, a, b)
            && (forall i :: |s| - b <= i < |s| ==> IsSpace(s[i]))
            && (Trim(s) == "" || !IsSpace(Trim(s)[|Trim(s)| - 1]))
  {
    OneInFront(s);
    TrimmedBehind(TrimLeading(s, 1), -1);
  }

  lemma OneInFront(s: string)
    ensures TrimLeading(s, 1) == if s != "" && IsSpace(s[0]) then s[1..] else s
  {
    assert s != "" ==> TrimLeading(s[1..], 0) == s[1..];
  }

  function HexDigit(n: int): char
    requires 0 <= n < 16
  {
    "0123456789abcdef"[n]
  }

  function EscapeChar(c: char): string {
    if c == '"' then "\\\""
    else if c == '\\' then "\\\\"
    else if c == '\U{08}' then "\\b"
    else if c == '\U{0c}' then "\\f"
    else if c == '\n' then "\\n"
    else if c == '\r' then "\\r"
    else if c == '\t' then "\\t"
    else if c as int < 0x20 then "\\u00" + [HexDigit(c as int / 16), HexDigit(c as int % 16)]
    else [c]
  }

  /** `escape_json_string_inner`. */
  function Escape(s: string): string {
    if s == "" then "" else EscapeChar(s[0]) + Escape(s[1..])
  }

  /** A dumped string. */
  function Quoted(s: string): string { "\"" + Escape(s) + "\"" }

  lemma {:induction false} EscapeAppend(a: string, b: string)
    ensures Escape(a + b) == Escape(a) + Escape(b)
  {
    if a == "" {
      assert a + b == b;
    } else {
      assert (a + b)[1..] == a[1..] + b;
      EscapeAppend(a[1..], b);
      assert EscapeChar(a[0]) + (Escape(a[1..]) + Escape(b)) == Escape(a) + Escape(b);
    }
  }

  /** Characters that mean nothing to the scanner inside a string. */
  lemma {:induction false} PlainInside(st: Scan, s: string)
    requires st.inString && !st.escaped
    requires forall i :: 0 <= i < |s| ==> s[i] != '"' && s[i] != '\\'
    ensures Over(st, s) == st
  {
    if s != "" {
      PlainInside(st, s[1..]);
    }
  }

  lemma EscapedPair(st: Scan, c: char)
    requires st.inString && !st.escaped
    ensures Over(st, ['\\', c]) == st
  {
    var t := ScanStep(st, '\\');
    assert ['\\', c][1..] == [c];
    assert Over(t, [c]) == Over(ScanStep(t, c), [c][1..]) == ScanStep(t, c);
  }

  /** An escaped string neither ends nor leaves the string it is printed in, whatever its characters. */
  lemma {:induction false} EscapeInside(st: Scan, s: string)
    requires st.inString && !st.escaped
    ensures Over(st, Escape(s)) == st
  {
    if s != "" {
      EscapeCharInside(st, s[0]);
      OverAppend(st, EscapeChar(s[0]), Escape(s[1..]));
      EscapeInside(st, s[1..]);
    }
  }

  lemma EscapeCharInside(st: Scan, c: char)
    requires st.inString && !st.escaped
    ensures Over(st, EscapeChar(c)) == st
  {
    var e := EscapeChar(c);
    if |e| == 2 {
      EscapedPair(st, e[1]);
      assert e == ['\\', e[1]];
    } else if |e| == 6 {
      assert e == ['\\', 'u'] + e[2..];
      EscapedPair(st, 'u');
      OverAppend(st, ['\\', 'u'], e[2..]);
      HexPlain(c as int / 16);
      HexPlain(c as int % 16);
      PlainInside(st, e[2..]);
    } else {
      PlainInside(st, e);
    }
  }

  lemma HexPlain(n: int)
    requires 0 <= n < 16
    ensures HexDigit(n) != '"' && HexDigit(n) != '\\'
  {
  }

  /** A quoted string is skipped by the brace scanner. */
  lemma QuotedSkipped(st: Scan, s: string)
    requires !st.inString && !st.escaped
    ensures Over(st, Quoted(s)) == st
  {
    var q := st.(inString := true);
    OneChar(st, '"');
    OverAppend(st, "\"" + Escape(s), "\"");
    OverAppend(st, "\"", Escape(s));
    EscapeInside(q, s);
    OneChar(q, '"');
  }

  lemma OneChar(st: Scan, c: char)
    ensures Over(st, [c]) == ScanStep(st, c)
  {
    assert [c][1..] == "";
  }
}
