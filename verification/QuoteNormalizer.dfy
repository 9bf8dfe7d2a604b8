/**
 `normalize_quotes_to_json`: Python-style single-quoted strings become JSON
 strings, one pass from left to right.
 */
module QuoteNormalizer {
  import opened Sequences
  import opened JsonScan

  datatype Mode = Outside | Single | Double

  /** What one turn of the loop appends, how many characters it uses, and the mode it leaves. */
  datatype Turn = Turn(out: string, used: nat, mode: Mode)

  function Take(mode: Mode, s: string): (t: Turn)
    requires s != ""
    ensures 1 <= t.used <= |s| && t.used <= 2 && 1 <= |t.out| <= 2
  {
    var c := s[0];
    if c == '\\' && |s| > 1 then
      match mode
      case Single =>
        if s[1] == '\'' then Turn("'", 2, Single)
        else if s[1] == '"' then Turn("\\\"", 2, Single)
        else Turn([c, s[1]], 2, Single)
      case Double => Turn([c, s[1]], 2, Double)
      case Outside => Turn([c], 1, Outside)
    else if c == '"' then
      match mode
      case Single => Turn("\\\"", 1, Single)
      case Double => Turn("\"", 1, Outside)
      case Outside => Turn("\"", 1, Double)
    else if c == '\'' then
      match mode
      case Double => Turn("'", 1, Double)
      case Single => Turn("\"", 1, Outside)
      case Outside => Turn("\"", 1, Single)
    else Turn([c], 1, mode)
  }

  function Normalized(mode: Mode, s: string): string
    decreases |s|
  {
    if s == "" then ""
    else
      var t := Take(mode, s);
      t.out + Normalized(t.mode, s[t.used..])
  }

  /** The mode after the whole of `s`. */
  function ModeAfter(mode: Mode, s: string): Mode
    decreases |s|
  {
    if s == "" then mode
    else
      var t := Take(mode, s);
      ModeAfter(t.mode, s[t.used..])
  }

  /** `s` ends in a backslash that is inside a quoted string and waits for its partner. */
  predicate Dangling(mode: Mode, s: string)
    decreases |s|
  {
    s != "" &&
    var t := Take(mode, s);
    if t.used == |s| then mode != Outside && |s| == 1 && s[0] == '\\' else Dangling(t.mode, s[t.used..])
  }

  /** One turn of the loop. */
  method OneTurn(input: string, i: nat, inSingle: bool, inDouble: bool, ghost mode: Mode)
    returns (out: string, next: nat, inSingle': bool, inDouble': bool)
    requires i < |input|
    requires inSingle == (mode == Single) && inDouble == (mode == Double)
    ensures var t := Take(mode, input[i..]);
            && out == t.out && next == i + t.used
            && inSingle' == (t.mode == Single) && inDouble' == (t.mode == Double)
  {
    inSingle', inDouble' := inSingle, inDouble;
    var c := input[i];
    next := i + 1;
    assert input[i..][0] == c && (i + 1 < |input| ==> input[i..][1] == input[i + 1]);
    if c == '\\' && i + 1 < |input| {
      var d := input[i + 1];
      if inSingle {
        if d == '\'' {
          out := "'";
        } else if d == '"' {
          out := "\\\"";
        } else {
          out := [c, d];
        }
        next := i + 2;
      } else if inDouble {
        out := [c, d];
        next := i + 2;
      } else {
        out := [c];
      }
    } else if c == '"' {
      if inSingle {
        out := "\\\"";
      } else {
        inDouble' := !inDouble;
        out := [c];
      }
    } else if c == '\'' {
      if inDouble {
        out := [c];
      } else if inSingle {
        inSingle' := false;
        out := "\"";
      } else {
        inSingle' := true;
        out := "\"";
      }
    } else {
      out := [c];
    }
  }

  method NormalizeQuotesToJson(input: string) returns (result: string)
    ensures result == Normalized(Outside, input)
  {
    result := "";
    var inSingleQuoted, inDoubleQuoted := false, false;
    ghost var mode := Outside;
    var i := 0;
    assert input[0..] == input;
    while i < |input|
      invariant i <= |input|
      invariant inSingleQuoted == (mode == Single) && inDoubleQuoted == (mode == Double)
      invariant Normalized(Outside, input) == result + Normalized(mode, input[i..])
    {
      ghost var rest := input[i..];
      ghost var t := Take(mode, rest);
      var out, next;
      out, next, inSingleQuoted, inDoubleQuoted := OneTurn(input, i, inSingleQuoted, inDoubleQuoted, mode);
      hide Take;
      assert rest[t.used..] == input[next..];
      assert Normalized(mode, rest) == out + Normalized(t.mode, input[next..]);
      assert result + (out + Normalized(t.mode, input[next..])) == (result + out) + Normalized(t.mode, input[next..]);
      result := result + out;
      i := next;
      mode := t.mode;
    }
  }

  // ----- idempotence

  /** The mode the second pass is in when the first one is in `mode`: there are no single quotes left to open. */
  function Again(mode: Mode): Mode { if mode == Outside then Outside else Double }

  /** What one turn wrote is taken as it is by the next pass, whatever follows it. */
  lemma TakenAgain(mode: Mode, s: string, x: string)
    requires s != ""
    requires Take(mode, s).out <= x
    requires Take(mode, s).used == |s| ==> x == Take(mode, s).out
    ensures var t := Take(mode, s);
            Take(Again(mode), x) == Turn(t.out, |t.out|, Again(t.mode))
  {
    var t := Take(mode, s);
    assert x[0] == t.out[0] && (|t.out| == 2 ==> x[1] == t.out[1]);
  }

  lemma TurnIsStable(mode: Mode, s: string, rest: string)
    requires s != ""
    requires Take(mode, s).used == |s| ==> rest == ""
    ensures var t := Take(mode, s);
            Normalized(Again(mode), t.out + rest) == t.out + Normalized(Again(t.mode), rest)
  {
    var t := Take(mode, s);
    TakenAgain(mode, s, t.out + rest);
    hide Take;
    assert (t.out + rest)[|t.out|..] == rest;
  }

  lemma {:induction false} Stable(mode: Mode, s: string)
    ensures Normalized(Again(mode), Normalized(mode, s)) == Normalized(mode, s)
    decreases |s|
  {
    if s != "" {
      var t := Take(mode, s);
      var rest := Normalized(t.mode, s[t.used..]);
      Stable(t.mode, s[t.used..]);
      TurnIsStable(mode, s, rest);
    }
  }

  /** Normalising twice changes nothing more. */
  lemma Idempotent(input: string)
    ensures Normalized(Outside, Normalized(Outside, input)) == Normalized(Outside, input)
  {
    Stable(Outside, input);
  }

  // ----- against the brace scanner

  /** Every single quote of `s` is inside a string, as the brace scanner sees strings. */
  predicate QuotesInside(st: Scan, s: string)
    decreases |s|
  {
    s == "" || ((s[0] == '\'' ==> st.inString) && QuotesInside(ScanStep(st, s[0]), s[1..]))
  }

  lemma {:induction false} QuotesInsideAppend(st: Scan, a: string, b: string)
    ensures QuotesInside(st, a + b) <==> QuotesInside(st, a) && QuotesInside(Over(st, a), b)
    decreases |a|
  {
    if a == "" {
      assert a + b == b;
    } else {
      assert (a + b)[1..] == a[1..] + b;
      QuotesInsideAppend(ScanStep(st, a[0]), a[1..], b);
    }
  }

  /** One turn, seen by the scanner. */
  lemma TurnScanned(mode: Mode, s: string, st: Scan)
    requires s != "" && st.inString == (mode != Outside) && !st.escaped
    ensures var t := Take(mode, s);
            && QuotesInside(st, t.out)
            && Over(st, t.out).inString == (t.mode != Outside)
            && Over(st, t.out).escaped == (t.used == |s| == 1 && s[0] == '\\' && mode != Outside)
  {
    var t := Take(mode, s);
    if |t.out| == 2 {
      ScanTwo(st, t.out);
    } else {
      ScanOne(st, t.out);
    }
  }

  lemma ScanOne(st: Scan, s: string)
    requires |s| == 1
    ensures Over(st, s) == ScanStep(st, s[0])
    ensures QuotesInside(st, s) <==> (s[0] == '\'' ==> st.inString)
  {
    assert s[1..] == "";
  }

  lemma ScanTwo(st: Scan, s: string)
    requires |s| == 2
    ensures Over(st, s) == ScanStep(ScanStep(st, s[0]), s[1])
    ensures QuotesInside(st, s) <==> (s[0] == '\'' ==> st.inString) && (s[1] == '\'' ==> ScanStep(st, s[0]).inString)
  {
    ScanOne(ScanStep(st, s[0]), s[1..]);
  }

  /**
   Lock-step: on the output for any input, read so far, the scanner is inside a string
   exactly when the converter is in a quote mode, and it waits for an escaped character
   exactly when the converter does; no single quote is left outside a string.
   */
  lemma {:induction false} LockStep(mode: Mode, s: string, st: Scan)
    requires st.inString == (mode != Outside) && !st.escaped
    ensures QuotesInside(st, Normalized(mode, s))
    ensures Over(st, Normalized(mode, s)).inString == (ModeAfter(mode, s) != Outside)
    ensures Over(st, Normalized(mode, s)).escaped == Dangling(mode, s)
    decreases |s|
  {
    if s != "" {
      var t := Take(mode, s);
      var rest := Normalized(t.mode, s[t.used..]);
      TurnScanned(mode, s, st);
      OverAppend(st, t.out, rest);
      QuotesInsideAppend(st, t.out, rest);
      if t.used < |s| {
        LockStep(t.mode, s[t.used..], Over(st, t.out));
      } else {
        assert s[t.used..] == "" && rest == "";
      }
    }
  }

  // ----- streaming

  /** Reading on: unless a backslash waits for its partner, the output of the whole starts with the output so far. */
  lemma {:induction false} ReadOn(mode: Mode, p: string, more: string)
    requires !Dangling(mode, p)
    ensures Normalized(mode, p + more) == Normalized(mode, p) + Normalized(ModeAfter(mode, p), more)
    decreases |p|
  {
    hide *;
    if p == "" || more == "" {
      NothingToRead(mode, p, more);
    } else {
      var t := Take(mode, p);
      var rest := p[t.used..];
      FirstTurn(mode, p);
      SameTake(mode, p, more);
      Unfold(mode, p + more);
      DropAppend(p, more, t.used);
      ReadOn(t.mode, rest, more);
      Assoc(t.out, Normalized(t.mode, rest), Normalized(ModeAfter(t.mode, rest), more));
    }
  }

  lemma NothingToRead(mode: Mode, p: string, more: string)
    requires p == "" || more == ""
    ensures Normalized(mode, p + more) == Normalized(mode, p) + Normalized(ModeAfter(mode, p), more)
  {
    assert p == "" ==> p + more == more;
    assert more == "" ==> p + more == p;
  }

  lemma Unfold(mode: Mode, s: string)
    requires s != ""
    ensures var t := Take(mode, s);
            Normalized(mode, s) == t.out + Normalized(t.mode, s[t.used..])
  {
  }

  lemma DropAppend(p: string, more: string, n: nat)
    requires n <= |p|
    ensures (p + more)[n..] == p[n..] + more
  {
  }

  lemma FirstTurn(mode: Mode, p: string)
    requires p != "" && !Dangling(mode, p)
    ensures var t := Take(mode, p);
            var rest := p[t.used..];
            && !(|p| == 1 && p[0] == '\\' && mode != Outside)
            && !Dangling(t.mode, rest)
            && ModeAfter(mode, p) == ModeAfter(t.mode, rest)
            && Normalized(mode, p) == t.out + Normalized(t.mode, rest)
  {
  }

  lemma SameTake(mode: Mode, p: string, more: string)
    requires p != "" && !(|p| == 1 && p[0] == '\\' && mode != Outside)
    ensures Take(mode, p + more) == Take(mode, p)
  {
    assert (p + more)[0] == p[0] && (|p| > 1 ==> (p + more)[1] == p[1]);
  }

  /** A prefix that ends in a waiting backslash, without it. */
  lemma {:induction false} WithoutBackslash(mode: Mode, p: string)
    requires Dangling(mode, p)
    ensures p != "" && p[|p| - 1] == '\\' && !Dangling(mode, p[..|p| - 1])
    ensures ModeAfter(mode, p[..|p| - 1]) == ModeAfter(mode, p) != Outside
    ensures Normalized(mode, p) == Normalized(mode, p[..|p| - 1]) + "\\"
    decreases |p|
  {
    var t := Take(mode, p);
    var p0 := p[..|p| - 1];
    if t.used == |p| {
      assert p0 == "" && p[1..] == "" && p == "\\";
      LoneBackslash(mode);
    } else {
      var q := p[t.used..];
      WithoutBackslash(t.mode, q);
      assert q[..|q| - 1] == p0[t.used..];
      NotYetDangling(mode, p);
      hide Take;
      assert t.out + (Normalized(t.mode, p0[t.used..]) + "\\") == (t.out + Normalized(t.mode, p0[t.used..])) + "\\";
    }
  }

  lemma LoneBackslash(mode: Mode)
    ensures Normalized(mode, "\\") == "\\" && ModeAfter(mode, "\\") == mode
  {
    assert "\\"[1..] == "";
    assert "\\" + "" == "\\";
  }

  /** A turn that leaves something of p takes the same from p without its last character. */
  lemma NotYetDangling(mode: Mode, p: string)
    requires p != "" && Take(mode, p).used < |p|
    ensures |p| >= 2 && Take(mode, p[..|p| - 1]) == Take(mode, p)
  {
    var p0 := p[..|p| - 1];
    assert p0[0] == p[0] && (|p0| > 1 ==> p0[1] == p[1]);
  }

  /**
   The output of a prefix is a prefix of the output, except when the prefix ends in a
   backslash waiting in a single-quoted string and a single quote comes next.
   */
  lemma Streaming(p: string, more: string)
    ensures Normalized(Outside, p) <= Normalized(Outside, p + more)
            <==> !(Dangling(Outside, p) && ModeAfter(Outside, p) == Single && more != "" && more[0] == '\'')
  {
    hide Take, Dangling, ModeAfter, Normalized;
    if !Dangling(Outside, p) {
      ReadOn(Outside, p, more);
    } else if more == "" {
      assert p + more == p;
    } else {
      WithoutBackslash(Outside, p);
      AfterBackslash(p[..|p| - 1], ModeAfter(Outside, p), more);
      assert p == p[..|p| - 1] + "\\";
    }
  }

  /** `'\` prints `"\`, and a quote arriving next makes it `"'`. */
  lemma StreamingFails()
    ensures Normalized(Outside, "'\\") == "\"\\" && Normalized(Outside, "'\\" + "'") == "\"'"
    ensures !(Normalized(Outside, "'\\") <= Normalized(Outside, "'\\" + "'"))
  {
    hide Normalized, Take;
    var p, q := "'\\", "'\\" + "'";
    FirstTurns();
    Unfold(Outside, p);
    Unfold(Outside, q);
    assert p[1..] == "\\" && q[1..] == "\\'";
    LoneBackslash(Single);
    Unfold(Single, "\\'");
    assert "\\'"[2..] == "";
    NothingNormalized(Single);
    assert ("\"" + "'")[1] == '\'' && ("\"" + "\\")[1] == '\\';
    assert "'" + "" == "'";
  }

  lemma FirstTurns()
    ensures Take(Outside, "'\\") == Turn("\"", 1, Single) == Take(Outside, "'\\" + "'")
    ensures Take(Single, "\\'") == Turn("'", 2, Single)
  {
  }

  lemma NothingNormalized(mode: Mode)
    ensures Normalized(mode, "") == ""
  {
  }

  lemma AfterBackslash(p0: string, m: Mode, more: string)
    requires !Dangling(Outside, p0) && m == ModeAfter(Outside, p0) && m != Outside && more != ""
    ensures Normalized(Outside, p0) + "\\" <= Normalized(Outside, p0 + "\\" + more) <==> !(m == Single && more[0] == '\'')
  {
    hide Take, Dangling, ModeAfter, Normalized;
    assert p0 + "\\" + more == p0 + ("\\" + more);
    ReadOn(Outside, p0, "\\" + more);
    BackslashNext(m, more);
    ExtendsBy(Normalized(Outside, p0), Normalized(m, "\\" + more));
  }

  lemma BackslashNext(m: Mode, more: string)
    requires more != "" && m != Outside
    ensures var n := Normalized(m, "\\" + more);
            n != "" && (n[0] == '\\' <==> !(m == Single && more[0] == '\''))
  {
    var x := "\\" + more;
    assert x[0] == '\\' && x[1] == more[0];
    var t := Take(m, x);
    assert Normalized(m, x)[0] == t.out[0];
  }

  lemma ExtendsBy(a: string, b: string)
    requires b != ""
    ensures a + "\\" <= a + b <==> b[0] == '\\'
  {
    assert (a + b)[|a|] == b[0] && (a + "\\")[|a|] == '\\';
    assert (a + b)[..|a| + 1] == a + [b[0]];
  }
}
