/**
 `json_brace_depth`: how many braces of a JSON-like text are still open, not
 counting those inside quoted strings.
 */
module JsonScan {

  datatype Scan = Scan(depth: int, inString: bool, escaped: bool)

  const SCAN_START := Scan(0, false, false)

  function ScanStep(st: Scan, c: char): Scan {
    if st.escaped then st.(escaped := false)
    else if c == '\\' && st.inString then st.(escaped := true)
    else if c == '"' then st.(inString := !st.inString)
    else if st.inString then st
    else if c == '{' then st.(depth := st.depth + 1)
    else if c == '}' then st.(depth := st.depth - 1)
    else st
  }

  function Over(st: Scan, s: string): Scan
    decreases |s|
  {
    if s == "" then st else Over(ScanStep(st, s[0]), s[1..])
  }

  lemma {:induction false} OverAppend(st: Scan, a: string, b: string)
    ensures Over(st, a + b) == Over(Over(st, a), b)
    decreases |a|
  {
    if a == "" {
      assert a + b == b;
    } else {
      assert (a + b)[1..] == a[1..] + b;
      OverAppend(ScanStep(st, a[0]), a[1..], b);
    }
  }

  method JsonBraceDepth(s: string) returns (depth: int)
    ensures depth == Over(SCAN_START, s).depth
  {
    depth := 0;
    var inString := false;
    var escaped := false;
    for i := 0 to |s|
      invariant Over(SCAN_START, s) == Over(Scan(depth, inString, escaped), s[i..])
    {
      var c := s[i];
      assert s[i..][1..] == s[i + 1..];
      if escaped {
        escaped := false;
        continue;
      }
      if c == '\\' && inString {
        escaped := true;
        continue;
      }
      if c == '"' {
        inString := !inString;
        continue;
      }
      if !inString {
        if c == '{' {
          depth := depth + 1;
        } else if c == '}' {
          depth := depth - 1;
        }
      }
    }
  }
}
