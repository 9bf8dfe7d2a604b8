/**
 `calculate_diff_split`: what two renderings share in front and behind, and where
 they differ, walking over their segments from both ends.
 */
module DiffSplit {
  import opened Sequences
  import opened Markers

  datatype Split = Split(prefix: string, suffix: string, left: string, right: string)

  /** The pieces put together give both inputs. */
  predicate Reassembles(s: Split, left: string, right: string) {
    s.prefix + s.left + s.suffix == left && s.prefix + s.right + s.suffix == right
  }

  /** The four iterators (a..b in the left segments, c..d in the right ones, ends included) and what was taken so far. */
  datatype Cursor = Cursor(a: nat, b: nat, c: nat, d: nat, prefix: string, suffix: string, leftDone: bool, rightDone: bool)

  predicate InBounds(l: seq<Segment>, r: seq<Segment>, s: Cursor) {
    s.a <= s.b < |l| && s.c <= s.d < |r|
  }

  function Begin(l: seq<Segment>, r: seq<Segment>): Cursor
    requires l != [] && r != []
  {
    Cursor(0, |l| - 1, 0, |r| - 1, "", "", false, false)
  }

  /** The front half of a pass: equal first segments go to the prefix. */
  function TakeFront(l: seq<Segment>, r: seq<Segment>, s: Cursor): (s': Cursor)
    requires InBounds(l, r, s) && s.a != s.b && s.c != s.d
    ensures InBounds(l, r, s')
  {
    if l[s.a] == r[s.c] then s.(a := s.a + 1, c := s.c + 1, prefix := s.prefix + l[s.a].value) else s
  }

  /** The back half: equal last segments go to the suffix; a side down to its last segment is marked instead of moved. */
  function TakeBack(l: seq<Segment>, r: seq<Segment>, s: Cursor): (s': Cursor)
    requires InBounds(l, r, s)
    ensures InBounds(l, r, s')
  {
    if l[s.b] == r[s.d] then
      s.(suffix := l[s.b].value + s.suffix,
         b := if s.a != s.b then s.b - 1 else s.b, leftDone := s.leftDone || s.a == s.b,
         d := if s.c != s.d then s.d - 1 else s.d, rightDone := s.rightDone || s.c == s.d)
    else s
  }

  function Walk(l: seq<Segment>, r: seq<Segment>, s: Cursor): (s': Cursor)
    requires InBounds(l, r, s)
    ensures InBounds(l, r, s')
    decreases s.b - s.a + s.d - s.c
  {
    if s.a == s.b || s.c == s.d then s
    else
      var s1 := TakeFront(l, r, s);
      var s2 := TakeBack(l, r, s1);
      if s2 == s then s else Walk(l, r, s2)
  }

  /** Lines 141-165: one side is down to a single segment. */
  function LastMatch(l: seq<Segment>, r: seq<Segment>, s: Cursor): (s': Cursor)
    requires InBounds(l, r, s)
    ensures InBounds(l, r, s')
  {
    if s.a == s.b && s.c != s.d then
      if l[s.a] == r[s.d] then s.(suffix := r[s.d].value + s.suffix, d := s.d - 1, leftDone := true)
      else if l[s.a] == r[s.c] then s.(prefix := s.prefix + r[s.c].value, c := s.c + 1, leftDone := true)
      else s
    else if s.c == s.d && s.a != s.b then
      if l[s.b] == r[s.c] then s.(suffix := l[s.b].value + s.suffix, b := s.b - 1, rightDone := true)
      else if l[s.a] == r[s.c] then s.(prefix := s.prefix + l[s.a].value, a := s.a + 1, rightDone := true)
      else s
    else if s.a == s.b && s.c == s.d && l[s.a] == r[s.c] && l[s.a].kind == MARKER then
      s.(prefix := s.prefix + r[s.c].value, leftDone := true, rightDone := true)
    else s
  }

  function LeftRest(l: seq<Segment>, s: Cursor): string
    requires s.a <= s.b < |l|
  {
    Text(if s.leftDone then l[s.a..s.b] else l[s.a..s.b + 1])
  }

  function RightRest(r: seq<Segment>, s: Cursor): string
    requires s.c <= s.d < |r|
  {
    Text(if s.rightDone then r[s.c..s.d] else r[s.c..s.d + 1])
  }

  /** Move m characters of what is left to the prefix and n to the suffix. */
  function Cut(s: Cursor, restL: string, restR: string, m: nat, n: nat): Split
    requires m + n <= |restL| && m + n <= |restR|
  {
    Split(s.prefix + restL[..m], restL[|restL| - n..] + s.suffix, restL[m..|restL| - n], restR[m..|restR| - n])
  }

  /** How many characters two rests lose behind, and then in front; only text may lose any. */
  function CutBehind(text: bool, restL: string, restR: string): (n: nat)
    ensures n <= |restL| && n <= |restR|
  {
    if text then CommonSuffix(restL, restR) else 0
  }

  function CutInFront(text: bool, restL: string, restR: string, n: nat): (m: nat)
    requires n <= |restL| && n <= |restR|
    ensures m + n <= |restL| && m + n <= |restR|
  {
    if text then CommonPrefix(restL[..|restL| - n], restR[..|restR| - n]) else 0
  }

  /** Lines 169-183: text at the borders is trimmed character by character. */
  function Trim(l: seq<Segment>, r: seq<Segment>, s: Cursor): Split
    requires InBounds(l, r, s)
  {
    var textBehind := l[s.b].kind == TEXT && r[s.d].kind == TEXT;
    var textInFront := r[s.c].kind == TEXT && l[s.a].kind == TEXT;
    var restL, restR := LeftRest(l, s), RightRest(r, s);
    var n := CutBehind(textBehind, restL, restR);
    Cut(s, restL, restR, CutInFront(textInFront, restL, restR, n), n)
  }

  /** Lines 185-204: no difference at all, and a left side that is a prefix of the right one. */
  function Repair(s: Split, left: string, right: string): Split {
    var s1 := if s.left == "" && s.right == "" then s.(prefix := left, suffix := "") else s;
    if s1.left == "" && s1.right != "" && left <= right then
      s1.(prefix := left, suffix := "", right := right[|left|..])
    else s1
  }

  function DiffOf(left: string, right: string): Split {
    var l, r := Segments(left), Segments(right);
    if l == [] then Split("", "", "", right)
    else if r == [] then Split("", "", left, "")
    else Repair(Trim(l, r, LastMatch(l, r, Walk(l, r, Begin(l, r)))), left, right)
  }

  // ----- the loop and the steps around it

  /** One pass of the walk. */
  lemma PassIs(l: seq<Segment>, r: seq<Segment>, s: Cursor, s': Cursor)
    requires InBounds(l, r, s) && s.a != s.b && s.c != s.d && s' == TakeBack(l, r, TakeFront(l, r, s))
    ensures Walk(l, r, s) == if s' == s then s else Walk(l, r, s')
  {
  }

  /** Lines 102-139. */
  method WalkLoop(l: seq<Segment>, r: seq<Segment>) returns (s: Cursor)
    requires l != [] && r != []
    ensures s == Walk(l, r, Begin(l, r)) && InBounds(l, r, s)
  {
    var leftStart, leftEnd, rightStart, rightEnd := 0, |l| - 1, 0, |r| - 1;
    var prefix, suffix: string := "", "";
    var leftFullyConsumed, rightFullyConsumed := false, false;
    hide Walk;
    s := Begin(l, r);
    while leftStart != leftEnd && rightStart != rightEnd
      invariant 0 <= leftStart <= leftEnd && 0 <= rightStart <= rightEnd
      invariant s == Cursor(leftStart, leftEnd, rightStart, rightEnd, prefix, suffix, leftFullyConsumed, rightFullyConsumed)
      invariant InBounds(l, r, s) && Walk(l, r, s) == Walk(l, r, Begin(l, r))
      decreases leftEnd - leftStart + rightEnd - rightStart
    {
      ghost var before := s;
      var advanced := false;
      if l[leftStart] == r[rightStart] {
        prefix := prefix + l[leftStart].value;
        leftStart := leftStart + 1;
        rightStart := rightStart + 1;
        advanced := true;
      }
      if l[leftEnd] == r[rightEnd] {
        suffix := l[leftEnd].value + suffix;
        if leftStart != leftEnd { leftEnd := leftEnd - 1; } else { leftFullyConsumed := true; }
        if rightStart != rightEnd { rightEnd := rightEnd - 1; } else { rightFullyConsumed := true; }
        advanced := true;
      }
      s := Cursor(leftStart, leftEnd, rightStart, rightEnd, prefix, suffix, leftFullyConsumed, rightFullyConsumed);
      PassIs(l, r, before, s);
      if !advanced {
        break;
      }
    }
    WalkStops(l, r, s);
  }

  lemma WalkStops(l: seq<Segment>, r: seq<Segment>, s: Cursor)
    requires InBounds(l, r, s)
    ensures s.a == s.b || s.c == s.d || TakeBack(l, r, TakeFront(l, r, s)) == s ==> Walk(l, r, s) == s
  {
  }

  method TrimBehind(text: bool, restL: string, restR: string) returns (n: nat)
    ensures n == CutBehind(text, restL, restR)
  {
    n := 0;
    if text {
      n := CommonSuffixLength(restL, restR);
    }
  }

  method TrimInFront(text: bool, restL: string, restR: string, n: nat) returns (m: nat)
    requires n <= |restL| && n <= |restR|
    ensures m == CutInFront(text, restL, restR, n)
  {
    m := 0;
    if text {
      m := CommonPrefixLength(restL[..|restL| - n], restR[..|restR| - n]);
    }
  }

  /** Lines 169-183. */
  method TrimLoop(l: seq<Segment>, r: seq<Segment>, s: Cursor) returns (result: Split)
    requires InBounds(l, r, s)
    ensures result == Trim(l, r, s)
  {
    var textBehind := l[s.b].kind == TEXT && r[s.d].kind == TEXT;
    var textInFront := r[s.c].kind == TEXT && l[s.a].kind == TEXT;
    var restL, restR := LeftRest(l, s), RightRest(r, s);
    var n := TrimBehind(textBehind, restL, restR);
    var m := TrimInFront(textInFront, restL, restR, n);
    result := Cut(s, restL, restR, m, n);
  }

  method CalculateDiffSplit(left: string, right: string) returns (result: Split)
    ensures result == DiffOf(left, right)
    ensures Reassembles(result, left, right) <==> !Mishap(left, right)
  {
    SplitLaw(left, right);
    hide Walk, LastMatch, Trim, Mishap, Reassembles, Segments, Text;
    var l := SegmentizeMarkers(left);
    var r := SegmentizeMarkers(right);
    if l == [] {
      return Split("", "", "", right);
    }
    if r == [] {
      return Split("", "", left, "");
    }
    var s := WalkLoop(l, r);
    s := LastMatch(l, r, s);
    result := TrimLoop(l, r, s);
    if result.left == "" && result.right == "" {
      result := result.(prefix := left, suffix := "");
    }
    if result.left == "" && result.right != "" && |left| <= |right| && right[..|left|] == left {
      result := result.(prefix := left, suffix := "", right := right[|left|..]);
    }
  }

  // ----- when the pieces reassemble the inputs

  /** What was taken and what is left make up the inputs. */
  ghost predicate LeftWhole(l: seq<Segment>, s: Cursor)
    requires s.a <= s.b < |l|
  {
    s.prefix + LeftRest(l, s) + s.suffix == Text(l)
  }

  ghost predicate RightWhole(r: seq<Segment>, s: Cursor)
    requires s.c <= s.d < |r|
  {
    s.prefix + RightRest(r, s) + s.suffix == Text(r)
  }

  /** A side is marked done only when it is down to one segment, which has gone to the suffix. */
  ghost predicate DoneRight(l: seq<Segment>, r: seq<Segment>, s: Cursor)
    requires InBounds(l, r, s)
  {
    && (s.leftDone ==> s.a == s.b)
    && (s.rightDone ==> s.c == s.d)
    && (s.leftDone && !s.rightDone ==> s.d + 1 < |r| && l[s.b] == r[s.d + 1])
    && (s.rightDone && !s.leftDone ==> s.b + 1 < |l| && r[s.d] == l[s.b + 1])
    && (s.leftDone && s.rightDone ==> l[s.a] == r[s.c])
  }

  /** The end case takes a segment of a side that the loop has already given to the suffix. */
  predicate TakesTwice(l: seq<Segment>, r: seq<Segment>, s: Cursor)
    requires InBounds(l, r, s)
  {
    LastMatch(l, r, s) != s &&
    (if s.a == s.b && s.c != s.d then s.leftDone
     else if s.c == s.d && s.a != s.b then s.rightDone
     else s.leftDone || s.rightDone)
  }

  /** The shorter side has an even number of segments, and its halves are the two ends of the longer one. */
  predicate TwoEnds(short: seq<Segment>, long: seq<Segment>) {
    && 0 < |short| < |long| && |short| % 2 == 0
    && AgreeAtEnds(short, long, |short| / 2)
  }

  /** The first n segments are the same on both sides, and the last n are. */
  predicate AgreeAtEnds(l: seq<Segment>, r: seq<Segment>, n: nat)
    requires n <= |l| && n <= |r|
  {
    && (forall k :: 0 <= k < n ==> l[k] == r[k])
    && (forall k :: |l| - n <= k < |l| ==> l[k] == r[k + |r| - |l|])
  }

  /**
   And the first segment of its second half stands again next to one of the two ends of the
   longer side; if there is just one segment between them, it is a marker.
   */
  predicate Repeats(short: seq<Segment>, long: seq<Segment>) {
    TwoEnds(short, long) &&
    var n := |short| / 2;
    if |long| == |short| + 1 then long[n] == short[n] && short[n].kind == MARKER
    else long[n] == short[n] || long[|long| - 1 - n] == short[n]
  }

  /**
   The inputs for which a segment is taken twice, except those that the last repair takes care
   of: the left one is a prefix of the right one, which is longer by two segments or more.
   */
  predicate Mishap(left: string, right: string) {
    var l, r := Segments(left), Segments(right);
    (Repeats(l, r) && !(|r| > |l| + 1 && left <= right)) || Repeats(r, l)
  }

  // ----- the walk, in terms of its inputs

  /** Once the first segments differ, only segments behind are taken, and no side is used up. */
  lemma {:induction false} FrontDiffers(l: seq<Segment>, r: seq<Segment>, s: Cursor)
    requires InBounds(l, r, s) && l[s.a] != r[s.c] && !s.leftDone && !s.rightDone
    ensures !Walk(l, r, s).leftDone && !Walk(l, r, s).rightDone
    decreases s.b - s.a + s.d - s.c
  {
    if s.a != s.b && s.c != s.d && TakeBack(l, r, s) != s {
      FrontDiffers(l, r, TakeBack(l, r, s));
    }
  }

  /** Once the last segments differ, only segments in front are taken. */
  lemma {:induction false} BackDiffers(l: seq<Segment>, r: seq<Segment>, s: Cursor)
    requires InBounds(l, r, s) && l[s.b] != r[s.d] && !s.leftDone && !s.rightDone
    ensures !Walk(l, r, s).leftDone && !Walk(l, r, s).rightDone
    decreases s.b - s.a + s.d - s.c
  {
    if s.a != s.b && s.c != s.d && TakeFront(l, r, s) != s {
      BackDiffers(l, r, TakeFront(l, r, s));
    }
  }

  /** As long as both ends agree, the walk is at the same distance from all four ends. */
  predicate InStep(l: seq<Segment>, r: seq<Segment>, s: Cursor, i: nat) {
    && s.a == s.c == i && s.b == |l| - 1 - i && s.d == |r| - 1 - i
    && !s.leftDone && !s.rightDone && InBounds(l, r, s) && AgreeAtEnds(l, r, i)
  }

  /** How the walk ends: one side used up, both, or none. */
  ghost predicate EndsAs(l: seq<Segment>, r: seq<Segment>, e: Cursor) {
    && (e.leftDone && !e.rightDone <==> TwoEnds(l, r))
    && (e.rightDone && !e.leftDone <==> TwoEnds(r, l))
    && (TwoEnds(l, r) ==> e.a == e.b == e.c == |l| / 2 && e.d == |r| - 1 - |l| / 2)
    && (TwoEnds(r, l) ==> e.c == e.d == e.a == |r| / 2 && e.b == |l| - 1 - |r| / 2)
  }

  lemma AgreeBack(l: seq<Segment>, r: seq<Segment>, n: nat)
    requires n <= |l| && n <= |r| && AgreeAtEnds(l, r, n)
    ensures AgreeAtEnds(r, l, n)
  {
    forall k | |r| - n <= k < |r|
      ensures r[k] == l[k + |l| - |r|]
    {
      assert l[k + |l| - |r|] == r[k];
    }
  }

  /** A walk that stops, or meets ends that differ, before a side is used up. */
  lemma NotTwoEnds(l: seq<Segment>, r: seq<Segment>, s: Cursor, i: nat)
    requires InStep(l, r, s, i)
    ensures s.a == s.b || s.c == s.d ==> !TwoEnds(l, r) && !TwoEnds(r, l)
    ensures s.a != s.b && s.c != s.d && (l[s.a] != r[s.c] || l[s.b] != r[s.d]) ==> !TwoEnds(l, r) && !TwoEnds(r, l)
  {
    if TwoEnds(r, l) {
      AgreeBack(r, l, |r| / 2);
    }
  }

  /** A pass that uses up a side. */
  lemma UsedUp(l: seq<Segment>, r: seq<Segment>, s: Cursor, i: nat)
    requires InStep(l, r, s, i) && s.a != s.b && s.c != s.d && l[s.a] == r[s.c] && l[s.b] == r[s.d]
    ensures AgreeAtEnds(l, r, i + 1)
    ensures s.a + 1 == s.b || s.c + 1 == s.d ==> EndsAs(l, r, TakeBack(l, r, TakeFront(l, r, s)))
  {
    assert s.a + 1 == s.b ==> |l| / 2 == i + 1;
    assert s.c + 1 == s.d ==> |r| / 2 == i + 1;
    AgreeBack(l, r, i + 1);
  }

  lemma {:induction false} WalkEnds(l: seq<Segment>, r: seq<Segment>, s: Cursor, i: nat)
    requires InStep(l, r, s, i)
    ensures EndsAs(l, r, Walk(l, r, s))
    decreases |l| - i
  {
    NotTwoEnds(l, r, s, i);
    hide TwoEnds, AgreeAtEnds;
    if s.a != s.b && s.c != s.d {
      var s1 := TakeFront(l, r, s);
      if l[s.a] != r[s.c] {
        FrontDiffers(l, r, s);
      } else if l[s.b] != r[s.d] {
        BackDiffers(l, r, s);
      } else {
        UsedUp(l, r, s, i);
        if s.a + 1 != s.b && s.c + 1 != s.d {
          WalkEnds(l, r, TakeBack(l, r, s1), i + 1);
        }
      }
    }
  }

  /** The end case takes a segment twice exactly if the inputs say so. */
  lemma TwiceIsRepeats(l: seq<Segment>, r: seq<Segment>)
    requires l != [] && r != []
    ensures var s := Walk(l, r, Begin(l, r));
            && (TakesTwice(l, r, s) && !(s.leftDone && s.rightDone) <==> Repeats(l, r) || Repeats(r, l))
            && (Repeats(l, r) ==> (s.c != s.d <==> |r| > |l| + 1))
            && (Repeats(r, l) ==> s.c == s.d)
  {
    hide *;
    BeginInStep(l, r);
    WalkEnds(l, r, Begin(l, r), 0);
    var s := Walk(l, r, Begin(l, r));
    TwoEndsMeans(l, r);
    TwoEndsMeans(r, l);
    if TwoEnds(l, r) {
      LeftTwice(l, r, s);
    } else if TwoEnds(r, l) {
      RightTwice(l, r, s);
    } else {
      NotTwice(l, r, s);
    }
  }

  lemma BeginInStep(l: seq<Segment>, r: seq<Segment>)
    requires l != [] && r != []
    ensures InStep(l, r, Begin(l, r), 0)
  {
  }

  lemma TwoEndsMeans(short: seq<Segment>, long: seq<Segment>)
    ensures Repeats(short, long) ==> TwoEnds(short, long)
    ensures TwoEnds(short, long) ==> |short| < |long|
  {
    hide AgreeAtEnds;
  }

  lemma LeftTwice(l: seq<Segment>, r: seq<Segment>, s: Cursor)
    requires InBounds(l, r, s) && TwoEnds(l, r) && EndsAs(l, r, s)
    ensures TakesTwice(l, r, s) && !(s.leftDone && s.rightDone) <==> Repeats(l, r)
    ensures s.c != s.d <==> |r| > |l| + 1
    ensures !TwoEnds(r, l)
  {
    hide AgreeAtEnds;
  }

  lemma RightTwice(l: seq<Segment>, r: seq<Segment>, s: Cursor)
    requires InBounds(l, r, s) && TwoEnds(r, l) && EndsAs(l, r, s)
    ensures TakesTwice(l, r, s) && !(s.leftDone && s.rightDone) <==> Repeats(r, l)
    ensures s.c == s.d
  {
    hide AgreeAtEnds;
  }

  lemma NotTwice(l: seq<Segment>, r: seq<Segment>, s: Cursor)
    requires InBounds(l, r, s) && !TwoEnds(l, r) && !TwoEnds(r, l) && EndsAs(l, r, s)
    ensures !TakesTwice(l, r, s) || (s.leftDone && s.rightDone)
  {
    hide TwoEnds;
  }

  lemma TextFirst(segs: seq<Segment>, a: nat, b: nat)
    requires a < b <= |segs|
    ensures Text(segs[a..b]) == segs[a].value + Text(segs[a + 1..b])
  {
    assert segs[a..b][1..] == segs[a + 1..b];
  }

  lemma TextLast(segs: seq<Segment>, a: nat, b: nat)
    requires a < b <= |segs|
    ensures Text(segs[a..b]) == Text(segs[a..b - 1]) + segs[b - 1].value
  {
    assert segs[a..b] == segs[a..b - 1] + [segs[b - 1]];
    TextAppend(segs[a..b - 1], [segs[b - 1]]);
    assert Text([segs[b - 1]]) == segs[b - 1].value + Text([]);
  }

  lemma TextNone(segs: seq<Segment>, a: nat)
    requires a <= |segs|
    ensures Text(segs[a..a]) == ""
  {
  }

  /** The prefix takes the first segment of what is left. */
  lemma FrontMoves(p: string, v: string, m: string, s: string)
    ensures (p + v) + m + s == p + (v + m) + s
  {
    assert (p + v) + m == p + (v + m);
  }

  /** The suffix takes the last segment of what is left. */
  lemma BackMoves(p: string, m: string, v: string, s: string)
    ensures p + m + (v + s) == p + (m + v) + s
  {
    assert p + m + (v + s) == p + (m + v) + s;
  }

  ghost predicate Sound(l: seq<Segment>, r: seq<Segment>, s: Cursor)
    requires InBounds(l, r, s)
  {
    LeftWhole(l, s) && RightWhole(r, s) && DoneRight(l, r, s)
  }

  lemma FrontSound(l: seq<Segment>, r: seq<Segment>, s: Cursor)
    requires InBounds(l, r, s) && s.a != s.b && s.c != s.d
    requires Sound(l, r, s)
    ensures Sound(l, r, TakeFront(l, r, s)) && !TakeFront(l, r, s).leftDone && !TakeFront(l, r, s).rightDone
  {
    hide Text;
    TextFirst(l, s.a, s.b + 1);
    TextFirst(r, s.c, s.d + 1);
    FrontMoves(s.prefix, l[s.a].value, Text(l[s.a + 1..s.b + 1]), s.suffix);
    FrontMoves(s.prefix, r[s.c].value, Text(r[s.c + 1..s.d + 1]), s.suffix);
  }

  lemma BackSound(l: seq<Segment>, r: seq<Segment>, s: Cursor)
    requires InBounds(l, r, s) && !s.leftDone && !s.rightDone
    requires Sound(l, r, s)
    ensures Sound(l, r, TakeBack(l, r, s))
  {
    hide Text;
    TextLast(l, s.a, s.b + 1);
    TextLast(r, s.c, s.d + 1);
    TextNone(l, s.a);
    TextNone(r, s.c);
    BackMoves(s.prefix, Text(l[s.a..s.b]), l[s.b].value, s.suffix);
    BackMoves(s.prefix, Text(r[s.c..s.d]), r[s.d].value, s.suffix);
  }

  lemma {:induction false} WalkSound(l: seq<Segment>, r: seq<Segment>, s: Cursor)
    requires InBounds(l, r, s) && Sound(l, r, s)
    ensures Sound(l, r, Walk(l, r, s))
    ensures var e := Walk(l, r, s);
            e.a == e.b || e.c == e.d || (l[e.a] != r[e.c] && l[e.b] != r[e.d])
    decreases s.b - s.a + s.d - s.c
  {
    if s.a == s.b || s.c == s.d {
    } else {
      var s1 := TakeFront(l, r, s);
      FrontSound(l, r, s);
      BackSound(l, r, s1);
      var s2 := TakeBack(l, r, s1);
      if s2 != s {
        WalkSound(l, r, s2);
      }
    }
  }

  lemma LastMatchSound(l: seq<Segment>, r: seq<Segment>, s: Cursor)
    requires InBounds(l, r, s) && Sound(l, r, s) && !TakesTwice(l, r, s)
    ensures LeftWhole(l, LastMatch(l, r, s)) && RightWhole(r, LastMatch(l, r, s))
  {
    hide Text;
    TextFirst(l, s.a, s.b + 1);
    TextFirst(r, s.c, s.d + 1);
    TextLast(l, s.a, s.b + 1);
    TextLast(r, s.c, s.d + 1);
    TextNone(l, s.a);
    TextNone(r, s.c);
    var lm, rm := Text(l[s.a + 1..s.b + 1]), Text(r[s.c + 1..s.d + 1]);
    FrontMoves(s.prefix, l[s.a].value, lm, s.suffix);
    FrontMoves(s.prefix, r[s.c].value, rm, s.suffix);
    BackMoves(s.prefix, Text(l[s.a..s.b]), l[s.b].value, s.suffix);
    BackMoves(s.prefix, Text(r[s.c..s.d]), r[s.d].value, s.suffix);
    TextNone(l, s.a + 1);
    TextNone(r, s.c + 1);
  }

  /** Trimming keeps what the pieces add up to, on both sides. */
  lemma TrimSum(l: seq<Segment>, r: seq<Segment>, s: Cursor)
    requires InBounds(l, r, s)
    ensures var t := Trim(l, r, s);
            && t.prefix + t.left + t.suffix == s.prefix + LeftRest(l, s) + s.suffix
            && t.prefix + t.right + t.suffix == s.prefix + RightRest(r, s) + s.suffix
  {
    var textBehind := l[s.b].kind == TEXT && r[s.d].kind == TEXT;
    var textInFront := r[s.c].kind == TEXT && l[s.a].kind == TEXT;
    var restL, restR := LeftRest(l, s), RightRest(r, s);
    hide Text, LeftRest, RightRest, CutBehind, CutInFront, Cut;
    var n := CutBehind(textBehind, restL, restR);
    var m := CutInFront(textInFront, restL, restR, n);
    CutsShared(textBehind, textInFront, restL, restR);
    CutSum(s, restL, restR, m, n);
  }

  lemma CutsShared(textBehind: bool, textInFront: bool, restL: string, restR: string)
    ensures var n := CutBehind(textBehind, restL, restR);
            var m := CutInFront(textInFront, restL, restR, n);
            restL[|restL| - n..] == restR[|restR| - n..] && restL[..m] == restR[..m]
  {
    SuffixShared(restL, restR);
    hide CommonSuffix, CommonPrefix;
    var n := CutBehind(textBehind, restL, restR);
    var m := CutInFront(textInFront, restL, restR, n);
    assert restL[..|restL| - n][..m] == restL[..m] && restR[..|restR| - n][..m] == restR[..m];
  }

  lemma CutSum(s: Cursor, restL: string, restR: string, m: nat, n: nat)
    requires m + n <= |restL| && m + n <= |restR|
    requires restL[|restL| - n..] == restR[|restR| - n..] && restL[..m] == restR[..m]
    ensures var t := Cut(s, restL, restR, m, n);
            && t.prefix + t.left + t.suffix == s.prefix + restL + s.suffix
            && t.prefix + t.right + t.suffix == s.prefix + restR + s.suffix
  {
    Halves(s.prefix, restL, m, n, s.suffix);
    Halves(s.prefix, restR, m, n, s.suffix);
  }

  lemma Halves(p: string, rest: string, m: nat, n: nat, s: string)
    requires m + n <= |rest|
    ensures (p + rest[..m]) + rest[m..|rest| - n] + (rest[|rest| - n..] + s) == p + rest + s
  {
    var x, y, z := rest[..m], rest[m..|rest| - n], rest[|rest| - n..];
    assert rest == x + y + z;
    assert (p + x) + y + (z + s) == p + (x + y + z) + s;
  }

  ghost predicate NonEmpty(segs: seq<Segment>) {
    forall i :: 0 <= i < |segs| ==> segs[i].value != []
  }

  /** No segment is empty, so taking one twice makes a side too long. */
  lemma NothingOnLeft(l: seq<Segment>, s: Cursor)
    requires s.a == s.b < |l| && s.leftDone
    ensures LeftRest(l, s) == ""
  {
    TextNone(l, s.a);
  }

  lemma SomethingOnRight(r: seq<Segment>, s: Cursor)
    requires s.c <= s.d < |r| && !s.rightDone && NonEmpty(r)
    ensures RightRest(r, s) != ""
  {
    TextFirst(r, s.c, s.d + 1);
    assert r[s.c] in r;
  }

  lemma LeftTooLong(l: seq<Segment>, r: seq<Segment>, s: Cursor)
    requires InBounds(l, r, s) && Sound(l, r, s) && TakesTwice(l, r, s)
    requires NonEmpty(l) && NonEmpty(r) && s.a == s.b && s.c != s.d
    ensures var e := LastMatch(l, r, s);
            && LeftRest(l, e) == "" && RightRest(r, e) != ""
            && |e.prefix + LeftRest(l, e) + e.suffix| > |Text(l)|
  {
    hide LeftRest, RightRest, Text, NonEmpty, RightWhole;
    var e := LastMatch(l, r, s);
    NothingOnLeft(l, s);
    NothingOnLeft(l, e);
    SomethingOnRight(r, e);
    assert r[s.d] in r && r[s.c] in r;
    NoneIsEmpty(r, s.c);
    NoneIsEmpty(r, s.d);
  }

  lemma NoneIsEmpty(segs: seq<Segment>, i: nat)
    requires NonEmpty(segs) && i < |segs|
    ensures segs[i].value != ""
  {
    assert segs[i] in segs;
  }

  lemma RightTooLong(l: seq<Segment>, r: seq<Segment>, s: Cursor)
    requires InBounds(l, r, s) && Sound(l, r, s) && TakesTwice(l, r, s)
    requires NonEmpty(l) && NonEmpty(r) && s.a != s.b && s.c == s.d
    ensures var e := LastMatch(l, r, s);
            && RightRest(r, e) == "" && LeftRest(l, e) != ""
            && |e.prefix + RightRest(r, e) + e.suffix| > |Text(r)|
  {
    hide Text;
    TextNone(r, s.c);
    TextFirst(l, s.a, s.b);
    TextFirst(l, s.a + 1, s.b + 1);
  }

  lemma BothEmpty(l: seq<Segment>, r: seq<Segment>, s: Cursor)
    requires InBounds(l, r, s) && Sound(l, r, s) && TakesTwice(l, r, s)
    requires NonEmpty(l) && NonEmpty(r) && s.a == s.b && s.c == s.d
    ensures var e := LastMatch(l, r, s);
            && LeftRest(l, e) == "" && RightRest(r, e) == ""
            && (Text(l) == Text(r) <==> s.leftDone && s.rightDone)
  {
    hide Text;
    TextNone(l, s.a);
    TextNone(r, s.c);
    TextNone(l, s.a + 1);
    TextNone(r, s.c + 1);
    TextFirst(l, s.a, s.b + 1);
    TextFirst(r, s.c, s.d + 1);
  }

  /** The repairs keep a split that reassembles. */
  lemma RepairKeeps(t: Split, left: string, right: string)
    requires Reassembles(t, left, right)
    ensures Reassembles(Repair(t, left, right), left, right)
  {
    if t.left == "" && t.right == "" {
      assert t.prefix + t.left + t.suffix == t.prefix + t.right + t.suffix;
    }
    if left <= right {
      assert left + right[|left|..] == right;
    }
  }

  /** When a segment was taken twice, the repairs help only as `Mishap` says. */
  lemma RepairFails(l: seq<Segment>, r: seq<Segment>, s: Cursor, left: string, right: string)
    requires InBounds(l, r, s) && Sound(l, r, s) && TakesTwice(l, r, s)
    requires NonEmpty(l) && NonEmpty(r)
    requires left == Text(l) && right == Text(r)
    ensures Reassembles(Repair(Trim(l, r, LastMatch(l, r, s)), left, right), left, right)
            <==> (s.leftDone && s.rightDone) || (s.c != s.d && left <= right)
  {
    var e := LastMatch(l, r, s);
    TrimSum(l, r, e);
    TrimLengths(l, r, e);
    var t := Trim(l, r, e);
    hide Text, Trim;
    if s.c != s.d {
      LeftTooLong(l, r, s);
      hide LastMatch;
      RepairLeft(t, left, right);
    } else if s.a != s.b {
      RightTooLong(l, r, s);
      hide LastMatch;
      RepairRight(t, left, right);
    } else {
      BothEmpty(l, r, s);
      hide LastMatch;
      RepairBoth(t, left, right);
    }
  }

  lemma RepairLeft(t: Split, left: string, right: string)
    requires t.left == "" && t.right != "" && |t.prefix + t.left + t.suffix| > |left|
    ensures Reassembles(Repair(t, left, right), left, right) <==> left <= right
  {
    if left <= right {
      assert left + right[|left|..] == right;
    }
  }

  lemma RepairRight(t: Split, left: string, right: string)
    requires t.left != "" && |t.prefix + t.right + t.suffix| > |right|
    ensures !Reassembles(Repair(t, left, right), left, right)
  {
  }

  lemma RepairBoth(t: Split, left: string, right: string)
    requires t.left == "" && t.right == ""
    ensures Reassembles(Repair(t, left, right), left, right) <==> left == right
  {
  }

  lemma TrimLengths(l: seq<Segment>, r: seq<Segment>, s: Cursor)
    requires InBounds(l, r, s)
    ensures var t := Trim(l, r, s);
            && |LeftRest(l, s)| - |t.left| == |RightRest(r, s)| - |t.right|
            && |t.left| <= |LeftRest(l, s)| && |t.right| <= |RightRest(r, s)|
  {
    hide LeftRest, RightRest, CommonPrefix, CommonSuffix;
  }

  // ----- how far the walk goes

  /**
   What is left after the walk and the end cases shares no segment at either end: a side is used
   up, or both the first and the last segments differ, or both sides are down to the same text.
   */
  lemma {:induction false} WalkGoesFar(l: seq<Segment>, r: seq<Segment>)
    requires l != [] && r != []
    ensures var e := LastMatch(l, r, Walk(l, r, Begin(l, r)));
            || e.leftDone || e.rightDone || (l[e.a] != r[e.c] && l[e.b] != r[e.d])
            || (e.a == e.b && e.c == e.d && l[e.a] == r[e.c] && l[e.a].kind == TEXT)
  {
    BeginSound(l, r);
    WalkSound(l, r, Begin(l, r));
    hide Walk, Sound;
  }

  /** Of two places where the one segment of a side could go, it goes to the suffix. */
  lemma SuffixFirst(x: Segment, y: Segment)
    requires x != y
    ensures var l, r := [x, y, x], [x];
            var e := LastMatch(l, r, Walk(l, r, Begin(l, r)));
            e.prefix == "" && e.suffix == x.value + "" && e.a == 0 && e.b == 1 && e.rightDone && !e.leftDone
    ensures var l, r := [x], [x, y, x];
            var e := LastMatch(l, r, Walk(l, r, Begin(l, r)));
            e.prefix == "" && e.suffix == x.value + "" && e.c == 0 && e.d == 1 && e.leftDone && !e.rightDone
  {
  }

  // ----- how far trimming goes

  /** Nothing that could be shared is left in the difference. */
  predicate Apart(left: string, right: string, inFront: bool, behind: bool) {
    left == "" || right == "" ||
    (&& (inFront ==> left[0] != right[0])
     && (behind ==> left[|left| - 1] != right[|right| - 1]))
  }

  /** Where both sides have text at a border, trimming goes as far as the characters agree. */
  lemma TrimGoesFar(l: seq<Segment>, r: seq<Segment>, s: Cursor)
    requires InBounds(l, r, s)
    ensures var t := Trim(l, r, s);
            Apart(t.left, t.right, r[s.c].kind == TEXT && l[s.a].kind == TEXT, l[s.b].kind == TEXT && r[s.d].kind == TEXT)
  {
    hide LeftRest, RightRest, CutBehind, CutInFront, Apart;
    var behind := l[s.b].kind == TEXT && r[s.d].kind == TEXT;
    var inFront := r[s.c].kind == TEXT && l[s.a].kind == TEXT;
    var restL, restR := LeftRest(l, s), RightRest(r, s);
    var n := CutBehind(behind, restL, restR);
    CutApart(inFront, behind, restL, restR, n, CutInFront(inFront, restL, restR, n));
  }

  lemma CutApart(inFront: bool, behind: bool, restL: string, restR: string, n: nat, m: nat)
    requires n == CutBehind(behind, restL, restR) && m == CutInFront(inFront, restL, restR, n)
    ensures Apart(restL[m..|restL| - n], restR[m..|restR| - n], inFront, behind)
  {
    SuffixEnds(restL, restR);
    hide CommonPrefix, CommonSuffix;
  }

  /** Two texts without an opener are one segment each. */
  lemma OneText(text: string)
    requires text != "" && forall i :: 0 <= i < |text| ==> !IsOpener(text[i])
    ensures Segments(text) == [Segment(TEXT, text)]
  {
    CutText(text, |text|);
    assert text[..|text|] == text && text[|text|..] == [];
    NothingLeft();
  }

  lemma NothingWalked(left: string, right: string)
    ensures var l, r := [Segment(TEXT, left)], [Segment(TEXT, right)];
            LastMatch(l, r, Walk(l, r, Begin(l, r))) == Begin(l, r)
  {
  }

  lemma WholeRests(left: string, right: string)
    ensures var l, r := [Segment(TEXT, left)], [Segment(TEXT, right)];
            LeftRest(l, Begin(l, r)) == left && RightRest(r, Begin(l, r)) == right
  {
    var l, r := [Segment(TEXT, left)], [Segment(TEXT, right)];
    assert l[0..1] == l && r[0..1] == r && l[1..] == [] && r[1..] == [];
    assert Text(l) == left + Text([]) && Text(r) == right + Text([]);
  }

  /**
   Texts without an opener: the longest shared suffix is taken first, then the longest prefix
   shared by what is left; of one that is a prefix of the other, nothing is left.
   */
  lemma PlainTexts(left: string, right: string)
    requires left != "" && forall i :: 0 <= i < |left| ==> !IsOpener(left[i])
    requires right != "" && forall i :: 0 <= i < |right| ==> !IsOpener(right[i])
    ensures var d := DiffOf(left, right);
            && Reassembles(d, left, right)
            && Apart(d.left, d.right, true, true)
            && (d.left != "" ==>
                  && |d.suffix| == CommonSuffix(left, right)
                  && |d.prefix| == CommonPrefix(left[..|left| - |d.suffix|], right[..|right| - |d.suffix|]))
  {
    OneText(left);
    OneText(right);
    SplitLaw(left, right);
    var l, r := [Segment(TEXT, left)], [Segment(TEXT, right)];
    assert !Repeats(l, r) && !Repeats(r, l);
    NothingWalked(left, right);
    TrimGoesFar(l, r, Begin(l, r));
    WholeRests(left, right);
    hide Segments, Walk, LastMatch, LeftRest, RightRest, CommonPrefix, CommonSuffix, Repeats;
    PlainTrim(left, right);
  }

  lemma PlainTrim(left: string, right: string)
    requires LeftRest([Segment(TEXT, left)], Begin([Segment(TEXT, left)], [Segment(TEXT, right)])) == left
    requires RightRest([Segment(TEXT, right)], Begin([Segment(TEXT, left)], [Segment(TEXT, right)])) == right
    ensures var l, r := [Segment(TEXT, left)], [Segment(TEXT, right)];
            var t := Trim(l, r, Begin(l, r));
            && |t.suffix| == CommonSuffix(left, right)
            && |t.prefix| == CommonPrefix(left[..|left| - |t.suffix|], right[..|right| - |t.suffix|])
  {
    hide LeftRest, RightRest, CommonPrefix, CommonSuffix;
  }

  lemma HelloExample()
    ensures DiffOf("Hello Ann!", "Hello Bob!") == Split("Hello ", "!", "Ann", "Bob")
  {
    var left, right := "Hello Ann!", "Hello Bob!";
    CommonSuffixIs(left, right, 1);
    CommonPrefixIs(left[..9], right[..9], 6);
    PlainTexts(left, right);
    var d := DiffOf(left, right);
    hide DiffOf, CommonPrefix, CommonSuffix;
    HelloPieces(d, left, right);
  }

  lemma HelloPieces(d: Split, left: string, right: string)
    requires left == "Hello Ann!" && right == "Hello Bob!" && Reassembles(d, left, right)
    requires d.left != "" ==> |d.suffix| == 1 && |d.prefix| == 6
    ensures d == Split("Hello ", "!", "Ann", "Bob")
  {
    assert d.prefix == left[..6] == "Hello " && d.suffix == left[9..] == "!";
    assert d.left == left[6..9] && d.right == right[6..9];
  }

  lemma SplitLawAt(l: seq<Segment>, r: seq<Segment>, left: string, right: string)
    requires l != [] && r != [] && NonEmpty(l) && NonEmpty(r)
    requires left == Text(l) && right == Text(r)
    ensures var s := Walk(l, r, Begin(l, r));
            Reassembles(Repair(Trim(l, r, LastMatch(l, r, s)), left, right), left, right)
            <==> !(TakesTwice(l, r, s) && !(s.leftDone && s.rightDone) && !(s.c != s.d && left <= right))
  {
    BeginSound(l, r);
    WalkSound(l, r, Begin(l, r));
    var s := Walk(l, r, Begin(l, r));
    if TakesTwice(l, r, s) {
      RepairFails(l, r, s, left, right);
    } else {
      LastMatchSound(l, r, s);
      var e := LastMatch(l, r, s);
      TrimSum(l, r, e);
      hide LastMatch, Trim, Repair, Walk, TakesTwice, LeftRest, RightRest;
      RepairKeeps(Trim(l, r, e), left, right);
    }
  }

  /**
   The law of the splitter and exactly when it fails: prefix, the left or right piece and
   suffix make up the input again, unless a segment was taken twice and not repaired.
   */
  lemma SplitLaw(left: string, right: string)
    ensures Reassembles(DiffOf(left, right), left, right) <==> !Mishap(left, right)
  {
    hide Repeats, Text, Segments, NonEmpty, Repair, Walk, LastMatch, Trim, TakesTwice, Reassembles;
    var l, r := Segments(left), Segments(right);
    Lossless(left);
    Lossless(right);
    if l == [] || r == [] {
      NothingToWalk(left, right);
    } else {
      SegmentsNonEmpty(left);
      SegmentsNonEmpty(right);
      SplitLawAt(l, r, left, right);
      TwiceIsRepeats(l, r);
    }
  }

  lemma NothingToWalk(left: string, right: string)
    requires Segments(left) == [] || Segments(right) == []
    ensures Reassembles(DiffOf(left, right), left, right)
    ensures !Repeats(Segments(left), Segments(right)) && !Repeats(Segments(right), Segments(left))
  {
    NoneEmpty(left);
    NoneEmpty(right);
    hide Segments;
  }

  lemma SegmentsNonEmpty(text: string)
    ensures NonEmpty(Segments(text))
  {
    NoneEmpty(text);
    hide Segments;
  }

  lemma BeginSound(l: seq<Segment>, r: seq<Segment>)
    requires l != [] && r != []
    ensures Sound(l, r, Begin(l, r))
  {
    assert l[0..|l|] == l && r[0..|r|] == r;
  }

  predicate NoRepeat(segs: seq<Segment>) {
    forall i, j :: 0 <= i < j < |segs| ==> segs[i] != segs[j]
  }

  lemma RepeatsTwice(short: seq<Segment>, long: seq<Segment>)
    requires Repeats(short, long)
    ensures !NoRepeat(long)
  {
    var n := |short| / 2;
    assert short[n] == long[|long| - n];
  }

  /** The law holds whenever no segment occurs twice in one of the inputs. */
  lemma LawWithoutRepeats(left: string, right: string)
    requires NoRepeat(Segments(left)) && NoRepeat(Segments(right))
    ensures Reassembles(DiffOf(left, right), left, right)
  {
    hide Segments, Repeats, NoRepeat;
    var l, r := Segments(left), Segments(right);
    if Repeats(l, r) {
      RepeatsTwice(l, r);
    }
    if Repeats(r, l) {
      RepeatsTwice(r, l);
    }
    SplitLaw(left, right);
  }

  /** `<a><b>` against `<a><b><b>`: an empty difference between different inputs. */
  lemma LawFails()
    ensures Mishap("<a><b>", "<a><b><b>")
    ensures DiffOf("<a><b>", "<a><b><b>") == Split("<a><b>", "", "", "")
  {
    hide Segments, Walk, LastMatch, Trim, TakesTwice, Text;
    var left, right := "<a><b>", "<a><b><b>";
    var a, b := Segment(MARKER, "<a>"), Segment(MARKER, "<b>");
    ExampleSegments();
    WalkExample([a, b], [a, b, b], a, b);
    TrimExample([a, b], [a, b, b], a, b);
  }

  lemma ExampleSegments()
    ensures Segments("<a><b>") == [Segment(MARKER, "<a>"), Segment(MARKER, "<b>")]
    ensures Segments("<a><b><b>") == [Segment(MARKER, "<a>"), Segment(MARKER, "<b>"), Segment(MARKER, "<b>")]
  {
    hide Segments, Text, OpenerAt, CloserAt;
    NothingLeft();
    OneMarker("b", "");
    OneMarker("b", "<b>");
    assert "<b>" + "" == "<b>";
    assert "<b>" + "<b>" == "<b><b>";
    OneMarker("a", "<b>");
    assert "<a>" + "<b>" == "<a><b>";
    OneMarker("a", "<b><b>");
    assert "<a>" + "<b><b>" == "<a><b><b>";
  }

  lemma WalkExample(l: seq<Segment>, r: seq<Segment>, a: Segment, b: Segment)
    requires l == [a, b] && r == [a, b, b] && a == Segment(MARKER, "<a>") && b == Segment(MARKER, "<b>")
    ensures Walk(l, r, Begin(l, r)) == Cursor(1, 1, 1, 1, "<a>", "<b>", true, false)
  {
    var s1 := Cursor(1, 1, 1, 2, "<a>", "", false, false);
    var s2 := Cursor(1, 1, 1, 1, "<a>", "<b>", true, false);
    assert TakeFront(l, r, Begin(l, r)) == s1;
    assert TakeBack(l, r, s1) == s2;
  }

  lemma TrimExample(l: seq<Segment>, r: seq<Segment>, a: Segment, b: Segment)
    requires l == [a, b] && r == [a, b, b] && a == Segment(MARKER, "<a>") && b == Segment(MARKER, "<b>")
    ensures var s := Cursor(1, 1, 1, 1, "<a>", "<b>", true, false);
            TakesTwice(l, r, s) && Trim(l, r, LastMatch(l, r, s)) == Split("<a><b>", "<b>", "", "")
  {
    var e := Cursor(1, 1, 1, 1, "<a><b>", "<b>", true, true);
    assert LastMatch(l, r, Cursor(1, 1, 1, 1, "<a>", "<b>", true, false)) == e;
    assert LeftRest(l, e) == "" && RightRest(r, e) == "";
    hide Text, LeftRest, RightRest, LastMatch;
    assert Cut(e, "", "", 0, 0) == Split("<a><b>", "<b>", "", "");
  }

  lemma OneMarker(name: string, rest: string)
    requires |name| == 1 && name[0] != '>'
    ensures "<" + name + ">" == ['<', name[0], '>']
    ensures Segments(['<', name[0], '>'] + rest) == [Segment(MARKER, ['<', name[0], '>'])] + Segments(rest)
  {
    var text := ['<', name[0], '>'] + rest;
    CutMarker(text, 2);
    assert text[..3] == ['<', name[0], '>'] && text[3..] == rest;
  }
}
