/**
 Splitting a rendered template into markers (`<...>` or `[...]`) and the text
 between them: `segmentize_markers`.
 */
module Markers {

  datatype Kind = TEXT | MARKER

  datatype Segment = Segment(kind: Kind, value: string)

  predicate IsOpener(c: char) { c == '<' || c == '[' }

  predicate IsCloser(op: char, c: char) { (op == '<' && c == '>') || (op == '[' && c == ']') }

  /** The text the segments were cut from. */
  function Text(segs: seq<Segment>): string {
    if segs == [] then [] else segs[0].value + Text(segs[1..])
  }

  /** Where the first opener of `s` is, `|s|` without one. */
  function OpenerAt(s: string): (n: nat)
    ensures n <= |s|
    ensures n < |s| ==> IsOpener(s[n])
    ensures forall i :: 0 <= i < n ==> !IsOpener(s[i])
  {
    if s == [] || IsOpener(s[0]) then 0 else 1 + OpenerAt(s[1..])
  }

  /** Where `op` is first closed in `s`, `|s|` when it is not. */
  function CloserAt(op: char, s: string): (n: nat)
    ensures n <= |s|
    ensures n < |s| ==> IsCloser(op, s[n])
    ensures forall i :: 0 <= i < n ==> !IsCloser(op, s[i])
  {
    if s == [] || IsCloser(op, s[0]) then 0 else 1 + CloserAt(op, s[1..])
  }

  /** Reference: a marker runs from an opener to its first closer; an opener that is never closed starts plain text. */
  function Segments(text: string): (segs: seq<Segment>)
    decreases |text|
  {
    if text == [] then []
    else if IsOpener(text[0]) then
      var n := CloserAt(text[0], text);
      if n < |text| then [Segment(MARKER, text[..n + 1])] + Segments(text[n + 1..])
      else [Segment(TEXT, text)]
    else
      var n := OpenerAt(text);
      [Segment(TEXT, text[..n])] + Segments(text[n..])
  }

  lemma {:induction false} TextAppend(a: seq<Segment>, b: seq<Segment>)
    ensures Text(a + b) == Text(a) + Text(b)
  {
    if a == [] {
      assert a + b == b;
    } else {
      assert (a + b)[1..] == a[1..] + b;
      TextAppend(a[1..], b);
      assert a[0].value + (Text(a[1..]) + Text(b)) == Text(a) + Text(b);
    }
  }

  /** A marker is an opener up to its first closer. */
  predicate MarkerShape(v: string) {
    && |v| >= 2 && IsOpener(v[0]) && IsCloser(v[0], v[|v| - 1])
    && forall i :: 0 <= i < |v| - 1 ==> !IsCloser(v[0], v[i])
  }

  /** Plain text has no opener, unless it is the last segment and its opener is never closed. */
  predicate TextShape(v: string, last: bool) {
    && v != []
    && ((forall i :: 0 <= i < |v| ==> !IsOpener(v[i]))
        || (last && IsOpener(v[0]) && forall i :: 0 <= i < |v| ==> !IsCloser(v[0], v[i])))
  }

  lemma {:induction false} Shapes(text: string, k: nat)
    requires k < |Segments(text)|
    ensures var segs := Segments(text);
            if segs[k].kind == MARKER then MarkerShape(segs[k].value) else TextShape(segs[k].value, k == |segs| - 1)
    decreases |text|
  {
    FirstShape(text);
    hide MarkerShape, TextShape, OpenerAt, CloserAt;
    if k > 0 {
      var rest := text[|Segments(text)[0].value|..];
      Shapes(rest, k - 1);
      assert Segments(text)[k] == Segments(rest)[k - 1];
    }
  }

  lemma FirstShape(text: string)
    requires text != []
    ensures var segs := Segments(text);
            && segs != [] && segs[0].value != [] && segs[0].value <= text
            && segs == [segs[0]] + Segments(text[|segs[0].value|..])
            && if segs[0].kind == MARKER then MarkerShape(segs[0].value) else TextShape(segs[0].value, |segs| == 1)
  {
    if IsOpener(text[0]) {
      FirstOpened(text);
    } else {
      var n := OpenerAt(text);
      var v := text[..n];
      assert TextShape(v, false);
      hide TextShape, OpenerAt;
      assert Segments(text) == [Segment(TEXT, v)] + Segments(text[n..]);
    }
  }

  lemma FirstOpened(text: string)
    requires text != [] && IsOpener(text[0])
    ensures var segs := Segments(text);
            && segs != [] && segs[0].value != [] && segs[0].value <= text
            && segs == [segs[0]] + Segments(text[|segs[0].value|..])
            && if segs[0].kind == MARKER then MarkerShape(segs[0].value) else TextShape(segs[0].value, |segs| == 1)
  {
    var n := CloserAt(text[0], text);
    if n < |text| {
      var v := text[..n + 1];
      assert MarkerShape(v);
      hide MarkerShape, CloserAt;
      assert Segments(text) == [Segment(MARKER, v)] + Segments(text[n + 1..]);
    } else {
      assert TextShape(text, true);
      hide TextShape, CloserAt;
      assert text[|text|..] == [];
      NothingLeft();
      assert Segments(text) == [Segment(TEXT, text)];
    }
  }

  /** No character is lost, and none is added. */
  lemma {:induction false} Lossless(text: string)
    ensures Text(Segments(text)) == text
    decreases |text|
  {
    if text == [] {
      NothingLeft();
    } else {
      FirstShape(text);
      hide Segments;
      var segs := Segments(text);
      var rest := text[|segs[0].value|..];
      Lossless(rest);
      assert segs[1..] == Segments(rest);
      assert text == segs[0].value + rest;
    }
  }

  lemma {:induction false} NoneEmpty(text: string)
    ensures forall s :: s in Segments(text) ==> s.value != []
    ensures Segments(text) == [] <==> text == []
  {
    forall s | s in Segments(text)
      ensures s.value != []
    {
      var k: nat :| k < |Segments(text)| && Segments(text)[k] == s;
      Shapes(text, k);
    }
  }

  /** The first opener of a suffix that starts with plain text up to `n`. */
  lemma {:induction false} OpenerAtIs(s: string, n: nat)
    requires n <= |s| && (n < |s| ==> IsOpener(s[n]))
    requires forall i :: 0 <= i < n ==> !IsOpener(s[i])
    ensures OpenerAt(s) == n
  {
    if n > 0 { OpenerAtIs(s[1..], n - 1); }
  }

  lemma {:induction false} CloserAtIs(op: char, s: string, n: nat)
    requires n <= |s| && (n < |s| ==> IsCloser(op, s[n]))
    requires forall i :: 0 <= i < n ==> !IsCloser(op, s[i])
    ensures CloserAt(op, s) == n
  {
    if n > 0 { CloserAtIs(op, s[1..], n - 1); }
  }

  lemma CutText(text: string, n: nat)
    requires 0 < n <= |text| && (n < |text| ==> IsOpener(text[n]))
    requires forall i :: 0 <= i < n ==> !IsOpener(text[i])
    ensures Segments(text) == [Segment(TEXT, text[..n])] + Segments(text[n..])
  {
    OpenerAtIs(text, n);
  }

  lemma CutMarker(text: string, n: nat)
    requires n < |text| && IsOpener(text[0]) && IsCloser(text[0], text[n])
    requires forall i :: 0 <= i < n ==> !IsCloser(text[0], text[i])
    ensures Segments(text) == [Segment(MARKER, text[..n + 1])] + Segments(text[n + 1..])
  {
    CloserAtIs(text[0], text, n);
    ClosedHead(text, n);
  }

  lemma ClosedHead(text: string, n: nat)
    requires text != [] && IsOpener(text[0]) && CloserAt(text[0], text) == n < |text|
    ensures Segments(text) == [Segment(MARKER, text[..n + 1])] + Segments(text[n + 1..])
  {
    hide CloserAt, OpenerAt;
  }

  lemma CutTail(text: string)
    requires text != [] && IsOpener(text[0]) && forall i :: 0 <= i < |text| ==> !IsCloser(text[0], text[i])
    ensures Segments(text) == [Segment(TEXT, text)]
  {
    CloserAtIs(text[0], text, |text|);
  }

  method SegmentizeMarkers(text: string) returns (retval: seq<Segment>)
    ensures retval == Segments(text)
    ensures Text(retval) == text
  {
    Lossless(text);
    hide Segments, Text;
    retval := [];
    var inMarker := false;
    var markerOpener := '\0';
    var lastBorder := 0;
    for curPos := 0 to |text|
      invariant 0 <= lastBorder <= curPos
      invariant Segments(text) == retval + Segments(text[lastBorder..])
      invariant !inMarker ==> forall i :: lastBorder <= i < curPos ==> !IsOpener(text[i])
      invariant inMarker ==> lastBorder < curPos && markerOpener == text[lastBorder] && IsOpener(markerOpener)
      invariant inMarker ==> forall i :: lastBorder <= i < curPos ==> !IsCloser(markerOpener, text[i])
    {
      ghost var rest, n := text[lastBorder..], curPos - lastBorder;
      if !inMarker && IsOpener(text[curPos]) {
        if lastBorder < curPos {
          CutText(rest, n);
          assert rest[..n] == text[lastBorder..curPos] && rest[n..] == text[curPos..];
          retval := retval + [Segment(TEXT, text[lastBorder..curPos])];
        }
        lastBorder := curPos;
        inMarker := true;
        markerOpener := text[curPos];
      } else if inMarker && IsCloser(markerOpener, text[curPos]) {
        CutMarker(rest, n);
        assert rest[..n + 1] == text[lastBorder..curPos + 1] && rest[n + 1..] == text[curPos + 1..];
        retval := retval + [Segment(MARKER, text[lastBorder..curPos + 1])];
        lastBorder := curPos + 1;
        inMarker := false;
        markerOpener := '\0';
      }
    }
    ghost var rest := text[lastBorder..];
    NothingLeft();
    if lastBorder < |text| {
      if inMarker {
        CutTail(rest);
      } else {
        CutText(rest, |rest|);
        assert rest[..|rest|] == rest && rest[|rest|..] == [];
      }
      retval := retval + [Segment(TEXT, text[lastBorder..])];
    } else {
      assert rest == [];
    }
  }

  lemma NothingLeft()
    ensures Segments([]) == []
  {
  }

  /** `a[b]<c>` is text and two markers. */
  lemma MarkersExample()
    ensures Segments("a" + ("[b]" + "<c>")) == [Segment(TEXT, "a"), Segment(MARKER, "[b]"), Segment(MARKER, "<c>")]
  {
    hide Segments;
    var markers := "[b]" + "<c>";
    CutText("a" + markers, 1);
    assert ("a" + markers)[..1] == "a" && ("a" + markers)[1..] == markers;
    CutMarker(markers, 2);
    assert markers[..3] == "[b]" && markers[3..] == "<c>";
    CutMarker("<c>", 2);
    assert "<c>"[..3] == "<c>" && "<c>"[3..] == "";
    NothingLeft();
  }
}
