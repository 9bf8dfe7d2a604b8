/**
 `gemma4_to_json`: the arguments of a tool call written in Gemma's own syntax are
 printed as JSON from the parse tree, again and again while the text arrives. What
 has been printed must never have to be taken back.
 */
module GemmaRender {
  import opened JsonScan
  import opened JsonText
  import opened JsonValue
  import opened Wrappers

  datatype Rule =
    | Number | Bool | Null
    | StringContent | StringRule
    | ArrayRule
    | KeyName | Key | KeyValue | Dict
    | ValueRule
    | OtherRule

  /** A node of the parse tree: the text it covers, its parts, and whether the input ended inside it. */
  datatype Node = Node(rule: Rule, text: string, children: seq<Node>, partial: bool)

  function Render(n: Node): string
    decreases n, |n.children| + 2
  {
    if n.text == "" then ""
    else match n.rule
      case Number | Bool | Null => n.text
      case StringContent => Escape(n.text)
      case StringRule =>
        if n.children == [] then "\""
        else "\"" + Render(n.children[0]) + if n.partial then "" else "\""
      case ArrayRule => "[" + Joined(n, 0, ",") + if n.partial then "" else "]"
      case KeyName => n.text
      case Key =>
        "\"" + (if n.children == [] then "" else Escape(Render(n.children[0]))) + if n.partial then "" else "\":"
      case KeyValue => Joined(n, 0, "")
      case Dict => "{" + Joined(n, 0, ",") + if n.partial then "" else "}"
      case ValueRule => if n.children == [] then "" else Render(n.children[0])
      case OtherRule => ""
  }

  /** The parts of a node from the `i`-th on, with a separator before each but the first. */
  function Joined(n: Node, i: nat, sep: string): string
    requires i <= |n.children|
    decreases n, |n.children| - i + 1
  {
    if i == |n.children| then ""
    else (if i > 0 then sep else "") + Render(n.children[i]) + Joined(n, i + 1, sep)
  }

  // ----- an earlier tree of the same text

  /** `p` is `f` with everything to the right of some point missing: nodes the cut runs through are partial. */
  ghost predicate Cut(p: Node, f: Node)
    decreases p
  {
    p == f ||
    (&& p.partial && p.rule == f.rule && p.text <= f.text
     && |p.children| <= |f.children|
     && (forall i :: 0 <= i < |p.children| - 1 ==> p.children[i] == f.children[i])
     && (p.children != [] ==> var k := |p.children| - 1; Cut(p.children[k], f.children[k])))
  }

  lemma EscapeMonotone(a: string, b: string)
    requires a <= b
    ensures Escape(a) <= Escape(b)
  {
    assert b == a + b[|a|..];
    EscapeAppend(a, b[|a|..]);
  }

  /** Nothing printed has to be taken back: an earlier tree prints a prefix of what a later one prints. */
  lemma {:induction false} Streaming(p: Node, f: Node)
    requires Cut(p, f)
    ensures Render(p) <= Render(f)
    decreases p, |p.children| + 2
  {
    hide Escape, Joined;
    if p != f && p.text != "" {
      if p.children != [] {
        var k := |p.children| - 1;
        Streaming(p.children[k], f.children[k]);
        Streaming(p.children[0], f.children[0]);
        EscapeMonotone(Render(p.children[0]), Render(f.children[0]));
      }
      EscapeMonotone(p.text, f.text);
      StreamingJoined(p, f, 0, ",");
      StreamingJoined(p, f, 0, "");
    }
  }

  lemma {:induction false} StreamingJoined(p: Node, f: Node, i: nat, sep: string)
    requires Cut(p, f) && p != f && i <= |p.children|
    ensures Joined(p, i, sep) <= Joined(f, i, sep)
    decreases p, |p.children| - i + 1
  {
    if i < |p.children| {
      Streaming(p.children[i], f.children[i]);
      StreamingJoined(p, f, i + 1, sep);
      if i == |p.children| - 1 {
        assert Joined(p, i + 1, sep) == "";
      }
    }
  }

  /** What an unfinished node shows already: its opening quote or bracket, and then what its parts show. */
  lemma Unfinished(n: Node)
    requires n.partial && n.text != ""
    ensures n.rule == StringRule ==> Render(n) == "\"" + if n.children == [] then "" else Render(n.children[0])
    ensures n.rule == ArrayRule ==> Render(n) == "[" + Joined(n, 0, ",")
    ensures n.rule == Dict ==> Render(n) == "{" + Joined(n, 0, ",")
    ensures n.rule == Key ==> Render(n) == "\"" + if n.children == [] then "" else Escape(Render(n.children[0]))
    ensures n.rule == OtherRule ==> Render(n) == ""
  {
  }

  // ----- what the complete tree prints

  predicate Complete(n: Node, rule: Rule, parts: nat) {
    n.rule == rule && !n.partial && n.text != "" && |n.children| == parts
  }

  /** The complete tree of a value, as the grammar builds it. */
  ghost predicate Spells(n: Node, v: Json)
    decreases v, Width(v) + 2
  {
    && Complete(n, ValueRule, 1)
    && var c := n.children[0];
       match v
       case Raw(t) => c.rule in {Number, Bool, Null} && c.text == t && t != ""
       case Text(t) => Complete(c, StringRule, 1) && c.children[0].rule == StringContent && c.children[0].text == t
       case List(es) => Complete(c, ArrayRule, |es|) && forall i :: 0 <= i < |es| ==> Spells(c.children[i], es[i])
       case Record(ms) => Complete(c, Dict, |ms|) && forall i :: 0 <= i < |ms| ==> SpellsMember(c.children[i], v, i)
  }

  ghost predicate SpellsMember(n: Node, v: Json, i: nat)
    requires v.Record? && i < Width(v)
    decreases v, 0
  {
    && Complete(n, KeyValue, 2)
    && Complete(n.children[0], Key, 1)
    && n.children[0].children[0].rule == KeyName && n.children[0].children[0].text == v.members[i].key
    && Spells(n.children[1], v.members[i].value)
  }

  /** The complete tree prints the value. */
  lemma {:induction false} PrintsValue(n: Node, v: Json)
    requires Spells(n, v)
    ensures Render(n) == Print(v)
    decreases v, Width(v) + 2
  {
    var c := n.children[0];
    if v.Text? {
      assert Render(c) == Quoted(v.text);
    } else if !v.Raw? {
      PrintsItems(c, v, 0);
    }
  }

  /** So a JSON reader gets the value back from what was rendered. */
  lemma ReadsBack(n: Node, v: Json)
    requires Spells(n, v) && Worded(v)
    ensures ReadValue(Render(n)) == Some(Got(v, ""))
  {
    hide *;
    PrintsValue(n, v);
    NothingBehind();
    PrintReads(v, "");
    assert Print(v) + "" == Print(v);
  }

  lemma NothingBehind()
    ensures Ends("")
  {
  }

  lemma {:induction false} PrintsItems(c: Node, v: Json, i: nat)
    requires v.List? || v.Record?
    requires |c.children| == Width(v) && i <= Width(v)
    requires v.List? ==> forall k :: 0 <= k < Width(v) ==> Spells(c.children[k], v.elements[k])
    requires v.Record? ==> forall k :: 0 <= k < Width(v) ==> SpellsMember(c.children[k], v, k)
    ensures Joined(c, i, ",") == PrintItems(v, i)
    decreases v, Width(v) - i + 1
  {
    if i < Width(v) {
      if v.List? {
        PrintsValue(c.children[i], v.elements[i]);
      } else {
        PrintsMember(c.children[i], v, i);
      }
      PrintsItems(c, v, i + 1);
    }
  }

  lemma {:induction false} PrintsMember(n: Node, v: Json, i: nat)
    requires v.Record? && i < Width(v) && SpellsMember(n, v, i)
    ensures Render(n) == PrintItem(v, i)
    decreases v, 0
  {
    hide Print, Quoted, Escape;
    PrintsValue(n.children[1], v.members[i].value);
    PrintsKey(n.children[0], v.members[i].key);
    JoinedPair(n, "");
    assert Render(n) == Render(n.children[0]) + Render(n.children[1]);
  }

  lemma PrintsKey(n: Node, key: string)
    requires Complete(n, Key, 1) && n.children[0].rule == KeyName && n.children[0].text == key
    ensures Render(n) == Quoted(key) + ":"
  {
    assert Render(n.children[0]) == key;
    assert Render(n) == "\"" + Escape(key) + "\":";
    assert "\":" == "\"" + ":";
  }

  lemma JoinedPair(n: Node, sep: string)
    requires |n.children| == 2
    ensures Joined(n, 0, sep) == Render(n.children[0]) + sep + Render(n.children[1])
  {
    assert Joined(n, 2, sep) == "";
    assert Joined(n, 1, sep) == sep + Render(n.children[1]);
  }

  /** Every tree seen while the value arrives prints a beginning of the value's JSON text. */
  lemma EverySnapshot(p: Node, f: Node, v: Json)
    requires Cut(p, f) && Spells(f, v)
    ensures Render(p) <= Print(v)
  {
    Streaming(p, f);
    PrintsValue(f, v);
  }
}
