/**
 What an argument list means: the arguments text of a call is read back, as JSON, as the object
 of its arguments. And the events that are no string arguments: values of any other kind, ids
 and complete argument objects.
 */
module ToolCallValues {
  import opened Sequences
  import opened Wrappers
  import opened JsonScan
  import opened JsonText
  import opened JsonValue
  import opened ToolCalls
  import opened ToolCallText
  import opened Quotes = QuoteNormalizer
  import QuoteMeaning

  // ----- string arguments

  function ObjectOf(args: seq<Arg>): (v: Json)
    ensures v.Record? && |v.members| == |args|
  {
    Record(seq(|args|, i requires 0 <= i < |args| => Member(Trim(args[i].name), Text(TrimOne(args[i].value)))))
  }

  lemma MemberIsItem(args: seq<Arg>, i: nat)
    requires i < |args|
    ensures PrintItem(ObjectOf(args), i) == Quoted(Trim(args[i].name)) + ":" + Quoted(TrimOne(args[i].value))
  {
    hide Quoted, Trim, TrimOne;
    assert ObjectOf(args).members[i] == Member(Trim(args[i].name), Text(TrimOne(args[i].value)));
  }

  lemma FirstMember(args: seq<Arg>, k: nat)
    requires args != []
    ensures Members(args, k) ==
              (if k > 0 then "," else "") + (Quoted(Trim(args[0].name)) + ":" + Quoted(TrimOne(args[0].value))) + Members(args[1..], k + 1)
  {
    hide Quoted, Trim, TrimOne;
    var comma, key, v, rest := if k > 0 then "," else "", Quoted(Trim(args[0].name)), Quoted(TrimOne(args[0].value)), Members(args[1..], k + 1);
    assert comma + key + ":" + v + rest == comma + (key + ":" + v) + rest;
  }

  lemma {:induction false} MembersAreItems(args: seq<Arg>, i: nat)
    requires i <= |args|
    ensures Members(args[i..], i) == PrintItems(ObjectOf(args), i)
    decreases |args| - i
  {
    hide Quoted, Trim, TrimOne, PrintItem, ObjectOf;
    if i < |args| {
      MembersAreItems(args, i + 1);
      assert args[i..][1..] == args[i + 1..];
      FirstMember(args[i..], i);
      MemberIsItem(args, i);
    } else {
      assert args[i..] == [];
    }
  }

  /** The arguments of a call, read as JSON, are the trimmed names and values that were spoken. */
  lemma CallReadsBack(parse: string -> Parsed, s: State, c: Spoken)
    requires Valid(s) && ToolCallText.Proper(c)
    ensures Safe(parse, s, EventsOf(c))
    ensures var calls := Run(parse, s, EventsOf(c)).calls;
            && |calls| == |s.calls| + 1
            && ReadValue(calls[|s.calls|].arguments) == Some(Got(ObjectOf(c.args), ""))
  {
    hide *;
    CallAdds(parse, s, c);
    PrintedReads(c.args);
    CallIs(c);
  }

  lemma CallIs(c: Spoken)
    ensures CallOf(c).arguments == Printed(c.args)
  {
  }

  lemma PrintedReads(args: seq<Arg>)
    ensures ReadValue(Printed(args)) == Some(Got(ObjectOf(args), ""))
  {
    var v := ObjectOf(args);
    MembersAreItems(args, 0);
    assert args[0..] == args;
    assert Printed(args) == Print(v) == Print(v) + "";
    assert Worded(v);
    hide *;
    NothingEnds();
    PrintReads(v, "");
  }

  lemma NothingEnds()
    ensures Ends("")
  {
  }

  // ----- values that are not declared strings

  /** The JSON library on the text of a value. */
  predicate Understands(parse: string -> Parsed, v: Json) {
    parse(Print(v)) == if v.Text? then JsonString(Quoted(v.text)) else JsonOther
  }

  lemma QuotedEnds(t: string)
    ensures |Quoted(t)| >= 2 && Quoted(t)[0] == '"' && Quoted(t)[|Quoted(t)| - 1] == '"'
    ensures Quoted(t)[..|Quoted(t)| - 1] + "\"" == Quoted(t)
  {
  }

  lemma NoSpaceAround(v: Json)
    requires Worded(v)
    ensures Print(v) != "" && !IsSpace(Print(v)[0]) && !IsSpace(Print(v)[|Print(v)| - 1])
  {
    hide Quoted, PrintItems;
    if v.Text? {
      QuotedEnds(v.text);
    }
  }

  /** What a complete value prints, up to the quote a string still needs. */
  lemma ValueShown(parse: string -> Parsed, v: Json, partial: bool)
    requires Worded(v) && Understands(parse, v)
    ensures var (more, quote) := PlainValue(parse, Print(v), partial, false);
            more + (if quote then "\"" else "") == Print(v) && quote == v.Text?
  {
    NoSpaceAround(v);
    TrimmedOne(Print(v));
    QuoteMeaning.PrintStays(v, "");
    NothingNormalized(Outside);
    assert Print(v) + "" == Print(v);
    hide Print, Normalized, TrimOne, Worded;
    assert TrimOne(Print(v)) == Print(v);
    if v.Text? {
      TextPrint(v);
      QuotedEnds(v.text);
    }
    hide Quoted;
  }

  lemma TextPrint(v: Json)
    requires v.Text?
    ensures Print(v) == Quoted(v.text)
  {
  }

  /** A value that is not JSON is printed as a string; of an unfinished container, what has arrived, without a quote. */
  lemma NotJsonShown(parse: string -> Parsed, text: string, partial: bool)
    ensures var w := TrimOne(text);
            var container := w != "" && (w[0] == '[' || w[0] == '{');
            var shown := if container then Normalized(Outside, w) else w;
            var (more, quote) := PlainValue(parse, text, partial, false);
            && (w == "" ==> more == "" && !quote)
            && (w != "" && parse(shown) == NotJson && !(partial && container) ==> quote && more + "\"" == Quoted(shown))
            && (w != "" && parse(shown) == NotJson && partial && container ==> !quote && more == shown)
            && (w != "" && parse(shown) == JsonOther ==> !quote && more == shown)
  {
    hide Normalized, TrimOne, Escape;
  }

  datatype Given =
    | Declared(key: string, text: string)   // its schema says string
    | Inferred(key: string, value: Json)

  function EventsFor(g: Given): seq<Event> {
    if g.Declared? then OneArg(Arg(g.key, g.text))
    else [ArgOpen, ArgName(g.key), ArgValue(Print(g.value), false), ArgClose]
  }

  function AllEventsFor(gs: seq<Given>): seq<Event> {
    if gs == [] then [] else EventsFor(gs[0]) + AllEventsFor(gs[1..])
  }

  function MemberOf(g: Given): Member {
    Member(Trim(g.key), if g.Declared? then Text(TrimOne(g.text)) else g.value)
  }

  function RecordOf(gs: seq<Given>): (v: Json)
    ensures v.Record? && |v.members| == |gs| && forall i :: 0 <= i < |gs| ==> v.members[i] == MemberOf(gs[i])
  {
    Record(seq(|gs|, i requires 0 <= i < |gs| => MemberOf(gs[i])))
  }

  predicate Clear(parse: string -> Parsed, g: Given) {
    g.Inferred? ==> Worded(g.value) && Understands(parse, g.value)
  }

  lemma StepValue(parse: string -> Parsed, s: State, name: string, a: Acc, text: string)
    requires name != ""
    ensures Valid(NamedAs(s, name, a)) && Usable(NamedAs(s, name, a), ArgValue(text, false))
    ensures var (more, quote) := PlainValue(parse, text, false, a.quote);
            Step(parse, NamedAs(s, name, a), ArgValue(text, false)) == NamedAs(s, name, Acc(a.text + more, a.count, quote))
  {
    hide PlainValue;
  }

  lemma RunCons(parse: string -> Parsed, s: State, e: Event, rest: seq<Event>)
    requires Valid(s) && Usable(s, e) && Valid(Step(parse, s, e)) && Safe(parse, Step(parse, s, e), rest)
    ensures Safe(parse, s, [e] + rest) && Run(parse, s, [e] + rest) == Run(parse, Step(parse, s, e), rest)
  {
    assert ([e] + rest)[1..] == rest;
  }

  lemma EntrySteps(a: Acc, key: string)
    requires a.text != ""
    ensures AccStep(AccStep(a, ArgOpen), ArgName(key)) == Acc(a.text + Entry(a.count, key), a.count + 1, false)
  {
    hide Entry;
  }

  lemma CloseStep(a: Acc)
    ensures AccStep(a, ArgClose) == Acc(a.text + (if a.quote then "\"" else ""), a.count, false)
  {
    assert a.text + "" == a.text;
  }

  /** The four events of an inferred argument, on the text. */
  lemma InferredSteps(parse: string -> Parsed, a: Acc, g: Given)
    requires g.Inferred? && Clear(parse, g) && a.text != "" && !a.quote
    ensures var a2 := AccStep(AccStep(a, ArgOpen), ArgName(g.key));
            var (more, quote) := PlainValue(parse, Print(g.value), false, a2.quote);
            AccStep(Acc(a2.text + more, a2.count, quote), ArgClose)
            == Acc(a.text + (Entry(a.count, g.key) + Print(g.value)), a.count + 1, false)
  {
    hide PlainValue, Entry, Print, Worded, Understands, AccStep;
    ValueShown(parse, g.value, false);
    EntrySteps(a, g.key);
    var (more, quote) := PlainValue(parse, Print(g.value), false, false);
    var entry, tail := Entry(a.count, g.key), if quote then "\"" else "";
    CloseStep(Acc(a.text + entry + more, a.count + 1, quote));
    assert a.text + entry + more + tail == a.text + (entry + (more + tail));
  }

  lemma InferredArg(parse: string -> Parsed, s: State, name: string, a: Acc, g: Given)
    requires name != "" && g.Inferred? && Clear(parse, g) && a.text != "" && !a.quote
    ensures Valid(NamedAs(s, name, a)) && Safe(parse, NamedAs(s, name, a), EventsFor(g))
    ensures Run(parse, NamedAs(s, name, a), EventsFor(g))
            == NamedAs(s, name, Acc(a.text + (Entry(a.count, g.key) + Print(g.value)), a.count + 1, false))
  {
    var text := Print(g.value);
    var a1 := AccStep(a, ArgOpen);
    var a2 := AccStep(a1, ArgName(g.key));
    var (more, quote) := PlainValue(parse, text, false, a2.quote);
    var a3 := Acc(a2.text + more, a2.count, quote);
    InferredSteps(parse, a, g);
    hide AccStep, Step, Run, Safe, NamedAs, PlainValue, Entry, Print;
    StepNamed(parse, s, name, a, ArgOpen);
    StepNamed(parse, s, name, a1, ArgName(g.key));
    StepValue(parse, s, name, a2, text);
    StepNamed(parse, s, name, a3, ArgClose);
    RunOne(parse, NamedAs(s, name, a3), ArgClose);
    StepNamed(parse, s, name, AccStep(a3, ArgClose), ArgOpen);
    RunCons(parse, NamedAs(s, name, a2), ArgValue(text, false), [ArgClose]);
    RunCons(parse, NamedAs(s, name, a1), ArgName(g.key), [ArgValue(text, false)] + [ArgClose]);
    RunCons(parse, NamedAs(s, name, a), ArgOpen, [ArgName(g.key)] + ([ArgValue(text, false)] + [ArgClose]));
    assert EventsFor(g) == [ArgOpen] + ([ArgName(g.key)] + ([ArgValue(text, false)] + [ArgClose]));
  }

  lemma DeclaredArg(parse: string -> Parsed, s: State, name: string, a: Acc, g: Given)
    requires name != "" && g.Declared? && a.text != "" && !a.quote
    ensures Valid(NamedAs(s, name, a)) && Safe(parse, NamedAs(s, name, a), EventsFor(g))
    ensures Run(parse, NamedAs(s, name, a), EventsFor(g))
            == NamedAs(s, name, Acc(a.text + (Entry(a.count, g.key) + Quoted(TrimOne(g.text))), a.count + 1, false))
  {
    hide AccRun, Run, Safe, NamedAs, Entry, Quoted, TrimOne;
    ArgPrints(a, Arg(g.key, g.text));
    RunNamed(parse, s, name, a, OneArg(Arg(g.key, g.text)));
  }

  lemma GivenArg(parse: string -> Parsed, s: State, name: string, a: Acc, gs: seq<Given>, i: nat)
    requires name != "" && i < |gs| && Clear(parse, gs[i]) && a.text != "" && !a.quote && a.count == i
    ensures Valid(NamedAs(s, name, a)) && Safe(parse, NamedAs(s, name, a), EventsFor(gs[i]))
    ensures Run(parse, NamedAs(s, name, a), EventsFor(gs[i]))
            == NamedAs(s, name, Acc(a.text + ((if i > 0 then "," else "") + PrintItem(RecordOf(gs), i)), i + 1, false))
  {
    hide Run, Safe, NamedAs, Quoted, Trim, TrimOne, EventsFor, Clear;
    var comma, key, g := if i > 0 then "," else "", Quoted(Trim(gs[i].key)), gs[i];
    if g.Declared? {
      DeclaredArg(parse, s, name, a, g);
      assert (comma + key + ":") + Quoted(TrimOne(g.text)) == comma + (key + ":" + Quoted(TrimOne(g.text)));
    } else {
      InferredArg(parse, s, name, a, g);
      assert (comma + key + ":") + Print(g.value) == comma + (key + ":" + Print(g.value));
    }
  }

  lemma FirstGiven(gs: seq<Given>, i: nat)
    requires i < |gs|
    ensures AllEventsFor(gs[i..]) == EventsFor(gs[i]) + AllEventsFor(gs[i + 1..])
    ensures PrintItems(RecordOf(gs), i) ==
              ((if i > 0 then "," else "") + PrintItem(RecordOf(gs), i)) + PrintItems(RecordOf(gs), i + 1)
  {
    hide EventsFor, PrintItem;
    assert gs[i..][1..] == gs[i + 1..];
  }

  lemma NoneGiven(parse: string -> Parsed, s: State, gs: seq<Given>)
    requires Valid(s)
    ensures AllEventsFor(gs[|gs|..]) == [] && PrintItems(RecordOf(gs), |gs|) == ""
    ensures Safe(parse, s, []) && Run(parse, s, []) == s
  {
  }

  lemma NamedValid(s: State, name: string, a: Acc)
    ensures Valid(NamedAs(s, name, a))
  {
  }

  /** The arguments from the i-th one on print the members from the i-th one on. */
  lemma {:induction false} GivenArgs(parse: string -> Parsed, s: State, name: string, a: Acc, gs: seq<Given>, i: nat)
    requires name != "" && i <= |gs| && (forall k :: 0 <= k < |gs| ==> Clear(parse, gs[k])) && a.text != "" && !a.quote && a.count == i
    ensures Valid(NamedAs(s, name, a)) && Safe(parse, NamedAs(s, name, a), AllEventsFor(gs[i..]))
    ensures Run(parse, NamedAs(s, name, a), AllEventsFor(gs[i..]))
            == NamedAs(s, name, Acc(a.text + PrintItems(RecordOf(gs), i), |gs|, false))
    decreases |gs| - i
  {
    hide Run, Safe, NamedAs, Valid, Clear, EventsFor, AllEventsFor, PrintItem, PrintItems, RecordOf;
    NamedValid(s, name, a);
    if i == |gs| {
      NoneGiven(parse, NamedAs(s, name, a), gs);
      assert a.text + "" == a.text;
    } else {
      var item := (if i > 0 then "," else "") + PrintItem(RecordOf(gs), i);
      FirstGiven(gs, i);
      GivenArg(parse, s, name, a, gs, i);
      GivenArgs(parse, s, name, Acc(a.text + item, i + 1, false), gs, i + 1);
      RunAppend(parse, NamedAs(s, name, a), EventsFor(gs[i]), AllEventsFor(gs[i + 1..]));
      Assoc(a.text, item, PrintItems(RecordOf(gs), i + 1));
    }
  }

  lemma RecordCloses(v: Json)
    requires v.Record? && Worded(v)
    ensures Closed("{" + PrintItems(v, 0), false) == Print(v)
  {
    hide PrintItems;
    var st := SCAN_START.(depth := 1);
    OneChar(SCAN_START, '{');
    OverAppend(SCAN_START, "{", PrintItems(v, 0));
    WordsArePlain(v);
    BalancedItems(st, v, 0);
    assert Braces(1) == "}" + Braces(0) == "}";
  }

  /**
   Arguments of any kind: the call appears with exactly the JSON object of its arguments, and
   a JSON reader gets the names and values back.
   */
  lemma ValuesPrint(parse: string -> Parsed, s: State, nameText: string, gs: seq<Given>)
    requires Valid(s) && TrimTrailing(nameText, -1) != "" && forall k :: 0 <= k < |gs| ==> Clear(parse, gs[k])
    ensures var evs := [Open] + [Name(nameText)] + AllEventsFor(gs) + [Close];
            && Safe(parse, s, evs)
            && Run(parse, s, evs).calls == s.calls + [ToolCall(TrimTrailing(nameText, -1), "", Print(RecordOf(gs)))]
    ensures ReadValue(Print(RecordOf(gs))) == Some(Got(RecordOf(gs), ""))
  {
    hide *;
    var name, v := TrimTrailing(nameText, -1), RecordOf(gs);
    ClearIsWorded(parse, gs);
    ReadsItself(v);
    StartNamed(parse, s, nameText);
    Whole(gs);
    GivenArgs(parse, s, name, Acc("{", 0, false), gs, 0);
    RunAppend(parse, s, [Open] + [Name(nameText)], AllEventsFor(gs));
    RecordCloses(v);
    CloseNamed(parse, s, name, Acc("{" + PrintItems(v, 0), |gs|, false));
    RunAppend(parse, s, [Open] + [Name(nameText)] + AllEventsFor(gs), [Close]);
    CallsOf(s, name, Acc(Print(v), |gs|, false));
  }

  lemma Whole<T>(s: seq<T>)
    ensures s[0..] == s
  {
  }

  lemma CallsOf(s: State, name: string, a: Acc)
    ensures NamedAs(s, name, a).calls == s.calls + [ToolCall(name, "", a.text)]
  {
  }

  lemma ReadsItself(v: Json)
    requires Worded(v)
    ensures ReadValue(Print(v)) == Some(Got(v, ""))
  {
    hide *;
    NothingEnds();
    PrintReads(v, "");
    assert Print(v) + "" == Print(v);
  }

  lemma ClearIsWorded(parse: string -> Parsed, gs: seq<Given>)
    requires forall k :: 0 <= k < |gs| ==> Clear(parse, gs[k])
    ensures Worded(RecordOf(gs)) && RecordOf(gs).Record?
  {
    hide Understands, Trim, TrimOne;
    var v := RecordOf(gs);
    forall m | m in v.members
      ensures Worded(m.value)
    {
      var i :| 0 <= i < |v.members| && v.members[i] == m;
      assert Clear(parse, gs[i]) && v.members[i] == MemberOf(gs[i]);
    }
  }

  lemma StartNamed(parse: string -> Parsed, s: State, nameText: string)
    requires Valid(s)
    ensures Safe(parse, s, [Open] + [Name(nameText)])
    ensures Run(parse, s, [Open] + [Name(nameText)]) == NamedAs(s, TrimTrailing(nameText, -1), Acc("{", 0, false))
  {
    hide Run, Safe, TrimTrailing;
    RunOne(parse, s, Open);
    var a := Acc("", 0, false);
    assert Step(parse, s, Open) == Unnamed(s, a);
    NameArrives(parse, s, nameText, a);
    RunAppend(parse, s, [Open], [Name(nameText)]);
  }

  // ----- ids and complete argument objects

  /** An id stays without the space behind it and without one pair of quotes around it. */
  lemma IdArrives(parse: string -> Parsed, s: State, id: string, spaces: string, quoted: bool)
    requires Valid(s) && HasTool(s) && forall i :: 0 <= i < |spaces| ==> IsSpace(spaces[i])
    requires quoted || (id != "" && !IsSpace(id[|id| - 1]) && !(|id| >= 2 && id[0] == '"' && id[|id| - 1] == '"')) || id == ""
    ensures var text := (if quoted then "\"" + id + "\"" else id) + spaces;
            && Usable(s, Id(text)) && Valid(Step(parse, s, Id(text)))
            && HasTool(Step(parse, s, Id(text)))
            && Current(Step(parse, s, Id(text))) == Current(s).(id := id)
  {
    var x := if quoted then "\"" + id + "\"" else id;
    BehindCut(x, spaces);
    hide TrimTrailing;
    if quoted {
      assert x[1..|x| - 1] == id;
    }
  }

  lemma {:induction false} BehindCut(x: string, spaces: string)
    requires forall i :: 0 <= i < |spaces| ==> IsSpace(spaces[i])
    requires x == "" || !IsSpace(x[|x| - 1])
    ensures TrimTrailing(x + spaces, -1) == x
    decreases |spaces|
  {
    if spaces == "" {
      assert x + spaces == x;
    } else {
      var s := x + spaces;
      assert s[..|s| - 1] == x + spaces[..|spaces| - 1];
      BehindCut(x, spaces[..|spaces| - 1]);
    }
  }

  /** A complete argument object, before or after the name, is the call's arguments, with the braces it lacks; anything else is no argument object. */
  lemma ObjectArrives(parse: string -> Parsed, s: State, nameText: string, text: string, nameFirst: bool)
    requires Valid(s) && TrimTrailing(nameText, -1) != ""
    requires text != "" && text[0] == '{' && !IsSpace(text[|text| - 1])
    ensures var evs := [Open] + (if nameFirst then [Name(nameText)] + [Args(text)] else [Args(text)] + [Name(nameText)]) + [Close];
            var depth := Over(SCAN_START, text).depth;
            && Safe(parse, s, evs)
            && Run(parse, s, evs).calls ==
                 s.calls + [ToolCall(TrimTrailing(nameText, -1), "", text + Braces(if depth > 0 then depth else 0))]
  {
    hide TrimTrailing, Braces, Run, Safe, Over;
    var name := TrimTrailing(nameText, -1);
    BehindCut(text, "");
    assert text + "" == text;
    RunOne(parse, s, Open);
    var u, a := Unnamed(s, Acc("", 0, false)), Acc(text, 0, false);
    assert Step(parse, s, Open) == u;
    if nameFirst {
      StartNamed(parse, s, nameText);
      ObjectNamed(parse, s, name, text);
      RunAppend(parse, s, [Open] + [Name(nameText)], [Args(text)]);
      assert [Open] + [Name(nameText)] + [Args(text)] == [Open] + ([Name(nameText)] + [Args(text)]);
    } else {
      ObjectUnnamed(parse, s, text);
      NameArrives(parse, s, nameText, a);
      RunAppend(parse, s, [Open], [Args(text)]);
      RunAppend(parse, s, [Open] + [Args(text)], [Name(nameText)]);
      assert [Open] + [Args(text)] + [Name(nameText)] == [Open] + ([Args(text)] + [Name(nameText)]);
    }
    CloseNamed(parse, s, name, a);
    RunAppend(parse, s, [Open] + (if nameFirst then [Name(nameText)] + [Args(text)] else [Args(text)] + [Name(nameText)]), [Close]);
    ClosedIs(text);
    CallsOf(s, name, Acc(Closed(text, false), 0, false));
  }

  lemma ClosedIs(text: string)
    ensures var depth := Over(SCAN_START, text).depth;
            Closed(text, false) == text + Braces(if depth > 0 then depth else 0)
  {
    hide Over;
  }

  lemma ObjectNamed(parse: string -> Parsed, s: State, name: string, text: string)
    requires name != "" && text != "" && text[0] == '{' && TrimTrailing(text, -1) == text
    ensures var n := NamedAs(s, name, Acc("{", 0, false));
            Valid(n) && Safe(parse, n, [Args(text)]) && Run(parse, n, [Args(text)]) == NamedAs(s, name, Acc(text, 0, false))
  {
    hide TrimTrailing;
    RunOne(parse, NamedAs(s, name, Acc("{", 0, false)), Args(text));
  }

  lemma ObjectUnnamed(parse: string -> Parsed, s: State, text: string)
    requires text != "" && text[0] == '{' && TrimTrailing(text, -1) == text
    ensures var u := Unnamed(s, Acc("", 0, false));
            Valid(u) && Safe(parse, u, [Args(text)]) && Run(parse, u, [Args(text)]) == Unnamed(s, Acc(text, 0, false))
  {
    hide TrimTrailing;
    RunOne(parse, Unnamed(s, Acc("", 0, false)), Args(text));
  }

  /** Text that does not begin with a brace is no argument object and changes nothing. */
  lemma NoObject(parse: string -> Parsed, s: State, text: string)
    requires Valid(s) && HasTool(s) && (text == "" || text[0] != '{')
    ensures Usable(s, Args(text)) && Step(parse, s, Args(text)) == s
  {
    TrimmedBehind(text, -1);
    hide TrimTrailing;
  }

  // ----- a call whose end comes early

  lemma {:induction false} BracesClose(st: Scan, n: nat)
    requires !st.inString && !st.escaped
    ensures Over(st, Braces(n)) == st.(depth := st.depth - n)
    decreases n
  {
    if n > 0 {
      BracesClose(st.(depth := st.depth - 1), n - 1);
      assert Braces(n)[1..] == Braces(n - 1);
    }
  }

  /** Closing leaves no brace open, unless the text ends inside a string. */
  lemma ClosedIsClosed(text: string)
    ensures var st := Over(SCAN_START, text);
            !st.inString && !st.escaped ==> Over(SCAN_START, Closed(text, false)).depth == if st.depth > 0 then 0 else st.depth
  {
    hide Over, Braces;
    var st := Over(SCAN_START, text);
    if !st.inString && !st.escaped && st.depth > 0 {
      OverAppend(SCAN_START, text, Braces(st.depth));
      BracesClose(st, st.depth);
    }
    assert text + "" == text;
  }

  /** A string argument whose closing event is missing is closed with the call: the text is the same. */
  lemma QuoteClosed(text: string)
    ensures Closed(text, true) == Closed(text + "\"", false)
  {
    hide Over, Braces;
  }

  /** A string value in two pieces is one string; a piece that is empty adds a quote, even behind another piece. */
  lemma TwoPieces(a: Acc, x: string, y: string)
    requires !a.quote && TrimOne(x) != ""
    ensures var b := AccStep(AccStep(a, ArgStringValue(x)), ArgStringValue(y));
            && b.quote
            && (TrimOne(y) != "" ==> b.text == a.text + ("\"" + Escape(TrimOne(x) + TrimOne(y))))
            && (TrimOne(y) == "" ==> b.text == a.text + Quoted(TrimOne(x)))
  {
    var v, w := TrimOne(x), TrimOne(y);
    EscapeAppend(v, w);
    hide TrimOne, Escape;
    assert a.text + ("\"" + Escape(v)) + Escape(w) == a.text + ("\"" + (Escape(v) + Escape(w)));
    assert a.text + ("\"" + Escape(v)) + "\"" == a.text + ("\"" + Escape(v) + "\"");
  }

  /** A second name replaces the first; the arguments stay. */
  lemma SecondName(parse: string -> Parsed, s: State, name: string, a: Acc, text: string)
    requires name != "" && a.text != ""
    ensures Valid(NamedAs(s, name, a)) && Usable(NamedAs(s, name, a), Name(text))
    ensures Step(parse, NamedAs(s, name, a), Name(text)) == NamedAs(s, TrimTrailing(text, -1), a)
  {
    hide TrimTrailing;
  }

  // ----- what is not a tool call

  /** The texts of the content events and of the reasoning events, in order. */
  function TextOf(evs: seq<Event>, content: bool): string {
    if evs == [] then ""
    else (if (if content then evs[0].Content? else evs[0].Reasoning?) then evs[0].text else "") + TextOf(evs[1..], content)
  }

  /** Content and reasoning are the texts of their events, put together in order; tool events do not touch them. */
  lemma {:induction false} ContentInOrder(parse: string -> Parsed, s: State, evs: seq<Event>)
    requires Valid(s) && Safe(parse, s, evs)
    ensures Run(parse, s, evs).content == s.content + TextOf(evs, true)
    ensures Run(parse, s, evs).reasoning == s.reasoning + TextOf(evs, false)
    decreases |evs|
  {
    if evs == [] {
      assert s.content + "" == s.content && s.reasoning + "" == s.reasoning;
    } else {
      StepValid(parse, s, evs[0]);
      ContentStep(parse, s, evs[0]);
      var t := Step(parse, s, evs[0]);
      ContentInOrder(parse, t, evs[1..]);
      hide Step, Safe;
      Assoc(s.content, t.content[|s.content|..], TextOf(evs[1..], true));
      Assoc(s.reasoning, t.reasoning[|s.reasoning|..], TextOf(evs[1..], false));
    }
  }

  lemma ContentStep(parse: string -> Parsed, s: State, e: Event)
    requires Valid(s) && Usable(s, e)
    ensures Step(parse, s, e).content == s.content + if e.Content? then e.text else ""
    ensures Step(parse, s, e).reasoning == s.reasoning + if e.Reasoning? then e.text else ""
  {
    hide TrimTrailing, PlainValue, StringValue, Entry, Closed, Unquoted;
    assert s.content + "" == s.content && s.reasoning + "" == s.reasoning;
  }
}
