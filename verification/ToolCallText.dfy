/**
 What the events of a tool call print: with string arguments, exactly the JSON
 object of the argument list, wherever the name arrives.
 */
module ToolCallText {
  import opened Sequences
  import opened Wrappers
  import opened JsonScan
  import opened JsonText
  import opened ToolCalls

  datatype Arg = Arg(name: string, value: string)

  /** The direct printer. */
  function Members(args: seq<Arg>, k: nat): string {
    if args == [] then ""
    else (if k > 0 then "," else "") + Quoted(Trim(args[0].name)) + ":" + Quoted(TrimOne(args[0].value)) + Members(args[1..], k + 1)
  }

  function Printed(args: seq<Arg>): string { "{" + Members(args, 0) + "}" }

  /** The events of one argument declared a string. */
  function OneArg(a: Arg): seq<Event> { [ArgOpen, ArgName(a.name), ArgStringValue(a.value), ArgClose] }

  function ArgEvents(args: seq<Arg>): (evs: seq<Event>)
    ensures |evs| == 4 * |args|
  {
    if args == [] then [] else OneArg(args[0]) + ArgEvents(args[1..])
  }

  /** No event of the run follows a pointer to a call that is gone. */
  predicate Safe(parse: string -> Parsed, s: State, evs: seq<Event>)
    requires Valid(s)
    decreases |evs|
  {
    evs == [] || (Usable(s, evs[0]) && (StepValid(parse, s, evs[0]); Safe(parse, Step(parse, s, evs[0]), evs[1..])))
  }

  function Run(parse: string -> Parsed, s: State, evs: seq<Event>): (s': State)
    requires Valid(s) && Safe(parse, s, evs)
    ensures Valid(s')
    decreases |evs|
  {
    if evs == [] then s
    else
      StepValid(parse, s, evs[0]);
      Run(parse, Step(parse, s, evs[0]), evs[1..])
  }

  lemma {:induction false} RunAppend(parse: string -> Parsed, s: State, a: seq<Event>, b: seq<Event>)
    requires Valid(s) && Safe(parse, s, a) && Safe(parse, Run(parse, s, a), b)
    ensures Safe(parse, s, a + b) && Run(parse, s, a + b) == Run(parse, Run(parse, s, a), b)
    decreases |a|
  {
    if a == [] {
      assert a + b == b;
    } else {
      assert (a + b)[0] == a[0] && (a + b)[1..] == a[1..] + b;
      StepValid(parse, s, a[0]);
      RunAppend(parse, Step(parse, s, a[0]), a[1..], b);
    }
  }

  lemma RunOne(parse: string -> Parsed, s: State, e: Event)
    requires Valid(s) && Usable(s, e)
    ensures Safe(parse, s, [e]) && Run(parse, s, [e]) == Step(parse, s, e)
  {
    assert [e][1..] == [];
    StepValid(parse, s, e);
  }

  // ----- the argument text, apart from where it is kept

  datatype Acc = Acc(text: string, count: nat, quote: bool)

  predicate IsArg(e: Event) { e.ArgOpen? || e.ArgName? || e.ArgStringValue? || e.ArgClose? }

  function AccStep(a: Acc, e: Event): Acc
    requires IsArg(e)
  {
    if e.ArgOpen? then a.(quote := false)
    else if e.ArgName? then Acc((if a.text == "" then "{" else a.text) + Entry(a.count, e.text), a.count + 1, a.quote)
    else if e.ArgStringValue? then
      var (more, quote) := StringValue(e.text, a.quote);
      Acc(a.text + more, a.count, quote)
    else if a.quote then Acc(a.text + "\"", a.count, false)
    else a
  }

  function AccRun(a: Acc, evs: seq<Event>): Acc
    requires forall e :: e in evs ==> IsArg(e)
    decreases |evs|
  {
    if evs == [] then a else AccRun(AccStep(a, evs[0]), evs[1..])
  }

  lemma {:induction false} AccRunAppend(a: Acc, x: seq<Event>, y: seq<Event>)
    requires forall e :: e in x ==> IsArg(e)
    requires forall e :: e in y ==> IsArg(e)
    ensures AccRun(a, x + y) == AccRun(AccRun(a, x), y)
    decreases |x|
  {
    if x == [] {
      assert x + y == y;
    } else {
      assert (x + y)[0] == x[0] && (x + y)[1..] == x[1..] + y;
      AccRunAppend(AccStep(a, x[0]), x[1..], y);
    }
  }

  /** An open call without a name keeps the text in the buffer. */
  function Unnamed(s: State, a: Acc): State {
    s.(pending := Some(ToolCall("", "", "")), target := InPending, argCount := a.count, buffer := a.text, quote := a.quote)
  }

  /** A named call is the last result and keeps the text itself. */
  function NamedAs(s: State, name: string, a: Acc): State {
    s.(calls := s.calls + [ToolCall(name, "", a.text)], pending := None, target := InLast, argCount := a.count, buffer := "", quote := a.quote)
  }

  lemma StepUnnamed(parse: string -> Parsed, s: State, a: Acc, e: Event)
    requires IsArg(e)
    ensures Valid(Unnamed(s, a)) && Usable(Unnamed(s, a), e) && Step(parse, Unnamed(s, a), e) == Unnamed(s, AccStep(a, e))
  {
    hide Entry, StringValue, PlainValue, Named, Finished, Unquoted, TrimTrailing;
  }

  lemma {:induction false} RunUnnamed(parse: string -> Parsed, s: State, a: Acc, evs: seq<Event>)
    requires forall e :: e in evs ==> IsArg(e)
    ensures Valid(Unnamed(s, a)) && Safe(parse, Unnamed(s, a), evs)
    ensures Run(parse, Unnamed(s, a), evs) == Unnamed(s, AccRun(a, evs))
    decreases |evs|
  {
    hide Step, AccStep;
    if evs != [] {
      StepUnnamed(parse, s, a, evs[0]);
      RunUnnamed(parse, s, AccStep(a, evs[0]), evs[1..]);
    }
  }

  lemma StepNamed(parse: string -> Parsed, s: State, name: string, a: Acc, e: Event)
    requires name != "" && IsArg(e)
    ensures Valid(NamedAs(s, name, a)) && Usable(NamedAs(s, name, a), e)
    ensures Step(parse, NamedAs(s, name, a), e) == NamedAs(s, name, AccStep(a, e))
  {
    hide Entry, StringValue, PlainValue, Named, Finished, Unquoted, TrimTrailing;
  }

  lemma {:induction false} RunNamed(parse: string -> Parsed, s: State, name: string, a: Acc, evs: seq<Event>)
    requires name != "" && forall e :: e in evs ==> IsArg(e)
    ensures Valid(NamedAs(s, name, a)) && Safe(parse, NamedAs(s, name, a), evs)
    ensures Run(parse, NamedAs(s, name, a), evs) == NamedAs(s, name, AccRun(a, evs))
    decreases |evs|
  {
    hide Step, AccStep;
    if evs != [] {
      StepNamed(parse, s, name, a, evs[0]);
      RunNamed(parse, s, name, AccStep(a, evs[0]), evs[1..]);
    }
  }

  // ----- the text of a whole argument list

  lemma RunNothing(a: Acc)
    ensures AccRun(a, []) == a
  {
  }

  lemma RunStep(a: Acc, e: Event, rest: seq<Event>)
    requires IsArg(e) && forall y :: y in rest ==> IsArg(y)
    ensures AccRun(a, [e] + rest) == AccRun(AccStep(a, e), rest)
  {
    assert ([e] + rest)[1..] == rest;
  }

  /** The four events of an argument print it. */
  lemma ArgPrints(a: Acc, arg: Arg)
    requires a.text != "" && !a.quote
    ensures forall e :: e in OneArg(arg) ==> IsArg(e)
    ensures AccRun(a, OneArg(arg)) == Acc(a.text + (Entry(a.count, arg.name) + Quoted(TrimOne(arg.value))), a.count + 1, false)
  {
    hide AccRun, AccStep, Entry, Quoted, TrimOne;
    var name, value := ArgName(arg.name), ArgStringValue(arg.value);
    var a1 := AccStep(a, ArgOpen);
    var a2 := AccStep(a1, name);
    var a3 := AccStep(a2, value);
    RunStep(a3, ArgClose, []);
    RunNothing(AccStep(a3, ArgClose));
    RunStep(a2, value, [ArgClose] + []);
    RunStep(a1, name, [value] + ([ArgClose] + []));
    RunStep(a, ArgOpen, [name] + ([value] + ([ArgClose] + [])));
    assert OneArg(arg) == [ArgOpen] + ([name] + ([value] + ([ArgClose] + [])));
    FourSteps(a, arg);
  }

  lemma FourSteps(a: Acc, arg: Arg)
    requires a.text != "" && !a.quote
    ensures AccStep(AccStep(AccStep(AccStep(a, ArgOpen), ArgName(arg.name)), ArgStringValue(arg.value)), ArgClose)
            == Acc(a.text + (Entry(a.count, arg.name) + Quoted(TrimOne(arg.value))), a.count + 1, false)
  {
    hide TrimOne, Entry;
    var v, entry := TrimOne(arg.value), Entry(a.count, arg.name);
    if v == "" {
      assert Escape(v) == "" && Quoted(v) == "\"\"";
    }
    assert (a.text + entry) + ("\"" + Escape(v)) + "\"" == a.text + (entry + Quoted(v));
    assert v == "" ==> (a.text + entry) + "\"" + "\"" == a.text + (entry + Quoted(v));
  }

  lemma MembersFirst(args: seq<Arg>, k: nat)
    requires args != []
    ensures Members(args, k) == (Entry(k, args[0].name) + Quoted(TrimOne(args[0].value))) + Members(args[1..], k + 1)
  {
    hide Quoted, TrimOne, Trim;
  }

  lemma {:induction false} ArgsPrint(a: Acc, args: seq<Arg>)
    requires a.text != "" && !a.quote
    ensures forall e :: e in ArgEvents(args) ==> IsArg(e)
    ensures AccRun(a, ArgEvents(args)) == Acc(a.text + Members(args, a.count), a.count + |args|, false)
    decreases |args|
  {
    if args == [] {
      assert a.text + "" == a.text;
    } else {
      ArgPrints(a, args[0]);
      MembersFirst(args, a.count);
      hide AccRun, OneArg, Members, Entry, Quoted, TrimOne, IsArg;
      var a' := AccRun(a, OneArg(args[0]));
      ArgsPrint(a', args[1..]);
      AccRunAppend(a, OneArg(args[0]), ArgEvents(args[1..]));
      Assoc(a.text, Entry(a.count, args[0].name) + Quoted(TrimOne(args[0].value)), Members(args[1..], a.count + 1));
    }
  }

  /** The scanner passes over the members of an object. */
  lemma {:induction false} MembersSkipped(st: Scan, args: seq<Arg>, k: nat)
    requires !st.inString && !st.escaped
    ensures Over(st, Members(args, k)) == st
    decreases |args|
  {
    if args != [] {
      var comma, n, v, rest := if k > 0 then "," else "", Quoted(Trim(args[0].name)), Quoted(TrimOne(args[0].value)), Members(args[1..], k + 1);
      assert Members(args, k) == comma + n + ":" + v + rest;
      if k > 0 { OneChar(st, ','); }
      OneChar(st, ':');
      QuotedSkipped(st, Trim(args[0].name));
      QuotedSkipped(st, TrimOne(args[0].value));
      MembersSkipped(st, args[1..], k + 1);
      OverAppend(st, comma, n);
      OverAppend(st, comma + n, ":");
      OverAppend(st, comma + n + ":", v);
      OverAppend(st, comma + n + ":" + v, rest);
    }
  }

  /** Closing an object whose members are complete adds its one brace. */
  lemma ClosesOnce(args: seq<Arg>)
    ensures Closed("{" + Members(args, 0), false) == Printed(args)
  {
    var st := SCAN_START.(depth := 1);
    OneChar(SCAN_START, '{');
    OverAppend(SCAN_START, "{", Members(args, 0));
    MembersSkipped(st, args, 0);
    assert Braces(1) == "}" + Braces(0) == "}";
  }

  // ----- a name somewhere on the way

  /** What kind of event stands where. */
  lemma {:induction false} ArgEventAt(args: seq<Arg>, i: nat)
    requires i < 4 * |args|
    ensures IsArg(ArgEvents(args)[i])
    ensures ArgEvents(args)[i].ArgStringValue? ==> i >= 2
    ensures ArgEvents(args)[i].ArgClose? ==> i >= 3
    ensures i == 1 ==> ArgEvents(args)[i].ArgName?
    ensures i == 0 ==> ArgEvents(args)[i].ArgOpen?
    decreases |args|
  {
    if i >= 4 {
      ArgEventAt(args[1..], i - 4);
      assert ArgEvents(args)[i] == ArgEvents(args[1..])[i - 4];
    }
  }

  lemma AllArgs(args: seq<Arg>)
    ensures forall e :: e in ArgEvents(args) ==> IsArg(e)
  {
    forall e | e in ArgEvents(args) ensures IsArg(e) {
      var i: nat :| i < |ArgEvents(args)| && ArgEvents(args)[i] == e;
      ArgEventAt(args, i);
    }
  }

  /** The name makes an empty text an opening brace. */
  function Started(a: Acc): Acc { if a.text == "" then a.(text := "{") else a }

  /** Opening the object early, at the name, or late, at the first argument, makes no difference. */
  lemma {:induction false} EarlyOrLate(args: seq<Arg>, n: nat)
    requires n <= 4 * |args|
    ensures forall e :: e in ArgEvents(args)[..n] ==> IsArg(e)
    ensures var a := AccRun(Acc("", 0, false), ArgEvents(args)[..n]);
            && Started(a) == AccRun(Acc("{", 0, false), ArgEvents(args)[..n])
            && (n >= 2 ==> a.text != "") && (a.text == "" ==> !a.quote)
    decreases n
  {
    AllArgs(args);
    var evs := ArgEvents(args);
    if n > 0 {
      EarlyOrLate(args, n - 1);
      assert evs[..n] == evs[..n - 1] + [evs[n - 1]];
      var e := evs[n - 1];
      ArgEventAt(args, n - 1);
      SnocStep(Acc("", 0, false), evs[..n - 1], e);
      SnocStep(Acc("{", 0, false), evs[..n - 1], e);
    }
  }

  lemma SnocStep(a: Acc, x: seq<Event>, e: Event)
    requires IsArg(e) && forall y :: y in x ==> IsArg(y)
    ensures AccRun(a, x + [e]) == AccStep(AccRun(a, x), e)
  {
    AccRunAppend(a, x, [e]);
    assert [e][1..] == [];
  }

  /** A tool call as it is spoken: its name text, its arguments, and after how many argument events the name comes. */
  datatype Spoken = Spoken(nameText: string, args: seq<Arg>, at: nat)

  predicate Proper(c: Spoken) { c.at <= 4 * |c.args| && TrimTrailing(c.nameText, -1) != "" }

  function EventsOf(c: Spoken): seq<Event>
    requires Proper(c)
  {
    var evs := ArgEvents(c.args);
    [Open] + evs[..c.at] + [Name(c.nameText)] + evs[c.at..] + [Close]
  }

  function CallOf(c: Spoken): ToolCall {
    ToolCall(TrimTrailing(c.nameText, -1), "", Printed(c.args))
  }

  /**
   The event machine equals the direct printer: from any state, the events of a call
   add exactly that call, with the JSON object of its arguments, closed.
   */
  lemma CallPrints(parse: string -> Parsed, s: State, c: Spoken)
    requires Valid(s) && Proper(c)
    ensures Safe(parse, s, EventsOf(c))
    ensures Run(parse, s, EventsOf(c)) ==
              s.(calls := s.calls + [CallOf(c)], pending := None, target := InLast,
                 argCount := |c.args|, buffer := "", quote := false)
  {
    var evs, name := ArgEvents(c.args), TrimTrailing(c.nameText, -1);
    var front, back := evs[..c.at], evs[c.at..];
    AllArgs(c.args);
    var a0, a1 := Acc("", 0, false), AccRun(Acc("", 0, false), front);
    var b1 := AccRun(Started(a1), back);
    // the text
    EarlyOrLate(c.args, c.at);
    AccRunAppend(Acc("{", 0, false), front, back);
    assert front + back == evs;
    ArgsPrint(Acc("{", 0, false), c.args);
    assert b1 == Acc("{" + Members(c.args, 0), |c.args|, false);
    // where it is kept
    hide Members, Printed, AccRun, ArgEvents;
    RunOne(parse, s, Open);
    assert Step(parse, s, Open) == Unnamed(s, a0);
    RunUnnamed(parse, s, a0, front);
    RunAppend(parse, s, [Open], front);
    NameArrives(parse, s, c.nameText, a1);
    RunAppend(parse, s, [Open] + front, [Name(c.nameText)]);
    RunNamed(parse, s, name, Started(a1), back);
    RunAppend(parse, s, [Open] + front + [Name(c.nameText)], back);
    CloseArrives(parse, s, name, c.args);
    RunAppend(parse, s, [Open] + front + [Name(c.nameText)] + back, [Close]);
  }

  lemma NameArrives(parse: string -> Parsed, s: State, text: string, a: Acc)
    ensures Valid(Unnamed(s, a)) && Safe(parse, Unnamed(s, a), [Name(text)])
    ensures Run(parse, Unnamed(s, a), [Name(text)]) == NamedAs(s, TrimTrailing(text, -1), Started(a))
  {
    RunOne(parse, Unnamed(s, a), Name(text));
  }

  lemma CloseNamed(parse: string -> Parsed, s: State, name: string, a: Acc)
    requires name != ""
    ensures var n := NamedAs(s, name, a);
            && Valid(n) && Safe(parse, n, [Close])
            && Run(parse, n, [Close]) == NamedAs(s, name, Acc(Closed(a.text, a.quote), a.count, false))
  {
    hide Closed;
    var n, t := NamedAs(s, name, a), ToolCall(name, "", a.text);
    RunOne(parse, n, Close);
    assert n.calls[..|n.calls| - 1] == s.calls && Current(n) == t;
    assert Step(parse, n, Close) == Finished(n);
  }

  lemma CloseArrives(parse: string -> Parsed, s: State, name: string, args: seq<Arg>)
    requires name != ""
    ensures var n := NamedAs(s, name, Acc("{" + Members(args, 0), |args|, false));
            && Valid(n) && Safe(parse, n, [Close])
            && Run(parse, n, [Close]) == NamedAs(s, name, Acc(Printed(args), |args|, false))
  {
    ClosesOnce(args);
    hide Closed, Members, Printed, Run, Safe, NamedAs, Valid;
    CloseNamed(parse, s, name, Acc("{" + Members(args, 0), |args|, false));
  }

  // ----- what a client sees on the way

  /** Argument events only append. */
  lemma {:induction false} AccGrows(a: Acc, evs: seq<Event>)
    requires a.text != "" && forall e :: e in evs ==> IsArg(e)
    ensures a.text <= AccRun(a, evs).text
    decreases |evs|
  {
    if evs != [] {
      StepGrows(a, evs[0]);
      AccGrows(AccStep(a, evs[0]), evs[1..]);
    }
  }

  lemma StepGrows(a: Acc, e: Event)
    requires a.text != "" && IsArg(e)
    ensures a.text <= AccStep(a, e).text && AccStep(a, e).text != ""
  {
    hide Entry, StringValue;
  }

  lemma OneSpace(s: string)
    ensures TrimLeading(s, 1) == if s != "" && IsSpace(s[0]) then s[1..] else s
    ensures TrimTrailing(s, 1) == if s != "" && IsSpace(s[|s| - 1]) then s[..|s| - 1] else s
  {
    assert s != "" ==> TrimTrailing(s[..|s| - 1], 0) == s[..|s| - 1];
    assert s != "" ==> TrimLeading(s[1..], 0) == s[1..];
  }

  lemma TrimMonotone(p: string, f: string)
    requires p <= f
    ensures TrimOne(p) <= TrimOne(f)
  {
    OneSpace(p);
    OneSpace(f);
    OneSpace(TrimLeading(p, 1));
    OneSpace(TrimLeading(f, 1));
  }

  /** A string value whose end has not arrived prints a beginning of what it will print. */
  lemma ValueGrows(a: Acc, p: string, f: string)
    requires p <= f && !a.quote
    ensures AccStep(a, ArgStringValue(p)).text <= AccStep(a, ArgStringValue(f)).text
  {
    TrimMonotone(p, f);
    var v, w := TrimOne(p), TrimOne(f);
    hide TrimOne;
    assert w == v + w[|v|..];
    EscapeAppend(v, w[|v|..]);
  }

  /** Before a string value no quote is open. */
  lemma {:induction false} NoQuoteBefore(args: seq<Arg>, m: nat)
    requires m < 4 * |args| && ArgEvents(args)[m].ArgStringValue?
    ensures forall e :: e in ArgEvents(args)[..m] ==> IsArg(e)
    ensures !AccRun(Acc("{", 0, false), ArgEvents(args)[..m]).quote
  {
    AllArgs(args);
    ValueAt(args, m);
    var evs := ArgEvents(args);
    hide ArgEvents, AccRun, Entry;
    assert evs[..m] == evs[..m - 1] + [evs[m - 1]] && evs[..m - 1] == evs[..m - 2] + [evs[m - 2]];
    SnocStep(Acc("{", 0, false), evs[..m - 2], evs[m - 2]);
    SnocStep(Acc("{", 0, false), evs[..m - 1], evs[m - 1]);
  }

  lemma {:induction false} ValueAt(args: seq<Arg>, m: nat)
    requires m < 4 * |args| && ArgEvents(args)[m].ArgStringValue?
    ensures m >= 2 && ArgEvents(args)[m - 1].ArgName? && ArgEvents(args)[m - 2].ArgOpen?
    decreases |args|
  {
    if m >= 4 {
      assert ArgEvents(args)[m] == ArgEvents(args[1..])[m - 4];
      ValueAt(args[1..], m - 4);
      assert ArgEvents(args)[m - 1] == ArgEvents(args[1..])[m - 5] && ArgEvents(args)[m - 2] == ArgEvents(args[1..])[m - 6];
    }
  }

  /** The argument events that have arrived: the first m, and perhaps a beginning of the value that comes next. */
  predicate Arrived(args: seq<Arg>, m: nat, tail: seq<Event>) {
    m <= 4 * |args| &&
    (tail == [] ||
     (m < 4 * |args| && |tail| == 1 && tail[0].ArgStringValue? && ArgEvents(args)[m].ArgStringValue?
      && tail[0].text <= ArgEvents(args)[m].text))
  }

  lemma ArrivedText(args: seq<Arg>, m: nat, tail: seq<Event>)
    requires Arrived(args, m, tail)
    ensures (forall e :: e in ArgEvents(args)[..m] ==> IsArg(e)) && forall e :: e in tail ==> IsArg(e)
    ensures AccRun(AccRun(Acc("{", 0, false), ArgEvents(args)[..m]), tail).text <= Printed(args)
  {
    hide AccRun, AccStep, Members, ArgEvents;
    AllArgs(args);
    var evs, a := ArgEvents(args), Acc("{", 0, false);
    var x := AccRun(a, evs[..m]);
    ArgsPrint(a, args);
    AccGrows(a, evs[..m]);
    AccRunAppend(a, evs[..m], evs[m..]);
    assert evs[..m] + evs[m..] == evs;
    AccGrows(x, evs[m..]);
    if tail == [] {
      RunNothing(x);
    } else {
      RunNothing(AccStep(x, tail[0]));
      NoQuoteBefore(args, m);
      ValueGrows(x, tail[0].text, evs[m].text);
      RunStep(x, tail[0], []);
      assert [tail[0]] + [] == tail;
      RunStep(x, evs[m], evs[m + 1..]);
      assert [evs[m]] + evs[m + 1..] == evs[m..];
      StepGrows(x, evs[m]);
      AccGrows(AccStep(x, evs[m]), evs[m + 1..]);
    }
  }

  /**
   Nothing a client has seen is taken back: once the name is there, the arguments shown
   are a beginning of the final ones, at every event and in the middle of every value.
   */
  lemma NothingTakenBack(parse: string -> Parsed, s: State, c: Spoken, m: nat, tail: seq<Event>)
    requires Valid(s) && Proper(c) && c.at <= m && Arrived(c.args, m, tail)
    ensures var evs := ArgEvents(c.args);
            var seen := [Open] + evs[..c.at] + [Name(c.nameText)] + (evs[c.at..m] + tail);
            && Safe(parse, s, seen)
            && var r := Run(parse, s, seen);
               && |r.calls| == |s.calls| + 1 && r.calls[..|s.calls|] == s.calls
               && r.calls[|s.calls|].name == CallOf(c).name
               && r.calls[|s.calls|].arguments <= CallOf(c).arguments
  {
    hide *;
    var evs, name := ArgEvents(c.args), TrimTrailing(c.nameText, -1);
    ArgCount(c, m, tail);
    var front, mid := evs[..c.at], evs[c.at..m] + tail;
    ArrivedText(c.args, m, tail);
    FrontArgs(evs, c.at, m);
    var a1 := AccRun(Acc("", 0, false), front);
    EarlyOrLate(c.args, c.at);
    AccRunAppend(Acc("{", 0, false), front, evs[c.at..m]);
    assert front + evs[c.at..m] == evs[..m];
    AccRunAppend(Started(a1), evs[c.at..m], tail);
    OpenedWith(parse, s, front);
    NameArrives(parse, s, c.nameText, a1);
    RunAppend(parse, s, [Open] + front, [Name(c.nameText)]);
    RunNamed(parse, s, name, Started(a1), mid);
    RunAppend(parse, s, [Open] + front + [Name(c.nameText)], mid);
    NamedCall(s, name, AccRun(Started(a1), mid), c);
  }

  lemma ArgCount(c: Spoken, m: nat, tail: seq<Event>)
    requires Proper(c) && Arrived(c.args, m, tail)
    ensures c.at <= |ArgEvents(c.args)| && m <= |ArgEvents(c.args)| && TrimTrailing(c.nameText, -1) != ""
  {
  }

  lemma FrontArgs(evs: seq<Event>, n: nat, m: nat)
    requires n <= m <= |evs| && forall e :: e in evs[..m] ==> IsArg(e)
    ensures (forall e :: e in evs[..n] ==> IsArg(e)) && forall e :: e in evs[n..m] ==> IsArg(e)
  {
    hide IsArg;
    assert forall i :: 0 <= i < n ==> evs[..n][i] == evs[..m][i];
    assert forall i :: 0 <= i < m - n ==> evs[n..m][i] == evs[..m][n + i];
  }

  lemma OpenedWith(parse: string -> Parsed, s: State, front: seq<Event>)
    requires Valid(s) && forall e :: e in front ==> IsArg(e)
    ensures Safe(parse, s, [Open] + front)
    ensures Run(parse, s, [Open] + front) == Unnamed(s, AccRun(Acc("", 0, false), front))
  {
    hide AccRun, Run, Safe;
    RunOne(parse, s, Open);
    assert Step(parse, s, Open) == Unnamed(s, Acc("", 0, false));
    RunUnnamed(parse, s, Acc("", 0, false), front);
    RunAppend(parse, s, [Open], front);
  }

  lemma NamedCall(s: State, name: string, a: Acc, c: Spoken)
    ensures var n := NamedAs(s, name, a);
            |n.calls| == |s.calls| + 1 && n.calls[..|s.calls|] == s.calls && n.calls[|s.calls|] == ToolCall(name, "", a.text)
    ensures CallOf(c) == ToolCall(TrimTrailing(c.nameText, -1), "", Printed(c.args))
  {
  }

  /** A call that never gets a name leaves no trace in the results. */
  lemma NamelessIsDropped(parse: string -> Parsed, s: State, args: seq<Arg>)
    requires Valid(s)
    ensures var evs := [Open] + ArgEvents(args) + [Close];
            && Safe(parse, s, evs) && Run(parse, s, evs).calls == s.calls
            && Run(parse, s, evs).target == Gone && Run(parse, s, evs).buffer == ""
  {
    AllArgs(args);
    hide ArgEvents, AccRun, Run, Safe, Closed;
    var a := AccRun(Acc("", 0, false), ArgEvents(args));
    RunOne(parse, s, Open);
    assert Step(parse, s, Open) == Unnamed(s, Acc("", 0, false));
    RunUnnamed(parse, s, Acc("", 0, false), ArgEvents(args));
    RunAppend(parse, s, [Open], ArgEvents(args));
    CloseUnnamed(parse, s, a);
    RunAppend(parse, s, [Open] + ArgEvents(args), [Close]);
  }

  lemma CloseUnnamed(parse: string -> Parsed, s: State, a: Acc)
    ensures var u := Unnamed(s, a);
            && Valid(u) && Safe(parse, u, [Close])
            && Run(parse, u, [Close]).calls == s.calls
            && Run(parse, u, [Close]).target == Gone && Run(parse, u, [Close]).buffer == ""
  {
    hide Closed;
    RunOne(parse, Unnamed(s, a), Close);
  }

  function AllEvents(cs: seq<Spoken>): seq<Event>
    requires forall c :: c in cs ==> Proper(c)
  {
    if cs == [] then [] else EventsOf(cs[0]) + AllEvents(cs[1..])
  }

  function AllCalls(cs: seq<Spoken>): seq<ToolCall> {
    if cs == [] then [] else [CallOf(cs[0])] + AllCalls(cs[1..])
  }

  lemma CallAdds(parse: string -> Parsed, s: State, c: Spoken)
    requires Valid(s) && Proper(c)
    ensures Safe(parse, s, EventsOf(c)) && Run(parse, s, EventsOf(c)).calls == s.calls + [CallOf(c)]
  {
    hide Run, Safe, EventsOf, CallOf, Proper, Valid;
    CallPrints(parse, s, c);
  }

  /** Each named call appears once, in the order in which they were spoken. */
  lemma {:induction false} CallsInOrder(parse: string -> Parsed, s: State, cs: seq<Spoken>)
    requires Valid(s) && forall c :: c in cs ==> Proper(c)
    ensures Safe(parse, s, AllEvents(cs))
    ensures Run(parse, s, AllEvents(cs)).calls == s.calls + AllCalls(cs)
    decreases |cs|
  {
    if cs == [] {
      assert s.calls + [] == s.calls;
    } else {
      hide Run, Safe, EventsOf, CallOf, Proper, Valid;
      CallAdds(parse, s, cs[0]);
      var s' := Run(parse, s, EventsOf(cs[0]));
      CallsInOrder(parse, s', cs[1..]);
      RunAppend(parse, s, EventsOf(cs[0]), AllEvents(cs[1..]));
      Assoc(s.calls, [CallOf(cs[0])], AllCalls(cs[1..]));
    }
  }
}
