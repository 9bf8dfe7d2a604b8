/**
 `common_chat_peg_mapper`: tool calls assembled from the events of a parse, while
 the text may still be arriving.
 */
module ToolCalls {
  import opened Wrappers
  import opened JsonScan
  import opened JsonText
  import Quotes = QuoteNormalizer

  datatype ToolCall = ToolCall(name: string, id: string, arguments: string)

  /** A node of the parse tree, by its tag. */
  datatype Event =
    | Reasoning(text: string)
    | Content(text: string)
    | Open
    | Id(text: string)
    | Name(text: string)
    | Args(text: string)
    | ArgOpen
    | ArgName(text: string)
    | ArgValue(text: string, partial: bool)
    | ArgStringValue(text: string)
    | ArgClose
    | Close

  /** What the JSON library says about a value; a string comes with its dump. */
  datatype Parsed = NotJson | JsonString(dump: string) | JsonOther

  /** Where `current_tool` points: nowhere, at the pending call, at the last result, or at a pending call that is gone. */
  datatype Target = NoTool | InPending | InLast | Gone

  datatype State = State(
    calls: seq<ToolCall>,
    pending: Option<ToolCall>,
    target: Target,
    argCount: nat,
    buffer: string,           // args_buffer
    quote: bool,              // closing_quote_pending
    reasoning: string,
    content: string)

  const START := State([], None, NoTool, 0, "", false, "", "")

  predicate Valid(s: State) {
    && (s.target == InPending <==> s.pending.Some?)
    && (s.target == InLast ==> s.calls != [])
  }

  /** A pending call has no name yet: a name moves it to the results. */
  predicate PendingUnnamed(s: State) {
    s.pending.Some? ==> s.pending.value.name == ""
  }

  /** Every event but these follows `current_tool`. */
  predicate Usable(s: State, e: Event) {
    s.target == Gone ==> e.Reasoning? || e.Content? || e.Open? || e.ArgOpen?
  }

  predicate HasTool(s: State) { s.target == InPending || s.target == InLast }

  function Current(s: State): ToolCall
    requires Valid(s) && HasTool(s)
  {
    if s.target == InPending then s.pending.value else s.calls[|s.calls| - 1]
  }

  function SetCurrent(s: State, t: ToolCall): State
    requires Valid(s) && HasTool(s)
  {
    if s.target == InPending then s.(pending := Some(t)) else s.(calls := s.calls[..|s.calls| - 1] + [t])
  }

  /** `args_target()`: the call's own text once it has a name, the buffer before. */
  function ArgText(s: State): string
    requires Valid(s) && HasTool(s)
  {
    if Current(s).name != "" then Current(s).arguments else s.buffer
  }

  function SetArgText(s: State, text: string): State
    requires Valid(s) && HasTool(s)
  {
    if Current(s).name != "" then SetCurrent(s, Current(s).(arguments := text)) else s.(buffer := text)
  }

  function Unquoted(text: string): string {
    if |text| >= 2 && text[0] == '"' && text[|text| - 1] == '"' then text[1..|text| - 1] else text
  }

  function Braces(n: nat): (b: string)
    ensures |b| == n && forall i :: 0 <= i < n ==> b[i] == '}'
  {
    if n == 0 then "" else "}" + Braces(n - 1)
  }

  /** A value that is not declared a string: what is appended, and whether a quote stays open. */
  function PlainValue(parse: string -> Parsed, text: string, partial: bool, quote: bool): (string, bool) {
    var v := TrimOne(text);
    if v == "" then ("", quote)
    else
      var container := v[0] == '[' || v[0] == '{';
      var w := if container then Quotes.Normalized(Quotes.Outside, v) else v;
      match parse(w)
      case JsonString(dump) => (if dump != "" && dump[|dump| - 1] == '"' then dump[..|dump| - 1] else dump, true)
      case JsonOther => (w, quote)
      case NotJson =>
        if partial && container then (w, quote)
        else ((if quote then "" else "\"") + Escape(w), true)
  }

  function StringValue(text: string, quote: bool): (string, bool) {
    var v := TrimOne(text);
    if v == "" then ("\"", true)
    else ((if quote then "" else "\"") + Escape(v), true)
  }

  function Entry(count: nat, text: string): string {
    (if count > 0 then "," else "") + Quoted(Trim(text)) + ":"
  }

  /** The text and the quote flag after the closing part of `TOOL_CLOSE`. */
  function Closed(arguments: string, quote: bool): string {
    var a := if quote then arguments + "\"" else arguments;
    var d := Over(SCAN_START, a).depth;
    a + if d > 0 then Braces(d) else ""
  }

  function Step(parse: string -> Parsed, s: State, e: Event): State
    requires Valid(s) && Usable(s, e)
  {
    if e.Reasoning? then s.(reasoning := s.reasoning + e.text)
    else if e.Content? then s.(content := s.content + e.text)
    else if e.Open? then
      s.(pending := Some(ToolCall("", "", "")), target := InPending, argCount := 0, buffer := "", quote := false)
    else if e.ArgOpen? then s.(quote := false)
    else if HasTool(s) then ToolStep(parse, s, e)
    else s
  }

  /** The events that act on the current call. */
  function ToolStep(parse: string -> Parsed, s: State, e: Event): State
    requires Valid(s) && HasTool(s)
  {
    if e.Id? then SetCurrent(s, Current(s).(id := Unquoted(TrimTrailing(e.text, -1))))
    else if e.Name? then Named(s, TrimTrailing(e.text, -1))
    else if e.Args? then
      var t := TrimTrailing(e.text, -1);
      if t != "" && t[0] == '{' then SetArgText(s, t) else s
    else if e.ArgName? then
      var s1 := s.(argCount := s.argCount + 1);
      SetArgText(s1, (if ArgText(s) == "" then "{" else ArgText(s)) + Entry(s.argCount, e.text))
    else if e.ArgStringValue? then
      var (more, quote) := StringValue(e.text, s.quote);
      SetArgText(s, ArgText(s) + more).(quote := quote)
    else if e.ArgValue? then
      var (more, quote) := PlainValue(parse, e.text, e.partial, s.quote);
      SetArgText(s, ArgText(s) + more).(quote := quote)
    else if e.ArgClose? then
      if s.quote then SetArgText(s, ArgText(s) + "\"").(quote := false) else s
    else if e.Close? then Finished(s)
    else s
  }

  /** A name: the call takes over the buffered arguments and becomes visible in the results. */
  function Named(s: State, name: string): State
    requires Valid(s) && HasTool(s)
  {
    var t := Current(s);
    var arguments := if s.buffer != "" then s.buffer else if t.arguments == "" then "{" else t.arguments;
    var s1 := s.(buffer := "");
    var t1 := t.(name := name, arguments := arguments);
    if s.target == InPending then s1.(calls := s.calls + [t1], pending := None, target := InLast)
    else SetCurrent(s1, t1)
  }

  /** The end of a call: a call without a name is dropped. */
  function Finished(s: State): State
    requires Valid(s) && HasTool(s)
  {
    var t := Current(s);
    var flush := t.name == "" && s.buffer != "";
    var t1 := t.(arguments := Closed(if flush then s.buffer else t.arguments, s.quote));
    var s1 := s.(buffer := if flush then "" else s.buffer, quote := false);
    if s.target == InPending then
      s1.(calls := if t.name != "" then s.calls + [t1] else s.calls, pending := None, target := Gone)
    else SetCurrent(s1, t1)
  }

  lemma StepValid(parse: string -> Parsed, s: State, e: Event)
    requires Valid(s) && Usable(s, e)
    ensures Valid(Step(parse, s, e))
    ensures PendingUnnamed(s) ==> PendingUnnamed(Step(parse, s, e))
  {
  }

  /** The mapper itself. */
  class Mapper {
    const parse: string -> Parsed
    var calls: seq<ToolCall>
    var pending: Option<ToolCall>
    var target: Target
    var argCount: nat
    var argsBuffer: string
    var closingQuotePending: bool
    var reasoning: string
    var content: string

    function Abs(): State
      reads this
    {
      State(calls, pending, target, argCount, argsBuffer, closingQuotePending, reasoning, content)
    }

    constructor (parse: string -> Parsed)
      ensures Abs() == START && this.parse == parse
    {
      this.parse := parse;
      calls, pending, target, argCount := [], None, NoTool, 0;
      argsBuffer, closingQuotePending, reasoning, content := "", false, "", "";
    }

    method SetTool(t: ToolCall)
      requires Valid(Abs()) && HasTool(Abs())
      modifies `pending, `calls
      ensures Abs() == SetCurrent(old(Abs()), t)
    {
      if target == InPending { pending := Some(t); } else { calls := calls[..|calls| - 1] + [t]; }
    }

    method AppendArgs(more: string)
      requires Valid(Abs()) && HasTool(Abs())
      modifies `pending, `calls, `argsBuffer
      ensures Abs() == SetArgText(old(Abs()), ArgText(old(Abs())) + more)
    {
      var t := Current(Abs());
      if t.name != "" {
        SetTool(t.(arguments := t.arguments + more));
      } else {
        argsBuffer := argsBuffer + more;
      }
    }

    method OpenTool()
      modifies this
      ensures Abs() == Step(parse, START, Open).(calls := old(calls), reasoning := old(reasoning), content := old(content))
    {
      pending := Some(ToolCall("", "", ""));
      target := InPending;
      argCount := 0;
      argsBuffer := "";
      closingQuotePending := false;
    }

    method NameTool(name: string)
      requires Valid(Abs()) && HasTool(Abs())
      modifies this
      ensures Abs() == Named(old(Abs()), name)
    {
      var t := Current(Abs()).(name := name);
      if argsBuffer != "" {
        t := t.(arguments := argsBuffer);
        argsBuffer := "";
      } else if t.arguments == "" {
        t := t.(arguments := "{");
      }
      if target == InPending {
        calls := calls + [t];
        pending := None;
        target := InLast;
      } else {
        calls := calls[..|calls| - 1] + [t];
      }
    }

    method CloseTool()
      requires Valid(Abs()) && HasTool(Abs())
      modifies this
      ensures Abs() == Finished(old(Abs()))
    {
      var t := Current(Abs());
      if t.name == "" && argsBuffer != "" {
        t := t.(arguments := argsBuffer);
        argsBuffer := "";
      }
      if closingQuotePending {
        t := t.(arguments := t.arguments + "\"");
        closingQuotePending := false;
      }
      var closed := CloseBraces(t.arguments);
      t := t.(arguments := closed);
      if target == InPending {
        if t.name != "" {
          calls := calls + [t];
        }
        pending := None;
        target := Gone;
      } else {
        calls := calls[..|calls| - 1] + [t];
      }
    }

    method Map(e: Event)
      requires Valid(Abs()) && Usable(Abs(), e)
      modifies this
      ensures Valid(Abs()) && Abs() == Step(parse, old(Abs()), e)
    {
      StepValid(parse, Abs(), e);
      if e.Reasoning? {
        reasoning := reasoning + e.text;
      }
      if e.Content? {
        content := content + e.text;
      }
      if e.Open? {
        OpenTool();
      }
      if e.ArgOpen? {
        closingQuotePending := false;
      }
      if HasTool(Abs()) && !e.Reasoning? && !e.Content? && !e.Open? && !e.ArgOpen? {
        MapOnTool(e);
      }
    }

    method MapOnTool(e: Event)
      requires Valid(Abs()) && HasTool(Abs())
      modifies this
      ensures Abs() == ToolStep(parse, old(Abs()), e)
    {
      hide TrimTrailing, TrimLeading, PlainValue, StringValue, Entry, Closed, Unquoted, Finished, Named;
      if e.Id? {
        var t := Current(Abs());
        SetTool(t.(id := Unquoted(TrimTrailing(e.text, -1))));
      } else if e.Name? {
        NameTool(TrimTrailing(e.text, -1));
      } else if e.Args? {
        var t := TrimTrailing(e.text, -1);
        if t != "" && t[0] == '{' {
          var c := Current(Abs());
          if c.name != "" { SetTool(c.(arguments := t)); } else { argsBuffer := t; }
        }
      } else if e.ArgName? {
        var entry := Entry(argCount, e.text);
        ghost var text := ArgText(Abs());
        assert text + ("" + entry) == text + entry && "" + ("{" + entry) == "{" + entry;
        argCount := argCount + 1;
        AppendArgs((if ArgText(Abs()) == "" then "{" else "") + entry);
      } else if e.ArgStringValue? {
        var (more, quote) := StringValue(e.text, closingQuotePending);
        AppendArgs(more);
        closingQuotePending := quote;
      } else if e.ArgValue? {
        var (more, quote) := PlainValue(parse, e.text, e.partial, closingQuotePending);
        AppendArgs(more);
        closingQuotePending := quote;
      } else if e.ArgClose? {
        if closingQuotePending {
          AppendArgs("\"");
          closingQuotePending := false;
        }
      } else if e.Close? {
        CloseTool();
      }
    }
  }

  /** The loop that closes what is still open. */
  method CloseBraces(arguments: string) returns (closed: string)
    ensures closed == Closed(arguments, false)
  {
    var depth := JsonBraceDepth(arguments);
    closed := arguments;
    var d := depth;
    assert arguments + "" == arguments;
    while d > 0
      invariant depth > 0 ==> 0 <= d <= depth && closed == arguments + Braces(depth - d)
      invariant depth <= 0 ==> d == depth && closed == arguments
      decreases d
    {
      BracesSnoc(depth - d);
      closed := closed + "}";
      d := d - 1;
    }
  }

  lemma {:induction false} BracesSnoc(n: nat)
    ensures Braces(n) + "}" == Braces(n + 1)
  {
    if n > 0 {
      BracesSnoc(n - 1);
      assert Braces(n) + "}" == "}" + (Braces(n - 1) + "}");
    }
  }
}
