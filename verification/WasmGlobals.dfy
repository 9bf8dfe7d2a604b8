/**
 `optimize_globals`: exports of type information and unreferenced globals are removed
 from a WebAssembly module and the remaining globals renumbered. Globals are indexed
 with the imported ones first (WebAssembly Core Specification, section 2.5.1).
 */
module WasmGlobals {

  datatype Instr = Get(index: nat) | Set(index: nat) | Op(code: int)

  /** A defined global: what it is, and the globals its initializer reads. */
  datatype Def = Def(payload: int, gets: seq<nat>)

  datatype Export = Export(name: string, index: nat)

  datatype Module = Module(imports: nat, defs: seq<Def>, code: seq<Instr>, exports: seq<Export>)

  predicate Contains(text: string, part: string)
    decreases |text|
  {
    part <= text || (text != "" && Contains(text[1..], part))
  }

  predicate IsExceptionRtti(name: string) {
    Contains(name, "exception") || Contains(name, "error") || Contains(name, "bad_") ||
    Contains(name, "__cxxabiv1") || Contains(name, "nested_exception")
  }

  predicate IsRtti(name: string) { Contains(name, "_ZTV") || Contains(name, "_ZTI") || Contains(name, "_ZTS") }

  predicate KeepExport(e: Export) { !IsRtti(e.name) || IsExceptionRtti(e.name) }

  // ----- what is needed

  predicate Refers(c: Instr, i: nat) { !c.Op? && c.index == i }

  predicate UsedByCode(code: seq<Instr>, i: nat) { exists k :: 0 <= k < |code| && Refers(code[k], i) }

  predicate UsedByDefs(defs: seq<Def>, i: nat) { exists k :: 0 <= k < |defs| && i in defs[k].gets }

  predicate ExportedBy(exports: seq<Export>, i: nat) {
    exists k :: 0 <= k < |exports| && KeepExport(exports[k]) && exports[k].index == i
  }

  predicate Needed(m: Module, i: nat) {
    UsedByCode(m.code, i) || UsedByDefs(m.defs, i) || ExportedBy(m.exports, i)
  }

  /** The needed ones among the first `k` defined globals, by their old index. */
  function KeptUpTo(m: Module, k: nat): (kept: seq<nat>)
    requires k <= |m.defs|
    ensures |kept| <= k
    ensures forall j :: 0 <= j < |kept| ==> m.imports <= kept[j] < m.imports + k
  {
    if k == 0 then []
    else KeptUpTo(m, k - 1) + if Needed(m, m.imports + k - 1) then [m.imports + k - 1] else []
  }

  function Kept(m: Module): seq<nat> { KeptUpTo(m, |m.defs|) }

  predicate Survives(m: Module, i: nat) { m.imports <= i < m.imports + |m.defs| && Needed(m, i) }

  /** `old_to_new.get(i, i)`. */
  function NewIndex(m: Module, i: nat): nat {
    if Survives(m, i) then |KeptUpTo(m, i - m.imports)| else i
  }

  // ----- the rewritten module

  function RenumberInstr(m: Module, c: Instr): Instr {
    match c
    case Get(i) => Get(NewIndex(m, i))
    case Set(i) => Set(NewIndex(m, i))
    case Op(_) => c
  }

  function RenumberGets(m: Module, gets: seq<nat>): (r: seq<nat>)
    ensures |r| == |gets| && forall j :: 0 <= j < |gets| ==> r[j] == NewIndex(m, gets[j])
  {
    if gets == [] then [] else [NewIndex(m, gets[0])] + RenumberGets(m, gets[1..])
  }

  function RenumberCode(m: Module, code: seq<Instr>): (r: seq<Instr>)
    ensures |r| == |code| && forall j :: 0 <= j < |code| ==> r[j] == RenumberInstr(m, code[j])
  {
    if code == [] then [] else [RenumberInstr(m, code[0])] + RenumberCode(m, code[1..])
  }

  function KeptDef(m: Module, i: nat): Def
    requires m.imports <= i < m.imports + |m.defs|
  {
    var d := m.defs[i - m.imports];
    Def(d.payload, RenumberGets(m, d.gets))
  }

  function KeptDefs(m: Module, kept: seq<nat>): (r: seq<Def>)
    requires forall j :: 0 <= j < |kept| ==> m.imports <= kept[j] < m.imports + |m.defs|
    ensures |r| == |kept| && forall j :: 0 <= j < |kept| ==> r[j] == KeptDef(m, kept[j])
  {
    if kept == [] then [] else [KeptDef(m, kept[0])] + KeptDefs(m, kept[1..])
  }

  function KeptExports(m: Module, exports: seq<Export>): seq<Export> {
    if exports == [] then []
    else (if KeepExport(exports[0]) then [Export(exports[0].name, NewIndex(m, exports[0].index))] else []) + KeptExports(m, exports[1..])
  }

  function Optimized(m: Module): Module {
    Module(m.imports, KeptDefs(m, Kept(m)), RenumberCode(m, m.code), KeptExports(m, m.exports))
  }

  // ----- which exports are kept

  /** `part in text`: at some position. */
  predicate OccursAt(text: string, part: string, i: int) { 0 <= i && i + |part| <= |text| && text[i..i + |part|] == part }

  lemma {:induction false} ContainsIs(text: string, part: string)
    ensures Contains(text, part) <==> exists i :: OccursAt(text, part, i)
    decreases |text|
  {
    if part <= text {
      assert OccursAt(text, part, 0);
    } else {
      if text != "" {
        ContainsIs(text[1..], part);
        if Contains(text[1..], part) {
          var i :| OccursAt(text[1..], part, i);
          assert text[1..][i..i + |part|] == text[i + 1..i + 1 + |part|];
          assert OccursAt(text, part, i + 1);
        }
      }
      forall i | OccursAt(text, part, i)
        ensures Contains(text, part)
      {
        assert i > 0 by { assert text[0..0 + |part|] == text[..|part|]; }
        assert text[1..][i - 1..i - 1 + |part|] == text[i..i + |part|];
        assert OccursAt(text[1..], part, i - 1);
      }
    }
  }

  /** A name with no mark of type information, or with a mark of the exception machinery, wherever in the name. */
  ghost predicate WantedName(name: string) {
    || !(exists mark, i :: mark in {"_ZTV", "_ZTI", "_ZTS"} && OccursAt(name, mark, i))
    || (exists mark, i :: mark in {"exception", "error", "bad_", "__cxxabiv1", "nested_exception"} && OccursAt(name, mark, i))
  }

  lemma KeepIsWanted(e: Export)
    ensures KeepExport(e) <==> WantedName(e.name)
  {
    hide Contains, OccursAt;
    forall mark: string
      ensures Contains(e.name, mark) <==> exists i :: OccursAt(e.name, mark, i)
    {
      ContainsIs(e.name, mark);
    }
  }

  /** The exports of the rewritten module are those with a wanted name, under their new indices, and their globals are kept. */
  lemma {:induction false} ExportsKept(m: Module, exports: seq<Export>)
    ensures forall e :: e in exports && WantedName(e.name) ==> Export(e.name, NewIndex(m, e.index)) in KeptExports(m, exports)
    ensures forall x :: x in KeptExports(m, exports) ==>
              exists e :: e in exports && WantedName(e.name) && x == Export(e.name, NewIndex(m, e.index))
    ensures |KeptExports(m, exports)| <= |exports|
  {
    hide KeepExport, WantedName, NewIndex;
    if exports != [] {
      KeepIsWanted(exports[0]);
      ExportsKept(m, exports[1..]);
      assert forall e :: e in exports <==> e == exports[0] || e in exports[1..];
    }
  }

  /** What is exported under a wanted name is not removed. */
  lemma WantedIsNeeded(m: Module, k: nat)
    requires k < |m.exports| && WantedName(m.exports[k].name)
    ensures Needed(m, m.exports[k].index)
  {
    KeepIsWanted(m.exports[k]);
    assert ExportedBy(m.exports, m.exports[k].index);
  }

  /** Type information of exceptions stays, with its global; a vtable goes, with its global if nothing else refers to it. */
  lemma ExceptionStaysVtableGoes()
    ensures var m := Module(0, [Def(0, []), Def(1, [])], [], [Export("_ZTV3Foo", 0), Export("_ZTISt9exception", 1)]);
            Optimized(m) == Module(0, [Def(1, [])], [], [Export("_ZTISt9exception", 0)])
  {
    var vtable, typeInfo := Export("_ZTV3Foo", 0), Export("_ZTISt9exception", 1);
    VtableGoes(vtable);
    ExceptionStays(typeInfo);
    SecondKept(vtable, typeInfo);
  }

  lemma SecondKept(x: Export, y: Export)
    requires !KeepExport(x) && KeepExport(y) && x.index == 0 && y.index == 1
    ensures Optimized(Module(0, [Def(0, []), Def(1, [])], [], [x, y])) == Module(0, [Def(1, [])], [], [Export(y.name, 0)])
  {
    hide KeepExport, NewIndex, Needed, KeptDef;
    var m := Module(0, [Def(0, []), Def(1, [])], [], [x, y]);
    SecondNeeded(m, x, y);
    SecondDef(m);
    assert Kept(m) == [1];
    assert [1][1..] == [];
    assert KeptDefs(m, [1]) == [KeptDef(m, 1)] + KeptDefs(m, []);
    assert [x, y][1..] == [y] && [y][1..] == [];
    assert KeptExports(m, [y]) == [Export(y.name, 0)] + KeptExports(m, []);
  }

  lemma SecondNeeded(m: Module, x: Export, y: Export)
    requires m == Module(0, [Def(0, []), Def(1, [])], [], [x, y])
    requires !KeepExport(x) && KeepExport(y) && x.index == 0 && y.index == 1
    ensures !Needed(m, 0) && Needed(m, 1) && NewIndex(m, 1) == 0
    ensures KeptUpTo(m, 1) == [] && KeptUpTo(m, 2) == [1]
  {
    hide KeepExport;
    assert KeepExport(m.exports[1]) && m.exports[1].index == 1;
    assert Needed(m, 1) && !Needed(m, 0);
    assert KeptUpTo(m, 0) == [];
  }

  lemma SecondDef(m: Module)
    requires m.imports == 0 && m.defs == [Def(0, []), Def(1, [])]
    ensures KeptDef(m, 1) == Def(1, [])
  {
  }

  lemma ExceptionStays(e: Export)
    requires e.name == "_ZTISt9exception"
    ensures KeepExport(e)
  {
    assert e.name[7..7 + |"exception"|] == "exception";
    assert OccursAt(e.name, "exception", 7);
    ContainsIs(e.name, "exception");
  }

  lemma VtableGoes(e: Export)
    requires e.name == "_ZTV3Foo"
    ensures !KeepExport(e)
  {
    assert e.name[0..4] == "_ZTV";
    assert OccursAt(e.name, "_ZTV", 0);
    ContainsIs(e.name, "_ZTV");
    assert forall i :: 0 <= i < |e.name| ==> e.name[i] != 'e' && e.name[i] != 'b' && e.name[i] != 'n';
    hide Contains;
    Absent(e.name, "exception");
    Absent(e.name, "error");
    Absent(e.name, "bad_");
    Absent(e.name, "nested_exception");
    ContainsIs(e.name, "__cxxabiv1");
  }

  lemma Absent(text: string, part: string)
    requires part != "" && forall i :: 0 <= i < |text| ==> text[i] != part[0]
    ensures !Contains(text, part)
  {
    hide Contains;
    ContainsIs(text, part);
    forall i
      ensures !OccursAt(text, part, i)
    {
      if 0 <= i && i + |part| <= |text| {
        assert text[i..i + |part|][0] == text[i];
      }
    }
  }

  // ----- the map from old to new indices

  lemma {:induction false} KeptPrefix(m: Module, k: nat, l: nat)
    requires k <= l <= |m.defs|
    ensures KeptUpTo(m, k) <= KeptUpTo(m, l)
    decreases l
  {
    if k < l {
      KeptPrefix(m, k, l - 1);
    }
  }

  /** The definition with old index `i` stands at its new place, counted from the first definition. */
  lemma KeptAt(m: Module, i: nat)
    requires Survives(m, i)
    ensures NewIndex(m, i) < |Kept(m)| && Kept(m)[NewIndex(m, i)] == i
  {
    KeptPrefix(m, i - m.imports + 1, |m.defs|);
  }

  lemma {:induction false} KeptSurvive(m: Module, k: nat, j: nat)
    requires k <= |m.defs| && j < |KeptUpTo(m, k)|
    ensures Survives(m, KeptUpTo(m, k)[j]) && NewIndex(m, KeptUpTo(m, k)[j]) == j
    decreases k
  {
    if k > 0 && j < |KeptUpTo(m, k - 1)| {
      KeptSurvive(m, k - 1, j);
    }
  }

  /** Old to new is an order-preserving bijection from the surviving indices onto `0 .. k-1`. */
  lemma Bijection(m: Module)
    ensures forall i: nat :: Survives(m, i) ==> NewIndex(m, i) < |Kept(m)|
    ensures forall j :: 0 <= j < |Kept(m)| ==> Survives(m, Kept(m)[j]) && NewIndex(m, Kept(m)[j]) == j
    ensures forall i: nat, j: nat :: Survives(m, i) && Survives(m, j) && i < j ==> NewIndex(m, i) < NewIndex(m, j)
  {
    forall i: nat | Survives(m, i) ensures NewIndex(m, i) < |Kept(m)| {
      KeptAt(m, i);
    }
    forall j | 0 <= j < |Kept(m)| ensures Survives(m, Kept(m)[j]) && NewIndex(m, Kept(m)[j]) == j {
      KeptSurvive(m, |m.defs|, j);
    }
    forall i: nat, j: nat | Survives(m, i) && Survives(m, j) && i < j ensures NewIndex(m, i) < NewIndex(m, j) {
      KeptPrefix(m, i - m.imports + 1, j - m.imports);
    }
  }

  // ----- references reach the same definitions

  predicate Valid(m: Module) {
    && (forall k :: 0 <= k < |m.code| ==> m.code[k].Op? || m.code[k].index < m.imports + |m.defs|)
    && (forall k :: 0 <= k < |m.exports| ==> m.exports[k].index < m.imports + |m.defs|)
    && (forall k, j :: 0 <= k < |m.defs| && 0 <= j < |m.defs[k].gets| ==> m.defs[k].gets[j] < m.imports + k)
  }

  /** The old index of the global that index `j` names in the rewritten module. */
  function Origin(m: Module, j: nat): (i: int) {
    if j < m.imports then j
    else if j - m.imports < |Kept(m)| then Kept(m)[j - m.imports]
    else -1
  }

  lemma ReachesIfNothingImported(m: Module, i: nat)
    requires Survives(m, i)
    ensures Origin(m, NewIndex(m, i)) == i <==> m.imports == 0
  {
    KeptAt(m, i);
    var r := NewIndex(m, i);
    if m.imports > 0 && r >= m.imports && r - m.imports < |Kept(m)| {
      KeptSurvive(m, |m.defs|, r - m.imports);
    }
  }

  /**
   Every reference that is left reaches the global it named before, if and only if the
   module imports no globals or keeps none of its own: the counter of new indices starts at
   zero, but in the module the imported globals come first.
   */
  lemma ReferencesReach(m: Module)
    requires Valid(m)
    ensures (forall i: nat :: Needed(m, i) ==> Origin(m, NewIndex(m, i)) == i) <==> (m.imports == 0 || Kept(m) == [])
  {
    if m.imports == 0 || Kept(m) == [] {
      forall i: nat | Needed(m, i) ensures Origin(m, NewIndex(m, i)) == i {
        NeededInRange(m, i);
        if Survives(m, i) {
          KeptAt(m, i);
        }
      }
    } else {
      var i := Kept(m)[0];
      KeptSurvive(m, |m.defs|, 0);
      ReachesIfNothingImported(m, i);
      assert Needed(m, i) && Origin(m, NewIndex(m, i)) != i;
    }
  }

  /** One imported global and one defined global in use: its new index names the imported one. */
  lemma ImportShiftsIndex()
    ensures var m := Module(1, [Def(0, [])], [Get(1)], []);
            Valid(m) && Needed(m, 1) && Optimized(m).code == [Get(0)] && Origin(m, 0) == 0
  {
    var m := Module(1, [Def(0, [])], [Get(1)], []);
    assert Refers(m.code[0], 1);
    assert UsedByCode(m.code, 1);
    assert KeptUpTo(m, 0) == [];
    assert NewIndex(m, 1) == 0;
  }

  lemma NeededInRange(m: Module, i: nat)
    requires Valid(m) && Needed(m, i)
    ensures i < m.imports + |m.defs|
  {
  }

  // ----- running the module

  /** The rest of the machine: a stack to push to and take from, and every other instruction. */
  datatype Machine<!S> = Machine(push: (S, int) -> S, top: S -> int, drop: S -> S, exec: (int, nat, S) -> (nat, S))

  datatype Config<S> = Config(pc: nat, rest: S, globals: seq<int>)

  function StepOnce<S>(mc: Machine<S>, m: Module, c: Config<S>): (r: Config<S>)
    requires Valid(m) && m.imports == 0 && |c.globals| == |m.defs|
    ensures |r.globals| == |m.defs|
  {
    if c.pc >= |m.code| then c
    else
      match m.code[c.pc]
      case Get(i) => Config(c.pc + 1, mc.push(c.rest, c.globals[i]), c.globals)
      case Set(i) => Config(c.pc + 1, mc.drop(c.rest), c.globals[i := mc.top(c.rest)])
      case Op(o) => var (pc, rest) := mc.exec(o, c.pc, c.rest); Config(pc, rest, c.globals)
  }

  function Steps<S>(mc: Machine<S>, m: Module, c: Config<S>, n: nat): (r: Config<S>)
    requires Valid(m) && m.imports == 0 && |c.globals| == |m.defs|
    ensures |r.globals| == |m.defs|
  {
    if n == 0 then c else StepOnce(mc, m, Steps(mc, m, c, n - 1))
  }

  /** The rewritten module is where the original is, with the same values in the globals it has kept. */
  ghost predicate Simulates<S>(m: Module, c: Config<S>, c': Config<S>) {
    && |c.globals| == |m.defs| && |c'.globals| == |Kept(m)|
    && c'.pc == c.pc && c'.rest == c.rest
    && forall i: nat :: Survives(m, i) ==> NewIndex(m, i) < |Kept(m)| && c'.globals[NewIndex(m, i)] == c.globals[i - m.imports]
  }

  lemma NewIndexBelow(m: Module, i: nat, k: nat)
    requires m.imports == 0 && i < k <= |m.defs| && Needed(m, i)
    ensures NewIndex(m, i) < |KeptUpTo(m, k)|
  {
    KeptPrefix(m, i + 1, k);
  }

  lemma StaysValid(m: Module)
    requires Valid(m) && m.imports == 0
    ensures Valid(Optimized(m))
  {
    var o := Optimized(m);
    forall k | 0 <= k < |o.code| ensures o.code[k].Op? || o.code[k].index < |o.defs| {
      if !m.code[k].Op? {
        assert Refers(m.code[k], m.code[k].index);
        KeptAt(m, m.code[k].index);
      }
    }
    forall k, j | 0 <= k < |o.defs| && 0 <= j < |o.defs[k].gets| ensures o.defs[k].gets[j] < k {
      KeptSurvive(m, |m.defs|, k);
      var i := Kept(m)[k];
      assert o.defs[k] == KeptDef(m, i);
      GetsBelow(m, i, j);
    }
    ExportsStayValid(m, m.exports);
  }

  lemma GetsBelow(m: Module, i: nat, j: nat)
    requires Valid(m) && m.imports == 0 && Survives(m, i) && j < |m.defs[i].gets|
    ensures NewIndex(m, m.defs[i].gets[j]) < NewIndex(m, i)
  {
    hide Needed;
    var g := m.defs[i].gets[j];
    assert g in m.defs[i].gets;
    UsedByAny(m, i, g);
    NewIndexBelow(m, g, i);
  }

  lemma UsedByAny(m: Module, i: nat, g: nat)
    requires i < |m.defs| && g in m.defs[i].gets
    ensures Needed(m, g)
  {
  }

  lemma {:induction false} ExportsStayValid(m: Module, exports: seq<Export>)
    requires Valid(m) && m.imports == 0
    requires forall k :: 0 <= k < |exports| ==> exports[k] in m.exports
    ensures forall e :: e in KeptExports(m, exports) ==> e.index < |Kept(m)|
  {
    if exports != [] {
      if KeepExport(exports[0]) {
        var k :| 0 <= k < |m.exports| && m.exports[k] == exports[0];
        assert KeepExport(m.exports[k]) && m.exports[k].index == exports[0].index;
        KeptAt(m, exports[0].index);
      }
      ExportsStayValid(m, exports[1..]);
    }
  }

  lemma CodeSurvives(m: Module, pc: nat)
    requires Valid(m) && m.imports == 0 && pc < |m.code| && !m.code[pc].Op?
    ensures Survives(m, m.code[pc].index)
  {
    assert Refers(m.code[pc], m.code[pc].index);
  }

  lemma StepSimulates<S>(mc: Machine<S>, m: Module, c: Config<S>, c': Config<S>)
    requires Valid(m) && m.imports == 0 && Simulates(m, c, c')
    ensures Valid(Optimized(m)) && Simulates(m, StepOnce(mc, m, c), StepOnce(mc, Optimized(m), c'))
  {
    hide Needed, KeptUpTo, KeptDefs, KeptExports;
    StaysValid(m);
    if c.pc < |m.code| {
      var instr := m.code[c.pc];
      assert Optimized(m).code[c.pc] == RenumberInstr(m, instr);
      if instr.Get? {
        CodeSurvives(m, c.pc);
      } else if instr.Set? {
        CodeSurvives(m, c.pc);
        Bijection(m);
      }
    }
  }

  lemma SameLengths<S>(m: Module, c: Config<S>, c': Config<S>)
    requires Valid(m) && m.imports == 0 && Simulates(m, c, c')
    ensures |c.globals| == |m.defs| && |c'.globals| == |Optimized(m).defs| && Optimized(m).imports == 0
  {
  }

  /** Running any code on the rewritten module simulates the original, step by step, on the globals it has kept. */
  lemma {:induction false} RunSimulates<S>(mc: Machine<S>, m: Module, c: Config<S>, c': Config<S>, n: nat)
    requires Valid(m) && m.imports == 0 && Simulates(m, c, c')
    ensures Valid(Optimized(m)) && Simulates(m, Steps(mc, m, c, n), Steps(mc, Optimized(m), c', n))
  {
    hide Valid, Optimized, Simulates;
    StaysValid(m);
    SameLengths(m, c, c');
    if n > 0 {
      RunSimulates(mc, m, c, c', n - 1);
      SameLengths(m, Steps(mc, m, c, n - 1), Steps(mc, Optimized(m), c', n - 1));
      StepSimulates(mc, m, Steps(mc, m, c, n - 1), Steps(mc, Optimized(m), c', n - 1));
    }
  }

  // ----- starting the module

  function Read(values: seq<int>, gets: seq<nat>): (r: seq<int>)
    requires forall j :: 0 <= j < |gets| ==> gets[j] < |values|
    ensures |r| == |gets| && forall j :: 0 <= j < |gets| ==> r[j] == values[gets[j]]
  {
    if gets == [] then [] else [values[gets[0]]] + Read(values, gets[1..])
  }

  /** The initial values of the first `k` globals; an initializer sees the globals before its own. */
  function InitUpTo(eval: (int, seq<int>) -> int, m: Module, k: nat): (values: seq<int>)
    requires Valid(m) && m.imports == 0 && k <= |m.defs|
    ensures |values| == k
  {
    if k == 0 then []
    else
      var before := InitUpTo(eval, m, k - 1);
      before + [eval(m.defs[k - 1].payload, Read(before, m.defs[k - 1].gets))]
  }

  /** A survivor starts with the value it had. */
  lemma {:induction false} InitMatches(eval: (int, seq<int>) -> int, m: Module, k: nat, i: nat)
    requires Valid(m) && m.imports == 0 && Survives(m, i) && i < k <= |m.defs|
    ensures Valid(Optimized(m)) && NewIndex(m, i) < |KeptUpTo(m, k)| <= |Kept(m)|
    ensures InitUpTo(eval, Optimized(m), |KeptUpTo(m, k)|)[NewIndex(m, i)] == InitUpTo(eval, m, k)[i]
    decreases k, 0
  {
    hide Needed, Optimized;
    StaysValid(m);
    NewIndexBelow(m, i, k);
    KeptPrefix(m, k, |m.defs|);
    if i < k - 1 {
      InitMatches(eval, m, k - 1, i);
    } else {
      InitMatchesAt(eval, m, i);
    }
  }

  lemma {:induction false} InitMatchesAt(eval: (int, seq<int>) -> int, m: Module, i: nat)
    requires Valid(m) && m.imports == 0 && Survives(m, i)
    ensures Valid(Optimized(m)) && |KeptUpTo(m, i + 1)| == NewIndex(m, i) + 1 <= |Kept(m)|
    ensures InitUpTo(eval, Optimized(m), NewIndex(m, i) + 1)[NewIndex(m, i)] == InitUpTo(eval, m, i + 1)[i]
    decreases i, 1
  {
    hide Needed;
    StaysValid(m);
    KeptPrefix(m, i + 1, |m.defs|);
    KeptAt(m, i);
    var o, r, d := Optimized(m), NewIndex(m, i), m.defs[i];
    assert o.defs[r] == KeptDef(m, i);
    var before, before' := InitUpTo(eval, m, i), InitUpTo(eval, o, r);
    forall j | 0 <= j < |d.gets| ensures before'[NewIndex(m, d.gets[j])] == before[d.gets[j]] {
      assert d.gets[j] in d.gets;
      UsedByAny(m, i, d.gets[j]);
      InitMatches(eval, m, i, d.gets[j]);
    }
    assert Read(before', o.defs[r].gets) == Read(before, d.gets);
  }

  function Start<S>(eval: (int, seq<int>) -> int, m: Module, pc: nat, rest: S): Config<S>
    requires Valid(m) && m.imports == 0
  {
    Config(pc, rest, InitUpTo(eval, m, |m.defs|))
  }

  /** The value a host reads through an export. */
  function Exported<S>(c: Config<S>, e: Export): int
    requires e.index < |c.globals|
  {
    c.globals[e.index]
  }

  lemma {:induction false} ExportStays(m: Module, exports: seq<Export>, e: Export)
    requires e in exports && KeepExport(e)
    ensures Export(e.name, NewIndex(m, e.index)) in KeptExports(m, exports)
  {
    if exports[0] != e {
      ExportStays(m, exports[1..], e);
    }
  }

  /**
   Meaning is kept: from instantiation on, after any number of steps of any code, the
   rewritten module is where the original is, and every kept export shows the same value.
   */
  lemma MeaningKept<S>(mc: Machine<S>, eval: (int, seq<int>) -> int, m: Module, pc: nat, rest: S, n: nat, e: Export)
    requires Valid(m) && m.imports == 0 && e in m.exports && KeepExport(e)
    ensures Valid(Optimized(m))
    ensures var c, c' := Steps(mc, m, Start(eval, m, pc, rest), n), Steps(mc, Optimized(m), Start(eval, Optimized(m), pc, rest), n);
            var e' := Export(e.name, NewIndex(m, e.index));
            && Simulates(m, c, c')
            && e' in Optimized(m).exports && e.index < |c.globals| && e'.index < |c'.globals|
            && Exported(c', e') == Exported(c, e)
  {
    hide Needed, Steps, Kept, KeptExports, KeepExport, Start;
    StaysValid(m);
    StartSimulates(eval, m, pc, rest);
    RunSimulates(mc, m, Start(eval, m, pc, rest), Start(eval, Optimized(m), pc, rest), n);
    ExportStays(m, m.exports, e);
    ExportSurvives(m, e);
  }

  lemma ExportSurvives(m: Module, e: Export)
    requires Valid(m) && e in m.exports && KeepExport(e) && m.imports == 0
    ensures Survives(m, e.index)
  {
    var k :| 0 <= k < |m.exports| && m.exports[k] == e;
    assert KeepExport(m.exports[k]) && m.exports[k].index == e.index;
  }

  lemma StartSimulates<S>(eval: (int, seq<int>) -> int, m: Module, pc: nat, rest: S)
    requires Valid(m) && m.imports == 0
    ensures Valid(Optimized(m)) && Simulates(m, Start(eval, m, pc, rest), Start(eval, Optimized(m), pc, rest))
  {
    StaysValid(m);
    forall i: nat | Survives(m, i)
      ensures NewIndex(m, i) < |Kept(m)|
      ensures InitUpTo(eval, Optimized(m), |Kept(m)|)[NewIndex(m, i)] == InitUpTo(eval, m, |m.defs|)[i]
    {
      InitMatches(eval, m, |m.defs|, i);
    }
  }

  // ----- the program

  method UsedGlobals(m: Module) returns (used: set<nat>)
    ensures forall i: nat :: i in used <==> UsedByCode(m.code, i) || UsedByDefs(m.defs, i)
  {
    used := {};
    for k := 0 to |m.code|
      invariant forall i: nat :: i in used <==> UsedByCode(m.code[..k], i)
    {
      if !m.code[k].Op? {
        used := used + {m.code[k].index};
      }
      CodeSnoc(m.code, k);
    }
    assert m.code[..|m.code|] == m.code;
    for k := 0 to |m.defs|
      invariant forall i: nat :: i in used <==> UsedByCode(m.code, i) || UsedByDefs(m.defs[..k], i)
    {
      used := used + (set g | g in m.defs[k].gets);
      DefsSnoc(m.defs, k);
    }
    assert m.defs[..|m.defs|] == m.defs;
  }

  lemma CodeSnoc(code: seq<Instr>, k: nat)
    requires k < |code|
    ensures forall i: nat :: UsedByCode(code[..k + 1], i) <==> UsedByCode(code[..k], i) || Refers(code[k], i)
  {
    var longer, shorter := code[..k + 1], code[..k];
    forall i: nat ensures UsedByCode(longer, i) <==> UsedByCode(shorter, i) || Refers(code[k], i) {
      if UsedByCode(shorter, i) {
        var j :| 0 <= j < |shorter| && Refers(shorter[j], i);
        assert longer[j] == shorter[j];
      }
      if Refers(code[k], i) {
        assert longer[k] == code[k];
      }
      if UsedByCode(longer, i) {
        var j :| 0 <= j < |longer| && Refers(longer[j], i);
        assert j < k ==> shorter[j] == longer[j];
      }
    }
  }

  lemma DefsSnoc(defs: seq<Def>, k: nat)
    requires k < |defs|
    ensures forall i: nat :: UsedByDefs(defs[..k + 1], i) <==> UsedByDefs(defs[..k], i) || i in defs[k].gets
  {
    var longer, shorter := defs[..k + 1], defs[..k];
    forall i: nat ensures UsedByDefs(longer, i) <==> UsedByDefs(shorter, i) || i in defs[k].gets {
      if UsedByDefs(shorter, i) {
        var j :| 0 <= j < |shorter| && i in shorter[j].gets;
        assert longer[j] == shorter[j];
      }
      if i in defs[k].gets {
        assert longer[k] == defs[k];
      }
      if UsedByDefs(longer, i) {
        var j :| 0 <= j < |longer| && i in longer[j].gets;
        assert j < k ==> shorter[j] == longer[j];
      }
    }
  }

  method ExportedGlobals(m: Module) returns (exported: set<nat>, removed: set<nat>)
    ensures forall i: nat :: i in exported <==> ExportedBy(m.exports, i)
    ensures forall k: nat :: k in removed <==> k < |m.exports| && !KeepExport(m.exports[k])
    ensures forall k: nat :: k in removed <==> k < |m.exports| && !WantedName(m.exports[k].name)
  {
    exported, removed := {}, {};
    for k := 0 to |m.exports|
      invariant forall i: nat :: i in exported <==> ExportedBy(m.exports[..k], i)
      invariant forall j: nat :: j in removed <==> j < k && !KeepExport(m.exports[j])
    {
      var e := m.exports[k];
      if IsRtti(e.name) && !IsExceptionRtti(e.name) {
        removed := removed + {k};
      } else {
        exported := exported + {e.index};
      }
      ExportsSnoc(m.exports, k);
    }
    assert m.exports[..|m.exports|] == m.exports;
    forall k: nat | k < |m.exports|
      ensures KeepExport(m.exports[k]) <==> WantedName(m.exports[k].name)
    {
      KeepIsWanted(m.exports[k]);
    }
  }

  lemma ExportsSnoc(exports: seq<Export>, k: nat)
    requires k < |exports|
    ensures forall i: nat :: ExportedBy(exports[..k + 1], i) <==> ExportedBy(exports[..k], i) || (KeepExport(exports[k]) && exports[k].index == i)
  {
    hide KeepExport;
    var longer, shorter := exports[..k + 1], exports[..k];
    forall i: nat ensures ExportedBy(longer, i) <==> ExportedBy(shorter, i) || (KeepExport(exports[k]) && exports[k].index == i) {
      if ExportedBy(shorter, i) {
        var j :| 0 <= j < |shorter| && KeepExport(shorter[j]) && shorter[j].index == i;
        assert longer[j] == shorter[j];
      }
      if KeepExport(exports[k]) && exports[k].index == i {
        assert longer[k] == exports[k];
      }
      if ExportedBy(longer, i) {
        var j :| 0 <= j < |longer| && KeepExport(longer[j]) && longer[j].index == i;
        assert j < k ==> shorter[j] == longer[j];
      }
    }
  }

  /** Step 5: the surviving indices in order, numbered from zero. */
  method OldToNew(m: Module, removable: set<nat>) returns (oldToNew: map<nat, nat>)
    requires forall i: nat :: i in removable <==> m.imports <= i < m.imports + |m.defs| && !Needed(m, i)
    ensures forall i: nat :: i in oldToNew <==> Survives(m, i)
    ensures forall i: nat :: i in oldToNew ==> oldToNew[i] == NewIndex(m, i)
  {
    hide Needed;
    oldToNew := map[];
    var newIdx := 0;
    for k := 0 to |m.defs|
      invariant newIdx == |KeptUpTo(m, k)|
      invariant forall i: nat :: i in oldToNew <==> Survives(m, i) && i < m.imports + k
      invariant forall i: nat :: i in oldToNew ==> oldToNew[i] == NewIndex(m, i)
    {
      var oldIdx := m.imports + k;
      if oldIdx !in removable {
        oldToNew := oldToNew[oldIdx := newIdx];
        newIdx := newIdx + 1;
      }
    }
  }

  function Renumbered(oldToNew: map<nat, nat>, i: nat): nat { if i in oldToNew then oldToNew[i] else i }

  lemma {:induction false} KeptDefsSnoc(m: Module, kept: seq<nat>, i: nat)
    requires forall j :: 0 <= j < |kept| ==> m.imports <= kept[j] < m.imports + |m.defs|
    requires m.imports <= i < m.imports + |m.defs|
    ensures KeptDefs(m, kept + [i]) == KeptDefs(m, kept) + [KeptDef(m, i)]
  {
  }

  lemma {:induction false} KeptExportsSnoc(m: Module, exports: seq<Export>, e: Export)
    ensures KeptExports(m, exports + [e]) ==
              KeptExports(m, exports) + if KeepExport(e) then [Export(e.name, NewIndex(m, e.index))] else []
  {
    if exports != [] {
      assert (exports + [e])[1..] == exports[1..] + [e];
      KeptExportsSnoc(m, exports[1..], e);
    } else {
      assert ([] + [e])[1..] == [];
    }
  }

  method RewriteGets(m: Module, oldToNew: map<nat, nat>, gets: seq<nat>) returns (r: seq<nat>)
    requires forall i: nat :: Renumbered(oldToNew, i) == NewIndex(m, i)
    ensures r == RenumberGets(m, gets)
  {
    hide Renumbered, NewIndex;
    r := [];
    for j := 0 to |gets|
      invariant |r| == j && forall k :: 0 <= k < j ==> r[k] == NewIndex(m, gets[k])
    {
      r := r + [Renumbered(oldToNew, gets[j])];
    }
  }

  lemma NoDefs(m: Module)
    ensures KeptDefs(m, []) == []
  {
  }

  /** Step 6: definitions are left out or renumbered. */
  method RewriteDefs(m: Module, oldToNew: map<nat, nat>, removable: set<nat>) returns (defs: seq<Def>)
    requires forall i: nat :: i in removable <==> m.imports <= i < m.imports + |m.defs| && !Needed(m, i)
    requires forall i: nat :: Renumbered(oldToNew, i) == NewIndex(m, i)
    ensures defs == KeptDefs(m, Kept(m))
  {
    hide Needed, Renumbered, NewIndex, RenumberGets, KeptDefs;
    defs := [];
    NoDefs(m);
    for k := 0 to |m.defs|
      invariant defs == KeptDefs(m, KeptUpTo(m, k))
    {
      if m.imports + k !in removable {
        var d := m.defs[k];
        var gets := RewriteGets(m, oldToNew, d.gets);
        KeptDefsSnoc(m, KeptUpTo(m, k), m.imports + k);
        defs := defs + [Def(d.payload, gets)];
      }
    }
  }

  /** Step 6: code is renumbered. */
  method RewriteCode(m: Module, oldToNew: map<nat, nat>) returns (code: seq<Instr>)
    requires forall i: nat :: Renumbered(oldToNew, i) == NewIndex(m, i)
    ensures code == RenumberCode(m, m.code)
  {
    hide Needed, Renumbered, NewIndex;
    code := [];
    for k := 0 to |m.code|
      invariant |code| == k && forall j :: 0 <= j < k ==> code[j] == RenumberInstr(m, m.code[j])
    {
      var c := m.code[k];
      if c.Get? {
        c := Get(Renumbered(oldToNew, c.index));
      } else if c.Set? {
        c := Set(Renumbered(oldToNew, c.index));
      }
      code := code + [c];
    }
  }

  /** Step 6: exports are left out or renumbered. */
  method RewriteExports(m: Module, oldToNew: map<nat, nat>, removed: set<nat>) returns (exports: seq<Export>)
    requires forall i: nat :: Renumbered(oldToNew, i) == NewIndex(m, i)
    requires forall k: nat :: k in removed <==> k < |m.exports| && !KeepExport(m.exports[k])
    ensures exports == KeptExports(m, m.exports)
  {
    hide Needed, KeepExport, Renumbered, NewIndex;
    exports := [];
    for k := 0 to |m.exports|
      invariant exports == KeptExports(m, m.exports[..k])
    {
      var e := m.exports[k];
      assert m.exports[..k + 1] == m.exports[..k] + [e];
      KeptExportsSnoc(m, m.exports[..k], e);
      if k !in removed {
        exports := exports + [Export(e.name, Renumbered(oldToNew, e.index))];
      }
    }
    assert m.exports[..|m.exports|] == m.exports;
  }

  method DefinedGlobals(m: Module) returns (all: set<nat>)
    ensures forall i: nat :: i in all <==> m.imports <= i < m.imports + |m.defs|
  {
    all := {};
    for k := 0 to |m.defs|
      invariant forall i: nat :: i in all <==> m.imports <= i < m.imports + k
    {
      all := all + {m.imports + k};
    }
  }

  /** The whole transformation, with the number of exports and of globals it has removed. */
  method OptimizeGlobals(m: Module) returns (r: Module, removedExports: nat, removedGlobals: nat)
    ensures r == Optimized(m)
    ensures removedGlobals == |m.defs| - |r.defs|
    ensures removedExports == |m.exports| - |r.exports|
  {
    hide UsedByCode, UsedByDefs, ExportedBy, KeepExport, KeptUpTo, KeptExports;
    var used := UsedGlobals(m);
    var exported, gone := ExportedGlobals(m);
    var needed := used + exported;
    var allGlobals := DefinedGlobals(m);
    var removable := allGlobals - needed;
    var oldToNew := OldToNew(m, removable);
    var defs := RewriteDefs(m, oldToNew, removable);
    var code := RewriteCode(m, oldToNew);
    var exports := RewriteExports(m, oldToNew, gone);
    r := Module(m.imports, defs, code, exports);
    CountKept(m, |m.defs|, removable);
    CountExports(m, m.exports, gone);
    removedExports, removedGlobals := |gone|, |removable|;
  }

  lemma {:induction false} CountKept(m: Module, k: nat, removable: set<nat>)
    requires k <= |m.defs|
    requires forall i: nat :: i in removable <==> m.imports <= i < m.imports + k && !Needed(m, i)
    ensures |removable| == k - |KeptUpTo(m, k)|
  {
    hide Needed;
    if k > 0 {
      var i := m.imports + k - 1;
      if i in removable {
        CountKept(m, k - 1, removable - {i});
      } else {
        CountKept(m, k - 1, removable);
      }
    }
  }

  lemma {:induction false} CountExports(m: Module, exports: seq<Export>, gone: set<nat>)
    requires forall k: nat :: k in gone <==> k < |exports| && !KeepExport(exports[k])
    ensures |gone| == |exports| - |KeptExports(m, exports)|
    decreases |exports|
  {
    hide KeepExport;
    if exports != [] {
      var n := |exports| - 1;
      var front := exports[..n];
      assert exports == front + [exports[n]];
      KeptExportsSnoc(m, front, exports[n]);
      if n in gone {
        CountExports(m, front, gone - {n});
      } else {
        CountExports(m, front, gone);
      }
    }
  }
}
