/** The ordered multi-pass registrar of parser/registrar.go.

    A Registrar holds registrations (block name, order key, definition) and a
    counter that hands out order keys. Parse sorts the registrations by order
    key and decodes one body in as many passes as there are registrations:
    each pass partially decodes what the previous pass left over, its
    diagnostics are appended to the result, and what its definition injects
    is written into the shared evaluation context before the next pass.

    The first half of the module specifies a whole Parse as a pure function
    (Run) of the definitions in processing order; the class below is proved
    against it. */
module Registrar {
  import opened Base
  import opened Hcl
  import opened Parser

  /** A *Registration: callers hold pointers to it and may change its fields. */
  class Registration {
    var blockName: string
    var order: int64
    var definition: BlockDefinition

    constructor (blockName: string, order: int64, definition: BlockDefinition)
      ensures this.blockName == blockName && this.order == order && this.definition == definition
    {
      this.blockName := blockName;
      this.order := order;
      this.definition := definition;
    }
  }

  /** The definitions of a list of registrations, in list order. */
  function Definitions(rs: seq<Registration>): (defs: seq<BlockDefinition>)
    reads rs
    ensures |defs| == |rs|
    ensures forall i :: 0 <= i < |rs| ==> defs[i] == rs[i].definition
  {
    if rs == [] then [] else Definitions(rs[..|rs| - 1]) + [rs[|rs| - 1].definition]
  }

  ghost predicate SortedByOrder(rs: seq<Registration>)
    reads rs
  {
    forall i, j :: 0 <= i < j < |rs| ==> rs[i].order <= rs[j].order
  }

  /** No registration after position i (and before n) has the same block name. */
  ghost predicate LastWithName(rs: seq<Registration>, i: int, n: int)
    requires 0 <= i < n <= |rs|
    reads rs
  {
    forall j :: i < j < n ==> rs[j].blockName != rs[i].blockName
  }

  // ---------------------------------------------------------------------
  // The passes of one Parse, as functions
  // ---------------------------------------------------------------------

  /** What Parse threads from pass to pass: the residual body, the diagnostics
      so far, and the context's variables and functions. */
  datatype DecodeState = DecodeState(body: Body, diags: seq<Diagnostic>, scope: Scope)

  /** One pass: decode the residual body with the definition's grammar against
      the current scope, append its diagnostics, continue with its residual
      body, then merge its injected functions and then its injected variables
      into the scope (last write wins). */
  function Step(st: DecodeState, def: BlockDefinition, engine: Engine): DecodeState
  {
    var d := engine.partialDecode(st.body, def.spec, st.scope);
    var functions :=
      if def.functions.Some? then st.scope.functions + def.functions.value(d.value)
      else st.scope.functions;
    var variables :=
      if def.variables.Some? then st.scope.variables + def.variables.value(d.value)
      else st.scope.variables;
    DecodeState(d.rest, st.diags + d.diags, Scope(variables, functions))
  }

  /** All passes over defs, in sequence order. */
  function Run(defs: seq<BlockDefinition>, init: DecodeState, engine: Engine): (r: DecodeState)
    decreases |defs|
  {
    if defs == [] then init
    else Step(Run(defs[..|defs| - 1], init, engine), defs[|defs| - 1], engine)
  }

  /** The call hcldec.PartialDecode receives in pass i, and what it returns. */
  datatype Pass = Pass(input: Body, scope: Scope, decoded: Decoded)

  function PassAt(defs: seq<BlockDefinition>, init: DecodeState, engine: Engine, i: nat): Pass
    requires i < |defs|
  {
    var before := Run(defs[..i], init, engine);
    Pass(before.body, before.scope, engine.partialDecode(before.body, defs[i].spec, before.scope))
  }

  /** The context's scope once the first n passes are done. */
  function ScopeAfter(defs: seq<BlockDefinition>, init: DecodeState, engine: Engine, n: nat): Scope
    requires n <= |defs|
  {
    Run(defs[..n], init, engine).scope
  }

  /** Pass i writes variable k. */
  ghost predicate InjectsVariable(defs: seq<BlockDefinition>, init: DecodeState, engine: Engine, i: nat, k: string)
    requires i < |defs|
  {
    defs[i].variables.Some? && k in defs[i].variables.value(PassAt(defs, init, engine, i).decoded.value)
  }

  /** Pass i writes function k. */
  ghost predicate InjectsFunction(defs: seq<BlockDefinition>, init: DecodeState, engine: Engine, i: nat, k: string)
    requires i < |defs|
  {
    defs[i].functions.Some? && k in defs[i].functions.value(PassAt(defs, init, engine, i).decoded.value)
  }

  /** The diagnostics of the first n passes, concatenated in pass order. */
  function PassDiagnostics(defs: seq<BlockDefinition>, init: DecodeState, engine: Engine, n: nat): seq<Diagnostic>
    requires n <= |defs|
    decreases n
  {
    if n == 0 then []
    else PassDiagnostics(defs, init, engine, n - 1) + PassAt(defs, init, engine, n - 1).decoded.diags
  }

  // ---------------------------------------------------------------------
  // Properties of the passes
  // ---------------------------------------------------------------------

  /** The scope after one pass, name by name: every injected name holds the
      injected value (last write wins), and every other name keeps its entry. */
  lemma StepMergesScope(st: DecodeState, def: BlockDefinition, engine: Engine, k: string)
    ensures var d := engine.partialDecode(st.body, def.spec, st.scope);
            var r := Step(st, def, engine);
            && (def.IsVariableInjector() && k in def.variables.value(d.value) ==>
                  k in r.scope.variables && r.scope.variables[k] == def.variables.value(d.value)[k])
            && (!(def.IsVariableInjector() && k in def.variables.value(d.value)) ==>
                  (k in r.scope.variables <==> k in st.scope.variables)
                  && (k in st.scope.variables ==> r.scope.variables[k] == st.scope.variables[k]))
            && (def.IsFunctionInjector() && k in def.functions.value(d.value) ==>
                  k in r.scope.functions && r.scope.functions[k] == def.functions.value(d.value)[k])
            && (!(def.IsFunctionInjector() && k in def.functions.value(d.value)) ==>
                  (k in r.scope.functions <==> k in st.scope.functions)
                  && (k in st.scope.functions ==> r.scope.functions[k] == st.scope.functions[k]))
  {
  }

  /** The first n + 1 passes are the first n followed by pass n. */
  lemma RunPrefixStep(defs: seq<BlockDefinition>, init: DecodeState, engine: Engine, n: nat)
    requires n < |defs|
    ensures Run(defs[..n + 1], init, engine) == Step(Run(defs[..n], init, engine), defs[n], engine)
  {
    assert defs[..n + 1][..n] == defs[..n];
  }

  /** Running a + b is running a and then b from where a left off. */
  lemma {:induction false} RunAppend(a: seq<BlockDefinition>, b: seq<BlockDefinition>, init: DecodeState, engine: Engine)
    ensures Run(a + b, init, engine) == Run(b, Run(a, init, engine), engine)
    decreases |b|
  {
    if b == [] {
      assert a + b == a;
    } else {
      var b' := b[..|b| - 1];
      assert (a + b)[..|a + b| - 1] == a + b';
      RunAppend(a, b', init, engine);
    }
  }

  /** The first pass decodes the body given to Parse, against the initial context. */
  lemma FirstPassDecodesInput(defs: seq<BlockDefinition>, init: DecodeState, engine: Engine)
    requires 0 < |defs|
    ensures PassAt(defs, init, engine, 0).input == init.body
    ensures PassAt(defs, init, engine, 0).scope == init.scope
  {
    assert defs[..0] == [];
  }

  /** Every later pass decodes the residual body of the pass before it. */
  lemma PassDecodesPreviousResidual(defs: seq<BlockDefinition>, init: DecodeState, engine: Engine, i: nat)
    requires i + 1 < |defs|
    ensures PassAt(defs, init, engine, i + 1).input == PassAt(defs, init, engine, i).decoded.rest
  {
    RunPrefixStep(defs, init, engine, i);
  }

  /** The result's diagnostics are the initial ones followed by those of every
      pass, in pass order; no pass is skipped. */
  lemma {:induction false} DiagnosticsConcatenate(defs: seq<BlockDefinition>, init: DecodeState, engine: Engine, n: nat)
    requires n <= |defs|
    ensures Run(defs[..n], init, engine).diags == init.diags + PassDiagnostics(defs, init, engine, n)
  {
    if n == 0 {
      assert defs[..0] == [];
    } else {
      DiagnosticsConcatenate(defs, init, engine, n - 1);
      RunPrefixStep(defs, init, engine, n - 1);
      var before := Run(defs[..n - 1], init, engine);
      assert Run(defs[..n], init, engine).diags
          == before.diags + PassAt(defs, init, engine, n - 1).decoded.diags;
    }
  }

  /** Diagnostics only grow: what the first i passes reported is a prefix of
      what the first n passes report. */
  lemma {:induction false} DiagnosticsOnlyGrow(defs: seq<BlockDefinition>, init: DecodeState, engine: Engine, i: nat, n: nat)
    requires i <= n <= |defs|
    ensures Run(defs[..i], init, engine).diags <= Run(defs[..n], init, engine).diags
    decreases n - i
  {
    if i < n {
      DiagnosticsOnlyGrow(defs, init, engine, i, n - 1);
      RunPrefixStep(defs, init, engine, n - 1);
    }
  }

  /** An error reported by any pass is still in the result: decoding does not
      stop early and drops nothing. */
  lemma ErrorsSurvive(defs: seq<BlockDefinition>, init: DecodeState, engine: Engine, i: nat)
    requires i < |defs|
    requires HasErrors(PassAt(defs, init, engine, i).decoded.diags)
    ensures HasErrors(Run(defs, init, engine).diags)
  {
    var ds := PassAt(defs, init, engine, i).decoded.diags;
    var e :| 0 <= e < |ds| && ds[e].severity == DiagError;
    RunPrefixStep(defs, init, engine, i);
    var after := Run(defs[..i + 1], init, engine).diags;
    assert after[|after| - |ds| + e] == ds[e];
    DiagnosticsOnlyGrow(defs, init, engine, i + 1, |defs|);
    assert defs[..|defs|] == defs;
    var all := Run(defs, init, engine).diags;
    assert all[|after| - |ds| + e] == ds[e];
  }

  /** A variable injected by pass i is seen, with the injected value, by every
      later pass and by the final context, until some later pass writes it again. */
  lemma {:induction false} InjectedVariableVisibleLater(defs: seq<BlockDefinition>, init: DecodeState, engine: Engine, i: nat, n: nat, k: string)
    requires i < n <= |defs|
    requires InjectsVariable(defs, init, engine, i, k)
    requires forall m :: i < m < n ==> !InjectsVariable(defs, init, engine, m, k)
    ensures k in ScopeAfter(defs, init, engine, n).variables
    ensures ScopeAfter(defs, init, engine, n).variables[k]
            == defs[i].variables.value(PassAt(defs, init, engine, i).decoded.value)[k]
  {
    RunPrefixStep(defs, init, engine, n - 1);
    if n > i + 1 {
      InjectedVariableVisibleLater(defs, init, engine, i, n - 1, k);
      assert !InjectsVariable(defs, init, engine, n - 1, k);
    }
  }

  /** A function injected by pass i is seen by every later pass and by the final
      context, until some later pass writes it again. */
  lemma {:induction false} InjectedFunctionVisibleLater(defs: seq<BlockDefinition>, init: DecodeState, engine: Engine, i: nat, n: nat, k: string)
    requires i < n <= |defs|
    requires InjectsFunction(defs, init, engine, i, k)
    requires forall m :: i < m < n ==> !InjectsFunction(defs, init, engine, m, k)
    ensures k in ScopeAfter(defs, init, engine, n).functions
    ensures ScopeAfter(defs, init, engine, n).functions[k]
            == defs[i].functions.value(PassAt(defs, init, engine, i).decoded.value)[k]
  {
    RunPrefixStep(defs, init, engine, n - 1);
    if n > i + 1 {
      InjectedFunctionVisibleLater(defs, init, engine, i, n - 1, k);
      assert !InjectsFunction(defs, init, engine, n - 1, k);
    }
  }

  /** A variable no pass writes keeps its initial presence and value. */
  lemma {:induction false} UninjectedVariableKept(defs: seq<BlockDefinition>, init: DecodeState, engine: Engine, n: nat, k: string)
    requires n <= |defs|
    requires forall m :: 0 <= m < n ==> !InjectsVariable(defs, init, engine, m, k)
    ensures (k in ScopeAfter(defs, init, engine, n).variables) == (k in init.scope.variables)
    ensures k in init.scope.variables ==>
              ScopeAfter(defs, init, engine, n).variables[k] == init.scope.variables[k]
  {
    if n == 0 {
      assert defs[..0] == [];
    } else {
      UninjectedVariableKept(defs, init, engine, n - 1, k);
      RunPrefixStep(defs, init, engine, n - 1);
      assert !InjectsVariable(defs, init, engine, n - 1, k);
    }
  }

  /** A function no pass writes keeps its initial presence and value. */
  lemma {:induction false} UninjectedFunctionKept(defs: seq<BlockDefinition>, init: DecodeState, engine: Engine, n: nat, k: string)
    requires n <= |defs|
    requires forall m :: 0 <= m < n ==> !InjectsFunction(defs, init, engine, m, k)
    ensures (k in ScopeAfter(defs, init, engine, n).functions) == (k in init.scope.functions)
    ensures k in init.scope.functions ==>
              ScopeAfter(defs, init, engine, n).functions[k] == init.scope.functions[k]
  {
    if n == 0 {
      assert defs[..0] == [];
    } else {
      UninjectedFunctionKept(defs, init, engine, n - 1, k);
      RunPrefixStep(defs, init, engine, n - 1);
      assert !InjectsFunction(defs, init, engine, n - 1, k);
    }
  }

  /** Names are never removed from the context: whatever is visible after i
      passes is still visible after n >= i passes. */
  lemma {:induction false} ScopeKeysPersist(defs: seq<BlockDefinition>, init: DecodeState, engine: Engine, i: nat, n: nat)
    requires i <= n <= |defs|
    ensures ScopeAfter(defs, init, engine, i).variables.Keys <= ScopeAfter(defs, init, engine, n).variables.Keys
    ensures ScopeAfter(defs, init, engine, i).functions.Keys <= ScopeAfter(defs, init, engine, n).functions.Keys
    decreases n - i
  {
    if i < n {
      ScopeKeysPersist(defs, init, engine, i, n - 1);
      var mid := ScopeAfter(defs, init, engine, n - 1);
      var last := ScopeAfter(defs, init, engine, n);
      assert mid.variables.Keys <= last.variables.Keys && mid.functions.Keys <= last.functions.Keys by {
        RunPrefixStep(defs, init, engine, n - 1);
        StepKeepsKeys(Run(defs[..n - 1], init, engine), defs[n - 1], engine);
      }
    }
  }

  /** One pass removes no name from the scope. */
  lemma StepKeepsKeys(st: DecodeState, def: BlockDefinition, engine: Engine)
    ensures st.scope.variables.Keys <= Step(st, def, engine).scope.variables.Keys
    ensures st.scope.functions.Keys <= Step(st, def, engine).scope.functions.Keys
  {
  }

  /** A definition that injects nothing leaves the context as it found it. */
  lemma PlainDefinitionKeepsScope(defs: seq<BlockDefinition>, init: DecodeState, engine: Engine, i: nat)
    requires i < |defs|
    requires !defs[i].IsVariableInjector() && !defs[i].IsFunctionInjector()
    ensures ScopeAfter(defs, init, engine, i + 1) == ScopeAfter(defs, init, engine, i)
  {
    RunPrefixStep(defs, init, engine, i);
  }

  /** What pass i decodes, and against which scope, is fixed by the definitions
      before it and by its own grammar alone: neither its own injectors nor any
      later definition can affect it (injection happens after decoding, and
      there is no forward visibility). */
  lemma PassSeesOnlyEarlierDefinitions(defs: seq<BlockDefinition>, other: seq<BlockDefinition>, init: DecodeState, engine: Engine, i: nat)
    requires i < |defs| && i < |other|
    requires defs[..i] == other[..i] && defs[i].spec == other[i].spec
    ensures PassAt(defs, init, engine, i) == PassAt(other, init, engine, i)
  {
  }

  /** In a list sorted by order key, a registration with a strictly smaller key
      is processed strictly earlier. */
  lemma LowerOrderProcessedFirst(rs: seq<Registration>, a: nat, b: nat)
    requires SortedByOrder(rs)
    requires a < |rs| && b < |rs|
    requires rs[a].order < rs[b].order
    ensures a < b
  {
  }

  /** Registrations whose order keys are their positions (as New and
      NewSubset make them) are processed in list order: the only permutation
      of them sorted by key is the list itself. */
  lemma IndexOrderedListSortsToItself(rs: seq<Registration>, sorted: seq<Registration>)
    requires forall i :: 0 <= i < |rs| ==> rs[i].order as int == i
    requires multiset(sorted) == multiset(rs)
    requires SortedByOrder(sorted)
    ensures sorted == rs
  {
    var n := |rs|;
    assert |sorted| == n by {
      assert |multiset(sorted)| == |sorted| && |multiset(rs)| == |rs|;
    }
    // Every element of sorted is some rs[i], so its key is in [0, n) and
    // names the one position of rs that holds it.
    forall k | 0 <= k < n
      ensures 0 <= sorted[k].order as int < n && rs[sorted[k].order as int] == sorted[k]
    {
      assert sorted[k] in multiset(rs);
      var i :| 0 <= i < n && rs[i] == sorted[k];
    }
    // Equal keys would mean a repeated element, which rs does not have.
    assert Distinct(rs) by {
      forall a, b | 0 <= a < b < n ensures rs[a] != rs[b] {
        assert rs[a].order != rs[b].order;
      }
    }
    PermutationKeepsDistinct(rs, sorted);
    forall a, b | 0 <= a < b < n ensures sorted[a].order < sorted[b].order {
      assert sorted[a] != sorted[b];
    }
    KeysAreIndices(sorted);
    forall k | 0 <= k < n ensures sorted[k] == rs[k] {
    }
  }

  /** Strictly increasing keys drawn from [0, n) in a list of length n are
      exactly 0, 1, ..., n - 1. */
  lemma KeysAreIndices(s: seq<Registration>)
    requires forall k :: 0 <= k < |s| ==> 0 <= s[k].order as int < |s|
    requires forall a, b :: 0 <= a < b < |s| ==> s[a].order < s[b].order
    ensures forall k :: 0 <= k < |s| ==> s[k].order as int == k
  {
    forall k | 0 <= k < |s| ensures s[k].order as int == k {
      KeyAtLeastIndex(s, k);
      KeyAtMostIndex(s, k);
    }
  }

  lemma {:induction false} KeyAtLeastIndex(s: seq<Registration>, k: nat)
    requires k < |s|
    requires forall k :: 0 <= k < |s| ==> 0 <= s[k].order as int
    requires forall a, b :: 0 <= a < b < |s| ==> s[a].order < s[b].order
    ensures s[k].order as int >= k
  {
    if k > 0 {
      KeyAtLeastIndex(s, k - 1);
    }
  }

  lemma {:induction false} KeyAtMostIndex(s: seq<Registration>, k: nat)
    requires k < |s|
    requires forall k :: 0 <= k < |s| ==> s[k].order as int < |s|
    requires forall a, b :: 0 <= a < b < |s| ==> s[a].order < s[b].order
    ensures s[k].order as int <= k
    decreases |s| - k
  {
    if k < |s| - 1 {
      KeyAtMostIndex(s, k + 1);
    }
  }

  /** A permutation of a list without repeats has no repeats. */
  lemma PermutationKeepsDistinct<T>(s: seq<T>, t: seq<T>)
    requires Distinct(s) && multiset(t) == multiset(s)
    ensures Distinct(t)
  {
    forall a, b | 0 <= a < b < |t| ensures t[a] != t[b] {
      if t[a] == t[b] {
        RepeatedMultiplicity(t, a, b);
        DistinctMultiplicity(s, t[a]);
        assert false;
      }
    }
  }

  lemma RepeatedMultiplicity<T>(s: seq<T>, a: nat, b: nat)
    requires a < b < |s| && s[a] == s[b]
    ensures multiset(s)[s[a]] >= 2
  {
    assert s == s[..b] + [s[b]] + s[b + 1..];
    assert s[..b][a] == s[a];
    assert multiset(s[..b])[s[a]] >= 1;
  }

  lemma {:induction false} DistinctMultiplicity<T>(s: seq<T>, x: T)
    requires Distinct(s)
    ensures multiset(s)[x] <= 1
  {
    if s != [] {
      var init := s[..|s| - 1];
      assert s == init + [s[|s| - 1]];
      assert Distinct(init);
      DistinctMultiplicity(init, x);
      if x == s[|s| - 1] {
        assert x !in init;
      }
    }
  }

  // ---------------------------------------------------------------------
  // The registrar
  // ---------------------------------------------------------------------

  class Registrar {
    var nextOrder: int64
    var increaseNextOrderBy: int64
    var registrations: seq<Registration>

    /** NewRegistrar. */
    constructor (increaseNextOrderBy: int64)
      ensures nextOrder == 0
      ensures this.increaseNextOrderBy == increaseNextOrderBy
      ensures registrations == []
    {
      nextOrder := 0;
      this.increaseNextOrderBy := increaseNextOrderBy;
      registrations := [];
    }

    /** The current list; its elements are the registrar's own Registration objects. */
    method Registrations() returns (rs: seq<Registration>)
      ensures rs == registrations
    {
      rs := registrations;
    }

    /** Appends a new registration at the current order key, then advances the
        key by the step (with Go's wrap-around on overflow). */
    method RegisterBlock(blockName: string, blockDef: BlockDefinition)
      modifies this
      ensures |registrations| == |old(registrations)| + 1
      ensures registrations[..|old(registrations)|] == old(registrations)
      ensures var reg := registrations[|old(registrations)|];
              fresh(reg) && reg.blockName == blockName && reg.order == old(nextOrder) && reg.definition == blockDef
      ensures nextOrder == WrappingAdd(old(nextOrder), old(increaseNextOrderBy))
      ensures increaseNextOrderBy == old(increaseNextOrderBy)
    {
      var reg := new Registration(blockName, nextOrder, blockDef);
      nextOrder := WrappingAdd(nextOrder, increaseNextOrderBy);
      AddRegistration(reg);
    }

    /** Appends a caller-made registration verbatim; the counter is untouched. */
    method AddRegistration(reg: Registration)
      modifies this
      ensures registrations == old(registrations) + [reg]
      ensures nextOrder == old(nextOrder) && increaseNextOrderBy == old(increaseNextOrderBy)
    {
      registrations := registrations + [reg];
    }

    /** The object grammar keyed by block name: its keys are exactly the
        registered names, and each name maps to the grammar of the last
        registration with that name in the current list order. */
    method Build() returns (spec: map<string, Grammar>)
      ensures spec.Keys == set i | 0 <= i < |registrations| :: registrations[i].blockName
      ensures forall i :: 0 <= i < |registrations| && LastWithName(registrations, i, |registrations|) ==>
                spec[registrations[i].blockName] == registrations[i].definition.spec
    {
      spec := map[];
      for n := 0 to |registrations|
        invariant spec.Keys == set i | 0 <= i < n :: registrations[i].blockName
        invariant forall i :: 0 <= i < n && LastWithName(registrations, i, n) ==>
                    spec[registrations[i].blockName] == registrations[i].definition.spec
      {
        var reg := registrations[n];
        spec := spec[reg.blockName := reg.definition.spec];
      }
    }

    /** Reorders the list in place into a permutation sorted by order key.
        Go's sort.Slice is not stable, so nothing is promised about the
        relative order of equal keys. */
    method SortByOrder()
      modifies this
      ensures SortedByOrder(registrations)
      ensures multiset(registrations) == multiset(old(registrations))
      ensures nextOrder == old(nextOrder) && increaseNextOrderBy == old(increaseNextOrderBy)
    {
      registrations := SortedCopy(registrations);
    }

    /** Sorts the registrations, then decodes body in one pass per
        registration in that order. The result is Run over the sorted
        definitions, starting from body, no diagnostics and the caller's
        context (nil maps reading as empty); the context ends holding Run's
        scope, with both maps non-nil. specCalls lists, in call order, the
        registration whose Spec() each pass asked for: each one exactly once,
        in order-key order. */
    method Parse(body: Body, ctx: EvalContext, engine: Engine) returns (diags: seq<Diagnostic>, ghost specCalls: seq<Registration>)
      modifies this, ctx
      ensures SortedByOrder(registrations)
      ensures multiset(registrations) == multiset(old(registrations))
      ensures nextOrder == old(nextOrder) && increaseNextOrderBy == old(increaseNextOrderBy)
      ensures specCalls == registrations
      ensures ctx.variables.Some? && ctx.functions.Some?
      ensures var final := Run(Definitions(registrations), DecodeState(body, [], old(ctx.Current())), engine);
              diags == final.diags && ctx.Current() == final.scope
    {
      if ctx.functions.None? {
        ctx.functions := Some(map[]);
      }
      if ctx.variables.None? {
        ctx.variables := Some(map[]);
      }
      assert ctx.Current() == old(ctx.Current());
      SortByOrder();
      diags, specCalls := DecodeInOrder(body, ctx, engine);
    }

    /** Parse's loop over the (already sorted) registrations. */
    method DecodeInOrder(body: Body, ctx: EvalContext, engine: Engine) returns (diags: seq<Diagnostic>, ghost specCalls: seq<Registration>)
      requires ctx.variables.Some? && ctx.functions.Some?
      modifies ctx
      ensures specCalls == registrations
      ensures ctx.variables.Some? && ctx.functions.Some?
      ensures var final := Run(Definitions(registrations), DecodeState(body, [], old(ctx.Current())), engine);
              diags == final.diags && ctx.Current() == final.scope
    {
      var lastBody := body;
      var lastDiags: seq<Diagnostic> := [];
      ghost var defs := Definitions(registrations);
      ghost var init := DecodeState(body, [], ctx.Current());
      specCalls := [];
      assert defs[..0] == [];
      for i := 0 to |registrations|
        invariant ctx.variables.Some? && ctx.functions.Some?
        invariant specCalls == registrations[..i]
        invariant var st := Run(defs[..i], init, engine);
                  lastBody == st.body && lastDiags == st.diags && ctx.Current() == st.scope
      {
        ghost var asked;
        lastBody, lastDiags, asked := DecodePass(registrations[i], lastBody, lastDiags, ctx, engine);
        specCalls := specCalls + [asked];
        RunPrefixStep(defs, init, engine, i);
      }
      assert defs[..|registrations|] == defs;
      diags := lastDiags;
    }
  }

  /** One iteration of Parse's loop: ask the registration's definition for its
      grammar (the event recorded in asked), decode with it against the
      context, append the diagnostics, then inject its functions and its
      variables. This is Step on the context's state. */
  method DecodePass(reg: Registration, body: Body, diags: seq<Diagnostic>, ctx: EvalContext, engine: Engine)
    returns (rest: Body, allDiags: seq<Diagnostic>, ghost asked: Registration)
    requires ctx.variables.Some? && ctx.functions.Some?
    modifies ctx
    ensures asked == reg
    ensures ctx.variables.Some? && ctx.functions.Some?
    ensures var st := Step(DecodeState(body, diags, old(ctx.Current())), reg.definition, engine);
            rest == st.body && allDiags == st.diags && ctx.Current() == st.scope
  {
    var def := reg.definition;
    var grammar := def.spec;
    asked := reg;
    var decoded := engine.partialDecode(body, grammar, ctx.Current());
    allDiags := diags + decoded.diags;
    rest := decoded.rest;
    if def.functions.Some? {
      InjectFunctions(ctx, def.functions.value(decoded.value));
    }
    if def.variables.Some? {
      InjectVariables(ctx, def.variables.value(decoded.value));
    }
  }

  /** An insertion sort by order key: the result is sorted and a permutation
      of the input. */
  method SortedCopy(rs: seq<Registration>) returns (sorted: seq<Registration>)
    ensures SortedByOrder(sorted)
    ensures multiset(sorted) == multiset(rs)
  {
    sorted := rs;
    if |sorted| < 2 {
      return;
    }
    for i := 1 to |sorted|
      invariant |sorted| == |rs|
      invariant multiset(sorted) == multiset(rs)
      invariant SortedByOrder(sorted[..i])
    {
      sorted := InsertIntoPrefix(sorted, i);
    }
    assert sorted[..|sorted|] == sorted;
  }

  /** Moves rs[i] left past every larger key, so that a sorted prefix of
      length i becomes a sorted prefix of length i + 1. */
  method InsertIntoPrefix(rs: seq<Registration>, i: nat) returns (r: seq<Registration>)
    requires i < |rs|
    requires SortedByOrder(rs[..i])
    ensures |r| == |rs| && multiset(r) == multiset(rs)
    ensures SortedByOrder(r[..i + 1])
  {
    r := rs;
    var j: nat := i;
    while 0 < j && r[j].order < r[j - 1].order
      invariant |r| == |rs| && multiset(r) == multiset(rs)
      invariant Inserting(r, i, j)
    {
      InsertingStep(r, i, j);
      SwapPreservesMultiset(r, j - 1, j);
      r := r[j - 1 := r[j]][j := r[j - 1]];
      j := j - 1;
    }
    InsertingDone(r, i, j);
  }

  /** Insertion of r[j] in progress: r[..i + 1] without position j is sorted,
      and r[j] is no larger than anything it has moved past. */
  ghost predicate Inserting(r: seq<Registration>, i: nat, j: nat)
    reads r
  {
    && j <= i < |r|
    && (forall a, b :: 0 <= a < b <= i && a != j && b != j ==> r[a].order <= r[b].order)
    && (forall b :: j < b <= i ==> r[j].order <= r[b].order)
  }

  lemma InsertingStep(r: seq<Registration>, i: nat, j: nat)
    requires Inserting(r, i, j) && 0 < j && r[j].order < r[j - 1].order
    ensures Inserting(r[j - 1 := r[j]][j := r[j - 1]], i, j - 1)
  {
  }

  lemma InsertingDone(r: seq<Registration>, i: nat, j: nat)
    requires Inserting(r, i, j) && (j == 0 || r[j - 1].order <= r[j].order)
    ensures SortedByOrder(r[..i + 1])
  {
  }

  lemma SwapPreservesMultiset(s: seq<Registration>, i: nat, j: nat)
    requires i < j < |s|
    ensures multiset(s[i := s[j]][j := s[i]]) == multiset(s)
  {
    var t1 := s[i := s[j]];
    assert multiset(t1) == multiset(s) - multiset{s[i]} + multiset{s[j]};
    assert multiset(t1[j := s[i]]) == multiset(t1) - multiset{s[j]} + multiset{s[i]};
  }

  /** Writes every injected function into the context, overwriting on
      collision; names not injected keep their entries. */
  method InjectFunctions(ctx: EvalContext, injected: InjectableFunctions)
    requires ctx.functions.Some?
    modifies ctx
    ensures ctx.functions == Some(old(ctx.functions.value) + injected)
    ensures ctx.variables == old(ctx.variables)
  {
    var pending := injected.Keys;
    while pending != {}
      invariant ctx.functions.Some? && ctx.variables == old(ctx.variables)
      invariant pending <= injected.Keys
      invariant ctx.functions.value == old(ctx.functions.value) + (injected - pending)
      decreases pending
    {
      var k :| k in pending;
      ctx.functions := Some(ctx.functions.value[k := injected[k]]);
      pending := pending - {k};
    }
    assert injected - pending == injected;
  }

  /** Writes every injected variable into the context, overwriting on
      collision; names not injected keep their entries. */
  method InjectVariables(ctx: EvalContext, injected: InjectableVariables)
    requires ctx.variables.Some?
    modifies ctx
    ensures ctx.variables == Some(old(ctx.variables.value) + injected)
    ensures ctx.functions == old(ctx.functions)
  {
    var pending := injected.Keys;
    while pending != {}
      invariant ctx.variables.Some? && ctx.functions == old(ctx.functions)
      invariant pending <= injected.Keys
      invariant ctx.variables.value == old(ctx.variables.value) + (injected - pending)
      decreases pending
    {
      var k :| k in pending;
      ctx.variables := Some(ctx.variables.value[k := injected[k]]);
      pending := pending - {k};
    }
    assert injected - pending == injected;
  }

  /** Any sorted permutation of three registrations with strictly
      increasing keys lists them in key order: added as last (100), second
      (50), first (1), Parse asks for their grammars as first, second, last. */
  lemma SortedThreeKeys(calls: seq<Registration>, first: Registration, second: Registration, last: Registration)
    requires multiset(calls) == multiset([last, second, first])
    requires SortedByOrder(calls)
    requires first.order < second.order < last.order
    ensures calls == [first, second, last]
  {
    assert |calls| == 3 by {
      assert |multiset(calls)| == |multiset([last, second, first])|;
    }
    assert first in multiset(calls) && second in multiset(calls) && last in multiset(calls);
    var a :| 0 <= a < 3 && calls[a] == first;
    var b :| 0 <= b < 3 && calls[b] == second;
    var c :| 0 <= c < 3 && calls[c] == last;
    LowerOrderProcessedFirst(calls, a, b);
    LowerOrderProcessedFirst(calls, b, c);
  }
}
