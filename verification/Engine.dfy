/** The rule engine over a pluggable backend (pkg/engine/engine.go, pkg/engine/backend.go). */
module Engine {
  import opened Prelude
  import opened Vm
  import opened Cache

  /** Compile and Eval of a backend; both are functions of their arguments. */
  datatype Backend<!A> = Backend(compile: string -> Option<A>, eval: (Row, A) -> bool)

  function Compiled<A>(r: Rule, ast: A): RuleProgram<A> {
    RuleProgram(r.id, r.name, r.expr, r.priority, r.version, ast)
  }

  /** The programs of the enabled rules that compile, in order. */
  function CompileRules<A>(b: Backend<A>, rules: seq<Rule>): seq<RuleProgram<A>> {
    if rules == [] then []
    else
      var rest := CompileRules(b, rules[1..]);
      if rules[0].enabled && b.compile(rules[0].expr).Some?
      then [Compiled(rules[0], b.compile(rules[0].expr).value)] + rest
      else rest
  }

  function FailedCount(b: Backend, rules: seq<Rule>): nat {
    if rules == [] then 0
    else (if rules[0].enabled && b.compile(rules[0].expr).None? then 1 else 0) + FailedCount(b, rules[1..])
  }

  /** The ids a user's row matches, in snapshot order. */
  function MatchIds<A>(b: Backend<A>, rules: seq<RuleProgram<A>>, row: Row): seq<int> {
    if rules == [] then []
    else (if b.eval(row, rules[0].ast) then [rules[0].id] else []) + MatchIds(b, rules[1..], row)
  }

  method MatchInto<A>(b: Backend<A>, row: Row, rules: seq<RuleProgram<A>>) returns (dst: seq<int>)
    ensures dst == MatchIds(b, rules, row)
  {
    dst := [];
    for i := 0 to |rules|
      invariant MatchIds(b, rules, row) == dst + MatchIds(b, rules[i..], row)
    {
      assert rules[i..][0] == rules[i] && rules[i..][1..] == rules[i + 1..];
      ghost var rest := MatchIds(b, rules[i + 1..], row);
      assert dst + ([rules[i].id] + rest) == dst + [rules[i].id] + rest && [] + rest == rest;
      if b.eval(row, rules[i].ast) { dst := dst + [rules[i].id]; }
    }
  }

  // ---- what they pick -----------------------------------------------------------------------------------

  /** A match is the ids of exactly the rules that hold on the row, in snapshot order. */
  lemma {:induction false} MatchExactly<A>(b: Backend<A>, rules: seq<RuleProgram<A>>, row: Row) returns (ks: seq<nat>)
    ensures Picks(ks, rules, (p: RuleProgram<A>) => b.eval(row, p.ast))
    ensures |MatchIds(b, rules, row)| == |ks|
    ensures forall j :: 0 <= j < |ks| ==> ks[j] < |rules| && MatchIds(b, rules, row)[j] == rules[ks[j]].id
  {
    hide PickedCons, Picks;
    if rules == [] {
      ks := [];
      PicksNone(rules, (p: RuleProgram<A>) => b.eval(row, p.ast));
    } else {
      var tail := MatchExactly(b, rules[1..], row);
      var first := b.eval(row, rules[0].ast);
      PicksCons(tail, rules, (p: RuleProgram<A>) => b.eval(row, p.ast));
      ks := PickedCons(first, tail);
      PickedSize(first, tail);
      forall j | 0 <= j < |ks| ensures ks[j] < |rules| && MatchIds(b, rules, row)[j] == rules[ks[j]].id {
        PickedAt(first, tail, j);
      }
    }
  }

  /** Whether a rule becomes a program, and which. */
  predicate Loads(b: Backend, r: Rule) { r.enabled && b.compile(r.expr).Some? }

  predicate Becomes<A(==)>(b: Backend<A>, r: Rule, p: RuleProgram<A>) {
    && p.id == r.id && p.name == r.name && p.source == r.expr && p.priority == r.priority
    && p.version == r.version && b.compile(r.expr) == Some(p.ast)
  }

  predicate Fails(b: Backend, r: Rule) { r.enabled && b.compile(r.expr).None? }

  /** Loading keeps exactly the enabled rules that compile, in order, each with its own data. */
  lemma {:induction false} CompilesExactly<A>(b: Backend<A>, rules: seq<Rule>) returns (ks: seq<nat>)
    ensures Picks(ks, rules, r => Loads(b, r))
    ensures |CompileRules(b, rules)| == |ks|
    ensures forall j :: 0 <= j < |ks| ==> ks[j] < |rules| && Becomes(b, rules[ks[j]], CompileRules(b, rules)[j])
  {
    hide PickedCons, Picks, Becomes;
    if rules == [] {
      ks := [];
      PicksNone(rules, r => Loads(b, r));
    } else {
      var tail := CompilesExactly(b, rules[1..]);
      var first := Loads(b, rules[0]);
      PicksCons(tail, rules, r => Loads(b, r));
      ks := PickedCons(first, tail);
      PickedSize(first, tail);
      if first { assert Becomes(b, rules[0], CompileRules(b, rules)[0]) by { FirstBecomes(b, rules); } }
      forall j | 0 <= j < |ks| ensures ks[j] < |rules| && Becomes(b, rules[ks[j]], CompileRules(b, rules)[j]) {
        PickedAt(first, tail, j);
      }
    }
  }

  lemma FirstBecomes<A>(b: Backend<A>, rules: seq<Rule>)
    requires rules != [] && Loads(b, rules[0])
    ensures CompileRules(b, rules) != [] && Becomes(b, rules[0], CompileRules(b, rules)[0])
  {
  }

  /** The failure count is the number of enabled rules that do not compile. */
  lemma {:induction false} FailsExactly<A>(b: Backend<A>, rules: seq<Rule>) returns (ks: seq<nat>)
    ensures Picks(ks, rules, r => Fails(b, r))
    ensures FailedCount(b, rules) == |ks|
  {
    hide Picks;
    if rules == [] {
      ks := [];
      PicksNone(rules, r => Fails(b, r));
    } else {
      var tail := FailsExactly(b, rules[1..]);
      PicksCons(tail, rules, r => Fails(b, r));
      ks := PickedCons(Fails(b, rules[0]), tail);
    }
  }

  // ---- edits ------------------------------------------------------------------------------------------

  /** The ways to change the active rules. */
  datatype Edit = Load(rules: seq<Rule>) | Replace(rules: seq<Rule>) | Add(rule: Rule) | Drop(id: int)

  /** The rule set after an edit. */
  function Apply<A>(b: Backend<A>, m: map<int, RuleProgram<A>>, e: Edit): map<int, RuleProgram<A>> {
    match e
    case Load(rules) => StoreAll(m, CompileRules(b, rules))
    case Replace(rules) => StoreAll(map[], CompileRules(b, rules))
    case Add(r) =>
      if r.enabled && b.compile(r.expr).Some? then m[r.id := Compiled(r, b.compile(r.expr).value)] else m
    case Drop(id) => m - {id}
  }

  /** The elementary writes an edit issues. */
  function Steps<A>(b: Backend<A>, e: Edit): seq<CacheOp<A>> {
    match e
    case Load(rules) => StoreOps(CompileRules(b, rules)) + RebuildOps()
    case Replace(rules) => [ClearOp] + StoreOps(CompileRules(b, rules)) + RebuildOps()
    case Add(r) =>
      if r.enabled && b.compile(r.expr).Some?
      then [StoreOp(Compiled(r, b.compile(r.expr).value))] + RebuildOps()
      else []
    case Drop(id) => [DeleteOp(id)] + RebuildOps()
  }

  class EngineState<A(!new)> {
    const backend: Backend<A>
    const cache: RuleCache<A>

    ghost predicate Valid() reads this, cache { cache.Valid() }

    constructor (b: Backend<A>)
      ensures Valid() && fresh(cache) && backend == b && cache.m == map[] && cache.trace == []
    {
      backend := b;
      cache := new RuleCache<A>();
    }

    method CompileAll(rules: seq<Rule>) returns (progs: seq<RuleProgram<A>>, failed: nat)
      ensures progs == CompileRules(backend, rules) && failed == FailedCount(backend, rules)
    {
      progs, failed := [], 0;
      for i := 0 to |rules|
        invariant CompileRules(backend, rules) == progs + CompileRules(backend, rules[i..])
        invariant FailedCount(backend, rules) == failed + FailedCount(backend, rules[i..])
      {
        assert rules[i..][0] == rules[i] && rules[i..][1..] == rules[i + 1..];
        var r := rules[i];
        if !r.enabled { continue; }
        var ast := backend.compile(r.expr);
        if ast.None? {
          failed := failed + 1;
          continue;
        }
        progs := progs + [Compiled(r, ast.value)];
      }
    }

    method LoadRules(rules: seq<Rule>) returns (loaded: nat, failed: nat)
      requires Valid()
      modifies cache
      ensures Valid() && cache.m == Apply(backend, old(cache.m), Load(rules))
      ensures loaded == |CompileRules(backend, rules)| && failed == FailedCount(backend, rules)
      ensures cache.trace == old(cache.trace) + Steps(backend, Load(rules))
    {
      var progs;
      progs, failed := CompileAll(rules);
      cache.PutAll(progs);
      loaded := |progs|;
    }

    method ReplaceRules(rules: seq<Rule>) returns (loaded: nat, failed: nat)
      requires Valid()
      modifies cache
      ensures Valid() && cache.m == Apply(backend, old(cache.m), Replace(rules))
      ensures loaded == |CompileRules(backend, rules)| && failed == FailedCount(backend, rules)
      ensures cache.trace == old(cache.trace) + Steps(backend, Replace(rules))
    {
      var progs;
      progs, failed := CompileAll(rules);
      cache.ReplaceAll(progs);
      loaded := |progs|;
    }

    /** Fails, changing nothing, for a rule that is disabled or does not compile. */
    method AddRule(r: Rule) returns (ok: bool)
      requires Valid()
      modifies cache
      ensures Valid()
      ensures ok == (r.enabled && backend.compile(r.expr).Some?)
      ensures cache.m == Apply(backend, old(cache.m), Add(r))
      ensures cache.trace == old(cache.trace) + Steps(backend, Add(r))
    {
      var progs, failed := CompileAll([r]);
      assert CompileRules(backend, [r]) == if r.enabled && backend.compile(r.expr).Some?
        then [Compiled(r, backend.compile(r.expr).value)] else [];
      if failed > 0 || |progs| == 0 { return false; }
      cache.Put(progs[0]);
      cache.Rebuild();
      ok := true;
    }

    method RemoveRule(id: int)
      requires Valid()
      modifies cache
      ensures Valid() && cache.m == Apply(backend, old(cache.m), Drop(id))
      ensures cache.trace == old(cache.trace) + Steps(backend, Drop(id))
    {
      cache.Delete(id);
      cache.Rebuild();
    }

    method Match(row: Row) returns (ids: seq<int>)
      requires Valid()
      ensures ids == MatchIds(backend, cache.snapshot, row)
    {
      ids := MatchInto(backend, row, cache.snapshot);
    }
  }
}
