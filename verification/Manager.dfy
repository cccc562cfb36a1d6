/** The editable rule set with published versions and rollback (pkg/engine/manager.go). */
module Manager {
  import opened Prelude
  import opened Sorting
  import opened Vm
  import opened Cache
  import opened Engine

  // ---- abstract state ----------------------------------------------------------------------------------

  datatype Version = Version(version: int, note: string, count: nat, rules: seq<Rule>)

  /** The editable rules, the engine's compiled rules, and the published versions. */
  datatype State<A> = State(rules: map<int, Rule>, cache: map<int, RuleProgram<A>>, versions: seq<Version>)

  function RuleId(r: Rule): int { r.id }

  predicate ById(r: Rule, s: Rule) { r.id < s.id }

  ghost predicate KeyedRules(rules: map<int, Rule>) { forall id :: id in rules ==> rules[id].id == id }

  /** s is List(): every editable rule once, in increasing id order. */
  ghost predicate IsListing(s: seq<Rule>, rules: map<int, Rule>) {
    && Ascending(ById, s)
    && (forall r :: r in s ==> r.id in rules && rules[r.id] == r)
    && (forall id :: id in rules ==> rules[id] in s)
  }

  lemma ListingUnique(s: seq<Rule>, t: seq<Rule>, rules: map<int, Rule>)
    requires KeyedRules(rules) && IsListing(s, rules) && IsListing(t, rules)
    ensures s == t
  {
    SortedUnique(ById, s, t);
  }

  // ---- the commands as state transformers -----------------------------------------------------------------

  datatype Command = Upsert(rule: Rule) | Remove(id: int) | Publish(note: string) | Rollback(version: int)

  /** The version an edit gets: past the previous one unless the caller pinned a later one. */
  function Bumped(rules: map<int, Rule>, r: Rule): Rule {
    if r.id in rules && r.version <= rules[r.id].version then r.(version := rules[r.id].version + 1)
    else if r.version == 0 then r.(version := 1)
    else r
  }

  function RulesOf(rules: seq<Rule>): map<int, Rule>
    decreases |rules|
  {
    if rules == [] then map[]
    else
      var last := rules[|rules| - 1];
      RulesOf(rules[..|rules| - 1])[last.id := last]
  }

  /** The first version with that number. */
  function Find(versions: seq<Version>, v: int): Option<seq<Rule>> {
    if versions == [] then None
    else if versions[0].version == v then Some(versions[0].rules)
    else Find(versions[1..], v)
  }

  /** One command, its success, and the state after it; a failed command changes nothing. */
  ghost predicate Does<A>(b: Backend<A>, s: State<A>, c: Command, ok: bool, s': State<A>) {
    match c
    case Upsert(r) =>
      var r' := Bumped(s.rules, r);
      if r.id == 0 || (r.enabled && b.compile(r.expr).None?) then !ok && s' == s
      else
        && ok
        && s' == s.(rules := s.rules[r.id := r'],
                    cache := if r.enabled then s.cache[r.id := Compiled(r', b.compile(r.expr).value)]
                             else s.cache - {r.id})
    case Remove(id) => ok && s' == s.(rules := s.rules - {id}, cache := s.cache - {id})
    case Publish(note) =>
      && ok
      && |s'.versions| == |s.versions| + 1
      && var l := s'.versions[|s.versions|].rules;
         IsListing(l, s.rules) &&
         s' == s.(versions := s.versions + [Version(|s.versions| + 1, note, |l|, l)])
    case Rollback(v) =>
      match Find(s.versions, v)
      case None => !ok && s' == s
      case Some(l) => ok && s' == s.(rules := RulesOf(l), cache := StoreAll(map[], CompileRules(b, l)))
  }

  // ---- what every run keeps -------------------------------------------------------------------------------

  /** The cache a rule set calls for: one program per enabled rule, compiled from its text. */
  ghost function CacheOf<A(!new)>(b: Backend<A>, rules: map<int, Rule>): map<int, RuleProgram<A>> {
    map id | id in rules && rules[id].enabled && b.compile(rules[id].expr).Some? ::
      Compiled(rules[id], b.compile(rules[id].expr).value)
  }

  ghost predicate AllCompile<A>(b: Backend<A>, rules: map<int, Rule>) {
    forall id :: id in rules && rules[id].enabled ==> b.compile(rules[id].expr).Some?
  }

  /** A published version holds a listing of rules whose enabled members compile. */
  ghost predicate GoodVersion<A>(b: Backend<A>, v: Version) {
    Ascending(ById, v.rules) && forall r :: r in v.rules && r.enabled ==> b.compile(r.expr).Some?
  }

  /** An id is cached exactly when its editable rule is enabled, with the program compiled from that rule. */
  ghost predicate Coupled<A(!new)>(b: Backend<A>, s: State<A>) {
    && KeyedRules(s.rules)
    && AllCompile(b, s.rules)
    && s.cache == CacheOf(b, s.rules)
    && (forall i :: 0 <= i < |s.versions| ==> s.versions[i].version == i + 1 && GoodVersion(b, s.versions[i]))
  }

  lemma CoupledMeans<A(!new)>(b: Backend<A>, s: State<A>, id: int)
    requires Coupled(b, s)
    ensures id in s.cache <==> id in s.rules && s.rules[id].enabled
    ensures id in s.cache ==>
              var r, p := s.rules[id], s.cache[id];
              && p.id == r.id == id && p.name == r.name && p.source == r.expr
              && p.version == r.version && p.priority == r.priority && b.compile(r.expr) == Some(p.ast)
  {
  }

  lemma {:induction false} FindNumbered(versions: seq<Version>, v: int, base: int)
    requires forall i :: 0 <= i < |versions| ==> versions[i].version == base + i
    ensures Find(versions, v) ==
            if base <= v < base + |versions| then Some(versions[v - base].rules) else None
    decreases |versions|
  {
    if versions != [] {
      forall i | 0 <= i < |versions| - 1 ensures versions[1..][i].version == base + 1 + i {
        assert versions[1..][i] == versions[i + 1];
      }
      FindNumbered(versions[1..], v, base + 1);
    }
  }

  lemma {:induction false} RulesOfListing(l: seq<Rule>)
    requires Ascending(ById, l)
    ensures KeyedRules(RulesOf(l)) && IsListing(l, RulesOf(l))
    decreases |l|
  {
    if l != [] {
      var front, last := l[..|l| - 1], l[|l| - 1];
      RulesOfListing(front);
      assert l == front + [last];
      assert forall r :: r in front ==> r.id < last.id;
    }
  }

  /** Two listings of one sequence describe one rule set. */
  lemma ListingDetermines(l: seq<Rule>, rules: map<int, Rule>, rules': map<int, Rule>)
    requires IsListing(l, rules) && IsListing(l, rules') && KeyedRules(rules) && KeyedRules(rules')
    ensures rules == rules'
  {
    forall id ensures id in rules <==> id in rules' {
      if id in rules { assert rules[id] in l; }
      if id in rules' { assert rules'[id] in l; }
    }
    forall id | id in rules ensures rules[id] == rules'[id] { assert rules[id] in l; }
  }

  lemma {:induction false} StoreAllSnoc<A>(m: map<int, RuleProgram<A>>, ps: seq<RuleProgram<A>>, p: RuleProgram<A>)
    ensures StoreAll(m, ps + [p]) == StoreAll(m, ps)[p.id := p]
    decreases ps
  {
    if ps == [] {
      assert ps + [p] == [p] && [p][1..] == [];
    } else {
      assert (ps + [p])[0] == ps[0] && (ps + [p])[1..] == ps[1..] + [p];
      StoreAllSnoc(m[ps[0].id := ps[0]], ps[1..], p);
    }
  }

  lemma {:induction false} CompileSnoc<A>(b: Backend<A>, l: seq<Rule>, r: Rule)
    ensures CompileRules(b, l + [r]) == CompileRules(b, l) + CompileRules(b, [r])
  {
    if l == [] {
      assert l + [r] == [r];
    } else {
      assert (l + [r])[0] == l[0] && (l + [r])[1..] == l[1..] + [r];
      CompileSnoc(b, l[1..], r);
    }
  }

  /** Reloading a listing of compiling rules rebuilds exactly the cache they call for. */
  lemma {:induction false} ReloadCache<A(!new)>(b: Backend<A>, l: seq<Rule>)
    requires Ascending(ById, l) && forall r :: r in l && r.enabled ==> b.compile(r.expr).Some?
    ensures StoreAll(map[], CompileRules(b, l)) == CacheOf(b, RulesOf(l))
    decreases |l|
  {
    hide RulesOf;
    if l == [] {
      NoRules(b);
    } else {
      var front, last := l[..|l| - 1], l[|l| - 1];
      assert l == front + [last];
      ReloadCache(b, front);
      CompileSnoc(b, front, last);
      CacheSnoc(b, front, last);
      if last.enabled {
        var p := Compiled(last, b.compile(last.expr).value);
        assert CompileRules(b, [last]) == [p];
        StoreAllSnoc(map[], CompileRules(b, front), p);
      } else {
        assert CompileRules(b, [last]) == [];
        assert CompileRules(b, front) + [] == CompileRules(b, front);
      }
    }
  }

  lemma NoRules<A(!new)>(b: Backend<A>)
    ensures CacheOf(b, RulesOf([])) == map[]
  {
  }

  /** Adding a rule under a new id adds its program, if it has one. */
  lemma CacheGains<A(!new)>(b: Backend<A>, rules: map<int, Rule>, r: Rule)
    requires r.id !in rules
    ensures CacheOf(b, rules[r.id := r]) ==
            if r.enabled && b.compile(r.expr).Some? then CacheOf(b, rules)[r.id := Compiled(r, b.compile(r.expr).value)]
            else CacheOf(b, rules)
  {
  }

  lemma LastIsNew(front: seq<Rule>, last: Rule)
    requires Ascending(ById, front + [last])
    ensures Ascending(ById, front) && last.id !in RulesOf(front)
    ensures RulesOf(front + [last]) == RulesOf(front)[last.id := last]
  {
    var l := front + [last];
    assert l[..|l| - 1] == front && l[|l| - 1] == last;
    forall i, j | 0 <= i < j < |front| ensures ById(front[i], front[j]) { assert ById(l[i], l[j]); }
    RulesOfListing(front);
    forall r | r in front ensures r.id < last.id {
      var i :| 0 <= i < |front| && front[i] == r;
      assert ById(l[i], l[|front|]);
    }
  }

  lemma CacheSnoc<A(!new)>(b: Backend<A>, front: seq<Rule>, last: Rule)
    requires Ascending(ById, front + [last])
    ensures CacheOf(b, RulesOf(front + [last])) ==
            if last.enabled && b.compile(last.expr).Some?
            then CacheOf(b, RulesOf(front))[last.id := Compiled(last, b.compile(last.expr).value)]
            else CacheOf(b, RulesOf(front))
  {
    hide RulesOf, CacheOf, Ascending;
    LastIsNew(front, last);
    CacheGains(b, RulesOf(front), last);
  }

  // ---- every command keeps the coupling -------------------------------------------------------------------

  lemma UpsertKeeps<A(!new)>(b: Backend<A>, s: State<A>, r: Rule, ok: bool, s': State<A>)
    requires Coupled(b, s) && Does(b, s, Upsert(r), ok, s')
    ensures Coupled(b, s')
  {
    if ok {
      var r' := Bumped(s.rules, r);
      assert r'.id == r.id && r'.expr == r.expr && r'.enabled == r.enabled;
      assert s'.cache == CacheOf(b, s'.rules);
    }
  }

  lemma RollbackKeeps<A(!new)>(b: Backend<A>, s: State<A>, v: int, ok: bool, s': State<A>)
    requires Coupled(b, s) && Does(b, s, Rollback(v), ok, s')
    ensures Coupled(b, s') && (ok <==> 1 <= v <= |s.versions|)
  {
    hide CacheOf, RulesOf, CompileRules, StoreAll;
    FindNumbered(s.versions, v, 1);
    if ok {
      var l := s.versions[v - 1].rules;
      assert GoodVersion(b, s.versions[v - 1]);
      RulesOfListing(l);
      ReloadCache(b, l);
      forall id | id in s'.rules && s'.rules[id].enabled ensures b.compile(s'.rules[id].expr).Some? {
        assert s'.rules[id] in l;
      }
    }
  }

  lemma StepKeeps<A(!new)>(b: Backend<A>, s: State<A>, c: Command, ok: bool, s': State<A>)
    requires Coupled(b, s) && Does(b, s, c, ok, s')
    ensures Coupled(b, s') && s.versions <= s'.versions
  {
    match c
    case Upsert(r) => UpsertKeeps(b, s, r, ok, s');
    case Remove(id) => assert s'.cache == CacheOf(b, s'.rules);
    case Publish(note) =>
      var l := s'.versions[|s.versions|].rules;
      assert GoodVersion(b, s'.versions[|s.versions|]);
    case Rollback(v) => RollbackKeeps(b, s, v, ok, s');
  }

  // ---- runs -----------------------------------------------------------------------------------------------

  /** A command as issued, with its outcome. */
  datatype Event = Event(cmd: Command, ok: bool)

  /** A run: the commands issued and the states between them. */
  ghost predicate IsRun<A>(b: Backend<A>, states: seq<State<A>>, cs: seq<Event>) {
    && |states| == |cs| + 1
    && forall i :: 0 <= i < |cs| ==> Does(b, states[i], cs[i].cmd, cs[i].ok, states[i + 1])
  }

  /** The coupling holds in every state of a run, and published versions never change. */
  lemma {:induction false} RunKeeps<A(!new)>(b: Backend<A>, states: seq<State<A>>, cs: seq<Event>, i: nat)
    requires IsRun(b, states, cs) && Coupled(b, states[0]) && i <= |cs|
    ensures Coupled(b, states[i]) && states[0].versions <= states[i].versions
  {
    if i > 0 {
      RunKeeps(b, states, cs, i - 1);
      StepKeeps(b, states[i - 1], cs[i - 1].cmd, cs[i - 1].ok, states[i]);
    }
  }

  /** Publish, then anything at all, then Rollback to the published number: rules and cache are back. */
  lemma PublishRollback<A(!new)>(b: Backend<A>, s: State<A>, note: string, states: seq<State<A>>, cs: seq<Event>,
                                 ok: bool, s': State<A>)
    requires Coupled(b, s)
    requires IsRun(b, states, cs) && Does(b, s, Publish(note), true, states[0])
    requires Does(b, states[|cs|], Rollback(|s.versions| + 1), ok, s')
    ensures ok && s'.rules == s.rules && s'.cache == s.cache
  {
    hide RulesOf, CacheOf, Does, StoreAll, CompileRules;
    var v := |s.versions| + 1;
    StepKeeps(b, s, Publish(note), true, states[0]);
    RunKeeps(b, states, cs, |cs|);
    PublishedListing(b, s, note, states[0]);
    var l := states[0].versions[v - 1].rules;
    assert states[|cs|].versions[v - 1].rules == l;
    FindNumbered(states[|cs|].versions, v, 1);
    RollbackTo(b, states[|cs|], v, l, ok, s');
    RulesOfListing(l);
    ListingDetermines(l, s.rules, RulesOf(l));
    RollbackKeeps(b, states[|cs|], v, ok, s');
  }

  lemma PublishedListing<A>(b: Backend<A>, s: State<A>, note: string, s1: State<A>)
    requires Does(b, s, Publish(note), true, s1)
    ensures |s1.versions| == |s.versions| + 1 && IsListing(s1.versions[|s.versions|].rules, s.rules)
  {
  }

  lemma RollbackTo<A>(b: Backend<A>, s: State<A>, v: int, l: seq<Rule>, ok: bool, s': State<A>)
    requires Does(b, s, Rollback(v), ok, s') && Find(s.versions, v) == Some(l)
    ensures ok && s'.rules == RulesOf(l)
  {
  }

  /** Hence after such a rollback List and every user's matches are what they were at publication. */
  lemma RollbackRestores<A(!new)>(b: Backend<A>, s: State<A>, note: string, states: seq<State<A>>, cs: seq<Event>,
                                  ok: bool, s': State<A>, l: seq<Rule>, l': seq<Rule>,
                                  x: seq<RuleProgram<A>>, x': seq<RuleProgram<A>>, row: Row)
    requires Coupled(b, s)
    requires IsRun(b, states, cs) && Does(b, s, Publish(note), true, states[0])
    requires Does(b, states[|cs|], Rollback(|s.versions| + 1), ok, s')
    requires IsListing(l, s.rules) && IsListing(l', s'.rules) && IsSnapshot(x, s.cache) && IsSnapshot(x', s'.cache)
    ensures ok && l == l' && x == x' && MatchIds(b, x, row) == MatchIds(b, x', row)
  {
    hide Does, IsRun, IsListing, IsSnapshot;
    PublishRollback(b, s, note, states, cs, ok, s');
    ListingUnique(l, l', s.rules);
    SnapshotUnique(x, x', s.cache);
  }

  // ---- what single commands do ----------------------------------------------------------------------------

  /** Every id but one has the same rule and the same program before and after. */
  ghost predicate OthersUntouched<A>(s: State<A>, s': State<A>, id: int) {
    && s'.versions == s.versions
    && (forall k :: k != id ==> (k in s'.rules <==> k in s.rules) && (k in s'.cache <==> k in s.cache))
    && (forall k :: k != id && k in s.rules ==> s'.rules[k] == s.rules[k])
    && (forall k :: k != id && k in s.cache ==> s'.cache[k] == s.cache[k])
  }

  /** An upsert is refused exactly for id 0 or an enabled rule that does not compile, and then changes nothing. */
  lemma UpsertSucceedsIff<A>(b: Backend<A>, s: State<A>, r: Rule, ok: bool, s': State<A>)
    requires Does(b, s, Upsert(r), ok, s')
    ensures ok <==> r.id != 0 && (r.enabled ==> b.compile(r.expr).Some?)
    ensures !ok ==> s' == s
  {
  }

  /** Otherwise it stores the rule as given but for the version, which an edit moves past the previous one. */
  lemma UpsertStores<A>(b: Backend<A>, s: State<A>, r: Rule, s': State<A>)
    requires Does(b, s, Upsert(r), true, s')
    ensures r.id in s'.rules && s'.rules[r.id].(version := r.version) == r
    ensures s'.rules[r.id].version ==
            if r.id in s.rules && s.rules[r.id].version >= r.version then s.rules[r.id].version + 1
            else if r.version == 0 then 1
            else r.version
    ensures r.id in s'.cache <==> r.enabled
    ensures r.enabled ==>
              var p := s'.cache[r.id];
              && p.id == r.id && p.name == r.name && p.source == r.expr && p.priority == r.priority
              && p.version == s'.rules[r.id].version && b.compile(r.expr) == Some(p.ast)
    ensures OthersUntouched(s, s', r.id)
  {
  }

  /** While a rule stays in the set, each successful edit of it gets a later version. */
  lemma VersionsIncrease<A>(b: Backend<A>, s: State<A>, r: Rule, s': State<A>)
    requires Does(b, s, Upsert(r), true, s') && r.id in s.rules
    ensures s'.rules[r.id].version > s.rules[r.id].version
  {
    UpsertStores(b, s, r, s');
  }

  /** A removed id is in neither the editable set nor the cache. */
  lemma RemoveForgets<A>(b: Backend<A>, s: State<A>, id: int, ok: bool, s': State<A>)
    requires Does(b, s, Remove(id), ok, s')
    ensures ok && id !in s'.rules && id !in s'.cache && OthersUntouched(s, s', id)
  {
  }

  // ---- the manager object ---------------------------------------------------------------------------------

  class ManagerState<A(!new)> {
    const eng: EngineState<A>
    var rules: map<int, Rule>
    var versions: seq<Version>

    ghost function Abs(): State<A> reads this, eng.cache { State(rules, eng.cache.m, versions) }

    ghost predicate Valid() reads this, eng, eng.cache {
      eng.Valid() && Coupled(eng.backend, Abs())
    }

    /** Every cached program is what the backend makes of its source. */
    ghost predicate Sourced(eng: EngineState<A>) reads eng, eng.cache {
      forall id :: id in eng.cache.m ==> eng.backend.compile(eng.cache.m[id].source) == Some(eng.cache.m[id].ast)
    }

    /** Seeds the editable set; where the programs were compiled from their sources, it is coupled to the cache. */
    constructor (eng: EngineState<A>)
      requires eng.Valid()
      ensures this.eng == eng && versions == [] && (Sourced(eng) ==> Valid())
      ensures rules.Keys == eng.cache.m.Keys
      ensures forall id :: id in rules ==>
                rules[id].enabled && eng.cache.m[id] == Compiled(rules[id], eng.cache.m[id].ast)
    {
      var seeded := SeedRules(eng.cache.snapshot, eng.cache.m);
      this.eng := eng;
      this.versions := [];
      this.rules := seeded;
      new;
      if Sourced(eng) { SeedCoupled(eng.backend, eng.cache.m, rules); }
    }

    method List() returns (out: seq<Rule>)
      requires Valid()
      ensures IsListing(out, rules)
    {
      var found := Range(RuleId, rules);
      out := Sort(ById, found);
      StillCollected(RuleId, found, out, rules);
      CollectedAscends(RuleId, ById, out, rules);
    }

    method UpsertRule(r: Rule) returns (ok: bool)
      requires Valid()
      modifies this, eng.cache
      ensures Valid() && Does(eng.backend, old(Abs()), Upsert(r), ok, Abs())
    {
      if r.id == 0 { return false; }
      var r' := r;
      if r.id in rules && r.version <= rules[r.id].version {
        r' := r.(version := rules[r.id].version + 1);
      } else if r.version == 0 {
        r' := r.(version := 1);
      }
      if r'.enabled {
        ok := eng.AddRule(r');
        if !ok { return; }
      } else {
        eng.RemoveRule(r'.id);
      }
      rules := rules[r'.id := r'];
      ok := true;
      UpsertKeeps(eng.backend, old(Abs()), r, ok, Abs());
    }

    method RemoveRule(id: int)
      requires Valid()
      modifies this, eng.cache
      ensures Valid() && Does(eng.backend, old(Abs()), Remove(id), true, Abs())
    {
      eng.RemoveRule(id);
      rules := rules - {id};
      StepKeeps(eng.backend, old(Abs()), Remove(id), true, Abs());
    }

    method PublishVersion(note: string) returns (v: Version)
      requires Valid()
      modifies this`versions
      ensures Valid() && Does(eng.backend, old(Abs()), Publish(note), true, Abs())
      ensures v == versions[|versions| - 1] && v.version == |versions|
    {
      var l := List();
      v := Version(|versions| + 1, note, |l|, l);
      versions := versions + [v];
      StepKeeps(eng.backend, old(Abs()), Publish(note), true, Abs());
    }

    method RollbackTo(version: int) returns (ok: bool)
      requires Valid()
      modifies this, eng.cache
      ensures Valid() && Does(eng.backend, old(Abs()), Rollback(version), ok, Abs())
    {
      var found := FindVersion(versions, version);
      if found.None? { return false; }
      var l := found.value;
      var _, _ := eng.ReplaceRules(l);
      var restored: map<int, Rule> := map[];
      for i := 0 to |l|
        invariant restored == RulesOf(l[..i])
      {
        assert l[..i + 1][..i] == l[..i];
        restored := restored[l[i].id := l[i]];
      }
      assert l[..|l|] == l;
      rules := restored;
      ok := true;
      StepKeeps(eng.backend, old(Abs()), Rollback(version), ok, Abs());
    }
  }

  function Seed<A>(p: RuleProgram<A>): Rule { Rule(p.id, p.name, p.source, p.priority, p.version, true) }

  method SeedRules<A>(snap: seq<RuleProgram<A>>, ghost m: map<int, RuleProgram<A>>) returns (rules: map<int, Rule>)
    requires Keyed(m) && IsSnapshot(snap, m)
    ensures rules.Keys == m.Keys && forall id :: id in m ==> rules[id] == Seed(m[id])
  {
    rules := map[];
    for i := 0 to |snap|
      invariant forall k :: 0 <= k < i ==> snap[k].id in rules
      invariant forall id :: id in rules ==> id in m && rules[id] == Seed(m[id])
    {
      assert snap[i] in snap;
      rules := rules[snap[i].id := Seed(snap[i])];
    }
    forall id | id in m ensures id in rules {
      assert m[id] in snap;
      var k :| 0 <= k < |snap| && snap[k] == m[id];
      assert snap[k].id in rules;
    }
    assert rules.Keys == m.Keys by {
      forall id ensures id in rules.Keys <==> id in m.Keys { }
    }
  }

  lemma SeedCoupled<A(!new)>(b: Backend<A>, m: map<int, RuleProgram<A>>, rules: map<int, Rule>)
    requires Keyed(m) && rules.Keys == m.Keys && forall id :: id in m ==> rules[id] == Seed(m[id])
    requires forall id :: id in m ==> b.compile(m[id].source) == Some(m[id].ast)
    ensures Coupled(b, State(rules, m, []))
    ensures forall id :: id in rules ==> m[id] == Compiled(rules[id], m[id].ast)
  {
    var c := CacheOf(b, rules);
    forall id ensures id in m <==> id in c {
      if id in m { assert rules[id].enabled && rules[id].expr == m[id].source; }
    }
    forall id | id in m ensures m[id] == c[id] { assert rules[id] == Seed(m[id]); }
    assert m == c;
  }

  method FindVersion(versions: seq<Version>, v: int) returns (r: Option<seq<Rule>>)
    ensures r == Find(versions, v)
  {
    for i := 0 to |versions|
      invariant Find(versions, v) == Find(versions[i..], v)
    {
      assert versions[i..][0] == versions[i] && versions[i..][1..] == versions[i + 1..];
      if versions[i].version == v { return Some(versions[i].rules); }
    }
    return None;
  }
}
