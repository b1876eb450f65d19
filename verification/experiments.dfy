/**
 * The decorator wiring of the pendulum experiment (experiments.py), and small
 * dependency graphs, run through the executor.
 */
module Experiments {
  import opened Wrappers
  import opened Executor
  import opened Resolution

  const STEP1: string := "step1_calculate_g"
  const STEP2: string := "step2_average"

  /** The bodies, the dependency graph and a ranking of the pendulum pool. */
  const PENDULUM_BODIES: map<string, BodyId> := map[STEP1 := 1, STEP2 := 2]
  const PENDULUM_GRAPH: map<string, seq<string>> := map[STEP2 := [STEP1]]
  const PENDULUM_RANK: map<string, nat> := map[STEP1 := 0, STEP2 := 1]

  /** What the two declarations leave in the pool. The prerequisite passed to
      the second declaration is the wrapper of `step1_calculate_g`: it has the
      same name but is another object, and the first registration keeps its
      place. */
  lemma PendulumDeclared()
    ensures Registered(map[], [Callable(STEP1, 1)] + []) == map[STEP1 := 1]
    ensures Registered(map[STEP1 := 1], [Callable(STEP2, 2)] + [Callable(STEP1, 3)]) == PENDULUM_BODIES
    ensures WithPrereqs(WithPrereqs(map[], STEP1, []), STEP2, [Callable(STEP1, 3)]) == PENDULUM_GRAPH
    ensures Ranked(PENDULUM_GRAPH, PENDULUM_RANK)
  {
    assert [Callable(STEP1, 1)] + [] == [Callable(STEP1, 1)];
    assert [Callable(STEP1, 1)][..0] == [];
    var cs := [Callable(STEP2, 2)] + [Callable(STEP1, 3)];
    assert cs[..1] == [Callable(STEP2, 2)] && cs[..1][..0] == [];
    assert Registered(map[STEP1 := 1], cs[..1]) == PENDULUM_BODIES;
    assert Names([Callable(STEP1, 3)]) == [STEP1];
  }

  /** A top-level run of `step2_average` invokes `step1_calculate_g` and then
      `step2_average`, whatever ran before. */
  lemma PendulumRun(executed: set<string>)
    ensures Ranked(PENDULUM_GRAPH, PENDULUM_RANK)
    ensures Step(PENDULUM_BODIES, PENDULUM_GRAPH, PENDULUM_RANK, executed, STEP2, false)
         == Outcome({STEP1, STEP2}, [STEP1, STEP2], {STEP1, STEP2}, Ok(Some(2)))
  {
    var reg, g, rank := PENDULUM_BODIES, PENDULUM_GRAPH, PENDULUM_RANK;
    assert Ranked(g, rank);
    assert Deps(g, STEP2) == [STEP1] && Deps(g, STEP1) == [];
    StepUnfold(reg, g, rank, {}, STEP1, true);
    assert Prereqs(reg, g, rank, {}, [], 0) == Outcome({}, [], {}, Ok(None));
    var s1 := Step(reg, g, rank, {}, STEP1, true);
    assert s1 == Outcome({STEP1}, [STEP1], {STEP1}, Ok(Some(1)));
    PrereqsUnfold(reg, g, rank, {}, [STEP1], 1);
    assert [STEP1][1..] == [];
    assert Prereqs(reg, g, rank, s1.executed, [], 1) == Outcome({STEP1}, [], {}, Ok(None));
    StepUnfold(reg, g, rank, executed, STEP2, false);
  }

  /** The dependency map after a run of `step2_average`: reading the list of
      `step1_calculate_g` created an empty one. */
  lemma PendulumPadded()
    ensures Pad(PENDULUM_GRAPH, {STEP1, STEP2}) == map[STEP2 := [STEP1], STEP1 := []]
    ensures Pad(map[STEP2 := [STEP1], STEP1 := []], {STEP1, STEP2}) == map[STEP2 := [STEP1], STEP1 := []]
  {
  }

  /** The pendulum experiment's declarations: `step1_calculate_g` with no
      prerequisite, then `step2_average` with `step1_calculate_g`, whose
      decorated wrapper is what the class body passes as the prerequisite. */
  method DeclarePendulum() returns (pool: DependDecoratorPool, step2: Decorator)
    ensures fresh(pool)
    ensures pool.registry == PENDULUM_BODIES && pool.dependencies == PENDULUM_GRAPH
    ensures pool.executed == {} && pool.trace == []
    ensures PrereqsRegistered(pool.registry, pool.dependencies)
    ensures step2.func == Callable(STEP2, 2)
  {
    PendulumDeclared();
    pool := new DependDecoratorPool();
    var step1 := pool.Depends(Callable(STEP1, 1), []);
    // the wrapper is a different object from the function it wraps
    step2 := pool.Depends(Callable(STEP2, 2), [Callable(step1.func.name, 3)]);
  }

  /** The pendulum step run twice through an experiment instance, and accessed
      once through another object. */
  method PendulumExample() returns (pool: DependDecoratorPool, first: Result<Option<BodyId>>,
                                    second: Result<Option<BodyId>>, misuse: Result<Option<BodyId>>)
    ensures pool.registry == PENDULUM_BODIES
    ensures pool.dependencies == map[STEP2 := [STEP1], STEP1 := []]
    ensures first == Ok(Some(2)) && second == first
    ensures misuse == Err(RuntimeError(BINDING_ERROR))
    ensures pool.executed == {STEP1, STEP2}
    ensures pool.trace == [STEP1, STEP2, STEP1, STEP2]
  {
    var step2;
    pool, step2 := DeclarePendulum();
    PendulumRun({});
    PendulumPadded();
    first := pool.Invoke(step2, Experiment, PENDULUM_GRAPH, PENDULUM_RANK);
    PendulumRun(pool.executed);
    second := pool.Invoke(step2, Experiment, PENDULUM_GRAPH, PENDULUM_RANK);
    misuse := pool.Invoke(step2, Foreign, PENDULUM_GRAPH, PENDULUM_RANK);
  }

  // ---------------------------------------------------------------------------
  // Small graphs over four distinct step names a, b, c, d
  // ---------------------------------------------------------------------------

  predicate Distinct(a: string, b: string, c: string, d: string)
  {
    a != b && a != c && a != d && b != c && b != d && c != d
  }

  /** A nested run of a step with no prerequisites. */
  lemma LeafRun(reg: map<string, BodyId>, g: map<string, seq<string>>, rank: map<string, nat>,
                executed: set<string>, n: string)
    requires Ranked(g, rank) && n in reg && n !in executed && Deps(g, n) == []
    ensures Step(reg, g, rank, executed, n, true) == Outcome(executed + {n}, [n], {n}, Ok(Some(reg[n])))
  {
    StepUnfold(reg, g, rank, executed, n, true);
  }

  /** A run of a one-element prerequisite list. */
  lemma SingleRun(reg: map<string, BodyId>, g: map<string, seq<string>>, rank: map<string, nat>,
                  executed: set<string>, p: string, bound: nat)
    requires Ranked(g, rank) && Rank(rank, p) < bound
    ensures Below(rank, [p], bound)
    ensures var o := Step(reg, g, rank, executed, p, true);
      o.result.Ok? ==> Prereqs(reg, g, rank, executed, [p], bound) == Outcome(o.executed, o.seg, o.looked, Ok(None))
  {
    PrereqsUnfold(reg, g, rank, executed, [p], bound);
    assert [p][1..] == [];
  }

  /** A run of a two-element prerequisite list. */
  lemma PairRun(reg: map<string, BodyId>, g: map<string, seq<string>>, rank: map<string, nat>,
                executed: set<string>, p: string, q: string, bound: nat)
    requires Ranked(g, rank) && Rank(rank, p) < bound && Rank(rank, q) < bound
    ensures Below(rank, [p, q], bound)
    ensures var o1 := Step(reg, g, rank, executed, p, true);
            var o2 := Step(reg, g, rank, o1.executed, q, true);
      o1.result.Ok? && o2.result.Ok? ==>
        Prereqs(reg, g, rank, executed, [p, q], bound) == Outcome(o2.executed, o1.seg + o2.seg, o1.looked + o2.looked, Ok(None))
  {
    PrereqsUnfold(reg, g, rank, executed, [p, q], bound);
    assert [p, q][1..] == [q];
    SingleRun(reg, g, rank, Step(reg, g, rank, executed, p, true).executed, q, bound);
  }

  /** A nested run of a registered step whose one prerequisite `p` succeeds. */
  lemma ChainRun(reg: map<string, BodyId>, g: map<string, seq<string>>, rank: map<string, nat>,
                 executed: set<string>, n: string, p: string)
    requires Ranked(g, rank) && n in reg && n !in executed && Deps(g, n) == [p]
    ensures Rank(rank, p) < Rank(rank, n)
    ensures var o := Step(reg, g, rank, executed, p, true);
      o.result.Ok? ==>
        Step(reg, g, rank, executed, n, true) == Outcome(o.executed + {n}, o.seg + [n], {n} + o.looked, Ok(Some(reg[n])))
  {
    DepsOfRanked(g, rank, n);
    assert Deps(g, n)[0] == p;
    SingleRun(reg, g, rank, executed, p, Rank(rank, n));
    StepUnfold(reg, g, rank, executed, n, true);
  }

  /** A top-level run of a registered step with prerequisites `[p, q]` that
      both succeed. */
  lemma ForkRun(reg: map<string, BodyId>, g: map<string, seq<string>>, rank: map<string, nat>,
                executed: set<string>, n: string, p: string, q: string)
    requires Ranked(g, rank) && n in reg && Deps(g, n) == [p, q]
    ensures var o1 := Step(reg, g, rank, {}, p, true);
            var o2 := Step(reg, g, rank, o1.executed, q, true);
      o1.result.Ok? && o2.result.Ok? ==>
        Step(reg, g, rank, executed, n, false)
          == Outcome(o2.executed + {n}, o1.seg + o2.seg + [n], {n} + (o1.looked + o2.looked), Ok(Some(reg[n])))
  {
    DepsOfRanked(g, rank, n);
    assert Deps(g, n)[0] == p && Deps(g, n)[1] == q;
    PairRun(reg, g, rank, {}, p, q, Rank(rank, n));
    StepUnfold(reg, g, rank, executed, n, false);
  }

  function Bodies(a: string, b: string, c: string, d: string): (r: map<string, BodyId>)
  {
    map[a := 1, b := 2, c := 3, d := 4]
  }

  /** Step `a` with prerequisites `[b, c]`, where `c` has prerequisite `d`. */
  function Ordered(a: string, b: string, c: string, d: string): (r: map<string, seq<string>>)
  {
    map[a := [b, c], c := [d]]
  }

  function OrderedRank(a: string, b: string, c: string, d: string): (r: map<string, nat>)
  {
    map[a := 2, b := 0, c := 1, d := 0]
  }

  /** The runs of `b` and then `c` within a run of `a`. */
  lemma OrderedSides(a: string, b: string, c: string, d: string)
    requires Distinct(a, b, c, d)
    ensures Ranked(Ordered(a, b, c, d), OrderedRank(a, b, c, d))
    ensures Step(Bodies(a, b, c, d), Ordered(a, b, c, d), OrderedRank(a, b, c, d), {}, b, true)
         == Outcome({b}, [b], {b}, Ok(Some(2)))
    ensures Step(Bodies(a, b, c, d), Ordered(a, b, c, d), OrderedRank(a, b, c, d), {b}, c, true)
         == Outcome({b, c, d}, [d, c], {c, d}, Ok(Some(3)))
  {
    var reg, g, rank := Bodies(a, b, c, d), Ordered(a, b, c, d), OrderedRank(a, b, c, d);
    assert Ranked(g, rank);
    assert Deps(g, b) == [] && Deps(g, c) == [d] && Deps(g, d) == [];
    LeafRun(reg, g, rank, {}, b);
    assert {} + {b} == {b};
    LeafRun(reg, g, rank, {b}, d);
    ChainRun(reg, g, rank, {b}, c, d);
  }

  /** A top-level run of `a` invokes `b`, then `d`, then `c`, then `a`: every
      step comes after its prerequisites, and `b` before `c` as declared. */
  lemma DeclarationOrder(a: string, b: string, c: string, d: string, executed: set<string>)
    requires Distinct(a, b, c, d)
    ensures Ranked(Ordered(a, b, c, d), OrderedRank(a, b, c, d))
    ensures Step(Bodies(a, b, c, d), Ordered(a, b, c, d), OrderedRank(a, b, c, d), executed, a, false)
         == Outcome({a, b, c, d}, [b, d, c, a], {a, b, c, d}, Ok(Some(1)))
  {
    var reg, g, rank := Bodies(a, b, c, d), Ordered(a, b, c, d), OrderedRank(a, b, c, d);
    OrderedSides(a, b, c, d);
    assert Deps(g, a) == [b, c];
    ForkRun(reg, g, rank, executed, a, b, c);
    assert [b] + [d, c] + [a] == [b, d, c, a];
  }

  /** Steps `b` and `c` both need `d`, and `a` needs `b` and `c`. */
  function Diamond(a: string, b: string, c: string, d: string): (r: map<string, seq<string>>)
  {
    map[a := [b, c], b := [d], c := [d]]
  }

  function DiamondRank(a: string, b: string, c: string, d: string): (r: map<string, nat>)
  {
    map[a := 2, b := 1, c := 1, d := 0]
  }

  /** The runs of `b` and then `c` within a run of `a`: `d` runs inside the
      first and is skipped inside the second. */
  lemma DiamondSides(a: string, b: string, c: string, d: string)
    requires Distinct(a, b, c, d)
    ensures Ranked(Diamond(a, b, c, d), DiamondRank(a, b, c, d))
    ensures Step(Bodies(a, b, c, d), Diamond(a, b, c, d), DiamondRank(a, b, c, d), {}, b, true)
         == Outcome({b, d}, [d, b], {b, d}, Ok(Some(2)))
    ensures Step(Bodies(a, b, c, d), Diamond(a, b, c, d), DiamondRank(a, b, c, d), {b, d}, c, true)
         == Outcome({b, c, d}, [c], {c}, Ok(Some(3)))
  {
    var reg, g, rank := Bodies(a, b, c, d), Diamond(a, b, c, d), DiamondRank(a, b, c, d);
    assert Ranked(g, rank);
    assert Deps(g, b) == [d] && Deps(g, c) == [d] && Deps(g, d) == [];
    LeafRun(reg, g, rank, {}, d);
    assert {} + {d} == {d};
    ChainRun(reg, g, rank, {}, b, d);
    assert Step(reg, g, rank, {b, d}, d, true) == Outcome({b, d}, [], {}, Ok(None));
    ChainRun(reg, g, rank, {b, d}, c, d);
  }

  /** A top-level run of `a` invokes the shared prerequisite `d` once, before
      both `b` and `c`. */
  lemma SharedPrerequisiteOnce(a: string, b: string, c: string, d: string, executed: set<string>)
    requires Distinct(a, b, c, d)
    ensures Ranked(Diamond(a, b, c, d), DiamondRank(a, b, c, d))
    ensures Step(Bodies(a, b, c, d), Diamond(a, b, c, d), DiamondRank(a, b, c, d), executed, a, false)
         == Outcome({a, b, c, d}, [d, b, c, a], {a, b, c, d}, Ok(Some(1)))
  {
    var reg, g, rank := Bodies(a, b, c, d), Diamond(a, b, c, d), DiamondRank(a, b, c, d);
    DiamondSides(a, b, c, d);
    assert Deps(g, a) == [b, c];
    ForkRun(reg, g, rank, executed, a, b, c);
    assert [d, b] + [c] + [a] == [d, b, c, a];
  }

  /** A prerequisite that was named but never registered: the nested run
      marks it executed and then raises KeyError, before the dependent step
      is marked or invoked. Such a pool lists an unregistered name, so
      `register` cannot build it. */
  lemma MissingPrerequisite(a: string, b: string, executed: set<string>)
    requires a != b
    ensures var reg := map[a := 1];
            var g := map[a := [b]];
            var rank := map[a := 1, b := 0];
      && Ranked(g, rank)
      && !PrereqsRegistered(reg, g)
      && Step(reg, g, rank, executed, a, false) == Outcome({b}, [], {a, b}, Err(KeyError(b)))
  {
    var reg := map[a := 1];
    var g := map[a := [b]];
    var rank := map[a := 1, b := 0];
    assert Ranked(g, rank);
    assert Deps(g, a) == [b] && Deps(g, b) == [];
    assert g[a][0] !in reg;
    StepUnfold(reg, g, rank, {}, b, true);
    assert Step(reg, g, rank, {}, b, true) == Outcome({b}, [], {b}, Err(KeyError(b)));
    PrereqsUnfold(reg, g, rank, {}, [b], 1);
    StepUnfold(reg, g, rank, executed, a, false);
  }

  /** A top-level run of a name that was never declared raises KeyError;
      reading its prerequisite list has created an empty one. */
  lemma UnknownStep(reg: map<string, BodyId>, g: map<string, seq<string>>, rank: map<string, nat>,
                    executed: set<string>, n: string)
    requires Ranked(g, rank) && n !in reg && n !in g
    ensures Step(reg, g, rank, executed, n, false) == Outcome({n}, [], {n}, Err(KeyError(n)))
  {
    StepUnfold(reg, g, rank, executed, n, false);
  }
}
