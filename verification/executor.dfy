/**
 * The step registry and executor of framework.py (`DependDecoratorPool` and
 * the `DependDecorator` descriptor): steps are registered under their names
 * with an ordered list of prerequisites, and running a step first runs its
 * prerequisites depth-first, left to right, each at most once per top-level
 * run.
 *
 * Step bodies are opaque: invoking one appends its step name to a ghost trace
 * and yields the body's identity as its result.
 */
module Executor {
  import opened Wrappers

  /** Identity of a step body: the function object the registry stores. */
  type BodyId = nat

  /** A Python callable as the registry sees it: its `__name__` and its identity. */
  datatype Callable = Callable(name: string, body: BodyId)

  /** What `depends(...)` puts in place of the decorated function. */
  datatype Decorator = Decorator(func: Callable)

  /** The instance through which a decorated step is accessed: an
      `AbstractPhyExp` or any other object. */
  datatype Receiver = Experiment | Foreign

  /** The call a bound step attribute makes: `run(name, instance, once)`. */
  datatype BoundCall = BoundCall(name: string, once: bool)

  const BINDING_ERROR: string := "DependDecorator error"

  // ---------------------------------------------------------------------------
  // Registration
  // ---------------------------------------------------------------------------

  /** The prerequisite list of `n`; an unknown name has none (a `defaultdict(list)`). */
  function Deps(deps: map<string, seq<string>>, n: string): (r: seq<string>)
  {
    if n in deps then deps[n] else []
  }

  /** The names of the callables, in order. */
  function Names(cs: seq<Callable>): (r: seq<string>)
    ensures |r| == |cs|
    ensures forall i | 0 <= i < |cs| :: r[i] == cs[i].name
  {
    if cs == [] then [] else Names(cs[..|cs| - 1]) + [cs[|cs| - 1].name]
  }

  /** The registry after registering each callable in turn, where a name that
      is already registered keeps its body. */
  function Registered(reg: map<string, BodyId>, cs: seq<Callable>): (r: map<string, BodyId>)
  {
    if cs == [] then reg
    else
      var r := Registered(reg, cs[..|cs| - 1]);
      var c := cs[|cs| - 1];
      if c.name in r then r else r[c.name := c.body]
  }

  /** The dependency map after `register(f, *prereqs)`: the prerequisites'
      names are appended to `f`'s list. The list is touched only when there is
      something to append. */
  function WithPrereqs(deps: map<string, seq<string>>, f: string, prereqs: seq<Callable>): (r: map<string, seq<string>>)
    ensures Deps(r, f) == Deps(deps, f) + Names(prereqs)
    ensures forall n | n != f :: Deps(r, n) == Deps(deps, n)
    ensures r.Keys == if prereqs == [] then deps.Keys else deps.Keys + {f}
  {
    if prereqs == [] then deps else deps[f := Deps(deps, f) + Names(prereqs)]
  }

  /** Registering adds exactly the callables' names and never changes the
      body of a name that is already registered. */
  lemma {:induction false} RegisteredKeeps(reg: map<string, BodyId>, cs: seq<Callable>)
    ensures forall n :: n in Registered(reg, cs) <==> n in reg || n in Names(cs)
    ensures forall n | n in reg :: Registered(reg, cs)[n] == reg[n]
  {
    if cs != [] {
      RegisteredKeeps(reg, cs[..|cs| - 1]);
      assert Names(cs) == Names(cs[..|cs| - 1]) + [cs[|cs| - 1].name];
    }
  }

  /** The first callable registered under a name keeps it: a later callable
      with the same name, or a name already in the registry, changes nothing. */
  lemma {:induction false} RegisteredFirstWins(reg: map<string, BodyId>, cs: seq<Callable>, i: nat)
    requires i < |cs| && cs[i].name !in reg
    requires forall j | 0 <= j < i :: cs[j].name != cs[i].name
    ensures cs[i].name in Registered(reg, cs) && Registered(reg, cs)[cs[i].name] == cs[i].body
  {
    var init := cs[..|cs| - 1];
    RegisteredKeeps(reg, init);
    if i < |cs| - 1 {
      assert init[i] == cs[i];
      RegisteredFirstWins(reg, init, i);
    } else {
      assert cs[i].name !in Names(init);
    }
  }

  /** One turn of `register`'s loop: registering `prereqs[i]` and appending
      its name extends the first `i` prerequisites to the first `i + 1`. */
  lemma RegisteredExtend(reg: map<string, BodyId>, f: Callable, prereqs: seq<Callable>, i: nat)
    requires i < |prereqs|
    ensures var r := Registered(reg, [f] + prereqs[..i]);
      Registered(reg, [f] + prereqs[..i + 1]) == Registered(r, [prereqs[i]])
  {
    assert ([f] + prereqs[..i + 1])[..|[f] + prereqs[..i + 1]| - 1] == [f] + prereqs[..i];
  }

  /** The same turn, on the dependency map. */
  lemma WithPrereqsExtend(deps: map<string, seq<string>>, f: Callable, prereqs: seq<Callable>, i: nat)
    requires i < |prereqs|
    ensures var d := WithPrereqs(deps, f.name, prereqs[..i]);
      WithPrereqs(deps, f.name, prereqs[..i + 1]) == d[f.name := Deps(d, f.name) + [prereqs[i].name]]
  {
    assert prereqs[..i + 1][..i] == prereqs[..i];
    var d := WithPrereqs(deps, f.name, prereqs[..i]);
    var list := Deps(deps, f.name) + Names(prereqs[..i + 1]);
    assert Deps(d, f.name) + [prereqs[i].name] == list;
    assert d[f.name := list] == deps[f.name := list];
  }

  /** Declaring a step a second time, with other prerequisites: its body
      stays the first one, and its list holds both declarations'
      prerequisites, the first declaration's first. */
  lemma RedeclaredStep(reg: map<string, BodyId>, deps: map<string, seq<string>>,
                       f: Callable, again: Callable, ps1: seq<Callable>, ps2: seq<Callable>)
    requires f.name == again.name && f.name !in reg
    ensures var reg2 := Registered(Registered(reg, [f] + ps1), [again] + ps2);
      f.name in reg2 && reg2[f.name] == f.body
    ensures Deps(WithPrereqs(WithPrereqs(deps, f.name, ps1), f.name, ps2), f.name)
         == Deps(deps, f.name) + Names(ps1) + Names(ps2)
  {
    var reg1 := Registered(reg, [f] + ps1);
    RegisteredFirstWins(reg, [f] + ps1, 0);
    RegisteredKeeps(reg1, [again] + ps2);
  }

  /** Every name in a prerequisite list is registered. `register` registers
      each prerequisite before it appends the name, and `run` only adds empty
      lists, so every pool the decorators build keeps this. */
  ghost predicate PrereqsRegistered(reg: map<string, BodyId>, deps: map<string, seq<string>>)
  {
    forall n, i | n in deps && 0 <= i < |deps[n]| :: deps[n][i] in reg
  }

  /** `register(f, *prereqs)` keeps every listed prerequisite registered. */
  lemma RegisterKeepsPrereqsRegistered(reg: map<string, BodyId>, deps: map<string, seq<string>>,
                                       f: Callable, prereqs: seq<Callable>)
    requires PrereqsRegistered(reg, deps)
    ensures PrereqsRegistered(Registered(reg, [f] + prereqs), WithPrereqs(deps, f.name, prereqs))
  {
    var r := Registered(reg, [f] + prereqs);
    var d := WithPrereqs(deps, f.name, prereqs);
    RegisteredKeeps(reg, [f] + prereqs);
    forall n, i | n in d && 0 <= i < |d[n]|
      ensures d[n][i] in r
    {
      assert d[n] == Deps(d, n);
      if n == f.name && i >= |Deps(deps, n)| {
        var k := i - |Deps(deps, n)|;
        assert d[n][i] == Names(prereqs)[k] == ([f] + prereqs)[k + 1].name;
        assert Names([f] + prereqs)[k + 1] == d[n][i];
      } else {
        assert n in deps && d[n][i] == deps[n][i];
      }
    }
  }

  // ---------------------------------------------------------------------------
  // The dependency graph and its ranking
  // ---------------------------------------------------------------------------

  /** The rank of a name; names outside the ranking have rank 0. */
  function Rank(rank: map<string, nat>, n: string): (r: nat)
  {
    if n in rank then rank[n] else 0
  }

  /** Every prerequisite ranks strictly below the step that names it, so the
      graph has no cycle. The source does not check this: on a cycle its
      recursion goes on until Python's recursion limit raises RecursionError,
      which is not modelled. */
  ghost predicate Ranked(g: map<string, seq<string>>, rank: map<string, nat>)
  {
    forall n, i | n in g && 0 <= i < |g[n]| :: Rank(rank, g[n][i]) < Rank(rank, n)
  }

  /** Every name in `ps` ranks below `bound`. */
  ghost predicate Below(rank: map<string, nat>, ps: seq<string>, bound: nat)
  {
    forall i | 0 <= i < |ps| :: Rank(rank, ps[i]) < bound
  }

  /** `d` is the graph `g`, possibly with extra names mapped to no prerequisites
      (the entries a `defaultdict` creates when it is read). */
  ghost predicate Padded(d: map<string, seq<string>>, g: map<string, seq<string>>)
  {
    && g.Keys <= d.Keys
    && forall n | n in d :: d[n] == Deps(g, n)
  }

  /** `d` after reading each name of `names` through the `defaultdict`. */
  function Pad(d: map<string, seq<string>>, names: set<string>): (r: map<string, seq<string>>)
  {
    map n | n in d.Keys + names :: Deps(d, n)
  }

  /** The padding a `defaultdict` read adds is empty lists, so it keeps every
      listed prerequisite registered. */
  lemma PadKeepsPrereqsRegistered(reg: map<string, BodyId>, d: map<string, seq<string>>, names: set<string>)
    requires PrereqsRegistered(reg, d)
    ensures PrereqsRegistered(reg, Pad(d, names))
  {
  }

  /** A map that pads the graph `g` lists registered names exactly when `g` does. */
  lemma PaddedPrereqsRegistered(reg: map<string, BodyId>, d: map<string, seq<string>>, g: map<string, seq<string>>)
    requires Padded(d, g)
    ensures PrereqsRegistered(reg, d) <==> PrereqsRegistered(reg, g)
  {
    if PrereqsRegistered(reg, d) {
      forall n, i | n in g && 0 <= i < |g[n]|
        ensures g[n][i] in reg
      {
        assert d[n] == g[n];
      }
    }
  }

  lemma DepsOfRanked(g: map<string, seq<string>>, rank: map<string, nat>, n: string)
    requires Ranked(g, rank)
    ensures Below(rank, Deps(g, n), Rank(rank, n))
  {
  }

  // ---------------------------------------------------------------------------
  // Functional model of `run`
  // ---------------------------------------------------------------------------

  /** What one call of `run` leaves behind: the executed set, the names whose
      bodies it invoked (in order), the names whose prerequisite lists it read,
      and what it returned or raised. */
  datatype Outcome = Outcome(
    executed: set<string>,
    seg: seq<string>,
    looked: set<string>,
    result: Result<Option<BodyId>>)

  /** `run(n, once)` from executed set `executed`: a top-level call clears the
      set; a nested call of an executed name returns at once; otherwise the
      prerequisites are run in order, `n` is marked executed and its body is
      invoked, which raises KeyError when `n` is not registered. */
  ghost function Step(reg: map<string, BodyId>, g: map<string, seq<string>>, rank: map<string, nat>,
                      executed: set<string>, n: string, once: bool): (r: Outcome)
    requires Ranked(g, rank)
    decreases Rank(rank, n), 1
  {
    if once && n in executed then Outcome(executed, [], {}, Ok(None))
    else
      var start := if once then executed else {};
      var pre := Prereqs(reg, g, rank, start, Deps(g, n), Rank(rank, n));
      if pre.result.Err? then pre.(looked := {n} + pre.looked)
      else if n in reg then Outcome(pre.executed + {n}, pre.seg + [n], {n} + pre.looked, Ok(Some(reg[n])))
      else Outcome(pre.executed + {n}, pre.seg, {n} + pre.looked, Err(KeyError(n)))
  }

  /** Nested runs of `ps`, left to right, stopping at the first that raises. */
  ghost function Prereqs(reg: map<string, BodyId>, g: map<string, seq<string>>, rank: map<string, nat>,
                         executed: set<string>, ps: seq<string>, bound: nat): (r: Outcome)
    requires Ranked(g, rank) && Below(rank, ps, bound)
    decreases bound, 0, |ps|
  {
    if ps == [] then Outcome(executed, [], {}, Ok(None))
    else
      var first := Step(reg, g, rank, executed, ps[0], true);
      if first.result.Err? then first
      else
        var rest := Prereqs(reg, g, rank, first.executed, ps[1..], bound);
        Outcome(rest.executed, first.seg + rest.seg, first.looked + rest.looked, rest.result)
  }

  /** `n` and every name reachable from it through prerequisite lists. */
  ghost function Reach(g: map<string, seq<string>>, rank: map<string, nat>, n: string): (r: set<string>)
    requires Ranked(g, rank)
    decreases Rank(rank, n), 1
  {
    {n} + ReachAll(g, rank, Deps(g, n), Rank(rank, n))
  }

  ghost function ReachAll(g: map<string, seq<string>>, rank: map<string, nat>, ps: seq<string>, bound: nat): (r: set<string>)
    requires Ranked(g, rank) && Below(rank, ps, bound)
    decreases bound, 0, |ps|
  {
    if ps == [] then {} else Reach(g, rank, ps[0]) + ReachAll(g, rank, ps[1..], bound)
  }

  // ---------------------------------------------------------------------------
  // The descriptor
  // ---------------------------------------------------------------------------

  /** `DependDecorator.__get__`: only an experiment instance may access a step,
      and the callable it gets back always makes a top-level call. */
  function Bind(d: Decorator, receiver: Receiver): (r: Result<BoundCall>)
    ensures r.Ok? <==> receiver.Experiment?
    ensures r.Ok? ==> r.value.name == d.func.name && !r.value.once
    ensures r.Err? ==> r.error == RuntimeError(BINDING_ERROR)
  {
    match receiver
    case Experiment => Ok(BoundCall(d.func.name, false))
    case Foreign => Err(RuntimeError(BINDING_ERROR))
  }

  lemma StepUnfold(reg: map<string, BodyId>, g: map<string, seq<string>>, rank: map<string, nat>,
                    executed: set<string>, n: string, once: bool)
    requires Ranked(g, rank) && !(once && n in executed)
    ensures Below(rank, Deps(g, n), Rank(rank, n))
    ensures var pre := Prereqs(reg, g, rank, if once then executed else {}, Deps(g, n), Rank(rank, n));
      Step(reg, g, rank, executed, n, once) ==
        if pre.result.Err? then pre.(looked := {n} + pre.looked)
        else if n in reg then Outcome(pre.executed + {n}, pre.seg + [n], {n} + pre.looked, Ok(Some(reg[n])))
        else Outcome(pre.executed + {n}, pre.seg, {n} + pre.looked, Err(KeyError(n)))
  {
    DepsOfRanked(g, rank, n);
  }

  lemma PrereqsUnfold(reg: map<string, BodyId>, g: map<string, seq<string>>, rank: map<string, nat>,
                      executed: set<string>, ps: seq<string>, bound: nat)
    requires Ranked(g, rank) && Below(rank, ps, bound) && ps != []
    ensures Below(rank, ps[1..], bound)
    ensures var first := Step(reg, g, rank, executed, ps[0], true);
      Prereqs(reg, g, rank, executed, ps, bound) ==
        if first.result.Err? then first
        else
          var rest := Prereqs(reg, g, rank, first.executed, ps[1..], bound);
          Outcome(rest.executed, first.seg + rest.seg, first.looked + rest.looked, rest.result)
  {
  }

  lemma ConcatAssoc(a: seq<string>, b: seq<string>, c: seq<string>)
    ensures (a + b) + c == a + (b + c)
  {
  }

  lemma PadOne(d: map<string, seq<string>>, n: string)
    ensures Pad(d, {n}) == if n in d then d else d[n := []]
  {
  }

  /** `full` is what remains, `rest`, after a loop that has already invoked
      `seg` and read the lists of `looked`. */
  ghost predicate Resumes(full: Outcome, seg: seq<string>, looked: set<string>, rest: Outcome)
  {
    full == Outcome(rest.executed, seg + rest.seg, looked + rest.looked, rest.result)
  }

  /** One turn of `run`'s loop over the prerequisite list `pres`: the nested
      run of `pres[i]` either raises, which ends the whole list, or leaves the
      rest of the list to run from the new executed set. */
  lemma PrereqsLoopStep(reg: map<string, BodyId>, g: map<string, seq<string>>, rank: map<string, nat>,
                        d0: map<string, seq<string>>, pres: seq<string>, bound: nat, i: nat,
                        seg: seq<string>, looked: set<string>, before: set<string>, full: Outcome)
    requires Ranked(g, rank) && i < |pres| && Below(rank, pres[i..], bound)
    requires Resumes(full, seg, looked, Prereqs(reg, g, rank, before, pres[i..], bound))
    ensures Below(rank, pres[i + 1..], bound)
    ensures var o := Step(reg, g, rank, before, pres[i], true);
      && Pad(Pad(d0, looked), o.looked) == Pad(d0, looked + o.looked)
      && (o.result.Err? ==> Resumes(full, seg, looked, o))
      && (o.result.Ok? ==> Resumes(full, seg + o.seg, looked + o.looked, Prereqs(reg, g, rank, o.executed, pres[i + 1..], bound)))
  {
    PrereqsUnfold(reg, g, rank, before, pres[i..], bound);
    assert pres[i..][1..] == pres[i + 1..];
    PadPad(d0, looked, Step(reg, g, rank, before, pres[i], true).looked);
  }

  lemma PadPad(d: map<string, seq<string>>, a: set<string>, b: set<string>)
    ensures Pad(Pad(d, a), b) == Pad(d, a + b)
  {
  }

  // ---------------------------------------------------------------------------
  // The pool object
  // ---------------------------------------------------------------------------

  class DependDecoratorPool {
    var registry: map<string, BodyId>
    var dependencies: map<string, seq<string>>
    var executed: set<string>
    /** Every body invocation, in order. */
    ghost var trace: seq<string>

    constructor ()
      ensures registry == map[] && dependencies == map[] && executed == {} && trace == []
      ensures PrereqsRegistered(registry, dependencies)
    {
      registry := map[];
      dependencies := map[];
      executed := {};
      trace := [];
    }

    /** Registers `f` unless its name is already registered, then registers
        each prerequisite and appends its name to `f`'s list. */
    method Register(f: Callable, prereqs: seq<Callable>)
      modifies this
      ensures registry == Registered(old(registry), [f] + prereqs)
      ensures dependencies == WithPrereqs(old(dependencies), f.name, prereqs)
      ensures executed == old(executed) && trace == old(trace)
      ensures PrereqsRegistered(old(registry), old(dependencies)) ==> PrereqsRegistered(registry, dependencies)
      decreases |prereqs|
    {
      if f.name !in registry {
        registry := registry[f.name := f.body];
      }
      for i := 0 to |prereqs|
        invariant registry == Registered(old(registry), [f] + prereqs[..i])
        invariant dependencies == WithPrereqs(old(dependencies), f.name, prereqs[..i])
        invariant executed == old(executed) && trace == old(trace)
      {
        Register(prereqs[i], []);
        RegisteredExtend(old(registry), f, prereqs, i);
        WithPrereqsExtend(old(dependencies), f, prereqs, i);
        dependencies := dependencies[f.name := Deps(dependencies, f.name) + [prereqs[i].name]];
      }
      assert prereqs[..|prereqs|] == prereqs;
      if PrereqsRegistered(old(registry), old(dependencies)) {
        RegisterKeepsPrereqsRegistered(old(registry), old(dependencies), f, prereqs);
      }
    }

    /** `depends(*prereqs)` applied to `f`: registers `f` with its
        prerequisites and returns the wrapper that replaces it. */
    method Depends(f: Callable, prereqs: seq<Callable>) returns (d: Decorator)
      modifies this
      ensures d.func == f
      ensures registry == Registered(old(registry), [f] + prereqs)
      ensures dependencies == WithPrereqs(old(dependencies), f.name, prereqs)
      ensures executed == old(executed) && trace == old(trace)
      ensures PrereqsRegistered(old(registry), old(dependencies)) ==> PrereqsRegistered(registry, dependencies)
    {
      Register(f, prereqs);
      d := Decorator(f);
    }

    /** `run(name, instance, once)`, following the dependency graph `g` that
        `dependencies` holds and ranked by `rank`. */
    method Run(name: string, once: bool, ghost g: map<string, seq<string>>, ghost rank: map<string, nat>)
      returns (r: Result<Option<BodyId>>)
      requires Ranked(g, rank) && Padded(dependencies, g)
      modifies this
      ensures var o := Step(registry, g, rank, old(executed), name, once);
        && registry == old(registry)
        && executed == o.executed
        && trace == old(trace) + o.seg
        && dependencies == Pad(old(dependencies), o.looked)
        && r == o.result
      ensures Padded(dependencies, g)
      ensures PrereqsRegistered(old(registry), old(dependencies)) ==> PrereqsRegistered(registry, dependencies)
      decreases Rank(rank, name), 1
    {
      ghost var d0 := dependencies;
      if !once {
        executed := {};
      }
      if once && name in executed {
        assert dependencies == Pad(dependencies, {});
        return Ok(None);
      }
      var pres := ReadDeps(name, g);
      DepsOfRanked(g, rank, name);
      StepUnfold(registry, g, rank, old(executed), name, once);
      r := ResolvePrereqs(pres, Rank(rank, name), g, rank);
      ghost var pre := Prereqs(registry, g, rank, if once then old(executed) else {}, pres, Rank(rank, name));
      assert dependencies == Pad(d0, {name} + pre.looked) by {
        PadPad(d0, {name}, pre.looked);
      }
      if PrereqsRegistered(registry, d0) {
        PadKeepsPrereqsRegistered(registry, d0, {name} + pre.looked);
      }
      if r.Err? {
        return;
      }
      executed := executed + {name};
      if name !in registry {
        return Err(KeyError(name));
      }
      ConcatAssoc(old(trace), pre.seg, [name]);
      trace := trace + [name];
      r := Ok(Some(registry[name]));
    }

    /** `self.dependencies[name]` on the `defaultdict`: reading a missing
        name stores an empty list for it. */
    method ReadDeps(name: string, ghost g: map<string, seq<string>>) returns (pres: seq<string>)
      requires Padded(dependencies, g)
      modifies this
      ensures pres == Deps(old(dependencies), name) == Deps(g, name)
      ensures dependencies == Pad(old(dependencies), {name}) && Padded(dependencies, g)
      ensures registry == old(registry) && executed == old(executed) && trace == old(trace)
    {
      pres := Deps(dependencies, name);
      if name !in dependencies {
        dependencies := dependencies[name := []];
      }
      PadOne(old(dependencies), name);
    }

    /** The loop of `run` over a prerequisite list: each prerequisite gets a
        nested run, in order; the first one that raises ends the loop. */
    method ResolvePrereqs(pres: seq<string>, ghost bound: nat, ghost g: map<string, seq<string>>, ghost rank: map<string, nat>)
      returns (r: Result<Option<BodyId>>)
      requires Ranked(g, rank) && Padded(dependencies, g) && Below(rank, pres, bound)
      modifies this
      ensures var o := Prereqs(registry, g, rank, old(executed), pres, bound);
        && registry == old(registry)
        && executed == o.executed
        && trace == old(trace) + o.seg
        && dependencies == Pad(old(dependencies), o.looked)
        && r == o.result
      ensures Padded(dependencies, g)
      decreases bound, 0
    {
      ghost var reg, d0, t0 := registry, dependencies, trace;
      ghost var full := Prereqs(reg, g, rank, executed, pres, bound);
      ghost var seg: seq<string> := [];
      ghost var looked: set<string> := {};
      assert dependencies == Pad(d0, looked);
      var i := 0;
      while i < |pres|
        invariant 0 <= i <= |pres|
        invariant registry == reg
        invariant Padded(dependencies, g)
        invariant dependencies == Pad(d0, looked)
        invariant trace == t0 + seg
        invariant Below(rank, pres[i..], bound)
        invariant Resumes(full, seg, looked, Prereqs(reg, g, rank, executed, pres[i..], bound))
      {
        ghost var before := executed;
        var st := Run(pres[i], true, g, rank);
        ghost var o := Step(reg, g, rank, before, pres[i], true);
        PrereqsLoopStep(reg, g, rank, d0, pres, bound, i, seg, looked, before, full);
        ConcatAssoc(t0, seg, o.seg);
        if st.Err? {
          return st;
        }
        seg, looked := seg + o.seg, looked + o.looked;
        i := i + 1;
      }
      assert pres[i..] == [];
      r := Ok(None);
    }

    /** A step invoked through its attribute on `receiver`: the descriptor
        binds it, and the bound callable makes a top-level run. */
    method Invoke(d: Decorator, receiver: Receiver, ghost g: map<string, seq<string>>, ghost rank: map<string, nat>)
      returns (r: Result<Option<BodyId>>)
      requires Ranked(g, rank) && Padded(dependencies, g)
      modifies this
      ensures receiver.Foreign? ==> r == Err(RuntimeError(BINDING_ERROR)) && unchanged(this)
      ensures receiver.Experiment? ==>
        var o := Step(registry, g, rank, old(executed), d.func.name, false);
        && registry == old(registry)
        && executed == o.executed
        && trace == old(trace) + o.seg
        && dependencies == Pad(old(dependencies), o.looked)
        && r == o.result
      ensures Padded(dependencies, g)
      ensures PrereqsRegistered(old(registry), old(dependencies)) ==> PrereqsRegistered(registry, dependencies)
    {
      var bound := Bind(d, receiver);
      if bound.Err? {
        return Err(bound.error);
      }
      r := Run(bound.value.name, bound.value.once, g, rank);
    }
  }
}
