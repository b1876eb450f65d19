/**
 * What a run of a step does, proved about the functional model `Step` /
 * `Prereqs` that `DependDecoratorPool.Run` is verified against.
 */
module Resolution {
  import opened Wrappers
  import opened Executor

  // ---------------------------------------------------------------------------
  // Reachability
  // ---------------------------------------------------------------------------

  /** Every prerequisite of a name in `s` is in `s`. */
  ghost predicate Closed(g: map<string, seq<string>>, s: set<string>)
  {
    forall m, j | m in s && 0 <= j < |Deps(g, m)| :: Deps(g, m)[j] in s
  }

  /** Everything reachable from `n` ranks no higher than `n`. */
  lemma {:induction false} ReachRank(g: map<string, seq<string>>, rank: map<string, nat>, n: string, x: string)
    requires Ranked(g, rank) && x in Reach(g, rank, n)
    ensures Rank(rank, x) <= Rank(rank, n)
    decreases Rank(rank, n), 1
  {
    if x != n {
      DepsOfRanked(g, rank, n);
      ReachAllRank(g, rank, Deps(g, n), Rank(rank, n), x);
    }
  }

  lemma {:induction false} ReachAllRank(g: map<string, seq<string>>, rank: map<string, nat>, ps: seq<string>, bound: nat, x: string)
    requires Ranked(g, rank) && Below(rank, ps, bound) && x in ReachAll(g, rank, ps, bound)
    ensures Rank(rank, x) < bound
    decreases bound, 0, |ps|
  {
    assert ps != [];
    if x in Reach(g, rank, ps[0]) {
      ReachRank(g, rank, ps[0], x);
    } else {
      ReachAllRank(g, rank, ps[1..], bound, x);
    }
  }

  /** A closed set that holds `n` holds everything reachable from `n`. */
  lemma {:induction false} ReachInClosed(g: map<string, seq<string>>, rank: map<string, nat>, s: set<string>, n: string)
    requires Ranked(g, rank) && Closed(g, s) && n in s
    ensures Reach(g, rank, n) <= s
    decreases Rank(rank, n), 1
  {
    DepsOfRanked(g, rank, n);
    ReachAllInClosed(g, rank, s, Deps(g, n), Rank(rank, n));
  }

  lemma {:induction false} ReachAllInClosed(g: map<string, seq<string>>, rank: map<string, nat>, s: set<string>, ps: seq<string>, bound: nat)
    requires Ranked(g, rank) && Below(rank, ps, bound) && Closed(g, s)
    requires forall i | 0 <= i < |ps| :: ps[i] in s
    ensures ReachAll(g, rank, ps, bound) <= s
    decreases bound, 0, |ps|
  {
    if ps != [] {
      ReachInClosed(g, rank, s, ps[0]);
      ReachAllInClosed(g, rank, s, ps[1..], bound);
    }
  }

  // ---------------------------------------------------------------------------
  // The trace a run leaves
  // ---------------------------------------------------------------------------

  ghost function Elems(s: seq<string>): (r: set<string>)
  {
    set x | x in s
  }

  /** No name occurs twice. */
  ghost predicate NoDup(s: seq<string>)
  {
    forall i, j | 0 <= i < j < |s| :: s[i] != s[j]
  }

  /** Every prerequisite of a name in `s` was done beforehand: it is in
      `done`, or it occurs earlier in `s`. */
  ghost predicate DepsFirst(g: map<string, seq<string>>, done: set<string>, s: seq<string>)
  {
    forall k, j | 0 <= k < |s| && 0 <= j < |Deps(g, s[k])| :: Deps(g, s[k])[j] in done || Deps(g, s[k])[j] in s[..k]
  }

  /** What a run started from the closed executed set `start`, and confined to
      the names `reach`, leaves behind: the bodies it invoked are registered,
      new, distinct and each after its prerequisites; on success the executed
      set grew by exactly those names and is still closed; on failure the one
      name that raised KeyError is unregistered and was marked executed. */
  ghost predicate Accounted(reg: map<string, BodyId>, g: map<string, seq<string>>, start: set<string>,
                            reach: set<string>, o: Outcome)
  {
    && NoDup(o.seg)
    && Elems(o.seg) <= reach * reg.Keys
    && Elems(o.seg) !! start
    && DepsFirst(g, start, o.seg)
    && (o.result.Ok? ==> o.executed == start + Elems(o.seg) && Closed(g, o.executed))
    && (o.result.Err? ==>
          && o.result.error.KeyError?
          && var m := o.result.error.key;
          && m in reach && m !in start && m !in reg && m !in Elems(o.seg)
          && o.executed == start + Elems(o.seg) + {m})
  }

  lemma AccountedWiden(reg: map<string, BodyId>, g: map<string, seq<string>>, start: set<string>,
                       reach: set<string>, wider: set<string>, o: Outcome)
    requires Accounted(reg, g, start, reach, o) && reach <= wider
    ensures Accounted(reg, g, start, wider, o)
  {
  }

  /** Two traces with no name in common join into one without repetitions. */
  lemma NoDupJoin(a: seq<string>, b: seq<string>)
    requires NoDup(a) && NoDup(b) && Elems(a) !! Elems(b)
    ensures NoDup(a + b) && Elems(a + b) == Elems(a) + Elems(b)
  {
    var s := a + b;
    forall i, j | 0 <= i < j < |s|
      ensures s[i] != s[j]
    {
      if i < |a| <= j {
        assert s[i] in Elems(a) && s[j] in Elems(b);
      }
    }
  }

  /** A trace that puts prerequisites first, continued by one that does so
      given what the first part did. */
  lemma DepsFirstJoin(g: map<string, seq<string>>, done: set<string>, a: seq<string>, b: seq<string>)
    requires DepsFirst(g, done, a) && DepsFirst(g, done + Elems(a), b)
    ensures DepsFirst(g, done, a + b)
  {
    var s := a + b;
    forall k, j | 0 <= k < |s| && 0 <= j < |Deps(g, s[k])|
      ensures Deps(g, s[k])[j] in done || Deps(g, s[k])[j] in s[..k]
    {
      if k < |a| {
        assert s[k] == a[k] && s[..k] == a[..k];
      } else {
        var k' := k - |a|;
        assert s[k] == b[k'];
        assert s[..k] == a + b[..k'];
      }
    }
  }

  /** A run that succeeded followed by another run from where it stopped. */
  lemma AccountedThen(reg: map<string, BodyId>, g: map<string, seq<string>>, start: set<string>,
                      r1: set<string>, r2: set<string>, first: Outcome, rest: Outcome)
    requires Accounted(reg, g, start, r1, first) && first.result.Ok?
    requires Accounted(reg, g, first.executed, r2, rest)
    ensures Accounted(reg, g, start, r1 + r2, Outcome(rest.executed, first.seg + rest.seg, first.looked + rest.looked, rest.result))
  {
    NoDupJoin(first.seg, rest.seg);
    DepsFirstJoin(g, start, first.seg, rest.seg);
  }

  /** The body of `n` invoked after its prerequisites ran successfully. */
  lemma AccountedInvoke(reg: map<string, BodyId>, g: map<string, seq<string>>, rank: map<string, nat>,
                        start: set<string>, n: string, pre: Outcome)
    requires Ranked(g, rank) && n !in start && n in reg
    requires Below(rank, Deps(g, n), Rank(rank, n))
    requires Accounted(reg, g, start, ReachAll(g, rank, Deps(g, n), Rank(rank, n)), pre) && pre.result.Ok?
    requires forall i | 0 <= i < |Deps(g, n)| :: Deps(g, n)[i] in pre.executed
    ensures Accounted(reg, g, start, Reach(g, rank, n), Outcome(pre.executed + {n}, pre.seg + [n], {n} + pre.looked, Ok(Some(reg[n]))))
  {
    if n in Elems(pre.seg) {
      ReachAllRank(g, rank, Deps(g, n), Rank(rank, n), n);
    }
    assert Elems([n]) == {n};
    assert DepsFirst(g, start + Elems(pre.seg), [n]) by {
      assert forall j | 0 <= j < |Deps(g, [n][0])| :: Deps(g, [n][0])[j] in pre.executed;
    }
    NoDupJoin(pre.seg, [n]);
    DepsFirstJoin(g, start, pre.seg, [n]);
  }

  /** The body lookup of `n` raising KeyError after its prerequisites ran. */
  lemma AccountedMissing(reg: map<string, BodyId>, g: map<string, seq<string>>, rank: map<string, nat>,
                         start: set<string>, n: string, pre: Outcome)
    requires Ranked(g, rank) && n !in start && n !in reg
    requires Below(rank, Deps(g, n), Rank(rank, n))
    requires Accounted(reg, g, start, ReachAll(g, rank, Deps(g, n), Rank(rank, n)), pre) && pre.result.Ok?
    ensures Accounted(reg, g, start, Reach(g, rank, n), Outcome(pre.executed + {n}, pre.seg, {n} + pre.looked, Err(KeyError(n))))
  {
  }

  // ---------------------------------------------------------------------------
  // The resolution theorem
  // ---------------------------------------------------------------------------

  /** A nested run of `n` from a closed executed set. */
  lemma {:induction false} StepAccounted(reg: map<string, BodyId>, g: map<string, seq<string>>, rank: map<string, nat>,
                                         start: set<string>, n: string)
    requires Ranked(g, rank) && Closed(g, start)
    ensures var o := Step(reg, g, rank, start, n, true);
      && Accounted(reg, g, start, Reach(g, rank, n), o)
      && (o.result.Ok? ==> n in o.executed)
      && (o.result.Ok? && n !in start ==> o.result == Ok(Some(reg[n])) && o.seg != [] && o.seg[|o.seg| - 1] == n)
      && (n in start ==> o == Outcome(start, [], {}, Ok(None)))
    decreases Rank(rank, n), 1
  {
    if n !in start {
      StepUnfold(reg, g, rank, start, n, true);
      var pre := Prereqs(reg, g, rank, start, Deps(g, n), Rank(rank, n));
      PrereqsAccounted(reg, g, rank, start, Deps(g, n), Rank(rank, n));
      if pre.result.Err? {
        AccountedWiden(reg, g, start, ReachAll(g, rank, Deps(g, n), Rank(rank, n)), Reach(g, rank, n), pre);
      } else if n in reg {
        AccountedInvoke(reg, g, rank, start, n, pre);
      } else {
        AccountedMissing(reg, g, rank, start, n, pre);
      }
    }
  }

  /** Nested runs of the prerequisite list `ps` from a closed executed set. */
  lemma {:induction false} PrereqsAccounted(reg: map<string, BodyId>, g: map<string, seq<string>>, rank: map<string, nat>,
                                            start: set<string>, ps: seq<string>, bound: nat)
    requires Ranked(g, rank) && Below(rank, ps, bound) && Closed(g, start)
    ensures var o := Prereqs(reg, g, rank, start, ps, bound);
      && Accounted(reg, g, start, ReachAll(g, rank, ps, bound), o)
      && (o.result.Ok? ==> o.result == Ok(None) && forall i | 0 <= i < |ps| :: ps[i] in o.executed)
    decreases bound, 0, |ps|
  {
    if ps != [] {
      PrereqsUnfold(reg, g, rank, start, ps, bound);
      var first := Step(reg, g, rank, start, ps[0], true);
      StepAccounted(reg, g, rank, start, ps[0]);
      if first.result.Err? {
        AccountedWiden(reg, g, start, Reach(g, rank, ps[0]), ReachAll(g, rank, ps, bound), first);
      } else {
        var rest := Prereqs(reg, g, rank, first.executed, ps[1..], bound);
        PrereqsAccounted(reg, g, rank, first.executed, ps[1..], bound);
        AccountedThen(reg, g, start, Reach(g, rank, ps[0]), ReachAll(g, rank, ps[1..], bound), first, rest);
        if rest.result.Ok? {
          forall i | 0 <= i < |ps|
            ensures ps[i] in rest.executed
          {
            if i > 0 {
              assert ps[i] == ps[1..][i - 1];
            }
          }
        }
      }
    }
  }

  // ---------------------------------------------------------------------------
  // Consequences
  // ---------------------------------------------------------------------------

  /** A nested run from a closed executed set succeeds exactly when every
      name it reaches that is not executed yet is registered; it then marks
      exactly those names executed and invokes each body once. */
  lemma NestedRun(reg: map<string, BodyId>, g: map<string, seq<string>>, rank: map<string, nat>,
                  start: set<string>, n: string)
    requires Ranked(g, rank) && Closed(g, start)
    ensures var o := Step(reg, g, rank, start, n, true);
      && (o.result.Ok? <==> Reach(g, rank, n) - start <= reg.Keys)
      && (o.result.Ok? ==> o.executed == start + Reach(g, rank, n) && Elems(o.seg) == Reach(g, rank, n) - start)
      && (o.result.Err? ==> o.result.error.KeyError? && o.result.error.key in Reach(g, rank, n) - start - reg.Keys)
  {
    var o := Step(reg, g, rank, start, n, true);
    StepAccounted(reg, g, rank, start, n);
    if o.result.Ok? {
      ReachInClosed(g, rank, o.executed, n);
    }
  }

  /** A top-level run does not depend on what earlier runs executed. */
  lemma TopLevelForgets(reg: map<string, BodyId>, g: map<string, seq<string>>, rank: map<string, nat>,
                        executed: set<string>, n: string)
    requires Ranked(g, rank)
    ensures Step(reg, g, rank, executed, n, false) == Step(reg, g, rank, {}, n, true)
  {
    StepUnfold(reg, g, rank, executed, n, false);
    StepUnfold(reg, g, rank, {}, n, true);
  }

  /** When every listed prerequisite is registered, everything reachable from
      `n`, except `n` itself, is registered. */
  lemma {:induction false} ReachRegistered(reg: map<string, BodyId>, g: map<string, seq<string>>,
                                           rank: map<string, nat>, n: string)
    requires Ranked(g, rank) && PrereqsRegistered(reg, g)
    ensures Reach(g, rank, n) - {n} <= reg.Keys
    decreases Rank(rank, n), 1
  {
    DepsOfRanked(g, rank, n);
    ReachAllRegistered(reg, g, rank, Deps(g, n), Rank(rank, n));
  }

  lemma {:induction false} ReachAllRegistered(reg: map<string, BodyId>, g: map<string, seq<string>>,
                                              rank: map<string, nat>, ps: seq<string>, bound: nat)
    requires Ranked(g, rank) && PrereqsRegistered(reg, g) && Below(rank, ps, bound)
    requires forall i | 0 <= i < |ps| :: ps[i] in reg
    ensures ReachAll(g, rank, ps, bound) <= reg.Keys
    decreases bound, 0, |ps|
  {
    if ps != [] {
      ReachRegistered(reg, g, rank, ps[0]);
      ReachAllRegistered(reg, g, rank, ps[1..], bound);
    }
  }

  /** On a pool built by `register`, whose lists name only registered steps, a
      top-level run fails only when the target itself is not registered, and
      then with KeyError for the target. */
  lemma DeclaredPoolRun(reg: map<string, BodyId>, deps: map<string, seq<string>>, g: map<string, seq<string>>,
                        rank: map<string, nat>, executed: set<string>, n: string)
    requires Ranked(g, rank) && Padded(deps, g) && PrereqsRegistered(reg, deps)
    ensures Step(reg, g, rank, executed, n, false).result
         == if n in reg then Ok(Some(reg[n])) else Err(KeyError(n))
  {
    PaddedPrereqsRegistered(reg, deps, g);
    ReachRegistered(reg, g, rank, n);
    TopLevelRun(reg, g, rank, executed, n);
  }

  /** A top-level run of `n` succeeds exactly when everything reachable from
      `n` is registered. It then invokes every reachable body exactly once,
      each after its prerequisites and `n` last, leaves exactly those names
      executed and returns what `n`'s body returns; otherwise it raises
      KeyError for a reachable name that is not registered. */
  lemma TopLevelRun(reg: map<string, BodyId>, g: map<string, seq<string>>, rank: map<string, nat>,
                    executed: set<string>, n: string)
    requires Ranked(g, rank)
    ensures var o := Step(reg, g, rank, executed, n, false);
      && (o.result.Ok? <==> Reach(g, rank, n) <= reg.Keys)
      && NoDup(o.seg) && DepsFirst(g, {}, o.seg) && Elems(o.seg) <= Reach(g, rank, n) * reg.Keys
      && (o.result.Ok? ==>
            && o.result == Ok(Some(reg[n]))
            && o.executed == Reach(g, rank, n)
            && Elems(o.seg) == Reach(g, rank, n)
            && o.seg != [] && o.seg[|o.seg| - 1] == n)
      && (o.result.Err? ==> o.result.error.KeyError? && o.result.error.key in Reach(g, rank, n) - reg.Keys)
  {
    TopLevelForgets(reg, g, rank, executed, n);
    StepAccounted(reg, g, rank, {}, n);
    NestedRun(reg, g, rank, {}, n);
  }

  /** A name occurring once in a sequence without repetitions counts once. */
  lemma {:induction false} NoDupCount(s: seq<string>, x: string)
    requires NoDup(s) && x in s
    ensures multiset(s)[x] == 1
  {
    var init, last := s[..|s| - 1], s[|s| - 1];
    assert s == init + [last];
    assert NoDup(init);
    if x == last {
      assert x !in init;
    } else {
      NoDupCount(init, x);
    }
  }

  /** Running the same step twice at top level repeats the whole run: the
      second call starts from a cleared executed set, so every reachable body
      is invoked again and each appears twice more in the trace. */
  lemma RerunRepeatsEverything(reg: map<string, BodyId>, g: map<string, seq<string>>, rank: map<string, nat>,
                               executed: set<string>, n: string, trace: seq<string>)
    requires Ranked(g, rank)
    ensures var o1 := Step(reg, g, rank, executed, n, false);
            var o2 := Step(reg, g, rank, o1.executed, n, false);
      && o2 == o1
      && (o1.result.Ok? ==>
            forall x | x in Reach(g, rank, n) :: multiset(trace + o1.seg + o2.seg)[x] == multiset(trace)[x] + 2)
  {
    var o1 := Step(reg, g, rank, executed, n, false);
    TopLevelForgets(reg, g, rank, executed, n);
    TopLevelForgets(reg, g, rank, o1.executed, n);
    TopLevelRun(reg, g, rank, executed, n);
    if o1.result.Ok? {
      forall x | x in Reach(g, rank, n)
        ensures multiset(trace + o1.seg + o1.seg)[x] == multiset(trace)[x] + 2
      {
        assert x in Elems(o1.seg);
        NoDupCount(o1.seg, x);
      }
    }
  }
}
