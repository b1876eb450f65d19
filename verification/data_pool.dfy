/**
 * The data pool of an experiment (`AbstractPhyExp` in framework.py): a flat
 * map from key to value that steps read and write, the loader's nested record
 * that is flattened into it, and the `INFO` annotations stripped from that
 * record before it is flattened.
 */
module DataPool {
  import opened Wrappers

  /** The key that marks a human-readable annotation in a data record. */
  const INFO_KEY: string := "INFO"

  /** A scalar as the loader hands it over. Floats are abstracted as reals; text
      stands for annotations and for list entries not yet converted to numbers. */
  datatype Scalar = Int(i: int) | Real(r: real) | Text(s: string)

  /** A pool value: a scalar or a list of scalars, never a dictionary. */
  datatype Value = Scalar(scalar: Scalar) | List(items: seq<Scalar>)

  /** A loaded record: a dictionary whose values are leaves or dictionaries.
      Entries keep the dictionary's iteration order, which decides which write
      wins when the record is flattened. */
  datatype Node = Leaf(value: Value) | Dict(entries: seq<Entry>)
  datatype Entry = Entry(key: string, node: Node)

  // ---------------------------------------------------------------------------
  // clean_info_in_dicts
  // ---------------------------------------------------------------------------

  /** The record with every `INFO` entry removed, at every nesting level. */
  function StripInfo(es: seq<Entry>): (r: seq<Entry>)
    decreases es
  {
    if es == [] then []
    else
      var rest := StripInfo(es[..|es| - 1]);
      var e := es[|es| - 1];
      if e.key == INFO_KEY then rest else rest + [Entry(e.key, StripNode(e.node))]
  }

  function StripNode(n: Node): (r: Node)
    decreases n
  {
    match n
    case Leaf(_) => n
    case Dict(es) => Dict(StripInfo(es))
  }

  /** No `INFO` key occurs anywhere in the record. */
  ghost predicate NoInfo(es: seq<Entry>)
    decreases es
  {
    forall i | 0 <= i < |es| :: es[i].key != INFO_KEY && NoInfoNode(es[i].node)
  }

  ghost predicate NoInfoNode(n: Node)
    decreases n
  {
    n.Dict? ==> NoInfo(n.entries)
  }

  /** The keys at the top level of a record. */
  function KeysOf(es: seq<Entry>): (r: set<string>)
  {
    set e | e in es :: e.key
  }

  /** After cleaning, no level of the record holds an `INFO` key. */
  lemma {:induction false} StripInfoRemovesInfo(es: seq<Entry>)
    ensures NoInfo(StripInfo(es))
    decreases es
  {
    if es != [] {
      var e := es[|es| - 1];
      StripInfoRemovesInfo(es[..|es| - 1]);
      StripNodeRemovesInfo(e.node);
    }
  }

  lemma {:induction false} StripNodeRemovesInfo(n: Node)
    ensures NoInfoNode(StripNode(n))
    decreases n
  {
    if n.Dict? {
      StripInfoRemovesInfo(n.entries);
    }
  }

  /** Cleaning touches nothing but `INFO` entries: a record without any is
      returned exactly as it was. */
  lemma {:induction false} StripInfoKeepsCleanRecord(es: seq<Entry>)
    requires NoInfo(es)
    ensures StripInfo(es) == es
    decreases es
  {
    if es != [] {
      var init := es[..|es| - 1];
      var e := es[|es| - 1];
      assert NoInfo(init) by {
        forall i | 0 <= i < |init|
          ensures init[i].key != INFO_KEY && NoInfoNode(init[i].node)
        {
          assert init[i] == es[i];
        }
      }
      StripInfoKeepsCleanRecord(init);
      StripNodeKeepsCleanNode(e.node);
      assert init + [e] == es;
    }
  }

  lemma {:induction false} StripNodeKeepsCleanNode(n: Node)
    requires NoInfoNode(n)
    ensures StripNode(n) == n
    decreases n
  {
    if n.Dict? {
      StripInfoKeepsCleanRecord(n.entries);
    }
  }

  /** Cleaning touches nothing but `INFO` entries, on every record: each other
      entry survives with its key and its cleaned value, and every entry of the
      result is such a survivor. */
  lemma {:induction false} StripInfoEntries(es: seq<Entry>)
    ensures forall e | e in es && e.key != INFO_KEY :: Entry(e.key, StripNode(e.node)) in StripInfo(es)
    ensures forall x | x in StripInfo(es) :: exists e | e in es :: e.key != INFO_KEY && x == Entry(e.key, StripNode(e.node))
    decreases es
  {
    if es != [] {
      StripInfoEntries(es[..|es| - 1]);
      assert es == es[..|es| - 1] + [es[|es| - 1]];
    }
  }

  /** Cleaning never adds entries: no survivor appears twice. */
  lemma {:induction false} StripInfoLength(es: seq<Entry>)
    ensures |StripInfo(es)| <= |es|
    decreases es
  {
    if es != [] {
      StripInfoLength(es[..|es| - 1]);
    }
  }

  /** Cleaning keeps the order of the surviving entries: a record cleans
      piece by piece. */
  lemma {:induction false} StripInfoAppend(a: seq<Entry>, b: seq<Entry>)
    ensures StripInfo(a + b) == StripInfo(a) + StripInfo(b)
    decreases b
  {
    if b == [] {
      assert a + b == a;
    } else {
      var init := b[..|b| - 1];
      var e := b[|b| - 1];
      assert (a + b)[..|a + b| - 1] == a + init;
      assert (a + b)[|a + b| - 1] == e;
      StripInfoAppend(a, init);
      if e.key != INFO_KEY {
        var x := Entry(e.key, StripNode(e.node));
        assert StripInfo(a) + StripInfo(init) + [x] == StripInfo(a) + (StripInfo(init) + [x]);
      }
    }
  }

  /** Cleaning twice is cleaning once. */
  lemma StripInfoIdempotent(es: seq<Entry>)
    ensures StripInfo(StripInfo(es)) == StripInfo(es)
  {
    StripInfoRemovesInfo(es);
    StripInfoKeepsCleanRecord(StripInfo(es));
  }

  /** At the top level, exactly the `INFO` key disappears; every other key stays. */
  lemma {:induction false} StripInfoKeys(es: seq<Entry>)
    ensures KeysOf(StripInfo(es)) == KeysOf(es) - {INFO_KEY}
    decreases es
  {
    if es != [] {
      var init := es[..|es| - 1];
      var e := es[|es| - 1];
      StripInfoKeys(init);
      assert es == init + [e];
      assert KeysOf(es) == KeysOf(init) + {e.key};
      if e.key != INFO_KEY {
        var s := StripInfo(init);
        assert KeysOf(s + [Entry(e.key, StripNode(e.node))]) == KeysOf(s) + {e.key};
      }
    }
  }

  // ---------------------------------------------------------------------------
  // push_data_to_pool
  // ---------------------------------------------------------------------------

  /** The pool after storing every leaf of the record, dictionary by dictionary,
      in iteration order. */
  function Pushed(pool: map<string, Value>, es: seq<Entry>): (r: map<string, Value>)
    decreases es
  {
    if es == [] then pool
    else PushEntry(Pushed(pool, es[..|es| - 1]), es[|es| - 1])
  }

  function PushEntry(pool: map<string, Value>, e: Entry): (r: map<string, Value>)
    decreases e
  {
    match e.node
    case Leaf(v) => pool[e.key := v]
    case Dict(inner) => Pushed(pool, inner)
  }

  /** Reference view of flattening: the record's leaves, in the order a
      depth-first, left-to-right walk meets them. */
  function Leaves(es: seq<Entry>): (r: seq<(string, Value)>)
    decreases es
  {
    if es == [] then []
    else Leaves(es[..|es| - 1]) + EntryLeaves(es[|es| - 1])
  }

  function EntryLeaves(e: Entry): (r: seq<(string, Value)>)
    decreases e
  {
    match e.node
    case Leaf(v) => [(e.key, v)]
    case Dict(inner) => Leaves(inner)
  }

  /** The keys that label a leaf somewhere in the record. */
  function LeafKeys(es: seq<Entry>): (r: set<string>)
  {
    set l | l in Leaves(es) :: l.0
  }

  /** Reference view of writing: plain key assignments, one after the other. */
  function Assign(pool: map<string, Value>, ls: seq<(string, Value)>): (r: map<string, Value>)
  {
    if ls == [] then pool
    else Assign(pool, ls[..|ls| - 1])[ls[|ls| - 1].0 := ls[|ls| - 1].1]
  }

  lemma {:induction false} AssignAppend(pool: map<string, Value>, a: seq<(string, Value)>, b: seq<(string, Value)>)
    ensures Assign(pool, a + b) == Assign(Assign(pool, a), b)
    decreases |b|
  {
    if b != [] {
      var b' := b[..|b| - 1];
      assert (a + b)[..|a + b| - 1] == a + b';
      AssignAppend(pool, a, b');
    } else {
      assert a + b == a;
    }
  }

  /** Flattening a record into the pool is the same as assigning its leaves in
      walk order. */
  lemma {:induction false} PushedIsAssignOfLeaves(pool: map<string, Value>, es: seq<Entry>)
    ensures Pushed(pool, es) == Assign(pool, Leaves(es))
    decreases es
  {
    if es != [] {
      var init := es[..|es| - 1];
      var e := es[|es| - 1];
      PushedIsAssignOfLeaves(pool, init);
      PushEntryIsAssign(Pushed(pool, init), e);
      AssignAppend(pool, Leaves(init), EntryLeaves(e));
    }
  }

  lemma {:induction false} PushEntryIsAssign(pool: map<string, Value>, e: Entry)
    ensures PushEntry(pool, e) == Assign(pool, EntryLeaves(e))
    decreases e
  {
    match e.node
    case Leaf(v) =>
      assert [(e.key, v)][..0] == [];
    case Dict(inner) =>
      PushedIsAssignOfLeaves(pool, inner);
  }

  /** Assignments write exactly their own keys and leave every other key alone. */
  lemma {:induction false} AssignKeys(pool: map<string, Value>, ls: seq<(string, Value)>)
    ensures Assign(pool, ls).Keys == pool.Keys + set l | l in ls :: l.0
    ensures forall k | k in pool && (forall i | 0 <= i < |ls| :: ls[i].0 != k) :: Assign(pool, ls)[k] == pool[k]
    decreases |ls|
  {
    if ls != [] {
      var init := ls[..|ls| - 1];
      AssignKeys(pool, init);
      assert ls == init + [ls[|ls| - 1]];
      assert (set l | l in ls :: l.0) == (set l | l in init :: l.0) + {ls[|ls| - 1].0};
      forall k | k in pool && (forall i | 0 <= i < |ls| :: ls[i].0 != k)
        ensures Assign(pool, ls)[k] == pool[k]
      {
        forall i | 0 <= i < |init| ensures init[i].0 != k {
          assert init[i] == ls[i];
        }
      }
    }
  }

  /** The last assignment to a key decides its value. */
  lemma {:induction false} AssignLastWins(pool: map<string, Value>, ls: seq<(string, Value)>, j: nat)
    requires j < |ls|
    requires forall i | j < i < |ls| :: ls[i].0 != ls[j].0
    ensures ls[j].0 in Assign(pool, ls) && Assign(pool, ls)[ls[j].0] == ls[j].1
    decreases |ls|
  {
    if j < |ls| - 1 {
      var init := ls[..|ls| - 1];
      assert init[j] == ls[j];
      forall i | j < i < |init| ensures init[i].0 != init[j].0 {
        assert init[i] == ls[i];
      }
      AssignLastWins(pool, init, j);
    }
  }

  /** Flattening stores every leaf key, keeps every key the pool already had,
      and stores nothing else: a key that only names a dictionary is never stored. */
  lemma PushedKeys(pool: map<string, Value>, es: seq<Entry>)
    ensures Pushed(pool, es).Keys == pool.Keys + LeafKeys(es)
  {
    PushedIsAssignOfLeaves(pool, es);
    AssignKeys(pool, Leaves(es));
  }

  /** Last writer wins: a leaf that no later leaf (in walk order) overwrites is
      what the pool holds for its key afterwards. */
  lemma PushedLastLeafWins(pool: map<string, Value>, es: seq<Entry>, j: nat)
    requires j < |Leaves(es)|
    requires forall i | j < i < |Leaves(es)| :: Leaves(es)[i].0 != Leaves(es)[j].0
    ensures Leaves(es)[j].0 in Pushed(pool, es)
    ensures Pushed(pool, es)[Leaves(es)[j].0] == Leaves(es)[j].1
  {
    PushedIsAssignOfLeaves(pool, es);
    AssignLastWins(pool, Leaves(es), j);
  }

  /** A key that labels no leaf of the record keeps its old value. */
  lemma PushedKeepsOtherKeys(pool: map<string, Value>, es: seq<Entry>, k: string)
    requires k in pool && k !in LeafKeys(es)
    ensures k in Pushed(pool, es) && Pushed(pool, es)[k] == pool[k]
  {
    PushedIsAssignOfLeaves(pool, es);
    AssignKeys(pool, Leaves(es));
    var ls := Leaves(es);
    forall i | 0 <= i < |ls| ensures ls[i].0 != k {
      assert ls[i] in ls;
    }
  }

  /** No leaf of a record without `INFO` keys is labelled `INFO`. */
  lemma {:induction false} NoInfoLeaves(es: seq<Entry>)
    requires NoInfo(es)
    ensures INFO_KEY !in LeafKeys(es)
    decreases es
  {
    if es != [] {
      var init := es[..|es| - 1];
      var e := es[|es| - 1];
      assert NoInfo(init) by {
        forall i | 0 <= i < |init|
          ensures init[i].key != INFO_KEY && NoInfoNode(init[i].node)
        {
          assert init[i] == es[i];
        }
      }
      NoInfoLeaves(init);
      if e.node.Dict? {
        NoInfoLeaves(e.node.entries);
      }
      assert Leaves(es) == Leaves(init) + EntryLeaves(e);
      assert LeafKeys(es) == LeafKeys(init) + set l | l in EntryLeaves(e) :: l.0;
    }
  }

  /** Loading cleans before it flattens, so an annotation never reaches the pool:
      `INFO` is in the pool afterwards only if it was there before. */
  lemma InfoNeverReachesPool(pool: map<string, Value>, es: seq<Entry>)
    ensures INFO_KEY in Pushed(pool, StripInfo(es)) <==> INFO_KEY in pool
  {
    StripInfoRemovesInfo(es);
    NoInfoLeaves(StripInfo(es));
    PushedKeys(pool, StripInfo(es));
  }

  // ---------------------------------------------------------------------------
  // The experiment object that owns the pool
  // ---------------------------------------------------------------------------

  /** An experiment instance, reduced to its data pool. */
  class PhyExp {
    var dataPool: map<string, Value>

    constructor ()
      ensures dataPool == map[]
    {
      dataPool := map[];
    }

    /** Reads `target` from the pool. A missing key falls back to `default`:
        `Some(v)` is a producer that returns `v`; `None`, the default default,
        is `raise_`, which raises a bare RuntimeError. The pool is only read. */
    function GetDataFromPool(target: string, default: Option<Value> := None): (r: Result<Value>)
      reads this
      ensures r.Ok? <==> target in dataPool || default.Some?
      ensures target in dataPool ==> r.value == dataPool[target]
      ensures target !in dataPool && default.Some? ==> r.value == default.value
      ensures r.Err? ==> r.error == RuntimeError("")
    {
      if target !in dataPool then
        match default
        case Some(v) => Ok(v)
        case None => Err(RuntimeError(""))
      else Ok(dataPool[target])
    }

    /** Removes the `INFO` entry from the record and from every dictionary
        nested in it; nothing else changes. */
    method CleanInfoInDicts(target: seq<Entry>) returns (cleaned: seq<Entry>)
      ensures cleaned == StripInfo(target)
      decreases target
    {
      cleaned := [];
      for i := 0 to |target|
        invariant cleaned == StripInfo(target[..i])
      {
        var e := target[i];
        assert target[..i + 1][..i] == target[..i];
        if e.key != INFO_KEY {
          var node := e.node;
          if node.Dict? {
            var inner := CleanInfoInDicts(node.entries);
            node := Dict(inner);
          }
          cleaned := cleaned + [Entry(e.key, node)];
        }
      }
      assert target[..|target|] == target;
    }

    /** Stores every leaf of the record under its own key, descending into
        nested dictionaries; a later write to a key replaces an earlier one. */
    method PushDataToPool(target: seq<Entry>)
      modifies this
      ensures dataPool == Pushed(old(dataPool), target)
      decreases target
    {
      for i := 0 to |target|
        invariant dataPool == Pushed(old(dataPool), target[..i])
      {
        var e := target[i];
        assert target[..i + 1][..i] == target[..i];
        match e.node
        case Dict(inner) =>
          PushDataToPool(inner);
        case Leaf(v) =>
          dataPool := dataPool[e.key := v];
      }
      assert target[..|target|] == target;
    }
  }

  /** Reading back after a flatten returns the last leaf written under a key,
      whatever default the reader supplies. */
  lemma ReadAfterPush(exp: PhyExp, pool: map<string, Value>, es: seq<Entry>, j: nat, default: Option<Value>)
    requires exp.dataPool == Pushed(pool, es)
    requires j < |Leaves(es)|
    requires forall i | j < i < |Leaves(es)| :: Leaves(es)[i].0 != Leaves(es)[j].0
    ensures exp.GetDataFromPool(Leaves(es)[j].0, default) == Ok(Leaves(es)[j].1)
  {
    PushedLastLeafWins(pool, es, j);
  }
}
