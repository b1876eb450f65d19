# Dependency-ordered step execution for physics experiments

A Dafny model of the execution core of `framework.py`: the
`DependDecoratorPool` that experiment classes use to declare computation steps
with prerequisites (`@pool.depends(step1, ...)`), the `DependDecorator`
descriptor through which a step is called on an experiment instance, and the
data pool of `AbstractPhyExp` that steps read and write.

- `wrappers.dfy`: `Option`, `Result` and the two Python exceptions the code
  raises, `KeyError` and `RuntimeError`.
- `data_pool.dfy` (module `DataPool`): pool values, the nested record the
  loader produces, and the class `PhyExp` with its `dataPool` field and the
  operations `GetDataFromPool`, `CleanInfoInDicts` and `PushDataToPool`.
  The methods are proved against the functions `StripInfo` and `Pushed`.
  Their meaning is proved separately: against the reference view `Assign` of
  the record's leaves, and against the predicate `NoInfo`.
- `executor.dfy` (module `Executor`): the class `DependDecoratorPool`.
  - It has the fields `registry`, `dependencies` and `executed`, plus a ghost
    `trace` that records every step body invoked.
  - Its methods are `Register`, `Depends`, `Run` (with `ResolvePrereqs`, the
    prerequisite loop of `run`) and `Invoke`, which models an attribute
    access through the descriptor.
  - `Run` is proved against the ghost function `Step` (with `Prereqs`), the
    recursive definition of what one call of `run` does.
- `resolution.dfy` (module `Resolution`) proves what `Step` means.
  - `Step` invokes every step reachable from the target exactly once, each
    after its prerequisites.
  - It leaves exactly those names executed.
  - It fails with `KeyError` exactly when a reachable name is unregistered.
  - A top-level call forgets earlier runs, so repeating it repeats every body.
- `experiments.dfy` (module `Experiments`) holds the examples.
  - The pendulum experiment's two-step chain, driven through the class.
  - Concrete graphs for declaration order, a shared prerequisite, a missing
    prerequisite and an unknown step.

Acyclicity of the prerequisite graph is expressed by a ranking. A ghost map
`rank` must give every prerequisite a smaller rank than the step that names
it. The source does not check for cycles; on a cyclic graph it recurses
until Python's recursion limit raises RecursionError; that error is not
modelled.

The errors are the exceptions the code raises:
- An unknown step name raises Python's `KeyError` from the registry lookup.
- A pool read with no default raises a bare `RuntimeError` from `raise_`.
- Misuse of the descriptor raises `RuntimeError('DependDecorator error')`.

## Model

| member | source | states |
|---|---|---|
| DataPool.PhyExp.constructor | framework.py:23 | A new experiment has an empty pool. |
| DataPool.PhyExp.GetDataFromPool | framework.py:103-107 | Succeeds exactly when the key is present or a default is supplied. A present key yields the pool's value. An absent key yields the default's value. With no default it fails with a bare RuntimeError, the behaviour of `raise_`. The pool is only read. |
| DataPool.PhyExp.CleanInfoInDicts | framework.py:49-53 | The cleaned record is `StripInfo` of the input, computed by a loop that skips `INFO` entries and recurses into nested dictionaries. |
| DataPool.StripInfoRemovesInfo | framework.py:49-53 | After cleaning, no dictionary level of the record holds an `INFO` key. |
| DataPool.StripInfoEntries | framework.py:49-53 | On every record, cleaning touches nothing but `INFO`. Every other entry survives with its key and its cleaned value, and every entry of the result is such a survivor. |
| DataPool.StripInfoLength | framework.py:49-53 | Cleaning never makes a record longer, so no surviving entry appears twice. With `StripInfoEntries` and `StripInfoAppend` this determines the cleaned record. |
| DataPool.StripInfoAppend | framework.py:49-53 | Cleaning keeps the order of the surviving entries: cleaning a record split in two gives the two cleaned parts one after the other. |
| DataPool.StripInfoKeepsCleanRecord | framework.py:49-53 | A record without any `INFO` key is returned unchanged. |
| DataPool.StripInfoIdempotent | framework.py:49-53 | Cleaning twice equals cleaning once. |
| DataPool.StripInfoKeys | framework.py:49-53 | At the top level exactly the key `INFO` disappears and every other key stays. |
| DataPool.PhyExp.PushDataToPool | framework.py:96-101 | The new pool is `Pushed(old pool, record)`. The loop stores leaves and recurses into nested dictionaries in iteration order. |
| DataPool.PushedIsAssignOfLeaves | framework.py:96-101 | Flattening equals assigning the record's leaves one after another, in depth-first, left-to-right order. |
| DataPool.PushedKeys | framework.py:96-101 | The pool's keys afterwards are the old keys plus every leaf key. A key that only names a dictionary is never stored. |
| DataPool.PushedLastLeafWins | framework.py:96-101 | The last leaf written under a key, in walk order, is the value stored for it. |
| DataPool.PushedKeepsOtherKeys | framework.py:96-101 | A key that labels no leaf keeps its old value. |
| DataPool.InfoNeverReachesPool | framework.py:38-40 | Loading cleans before it flattens, so `INFO` is in the pool afterwards exactly when it was in before. |
| DataPool.ReadAfterPush | framework.py:96-107 | After a flatten, reading a key returns the last leaf written under it, whatever the default. |
| Executor.WithPrereqs | framework.py:126-128 | The prerequisites' names are appended, in argument order, to the step's existing list. Every other step's list is unchanged. The list is created only when there is something to append. |
| Executor.RegisteredKeeps | framework.py:124-127 | Registration adds exactly the callables' names to the registry and never changes the body of a name already present. |
| Executor.RegisteredFirstWins | framework.py:124-125 | A name gets the body of the first callable registered under it. |
| Executor.RedeclaredStep | framework.py:123-128 | Declaring a step twice keeps its first body, and its list holds both declarations' prerequisites in declaration order. |
| Executor.Bind | framework.py:153-156 | Binding succeeds exactly on an experiment instance, giving a call of the same step name with `once` false. Otherwise it fails with `RuntimeError('DependDecorator error')`. |
| Executor.RegisterKeepsPrereqsRegistered | framework.py:123-128 | Registration keeps every name in every prerequisite list registered, because each prerequisite is registered before its name is appended. |
| Executor.DependDecoratorPool.constructor | framework.py:111-114 | A new pool has an empty registry, empty dependency lists and an empty executed set, so every listed prerequisite is registered. |
| Executor.DependDecoratorPool.Register | framework.py:123-128 | The registry becomes `Registered(old, [f] + prereqs)` and the dependency map becomes `WithPrereqs(old, f, prereqs)`. This is proved through the loop that registers each prerequisite recursively. `executed` is untouched, and a pool whose listed prerequisites are all registered stays so. |
| Executor.DependDecoratorPool.Depends | framework.py:116-121 | Registers the function with its prerequisites and returns the wrapper holding that function. A pool whose listed prerequisites are all registered stays so. |
| Executor.DependDecoratorPool.Run | framework.py:130-141 | The new executed set, the invoked bodies, the returned or raised result and the dependency map all match `Step` from the old executed set. The dependency map changes only by the empty lists a `defaultdict` read creates, so it still represents the same graph and its listed prerequisites stay registered. |
| Executor.DependDecoratorPool.ReadDeps | framework.py:138 | Reading a step's list through the `defaultdict` returns its prerequisites, or none for an unknown name, and stores an empty list for a missing name. Nothing else changes. |
| Executor.DependDecoratorPool.ResolvePrereqs | framework.py:138-139 | The same relation for the prerequisite loop and `Prereqs`: nested runs in list order, stopping at the first that raises. |
| Executor.DependDecoratorPool.Invoke | framework.py:150-156 | On a non-experiment receiver it raises and leaves the pool unchanged. On an experiment it makes a top-level `Step` run of the step. Listed prerequisites stay registered. |
| Resolution.StepAccounted | framework.py:136-141 | A nested run from a closed executed set has these properties. Its invoked bodies are registered, reachable, not executed before, distinct, and each comes after its prerequisites. On success it adds exactly those names, ends with the target, and keeps the set closed. On failure the KeyError names an unregistered reachable name that was marked executed. An already executed name returns `None` and changes nothing. |
| Resolution.PrereqsAccounted | framework.py:138-139 | The same for a prerequisite list. On success every listed prerequisite is executed and the loop yields no value. |
| Resolution.NestedRun | framework.py:136-141 | A nested run succeeds exactly when every reachable name that is not yet executed is registered. Then `executed` becomes the old set plus everything reachable, and those are exactly the bodies invoked. |
| Resolution.TopLevelForgets | framework.py:133-134 | A top-level run behaves like a nested run from an empty executed set, whatever ran before. |
| Resolution.TopLevelRun | framework.py:130-141 | A top-level run succeeds exactly when everything reachable from the target is registered. It invokes every reachable body exactly once, prerequisites first and the target last. It leaves `executed` equal to the reachable set and returns the target body's result. Otherwise it raises KeyError naming an unregistered reachable step. |
| Resolution.ReachRegistered | framework.py:123-141 | When every listed prerequisite is registered, every name reachable from a step, other than the step itself, is registered. |
| Resolution.DeclaredPoolRun | framework.py:123-141 | On a pool whose lists name only registered steps, which is every pool `register` builds, a top-level run returns the target's result when the target is registered, and otherwise raises KeyError for the target. |
| Resolution.RerunRepeatsEverything | framework.py:133-141 | A second top-level run behaves exactly like the first. After two successful runs, each reachable step appears twice more in the trace. |
| Experiments.DeclarePendulum | experiments.py:7-33 | Declaring `step1_calculate_g`, then `step2_average` with `step1_calculate_g` as prerequisite, leaves a registry of the two bodies and a graph where `step2_average` needs `step1_calculate_g`. The first registration of `step1_calculate_g` keeps its body, every listed prerequisite is registered, and nothing has run yet. |
| Experiments.PendulumExample | experiments.py:17-33 | On the declared pool, running `step2_average` twice through an experiment invokes both steps twice, prerequisite first, and returns the same result both times. Afterwards both names are executed and the dependency map also holds the empty list read for `step1_calculate_g`. Access through a non-experiment raises `RuntimeError('DependDecorator error')`. |
| Experiments.PendulumRun | experiments.py:17-33 | From any executed set, a top-level run of `step2_average` invokes `step1_calculate_g` and then `step2_average`, and returns `step2_average`'s result. |
| Experiments.DeclarationOrder | framework.py:136-141 | For any four distinct names, take `a` with prerequisites `[b, c]`, where `c` has prerequisite `d`. A top-level run of `a` invokes `b`, `d`, `c`, `a` in that order, marks all four executed and returns `a`'s result. |
| Experiments.SharedPrerequisiteOnce | framework.py:136-141 | For any four distinct names, take `a` with prerequisites `[b, c]`, where both `b` and `c` have prerequisite `d`. A top-level run of `a` invokes `d` once, then `b`, `c` and `a`. |
| Experiments.MissingPrerequisite | framework.py:136-141 | Take a registered `a` whose prerequisite `b` is not registered. A top-level run of `a` marks `b` executed and raises KeyError for `b`. `a` is neither marked nor invoked. Such a pool lists an unregistered name, so `register` cannot build it. |
| Experiments.UnknownStep | framework.py:133-141 | A top-level run of a name that is neither registered nor in the graph raises KeyError for it. It is marked executed and its list is read, which creates an empty one. |

## Left out

- File and path handling: `__init__`'s working directory, `load_data`, `get_data_path`, `get_target_path` and `build_empty_data_json` (framework.py:19-47). These are I/O. Only the clean-then-push order of `load_data` is stated, in `InfoNeverReachesPool`.
- Number validation: `check_data`, `check_float` and `check_list_float` (framework.py:55-94). They depend on Python's `float()` parsing. Scalars are abstract integers, reals or text.
- JSON values other than a scalar or a list of scalars. A list holding a dictionary or another list, `null` and booleans cannot be written in the model. The source does not clean inside lists (framework.py:51-53 recurses only into dictionary values), so it leaves `INFO` inside a dictionary that sits in a list, and the pool then stores that list whole. `StripInfoRemovesInfo` and `InfoNeverReachesPool` speak only about the records the model can write.
- The `[WARN ]` print in `get_data_from_pool` (framework.py:105). It is output only.
- The `*args` forwarded through the descriptor into `run` (framework.py:130, 151, 156). They are accepted but never reach a body.
- The `instance` argument of `run`. Step bodies are opaque: a body's invocation is recorded in the ghost trace and its result is the body's identity. What a body computes or writes to the pool is not modelled. Nor is a body that raises, or one that calls another step through its attribute (which would start a nested top-level run).
- The physics formulas of experiments.py. Only the pendulum's decorator wiring is modelled.
- Executor.DependDecoratorPool.Run: requires an acyclic graph, given by a ranking, because on a cyclic graph the source recurses until Python's recursion limit raises RecursionError; that error is not modelled.
- Executor.DependDecoratorPool.Invoke: has the same acyclicity requirement as `Run`.
- Executor.DependDecoratorPool.Run: the `dependencies` map is related to the graph `g` that `Step` follows. The caller passes `g` as a ghost argument, and it must equal the map up to empty lists.
- DataPool.PhyExp.GetDataFromPool: a default producer is modelled by the value it returns. A producer with side effects, or one raising anything but `raise_`'s RuntimeError, is not modelled.
- DataPool.PhyExp.CleanInfoInDicts: returns the cleaned record as a new value. The source mutates the dictionaries in place, so an alias of a nested dictionary elsewhere would see the change; that aliasing is not modelled.
- DataPool.PhyExp.CleanInfoInDicts: removes every `INFO` entry of a level. A Python dictionary holds a key at most once, so this matches `pop` on any record the loader produces.
- A `DependDecorator` wrapper registered as a prerequisite before its function is registered. The source would store the wrapper, and calling it later raises TypeError. The model treats it as another callable with its own identity. This case cannot arise while a class body's decorators all use one pool, since each decorator registers its function first.
- `DependDecorator`'s own `pool` and `__name__` attributes. The wrapper keeps only its function, and the pool is the object `Invoke` is called on.
- The `executed` set shared between instances of one experiment class. The model has one pool and runs one call at a time; there is no concurrency.
