# ECS runtime core, modelled in Dafny

This project models the Entity-Component-System runtime of the `ecs` Go package
and proves properties of that model:

- **Entity** (`entity.dfy`, module `EcsEntity`): a class holding a component map
  keyed by component name, plus a name and an ID fixed at creation. `Has` and
  `Get` are map lookups. `Add` stores each argument under its own name, in order,
  so a later argument overwrites an earlier one with the same name.
- **EntityManager** (`entity_manager.dfy`, module `EcsEntityManager`): the ordered
  entity list and the ID counter. `NewEntity` takes the next ID and appends.
  `FilterBy` is the nested counting loop. `Get` is a first-match scan by name.
  `Remove` deletes the first entity whose name equals the argument's name.
- **SystemManager** (`system_manager.dfy`, module `EcsSystemManager`): an
  append-only list of systems and a name → paused map.
- **Engine** (`engine.dfy`, module `EcsEngine`): `Setup`, `Run` and `Teardown`
  dispatch over the system list in order. Each returns the calls it issues as a
  trace of `SetupCall(i)`, `ProcessCall(i, manager)` or `TeardownCall(i)`, where
  `i` is the system's position in the list.
- `scenarios.dfy` (module `EcsScenarios`) replays the tests in
  entity_manager_test.go and system_manager_test.go as client code that uses
  only the contracts, and adds scenarios for name-based removal, empty filters
  and pausing.

The central proof concerns `FilterBy`. The Go code counts, for every requested
name, the stored components reporting that name. It keeps the entity when the
count equals the number of requested names. `FilteredIsSelected` proves that this
count test keeps exactly the entities holding every requested name as a key.
The proof needs the invariant that each key equals its component's name, which
`Add` preserves. `CountingNeedsKeysMatchNames` shows a map without that
invariant on which the count is fooled.

The model follows the code where one might expect otherwise:

- Entities have no tags and no component removal.
- `SystemManager.Add` appends a system even when its name is already registered.
  Systems that share a name therefore share one pause flag.
- `Pause` and `Resume` on an unknown name insert a key into the flag map.

## Model

| member | source | states |
|---|---|---|
| `EcsEntity.Entity.constructor` | entity_manager.go:19 | a new entity has no components and the given name and ID |
| `EcsEntity.Entity.Has` | entity.go:18-24 | true iff the name is a key; under the key/name invariant, iff some stored component reports that name |
| `EcsEntity.Entity.Get` | entity.go:26-33 | Some(stored component) exactly when `Has` holds, None otherwise; never fails; under the invariant the result reports the requested name |
| `EcsEntity.Entity.Add` | entity.go:36-40 | the new map is the old one with each argument stored under its name in argument order; the keys grow by exactly the added names; the key/name invariant is preserved; name and ID cannot change |
| `EcsEntity.StoredKeys` | entity.go:36-40 | after Add, the keys are the old keys plus the names of the added components |
| `EcsEntity.StoredLastWins` | entity.go:37-38 | when several arguments share a name, the last one in argument order is stored |
| `EcsEntity.StoredUntouched` | entity.go:36-40 | an entry whose key is no added component's name keeps its presence and value |
| `EcsEntity.StoredKeepsKeysMatchNames` | entity.go:38 | Add preserves "each key equals the name of the component stored under it" |
| `EcsEntity.StoredConcat` | entity.go:36-40 | Add(a) then Add(b) gives the same map as Add(a + b) |
| `EcsEntity.SecondSameNamedWins` | entity.go:38 | adding two same-named components, in one call or two, leaves one entry for that name holding the second |
| `EcsEntityManager.EntityManager.constructor` | entity_manager.go:11-15 | a fresh manager has no entities and counter 0 |
| `EcsEntityManager.EntityManager.NewEntity` | entity_manager.go:18-22 | appends exactly one fresh entity with the given name and no components; its ID is the old counter plus one and exceeds every existing ID; earlier entities are unchanged; the ID invariant is kept |
| `EcsEntityManager.EntityManager.GetNextID` | entity_manager.go:24-27 | increments the counter and returns its new value |
| `EcsEntityManager.EntityManager.Add` | entity_manager.go:30-32 | appends the entity at the end of the list |
| `EcsEntityManager.EntityManager.Entities` | entity_manager.go:35-37 | returns the entity list in creation order and changes nothing |
| `EcsEntityManager.EntityManager.FilterBy` | entity_manager.go:40-58 | the result is the counting filter over the list; it is a subsequence in list order; with no names it is the whole list; under the key/name invariant it is exactly the entities holding every requested name |
| `EcsEntityManager.CountFor` | entity_manager.go:42-51 | the middle loop's count equals the sum over requested names, duplicates included, of the components reporting each name |
| `EcsEntityManager.CountNamed` | entity_manager.go:46-50 | the innermost loop visits every stored component once, in any order, and counts those reporting the name |
| `EcsEntityManager.NameCountUnderKeysMatch` | entity.go:38 | under the key/name invariant a name is counted once when it is a key and zero times otherwise |
| `EcsEntityManager.CountAllUnderKeysMatch` | entity_manager.go:42-55 | under the invariant the count never exceeds the number of requested names and equals it iff every requested name is a key |
| `EcsEntityManager.CountingNeedsKeysMatchNames` | entity_manager.go:45-53 | without the invariant, two keys holding components named "b" satisfy the count for ("b", "c") although "c" is absent |
| `EcsEntityManager.FilteredIsSelected` | entity_manager.go:40-58 | under the invariant the counting filter equals the filter "every requested name is a key" |
| `EcsEntityManager.FilteredIsSubsequence` | entity_manager.go:41-56 | the filter result keeps list order and contains only listed entities |
| `EcsEntityManager.FilteredNoNames` | entity_manager.go:43-53 | with no requested names every entity passes |
| `EcsEntityManager.EntityManager.Get` | entity_manager.go:61-68 | returns the entity at the first position whose name matches, or null exactly when no name matches |
| `EcsEntityManager.FirstIndexOf` | entity_manager.go:62-66 | the position found is the first with the name, or the list length when none has it |
| `EcsEntityManager.EntityManager.Remove` | entity_manager.go:71-80 | the list loses only the first entity named like the argument, survivors keep their order, the counter is untouched, the ID invariant is kept |
| `EcsEntityManager.RemovedShape` | entity_manager.go:71-80 | removal shortens the list by one when a name matches and is a no-op otherwise; the result is a subsequence of the old list |
| `EcsEntityManager.RemovedKeepsIdsIncreasing` | entity_manager.go:74-76 | removal keeps IDs strictly increasing along the list; together with NewEntity's ID above every existing one and Remove's frame, which leaves the counter alone, no ID is handed out twice |
| `EcsSystemManager.System.constructor` | system_manager_test.go:16-20 | a system is known by the name it reports |
| `EcsSystemManager.SystemManager.constructor` | system_manager.go:10-15 | a fresh manager has no systems and an empty flag map |
| `EcsSystemManager.SystemManager.Add` | system_manager.go:18-23 | appends the systems in argument order, duplicate names kept; each added name's flag becomes false |
| `EcsSystemManager.RegisteredOverrides` | system_manager.go:19-22 | registering equals overriding the old flags with false for every added name, resetting a paused name |
| `EcsSystemManager.RegisteredFlags` | system_manager.go:21 | after Add every added name is present and not paused; every other name keeps its old flag |
| `EcsSystemManager.SystemManager.Pause` | system_manager.go:25-27 | sets the flag of the name, even one no system has; the list and other flags are unchanged |
| `EcsSystemManager.SystemManager.Resume` | system_manager.go:29-31 | clears the flag of the name; the list and other flags are unchanged |
| `EcsSystemManager.SystemManager.Systems` | system_manager.go:34-36 | returns the stored list and flag map and changes nothing |
| `EcsEngine.Engine.constructor` | engine.go:11-16 | the engine holds the given entity and system managers |
| `EcsEngine.Engine.Run` | engine.go:19-25 | only Process calls, each with the shared entity manager, in strictly increasing list order; a system is called iff its name is not paused, a missing flag meaning not paused |
| `EcsEngine.RunTraceSchedule` | engine.go:19-25 | the Run trace calls each unpaused system exactly once, in list order, and no paused one |
| `EcsEngine.SharedNameSharedFlag` | engine.go:21 | two systems with the same name are either both called or both skipped |
| `EcsEngine.PausedNameSkipped` | engine.go:21 | after pausing a name, Run skips every system with that name and treats all others as before |
| `EcsEngine.Engine.Setup` | engine.go:28-32 | Setup on every system exactly once, in list order, whatever the flags |
| `EcsEngine.Engine.Teardown` | engine.go:35-39 | Teardown on every system exactly once, in list order, whatever the flags |
| `EcsEngine.Engine.PauseSystem` | engine.go:42-44 | has exactly the effect of SystemManager.Pause, so the next Run skips every system with that name |
| `EcsScenarios.SelectsSoleHolder` | entity_manager_test.go:44-51 | an entity holding a single component is selected when filtering its list by that component's name |
| `EcsScenarios.SelectsOnlyHolder` | entity_manager_test.go:53-62 | of two entities holding different single components, filtering by the first one's name selects only it |

## Left out

- systems/rendering.go is not part of this model: window handling, drawing, input, texture loading and float geometry are foreign calls and I/O.
- The process-wide flags `ecs.ShouldEngineStop` and `ecs.ShouldEnginePause` are not part of this model; they are not declared in the modelled files.
- What a system does in `Setup`, `Process` and `Teardown` is not modelled; the engine methods return the trace of calls instead. `Process` is assumed not to change the system manager, so `Run` reads the list once where Go re-reads the flag map at each step.
- EcsEntityManager.EntityManager.NewEntity: IDs are unbounded integers; the Go `int64` counter would wrap after 2^63 entities, which is not modelled.
- Entity `Name` and `ID` are exported, assignable Go fields; the model makes them constant after creation, since no modelled code assigns them later.
- The `Components` map is an exported Go field that callers may write directly; the model keeps it a public field too, so the key/name invariant is a hypothesis of the FilterBy results rather than an enforced invariant.
- Nil arguments are not modelled: Go panics on `Remove(nil)` with a non-empty list and on a nil component or system; the model's reference and datatype parameters cannot be nil.
- A system's `Name()` is assumed to return the same string on every call.
- The unused `index []int` field of EntityManager is not modelled.
- Aliasing of the slice returned by `Entities()` and of the slice and map returned by `Systems()` is not modelled; they are returned as values.
- Go's random map iteration order in FilterBy's inner loop is modelled as an arbitrary choice of the next key; the count does not depend on it.
- The benchmarks in entity_manager_test.go are not modelled.
