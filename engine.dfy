/** Model of engine.go: the lifecycle dispatch over the registered systems.
    Each dispatch returns the calls it issues, in order, as a trace; the
    systems' own Setup, Process and Teardown bodies are outside the model. */
module EcsEngine {
  import opened EcsEntityManager
  import opened EcsSystemManager

  /** One call the engine issues, naming the system by its position in the
      registered list. Process also records the entity manager it was handed. */
  datatype Call =
    | SetupCall(index: nat)
    | ProcessCall(index: nat, manager: EntityManager)
    | TeardownCall(index: nat)

  /** The calls one Run issues: Process on every system whose name is not
      paused, in list order. */
  function RunTrace(ss: seq<System>, flags: map<string, bool>, em: EntityManager): seq<Call>
    decreases |ss|
  {
    if ss == [] then []
    else
      var i := |ss| - 1;
      RunTrace(ss[..i], flags, em) + (if IsPaused(flags, ss[i].name) then [] else [ProcessCall(i, em)])
  }

  /** Run issues only Process calls, all with the shared manager, at strictly
      increasing positions (so each system at most once), and reaches a system
      exactly when its name is not paused. */
  lemma {:induction false} RunTraceSchedule(ss: seq<System>, flags: map<string, bool>, em: EntityManager)
    ensures forall k :: 0 <= k < |RunTrace(ss, flags, em)| ==>
      RunTrace(ss, flags, em)[k].ProcessCall? &&
      RunTrace(ss, flags, em)[k].manager == em &&
      RunTrace(ss, flags, em)[k].index < |ss| &&
      !IsPaused(flags, ss[RunTrace(ss, flags, em)[k].index].name)
    ensures forall k, l :: 0 <= k < l < |RunTrace(ss, flags, em)| ==>
      RunTrace(ss, flags, em)[k].index < RunTrace(ss, flags, em)[l].index
    ensures forall i :: 0 <= i < |ss| ==>
      (ProcessCall(i, em) in RunTrace(ss, flags, em) <==> !IsPaused(flags, ss[i].name))
    decreases |ss|
  {
    if ss != [] {
      var i := |ss| - 1;
      var init := ss[..i];
      RunTraceSchedule(init, flags, em);
      var t0 := RunTrace(init, flags, em);
      var t := RunTrace(ss, flags, em);
      assert forall j :: 0 <= j < i ==> init[j] == ss[j];
      forall j | 0 <= j < |ss|
        ensures ProcessCall(j, em) in t <==> !IsPaused(flags, ss[j].name)
      {
        if j < i {
          assert ProcessCall(j, em) != ProcessCall(i, em);
          assert ProcessCall(j, em) in t <==> ProcessCall(j, em) in t0;
        } else {
          assert forall k :: 0 <= k < |t0| ==> t0[k].index < i;
          assert ProcessCall(i, em) !in t0;
        }
      }
    }
  }

  /** Systems that share a name share one flag: Run calls either all or none of them. */
  lemma SharedNameSharedFlag(ss: seq<System>, flags: map<string, bool>, em: EntityManager, i: nat, j: nat)
    requires i < |ss| && j < |ss| && ss[i].name == ss[j].name
    ensures ProcessCall(i, em) in RunTrace(ss, flags, em) <==> ProcessCall(j, em) in RunTrace(ss, flags, em)
  {
    RunTraceSchedule(ss, flags, em);
  }

  /** After pausing `n`, Run skips every system named `n` and still calls
      every other system exactly as before. */
  lemma PausedNameSkipped(ss: seq<System>, flags: map<string, bool>, em: EntityManager, n: string)
    ensures forall i :: 0 <= i < |ss| && ss[i].name == n ==>
      ProcessCall(i, em) !in RunTrace(ss, flags[n := true], em)
    ensures forall i :: 0 <= i < |ss| && ss[i].name != n ==>
      (ProcessCall(i, em) in RunTrace(ss, flags[n := true], em) <==>
       ProcessCall(i, em) in RunTrace(ss, flags, em))
  {
    RunTraceSchedule(ss, flags[n := true], em);
    RunTraceSchedule(ss, flags, em);
  }

  /** The Go Engine: one entity manager and one system manager, fixed at construction. */
  class Engine {
    const entityManager: EntityManager
    const systemManager: SystemManager

    /** NewEngine. */
    constructor (entityManager: EntityManager, systemManager: SystemManager)
      ensures this.entityManager == entityManager && this.systemManager == systemManager
    {
      this.entityManager := entityManager;
      this.systemManager := systemManager;
    }

    /** One tick: Process on every system whose name is not paused, in list order. */
    method Run() returns (calls: seq<Call>)
      ensures calls == RunTrace(systemManager.systems, systemManager.isPaused, entityManager)
      ensures forall k :: 0 <= k < |calls| ==>
        calls[k].ProcessCall? && calls[k].manager == entityManager &&
        calls[k].index < |systemManager.systems|
      ensures forall i :: 0 <= i < |systemManager.systems| ==>
        (ProcessCall(i, entityManager) in calls <==>
         !IsPaused(systemManager.isPaused, systemManager.systems[i].name))
      ensures forall k, l :: 0 <= k < l < |calls| ==> calls[k].index < calls[l].index
    {
      var ss := systemManager.systems;
      calls := [];
      for i := 0 to |ss|
        invariant calls == RunTrace(ss[..i], systemManager.isPaused, entityManager)
      {
        assert ss[..i + 1][..i] == ss[..i];
        if !IsPaused(systemManager.isPaused, ss[i].name) {
          calls := calls + [ProcessCall(i, entityManager)];
        }
      }
      assert ss[..|ss|] == ss;
      RunTraceSchedule(ss, systemManager.isPaused, entityManager);
    }

    /** Setup on every system exactly once, in list order, paused or not. */
    method Setup() returns (calls: seq<Call>)
      ensures |calls| == |systemManager.systems|
      ensures forall i :: 0 <= i < |calls| ==> calls[i] == SetupCall(i)
    {
      calls := [];
      for i := 0 to |systemManager.systems|
        invariant |calls| == i
        invariant forall j :: 0 <= j < i ==> calls[j] == SetupCall(j)
      {
        calls := calls + [SetupCall(i)];
      }
    }

    /** Teardown on every system exactly once, in list order, paused or not. */
    method Teardown() returns (calls: seq<Call>)
      ensures |calls| == |systemManager.systems|
      ensures forall i :: 0 <= i < |calls| ==> calls[i] == TeardownCall(i)
    {
      calls := [];
      for i := 0 to |systemManager.systems|
        invariant |calls| == i
        invariant forall j :: 0 <= j < i ==> calls[j] == TeardownCall(j)
      {
        calls := calls + [TeardownCall(i)];
      }
    }

    /** Delegates to SystemManager.Pause: the next Run skips every system named `n`. */
    method PauseSystem(n: string)
      modifies systemManager`isPaused
      ensures systemManager.isPaused == old(systemManager.isPaused)[n := true]
      ensures forall i :: 0 <= i < |systemManager.systems| && systemManager.systems[i].name == n ==>
        ProcessCall(i, entityManager) !in RunTrace(systemManager.systems, systemManager.isPaused, entityManager)
    {
      systemManager.Pause(n);
      PausedNameSkipped(systemManager.systems, old(systemManager.isPaused), entityManager, n);
    }
  }
}
