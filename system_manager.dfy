/** Model of system_manager.go: an append-only list of systems and a map from
    system name to its pause flag. */
module EcsSystemManager {

  /** An external system, known to the core only by its name. Each object
      stands for one Go value implementing the System interface; its Setup,
      Process and Teardown bodies are outside the model. */
  class System {
    const name: string

    constructor (name: string)
      ensures this.name == name
    {
      this.name := name;
    }
  }

  /** Go reads a missing map key as false: an unknown name is not paused. */
  predicate IsPaused(flags: map<string, bool>, n: string)
  {
    n in flags && flags[n]
  }

  /** The set of names carried by `ss`. */
  function SystemNames(ss: seq<System>): set<string>
  {
    set s | s in ss :: s.name
  }

  /** The pause map after registering `ss` in order: each name is set to false. */
  function Registered(flags: map<string, bool>, ss: seq<System>): map<string, bool>
    decreases |ss|
  {
    if ss == [] then flags
    else Registered(flags, ss[..|ss| - 1])[ss[|ss| - 1].name := false]
  }

  /** Registering is the same as overriding the old map with `false` for every
      registered name, whatever the order and repetitions of the arguments. */
  lemma {:induction false} RegisteredOverrides(flags: map<string, bool>, ss: seq<System>)
    ensures Registered(flags, ss) == flags + map n | n in SystemNames(ss) :: false
    decreases |ss|
  {
    if ss != [] {
      var init := ss[..|ss| - 1];
      RegisteredOverrides(flags, init);
      assert ss == init + [ss[|ss| - 1]];
      assert SystemNames(ss) == SystemNames(init) + {ss[|ss| - 1].name};
    }
  }

  /** After registering, every added system's name is present and not paused,
      and every other name keeps its old flag. */
  lemma RegisteredFlags(flags: map<string, bool>, ss: seq<System>, n: string)
    ensures n in SystemNames(ss) ==> n in Registered(flags, ss) && !IsPaused(Registered(flags, ss), n)
    ensures n !in SystemNames(ss) ==>
      (n in Registered(flags, ss) <==> n in flags) &&
      (n in flags ==> Registered(flags, ss)[n] == flags[n])
  {
    RegisteredOverrides(flags, ss);
  }

  /** The Go SystemManager. */
  class SystemManager {
    var systems: seq<System>
    var isPaused: map<string, bool>

    /** NewSystemManager: no systems and no flags. */
    constructor ()
      ensures systems == [] && isPaused == map[]
    {
      systems := [];
      isPaused := map[];
    }

    /** Appends each system in argument order, duplicates included, and sets
        the flag of its name to false. */
    method Add(ss: seq<System>)
      modifies this
      ensures systems == old(systems) + ss
      ensures isPaused == Registered(old(isPaused), ss)
      ensures forall i :: 0 <= i < |ss| ==> ss[i].name in isPaused && !isPaused[ss[i].name]
    {
      for i := 0 to |ss|
        invariant systems == old(systems) + ss[..i]
        invariant isPaused == Registered(old(isPaused), ss[..i])
      {
        assert ss[..i + 1][..i] == ss[..i];
        systems := systems + [ss[i]];
        isPaused := isPaused[ss[i].name := false];
      }
      assert ss[..|ss|] == ss;
      forall i | 0 <= i < |ss| ensures ss[i].name in isPaused && !isPaused[ss[i].name] {
        RegisteredFlags(old(isPaused), ss, ss[i].name);
      }
    }

    /** Sets the flag of `n`, whether or not a system has that name. */
    method Pause(n: string)
      modifies this`isPaused
      ensures isPaused == old(isPaused)[n := true]
      ensures IsPaused(isPaused, n)
    {
      isPaused := isPaused[n := true];
    }

    /** Clears the flag of `n`, inserting the key if it was missing. */
    method Resume(n: string)
      modifies this`isPaused
      ensures isPaused == old(isPaused)[n := false]
      ensures !IsPaused(isPaused, n)
    {
      isPaused := isPaused[n := false];
    }

    /** The stored list and flag map, as values; nothing changes. */
    method Systems() returns (ss: seq<System>, flags: map<string, bool>)
      ensures ss == systems && flags == isPaused
    {
      ss, flags := systems, isPaused;
    }
  }
}
