/** Client code over the contracts alone: the repository's tests of the entity
    and system managers, then scenarios for name-based removal, empty filters
    and pausing. */
module EcsScenarios {
  import opened EcsEntity
  import opened EcsEntityManager
  import opened EcsSystemManager
  import opened EcsEngine

  /** A fresh manager has no entities. */
  method NoEntityAtStart() {
    var m := new EntityManager();
    var es := m.Entities();
    assert |es| == 0;
  }

  /** One entity after adding one. */
  method OneEntityAfterAddingOne() {
    var m := new EntityManager();
    var e := m.NewEntity("test1");
    var es := m.Entities();
    assert |es| == 1;
  }

  /** Two entities after adding two. */
  method TwoEntitiesAfterAddingTwo() {
    var m := new EntityManager();
    var e1 := m.NewEntity("1");
    var e2 := m.NewEntity("2");
    var es := m.Entities();
    assert |es| == 2;
  }

  /** Creating two entities and removing the second leaves the first; IDs are
      1, 2 and then 3, the removed entity's ID not being handed out again. */
  method CreateThenRemoveSecond() {
    var m := new EntityManager();
    var es := m.Entities();
    assert |es| == 0;
    var e1 := m.NewEntity("e1");
    var e2 := m.NewEntity("e2");
    assert e1.id == 1 && e2.id == 2;
    m.Remove(e2);
    assert FirstIndexOf([e1, e2], "e2") == 1;
    es := m.Entities();
    assert es == [e1] && es[0].name == "e1";
    var e3 := m.NewEntity("e3");
    assert e3.id == 3;
  }

  /** Removal goes by name: removing one entity may take out an earlier namesake. */
  method RemoveTakesFirstNamesake() {
    var m := new EntityManager();
    var a := m.NewEntity("twin");
    var b := m.NewEntity("twin");
    m.Remove(b);
    assert FirstIndexOf([a, b], "twin") == 0;
    assert m.entities == [b];
    assert m.entities[0] == b;
    var found := m.Get("twin");
    assert found == b;
  }

  /** Client helper: a new entity holding the one component `c`. */
  method NewEntityWith(em: EntityManager, name: string, c: Component) returns (e: Entity)
    requires em.Valid()
    modifies em
    ensures em.Valid() && fresh(e)
    ensures e.name == name && e.components == map[c.name := c]
    ensures em.entities == old(em.entities) + [e]
  {
    e := em.NewEntity(name);
    e.Add([c]);
    assert [c][..0] == [];
  }

  /** Filtering by "position" returns the only entity, which has it. */
  method FilterOneOutOfOne() {
    var em := new EntityManager();
    var position := Component("position", 0);
    var e := NewEntityWith(em, "e1", position);
    SelectsSoleHolder(e, position);
    assert em.entities == [e];
    var entities := em.FilterBy(["position"]);
    assert |entities| == 1 && entities[0] == e;
  }

  lemma SelectsSoleHolder(e: Entity, c: Component)
    requires e.components == map[c.name := c]
    ensures AllKeysMatchNames([e]) && Selected([e], [c.name]) == [e]
  {
    assert [c.name][0] == c.name;
    assert HasAll(e, [c.name]);
    assert [e][..0] == [];
  }

  /** Filtering by "position" keeps the entity that has it and drops the other. */
  method FilterOneOutOfTwo() {
    var em := new EntityManager();
    var position := Component("position", 0);
    var e1 := NewEntityWith(em, "e1", position);
    var velocity := Component("velocity", 1);
    var e2 := NewEntityWith(em, "e2", velocity);
    assert "position" != "velocity" by { assert "position"[0] != "velocity"[0]; }
    var entities := FilterByFirstName(em, e1, e2, position, velocity);
    assert |entities| == 1 && entities[0] == e1;
  }

  /** Client helper: filtering two single-component entities by the first one's component name. */
  method FilterByFirstName(em: EntityManager, e1: Entity, e2: Entity, c1: Component, c2: Component)
    returns (r: seq<Entity>)
    requires c1.name != c2.name
    requires em.entities == [e1, e2]
    requires e1.components == map[c1.name := c1] && e2.components == map[c2.name := c2]
    ensures r == [e1]
  {
    SelectsOnlyHolder(e1, e2, c1, c2);
    r := em.FilterBy([c1.name]);
  }

  lemma SelectsOnlyHolder(e1: Entity, e2: Entity, c1: Component, c2: Component)
    requires c1.name != c2.name
    requires e1.components == map[c1.name := c1] && e2.components == map[c2.name := c2]
    ensures AllKeysMatchNames([e1, e2]) && Selected([e1, e2], [c1.name]) == [e1]
  {
    assert [c1.name][0] == c1.name;
    assert HasAll(e1, [c1.name]) && !HasAll(e2, [c1.name]);
    assert [e1, e2][..1] == [e1] && [e1][..0] == [];
    assert Selected([e1], [c1.name]) == [e1];
  }

  /** Filtering by no names returns every entity, components or not. */
  method FilterByNoNames() {
    var em := new EntityManager();
    var e1 := NewEntityWith(em, "e1", Component("position", 0));
    var e2 := em.NewEntity("e2");
    var r := em.FilterBy([]);
    assert r == [e1, e2];
  }

  /** A fresh system manager has no systems. */
  method NoSystemAtStart() {
    var m := new SystemManager();
    var systems, _ := m.Systems();
    assert |systems| == 0;
  }

  /** One system after adding one, and it is the one added. */
  method OneSystemAfterAddingOne() {
    var m := new SystemManager();
    var s := new System("MockSystem");
    m.Add([s]);
    var systems, _ := m.Systems();
    assert |systems| == 1 && systems[0] == s;
  }

  /** Pausing twice is the same as pausing once; resuming then clears the flag,
      and neither touches the system list. */
  method PauseTwiceThenResume() {
    var m := new SystemManager();
    var s := new System("MockSystem");
    m.Add([s]);
    m.Pause("MockSystem");
    var once := m.isPaused;
    m.Pause("MockSystem");
    assert m.isPaused == once;
    m.Resume("MockSystem");
    assert !IsPaused(m.isPaused, "MockSystem");
    m.Pause("Unknown");
    assert "Unknown" in m.isPaused && m.systems == [s];
  }

  /** Two same-named systems are both kept, in order; pausing the name
      silences both, and Setup and Teardown still reach both. */
  method SameNamedSystems() {
    var sm := new SystemManager();
    var s1 := new System("MockSystem");
    var s2 := new System("MockSystem");
    sm.Add([s1, s2]);
    var ss, flags := sm.Systems();
    assert ss == [s1, s2];
    var em := new EntityManager();
    var engine := new Engine(em, sm);
    var setup := engine.Setup();
    assert setup == [SetupCall(0), SetupCall(1)];
    engine.PauseSystem("MockSystem");
    var run := engine.Run();
    assert sm.systems == [s1, s2];
    assert RunTrace(sm.systems[..1], sm.isPaused, em) == [];
    assert run == [];
    var teardown := engine.Teardown();
    assert teardown == [TeardownCall(0), TeardownCall(1)];
  }

  /** Pausing A skips only A in the next tick; resuming brings it back. */
  method PauseOneOfTwo() {
    var sm := new SystemManager();
    var a := new System("A");
    var b := new System("B");
    sm.Add([a, b]);
    var em := new EntityManager();
    var engine := new Engine(em, sm);
    engine.PauseSystem("A");
    var run := engine.Run();
    assert sm.systems == [a, b];
    assert RunTrace(sm.systems[..1], sm.isPaused, em) == [];
    assert run == [ProcessCall(1, em)];
    sm.Resume("A");
    run := engine.Run();
    assert RunTrace(sm.systems[..1], sm.isPaused, em) == [ProcessCall(0, em)];
    assert run == [ProcessCall(0, em), ProcessCall(1, em)];
  }
}
