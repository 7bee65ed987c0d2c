/** Model of entity_manager.go: the ordered entity list, the ID counter, and the
    name-based lookup, filtering and removal over that list. */
module EcsEntityManager {
  import opened EcsEntity

  // ---------------------------------------------------------------------------
  // Counting, as FilterBy's nested loop does it
  // ---------------------------------------------------------------------------

  /** Keys among `within` whose stored component reports name `n`. */
  function KeysNamed(m: map<string, Component>, n: string, within: set<string>): set<string>
  {
    set k | k in within && k in m && m[k].name == n
  }

  /** How many stored components report name `n` (the innermost loop's count). */
  function NameCount(m: map<string, Component>, n: string): nat
  {
    |KeysNamed(m, n, m.Keys)|
  }

  /** The count FilterBy accumulates for one entity over all requested names. */
  function CountAll(m: map<string, Component>, ns: seq<string>): nat
    decreases |ns|
  {
    if ns == [] then 0
    else CountAll(m, ns[..|ns| - 1]) + NameCount(m, ns[|ns| - 1])
  }

  /** FilterBy's test on one entity: the count equals the number of requested names. */
  predicate CountMatches(e: Entity, ns: seq<string>)
    reads e
  {
    CountAll(e.components, ns) == |ns|
  }

  /** The entities FilterBy keeps, in list order. */
  function Filtered(es: seq<Entity>, ns: seq<string>): seq<Entity>
    reads es
    decreases |es|
  {
    if es == [] then []
    else
      var last := es[|es| - 1];
      Filtered(es[..|es| - 1], ns) + (if CountMatches(last, ns) then [last] else [])
  }

  // ---------------------------------------------------------------------------
  // The intended meaning: every requested name is a key
  // ---------------------------------------------------------------------------

  /** The entity holds a component under every requested name. */
  predicate HasAll(e: Entity, ns: seq<string>)
    reads e
  {
    forall i :: 0 <= i < |ns| ==> ns[i] in e.components
  }

  /** The entities holding every requested name, in list order. */
  function Selected(es: seq<Entity>, ns: seq<string>): seq<Entity>
    reads es
    decreases |es|
  {
    if es == [] then []
    else
      var last := es[|es| - 1];
      Selected(es[..|es| - 1], ns) + (if HasAll(last, ns) then [last] else [])
  }

  /** Every entity in the list keeps the key/name invariant. */
  predicate AllKeysMatchNames(es: seq<Entity>)
    reads es
  {
    forall i :: 0 <= i < |es| ==> KeysMatchNames(es[i].components)
  }

  /** `a` is `b` with some elements left out, the rest in the same order. */
  predicate SubsequenceOf<T(==)>(a: seq<T>, b: seq<T>)
    decreases |b|
  {
    a == [] ||
    (b != [] &&
     ((a[|a| - 1] == b[|b| - 1] && SubsequenceOf(a[..|a| - 1], b[..|b| - 1])) ||
      SubsequenceOf(a, b[..|b| - 1])))
  }

  lemma {:induction false} SubsequenceOfSelf<T>(a: seq<T>)
    ensures SubsequenceOf(a, a)
    decreases |a|
  {
    if a != [] {
      SubsequenceOfSelf(a[..|a| - 1]);
    }
  }

  /** Under the key/name invariant, a key counts once when present and not at all otherwise. */
  lemma NameCountUnderKeysMatch(m: map<string, Component>, n: string)
    requires KeysMatchNames(m)
    ensures NameCount(m, n) == if n in m then 1 else 0
  {
    if n in m {
      assert KeysNamed(m, n, m.Keys) == {n};
    } else {
      assert KeysNamed(m, n, m.Keys) == {};
    }
  }

  /** Under the key/name invariant, the count reaches the number of requested
      names exactly when every requested name is a key (duplicates counted). */
  lemma {:induction false} CountAllUnderKeysMatch(m: map<string, Component>, ns: seq<string>)
    requires KeysMatchNames(m)
    ensures CountAll(m, ns) <= |ns|
    ensures CountAll(m, ns) == |ns| <==> forall i :: 0 <= i < |ns| ==> ns[i] in m
    decreases |ns|
  {
    if ns != [] {
      var init := ns[..|ns| - 1];
      CountAllUnderKeysMatch(m, init);
      NameCountUnderKeysMatch(m, ns[|ns| - 1]);
      if forall i :: 0 <= i < |ns| ==> ns[i] in m {
        assert forall i :: 0 <= i < |init| ==> init[i] in m by {
          forall i | 0 <= i < |init| ensures init[i] in m {
            assert init[i] == ns[i];
          }
        }
      }
      if forall i :: 0 <= i < |init| ==> init[i] in m {
        if ns[|ns| - 1] in m {
          forall i | 0 <= i < |ns| ensures ns[i] in m {
            if i < |init| { assert ns[i] == init[i]; }
          }
        }
      }
    }
  }

  /** Without the invariant the count can be fooled: two keys holding components
      named "b" make up for a missing "c". */
  lemma CountingNeedsKeysMatchNames()
    ensures var m := map["a" := Component("b", 0), "b" := Component("b", 1)];
      !KeysMatchNames(m) && CountAll(m, ["b", "c"]) == 2 && "c" !in m
  {
    var m := map["a" := Component("b", 0), "b" := Component("b", 1)];
    assert m["a"].name != "a";
    assert KeysNamed(m, "b", m.Keys) == {"a", "b"};
    assert KeysNamed(m, "c", m.Keys) == {};
    assert ["b", "c"][..1] == ["b"];
    assert ["b"][..0] == [];
  }

  /** FilterBy's counting test selects exactly the entities holding every
      requested name, whenever the entities keep the key/name invariant. */
  lemma {:induction false} FilteredIsSelected(es: seq<Entity>, ns: seq<string>)
    requires AllKeysMatchNames(es)
    ensures Filtered(es, ns) == Selected(es, ns)
    decreases |es|
  {
    if es != [] {
      var last := es[|es| - 1];
      FilteredIsSelected(es[..|es| - 1], ns);
      CountAllUnderKeysMatch(last.components, ns);
    }
  }

  /** FilterBy keeps list order and invents nothing. */
  lemma {:induction false} FilteredIsSubsequence(es: seq<Entity>, ns: seq<string>)
    ensures SubsequenceOf(Filtered(es, ns), es)
    decreases |es|
  {
    if es != [] {
      var init := es[..|es| - 1];
      FilteredIsSubsequence(init, ns);
      var f := Filtered(init, ns);
      var a := Filtered(es, ns);
      if CountMatches(es[|es| - 1], ns) {
        assert a == f + [es[|es| - 1]];
        assert a[..|a| - 1] == f && a[|a| - 1] == es[|es| - 1];
      } else {
        assert a == f;
      }
    }
  }

  /** With no requested names every entity passes. */
  lemma {:induction false} FilteredNoNames(es: seq<Entity>)
    ensures Filtered(es, []) == es
    decreases |es|
  {
    if es != [] {
      FilteredNoNames(es[..|es| - 1]);
    }
  }

  // ---------------------------------------------------------------------------
  // Lookup and removal by name
  // ---------------------------------------------------------------------------

  /** Position of the first entity named `name`, or |es| when none is. */
  function FirstIndexOf(es: seq<Entity>, name: string): (k: nat)
    ensures k <= |es|
    ensures forall j :: 0 <= j < k ==> es[j].name != name
    ensures k < |es| ==> es[k].name == name
    decreases |es|
  {
    if es == [] then 0
    else if es[0].name == name then 0
    else 1 + FirstIndexOf(es[1..], name)
  }

  /** The list after Remove: the first entity named `name` is taken out. */
  function Removed(es: seq<Entity>, name: string): seq<Entity>
  {
    var k := FirstIndexOf(es, name);
    if k < |es| then es[..k] + es[k + 1..] else es
  }

  /** Remove drops exactly one entity when one matches and none otherwise, and
      the survivors keep their relative order. */
  lemma RemovedShape(es: seq<Entity>, name: string)
    ensures (exists i :: 0 <= i < |es| && es[i].name == name) ==> |Removed(es, name)| == |es| - 1
    ensures (forall i :: 0 <= i < |es| ==> es[i].name != name) ==> Removed(es, name) == es
    ensures SubsequenceOf(Removed(es, name), es)
  {
    var k := FirstIndexOf(es, name);
    if k < |es| {
      DropOneIsSubsequence(es, k);
    } else {
      SubsequenceOfSelf(es);
    }
  }

  lemma {:induction false} DropOneIsSubsequence(es: seq<Entity>, k: nat)
    requires k < |es|
    ensures SubsequenceOf(es[..k] + es[k + 1..], es)
    decreases |es|
  {
    var a := es[..k] + es[k + 1..];
    var init := es[..|es| - 1];
    if k == |es| - 1 {
      assert a == init;
      SubsequenceOfSelf(init);
    } else {
      DropOneIsSubsequence(init, k);
      assert a[..|a| - 1] == init[..k] + init[k + 1..];
    }
  }

  /** Entity IDs strictly increase along the list. */
  predicate IdsIncreasing(es: seq<Entity>)
  {
    forall i, j :: 0 <= i < j < |es| ==> es[i].id < es[j].id
  }

  lemma RemovedKeepsIdsIncreasing(es: seq<Entity>, name: string)
    requires IdsIncreasing(es)
    ensures IdsIncreasing(Removed(es, name))
  {
    var k := FirstIndexOf(es, name);
    if k < |es| {
      var r := es[..k] + es[k + 1..];
      forall i, j | 0 <= i < j < |r| ensures r[i].id < r[j].id {
        var i' := if i < k then i else i + 1;
        var j' := if j < k then j else j + 1;
        assert r[i] == es[i'] && r[j] == es[j'];
      }
    }
  }

  /** FilterBy's two inner loops for one entity: for each requested name, count
      the stored components reporting that name. */
  method CountFor(m: map<string, Component>, ns: seq<string>) returns (count: nat)
    ensures count == CountAll(m, ns)
  {
    count := 0;
    for j := 0 to |ns|
      invariant count == CountAll(m, ns[..j])
    {
      var n := CountNamed(m, ns[j]);
      count := count + n;
      assert ns[..j + 1][..j] == ns[..j];
    }
    assert ns[..|ns|] == ns;
  }

  /** The innermost loop: visits every stored component once, in any order, and
      counts those reporting name `name`. */
  method CountNamed(m: map<string, Component>, name: string) returns (count: nat)
    ensures count == NameCount(m, name)
  {
    count := 0;
    var todo := m.Keys;
    ghost var done: set<string> := {};
    while todo != {}
      invariant todo + done == m.Keys && todo !! done
      invariant count == |KeysNamed(m, name, done)|
      decreases |todo|
    {
      var k :| k in todo;
      if m[k].name == name {
        assert KeysNamed(m, name, done + {k}) == KeysNamed(m, name, done) + {k};
        count := count + 1;
      } else {
        assert KeysNamed(m, name, done + {k}) == KeysNamed(m, name, done);
      }
      todo := todo - {k};
      done := done + {k};
    }
  }

  // ---------------------------------------------------------------------------
  // The manager
  // ---------------------------------------------------------------------------

  /** The Go EntityManager: the entity list in creation order and the last ID handed out. */
  class EntityManager {
    var entities: seq<Entity>
    var entityID: int

    /** IDs are positive, at most the counter, and increase along the list. */
    ghost predicate Valid()
      reads this
    {
      entityID >= 0 &&
      IdsIncreasing(entities) &&
      forall i :: 0 <= i < |entities| ==> 1 <= entities[i].id <= entityID
    }

    /** NewEntityManager: no entities, counter at zero. */
    constructor ()
      ensures Valid()
      ensures entities == [] && entityID == 0
    {
      entities := [];
      entityID := 0;
    }

    /** Builds an entity with the next ID and no components and appends it. */
    method NewEntity(name: string) returns (e: Entity)
      requires Valid()
      modifies this
      ensures Valid()
      ensures fresh(e)
      ensures e.name == name && e.components == map[]
      ensures e.id == old(entityID) + 1 && entityID == old(entityID) + 1
      ensures entities == old(entities) + [e]
      ensures forall i :: 0 <= i < |old(entities)| ==> old(entities)[i].id < e.id
    {
      var id := GetNextID();
      e := new Entity(name, id);
      Add(e);
    }

    /** Advances the counter and returns its new value. */
    method GetNextID() returns (id: int)
      modifies this`entityID
      ensures entityID == old(entityID) + 1 && id == entityID
    {
      entityID := entityID + 1;
      id := entityID;
    }

    /** Appends an entity to the list (Go's unexported `add`). */
    method Add(e: Entity)
      modifies this`entities
      ensures entities == old(entities) + [e]
    {
      entities := entities + [e];
    }

    /** All entities, in creation order, as a value. */
    method Entities() returns (es: seq<Entity>)
      ensures es == entities
    {
      es := entities;
    }

    /** The entities whose components include every requested name, counted
        the way the Go code counts them. */
    method FilterBy(ns: seq<string>) returns (r: seq<Entity>)
      ensures r == Filtered(entities, ns)
      ensures SubsequenceOf(r, entities)
      ensures ns == [] ==> r == entities
      ensures AllKeysMatchNames(entities) ==> r == Selected(entities, ns)
    {
      r := [];
      for i := 0 to |entities|
        invariant r == Filtered(entities[..i], ns)
      {
        var e := entities[i];
        var count := CountFor(e.components, ns);
        var wanted := |ns|;
        assert entities[..i + 1][..i] == entities[..i];
        if count == wanted {
          r := r + [e];
        }
      }
      assert entities[..|entities|] == entities;
      FilteredIsSubsequence(entities, ns);
      if ns == [] {
        FilteredNoNames(entities);
      }
      if AllKeysMatchNames(entities) {
        FilteredIsSelected(entities, ns);
      }
    }

    /** The first entity named `name`, or null when none is. */
    method Get(name: string) returns (r: Entity?)
      ensures r == null <==> forall i :: 0 <= i < |entities| ==> entities[i].name != name
      ensures r != null ==> r == entities[FirstIndexOf(entities, name)] && r.name == name
    {
      for i := 0 to |entities|
        invariant forall j :: 0 <= j < i ==> entities[j].name != name
      {
        if entities[i].name == name {
          return entities[i];
        }
      }
      return null;
    }

    /** Removes the first entity that has the same name as `x`; the counter is untouched. */
    method Remove(x: Entity)
      requires Valid()
      modifies this`entities
      ensures Valid()
      ensures entities == Removed(old(entities), x.name)
    {
      var i := 0;
      while i < |entities|
        invariant 0 <= i <= |entities|
        invariant entities == old(entities)
        invariant forall j :: 0 <= j < i ==> entities[j].name != x.name
      {
        if entities[i].name == x.name {
          entities := entities[..i] + entities[i + 1..];
          break;
        }
        i := i + 1;
      }
      RemovedKeepsIdsIncreasing(old(entities), x.name);
    }
  }
}
