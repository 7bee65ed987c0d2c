/** Model of entity.go: components, the entity that owns them by name, and the
    map-update semantics of the variadic Add. */
module EcsEntity {

  /** Go's nil-able interface result, for lookups that may miss. */
  datatype Option<T> = None | Some(value: T)

  /** A component reports its name; `payload` stands for the concrete Go value
      behind the interface, which the core never inspects. */
  datatype Component = Component(name: string, payload: nat)

  /** The invariant Add establishes: every key names the component stored under it. */
  predicate KeysMatchNames(m: map<string, Component>)
  {
    forall k :: k in m ==> m[k].name == k
  }

  /** The component map after storing `cs` one after another, each under its own
      name; later arguments overwrite earlier ones. */
  function Stored(m: map<string, Component>, cs: seq<Component>): map<string, Component>
    decreases |cs|
  {
    if cs == [] then m
    else
      var last := cs[|cs| - 1];
      Stored(m, cs[..|cs| - 1])[last.name := last]
  }

  /** The set of names carried by `cs`. */
  function NamesOf(cs: seq<Component>): set<string>
  {
    set c | c in cs :: c.name
  }

  /** Storing adds exactly the names of the added components to the keys. */
  lemma {:induction false} StoredKeys(m: map<string, Component>, cs: seq<Component>)
    ensures Stored(m, cs).Keys == m.Keys + NamesOf(cs)
    decreases |cs|
  {
    if cs != [] {
      var init := cs[..|cs| - 1];
      StoredKeys(m, init);
      assert cs == init + [cs[|cs| - 1]];
      assert NamesOf(cs) == NamesOf(init) + {cs[|cs| - 1].name};
    }
  }

  /** The last argument carrying a name is the one stored under that name. */
  lemma {:induction false} StoredLastWins(m: map<string, Component>, cs: seq<Component>, i: nat)
    requires i < |cs|
    requires forall j :: i < j < |cs| ==> cs[j].name != cs[i].name
    ensures cs[i].name in Stored(m, cs) && Stored(m, cs)[cs[i].name] == cs[i]
    decreases |cs|
  {
    if i < |cs| - 1 {
      StoredLastWins(m, cs[..|cs| - 1], i);
    }
  }

  /** An entry whose key is not the name of any added component is left as it was. */
  lemma {:induction false} StoredUntouched(m: map<string, Component>, cs: seq<Component>, n: string)
    requires forall j :: 0 <= j < |cs| ==> cs[j].name != n
    ensures n in Stored(m, cs) <==> n in m
    ensures n in m ==> Stored(m, cs)[n] == m[n]
    decreases |cs|
  {
    if cs != [] {
      StoredUntouched(m, cs[..|cs| - 1], n);
    }
  }

  /** Storing keeps the key/name invariant. */
  lemma {:induction false} StoredKeepsKeysMatchNames(m: map<string, Component>, cs: seq<Component>)
    requires KeysMatchNames(m)
    ensures KeysMatchNames(Stored(m, cs))
    decreases |cs|
  {
    if cs != [] {
      StoredKeepsKeysMatchNames(m, cs[..|cs| - 1]);
    }
  }

  /** Two Add calls in a row store the same as one Add of both argument lists. */
  lemma {:induction false} StoredConcat(m: map<string, Component>, a: seq<Component>, b: seq<Component>)
    ensures Stored(Stored(m, a), b) == Stored(m, a + b)
    decreases |b|
  {
    if b == [] {
      assert a + b == a;
    } else {
      var init := b[..|b| - 1];
      StoredConcat(m, a, init);
      assert (a + b)[..|a + b| - 1] == a + init;
    }
  }

  /** Adding two same-named components, in one call or in two, leaves one entry
      for that name, holding the second. */
  lemma SecondSameNamedWins(m: map<string, Component>, c1: Component, c2: Component)
    requires c1.name == c2.name
    ensures Stored(m, [c1, c2]) == Stored(Stored(m, [c1]), [c2]) == m[c2.name := c2]
  {
    StoredConcat(m, [c1], [c2]);
    assert [c1, c2][..1] == [c1];
  }

  /** The Go `entity` struct. Name and ID are assigned once, when the manager
      creates the entity; the component map is updated in place by Add. */
  class Entity {
    var components: map<string, Component>
    const name: string
    const id: int

    /** The struct literal built by EntityManager.NewEntity: no components yet. */
    constructor (name: string, id: int)
      ensures components == map[] && this.name == name && this.id == id
    {
      this.name := name;
      this.id := id;
      components := map[];
    }

    /** Presence lookup by component name. */
    predicate Has(n: string)
      reads this
      ensures Has(n) <==> n in components
      ensures KeysMatchNames(components) ==>
        (Has(n) <==> exists c :: c in components.Values && c.name == n)
    {
      assert KeysMatchNames(components) && n in components ==> components[n] in components.Values;
      n in components
    }

    /** The component stored under `n`, or None; never fails. */
    function Get(n: string): (r: Option<Component>)
      reads this
      ensures r.Some? <==> Has(n)
      ensures r.Some? ==> n in components && r.value == components[n]
      ensures r.Some? && KeysMatchNames(components) ==> r.value.name == n
    {
      if Has(n) then Some(components[n]) else None
    }

    /** Stores each argument under its own name, in argument order. */
    method Add(cs: seq<Component>)
      modifies this
      ensures components == Stored(old(components), cs)
      ensures components.Keys == old(components).Keys + NamesOf(cs)
      ensures old(KeysMatchNames(components)) ==> KeysMatchNames(components)
    {
      for i := 0 to |cs|
        invariant components == Stored(old(components), cs[..i])
      {
        assert cs[..i + 1][..i] == cs[..i];
        components := components[cs[i].name := cs[i]];
      }
      assert cs[..|cs|] == cs;
      StoredKeys(old(components), cs);
      if old(KeysMatchNames(components)) {
        StoredKeepsKeysMatchNames(old(components), cs);
      }
    }
  }
}
