/**
 * The container itself: the registry filled once by the loader, and the
 * three singleton tiers, the in-creation set and the heap of created
 * objects, all updated in place. Each method follows its specification
 * function in `Resolution` step for step, so everything proved about those
 * functions holds of the container.
 */
module IocContainer {
  import opened Beans
  import opened Resolution

  class Container {
    const defs: map<string, BeanDef>            // beanClassMap
    const names: seq<string>                    // beanNames
    var ready: map<string, Handle>              // singletonObjects
    var early: map<string, Handle>              // earlySingletonObjects
    var factories: map<string, Handle>          // singletonFactories
    var inCreation: set<string>                 // singletonsCurrentlyInCreation
    var heap: map<Handle, Instance>             // the objects created so far
    var next: Handle                            // the handle the next `newInstance()` returns

    /** The container's state as a value. */
    function Snapshot(): State
      reads this
    {
      State(ready, early, factories, inCreation, heap, next)
    }

    /**
     * Registration pass of `loadBeans`: records each declared id in
     * document order and maps it to its definition, resolving the class
     * once; a later declaration of an id replaces an earlier one.
     */
    constructor (decls: seq<Decl>, classes: map<string, set<string>>)
      ensures names == BeanNames(decls) && defs == BeanClassMap(decls, classes)
      ensures Snapshot() == Empty()
    {
      var ns: seq<string> := [];
      var m: map<string, BeanDef> := map[];
      var i := 0;
      while i < |decls|
        invariant 0 <= i <= |decls|
        invariant ns == BeanNames(decls[..i]) && m == BeanClassMap(decls[..i], classes)
      {
        var d := decls[i];
        assert decls[..i + 1][..i] == decls[..i];
        ns := ns + [d.id];
        m := m[d.id := Define(d, classes)];
        i := i + 1;
      }
      assert decls[..i] == decls;
      names := ns;
      defs := m;
      ready, early, factories, inCreation, heap, next := map[], map[], map[], {}, map[], 0;
    }

    /** `getBean`: the ready object of the name; an object still in creation is not handed out. */
    method GetBean(name: string) returns (b: Option<Handle>)
      ensures b.Some? <==> name in ready
      ensures b.Some? ==> b.value == ready[name]
    {
      if name in ready {
        b := Some(ready[name]);
      } else {
        b := None;
      }
    }

    /** `doLoadBeanDefinitions`: resolves every registered name in order; the first failure ends the load. */
    method DoLoadBeanDefinitions() returns (r: Result<()>)
      requires Inv(defs, Snapshot()) && forall n :: n in names ==> n in defs
      modifies this
      ensures var res := LoadFrom(defs, names, old(Snapshot()), 0); r == res.0 && Snapshot() == res.1
    {
      ghost var outcome := LoadFrom(defs, names, Snapshot(), 0);
      var i: nat := 0;
      while i < |names|
        invariant i <= |names| && Inv(defs, Snapshot())
        invariant LoadFrom(defs, names, Snapshot(), i) == outcome
      {
        r := LoadName(i);
        if r.Err? {
          return;
        }
        i := i + 1;
      }
      LoadDone(defs, names, Snapshot());
      return Ok(());
    }

    /** One pass of doLoadBeanDefinitions' loop: `doGetBean` on the definition registered for `names[i]`. */
    method LoadName(i: nat) returns (r: Result<()>)
      requires Inv(defs, Snapshot()) && forall n :: n in names ==> n in defs
      requires i < |names|
      modifies this
      ensures r.Err? ==> (r, Snapshot()) == LoadFrom(defs, names, old(Snapshot()), i)
      ensures r.Ok? ==> Inv(defs, Snapshot()) && LoadFrom(defs, names, old(Snapshot()), i) == LoadFrom(defs, names, Snapshot(), i + 1)
    {
      ghost var st := Snapshot();
      var got := DoGetBean(names[i]);
      LoadStep(defs, names, st, i, got, Snapshot());
      r := if got.Ok? then Ok(()) else Err(got.error);
    }

    /** `doGetBean`: an object already cached or handed out early, else the one `getSingleton(def)` creates. */
    method DoGetBean(id: string) returns (r: Result<Handle>)
      requires Inv(defs, Snapshot()) && id in defs
      modifies this
      decreases defs.Keys - inCreation, 3
      ensures (r, Snapshot()) == Resolution.DoGetBean(defs, old(Snapshot()), id)
    {
      var shared := GetSingleton(id, true);
      if shared.Some? {
        return Ok(shared.value);
      }
      r := GetOrCreateSingleton(id);
    }

    /** `getSingleton(name, allowEarlyReference)`: may move the id's factory object to the early tier. */
    method GetSingleton(name: string, allowEarly: bool) returns (b: Option<Handle>)
      modifies this
      ensures (b, Snapshot()) == Resolution.GetSingleton(old(Snapshot()), name, allowEarly)
    {
      b := if name in ready then Some(ready[name]) else None;
      if b.None? && name in inCreation {
        b := if name in early then Some(early[name]) else None;
        if b.None? && allowEarly {
          if name in factories {
            b := Some(factories[name]);
            early := early[name := b.value];
            factories := factories - {name};
          }
        }
      }
    }

    /** `getSingleton(beanDefinition)`: the ready object, or a new one created and committed. */
    method GetOrCreateSingleton(id: string) returns (r: Result<Handle>)
      requires Inv(defs, Snapshot()) && id in defs
      requires id in inCreation ==> id in ready
      modifies this
      decreases defs.Keys - inCreation, 2
      ensures (r, Snapshot()) == Resolution.GetOrCreateSingleton(defs, old(Snapshot()), id)
    {
      if id in ready {
        return Ok(ready[id]);
      }
      r := CreateBean(id);
      if r.Ok? {
        ready := ready[id := r.value];
        factories := factories - {id};
        early := early - {id};
      }
    }

    /** `createBean`: marks the id in creation, instantiates, publishes the factory entry, then populates. */
    method CreateBean(id: string) returns (r: Result<Handle>)
      requires Inv(defs, Snapshot()) && id in defs && id !in inCreation
      modifies this
      decreases defs.Keys - inCreation, 1
      ensures (r, Snapshot()) == Resolution.CreateBean(defs, old(Snapshot()), id)
    {
      inCreation := inCreation + {id};
      var d := defs[id];
      if d.beanClass.None? {
        return Err(NoBeanClass(id, d.className));
      }
      var h := next;
      heap := heap[h := Instance(id, d.beanClass.value, map[])];
      next := next + 1;
      if id !in ready {
        factories := factories[id := h];
        early := early - {id};
      }
      assert Snapshot() == Created(old(Snapshot()), id, d.beanClass.value);
      CreationKeepsInv(defs, old(Snapshot()), id, d.beanClass.value);
      var populated := PopulateBean(h, d.props);
      if populated.Err? {
        return Err(populated.error);
      }
      return Ok(h);
    }

    /**
     * `populateBean`: assigns the properties in order; the first one that
     * fails stops the loop and the load.
     */
    method PopulateBean(h: Handle, props: seq<Prop>) returns (r: Result<()>)
      requires Populating(defs, Snapshot(), h) && props == defs[heap[h].bean].props
      modifies this
      decreases defs.Keys - inCreation, 4, 1
      ensures var res := Populate(defs, old(Snapshot()), h, props, 0); r == res.0 && Snapshot() == res.1
    {
      ghost var outcome := Populate(defs, Snapshot(), h, props, 0);
      var i: nat := 0;
      while i < |props|
        invariant i <= |props|
        invariant Populating(defs, Snapshot(), h) && props == defs[heap[h].bean].props
        invariant old(inCreation) <= inCreation
        invariant Populate(defs, Snapshot(), h, props, i) == outcome
      {
        r := AssignProperty(h, props, i);
        if r.Err? {
          return;
        }
        i := i + 1;
      }
      PopulateStops(defs, Snapshot(), h, props, i);
      return Ok(());
    }

    /**
     * One pass of populateBean's loop: looks the field up, then assigns the
     * literal, the target's ready object, or the object `doGetBean` resolves.
     */
    method AssignProperty(h: Handle, props: seq<Prop>, i: nat) returns (r: Result<()>)
      requires Populating(defs, Snapshot(), h) && props == defs[heap[h].bean].props && i < |props|
      modifies this
      decreases defs.Keys - inCreation, 4, 0
      ensures r.Err? ==> (r, Snapshot()) == Populate(defs, old(Snapshot()), h, props, i)
      ensures r.Ok? ==> Populating(defs, Snapshot(), h) && heap[h].bean == old(heap[h].bean) && old(inCreation) <= inCreation
      ensures r.Ok? ==> Populate(defs, old(Snapshot()), h, props, i) == Populate(defs, Snapshot(), h, props, i + 1)
    {
      ghost var st := Snapshot();
      PopulateStops(defs, st, h, props, i);
      var p := props[i];
      if p.name !in heap[h].cls.fields {
        return Err(UnknownField(heap[h].bean, p.name));
      }
      if p.Literal? || p.target in ready {
        var v := if p.Literal? then Str(p.value) else Obj(ready[p.target]);
        heap := heap[h := heap[h].(fields := heap[h].fields[p.name := v])];
        PopulateAssigns(defs, st, Snapshot(), h, props, i);
      } else if p.target !in defs {
        return Err(UnknownReference(heap[h].bean, p.target));
      } else {
        var got := DoGetBean(p.target);
        if got.Err? {
          return Err(got.error);
        }
        heap := heap[h := heap[h].(fields := heap[h].fields[p.name := Obj(got.value)])];
        PopulateResolves(defs, st, Snapshot(), h, props, i);
      }
      return Ok(());
    }
  }

  /**
   * `new IOC_1(location)`: registers the loader's declarations, then
   * resolves every registered name. The load fails exactly when some
   * definition has a defect.
   */
  method Open(decls: seq<Decl>, classes: map<string, set<string>>) returns (c: Container, r: Result<()>)
    ensures fresh(c) && c.names == BeanNames(decls) && c.defs == BeanClassMap(decls, classes)
    ensures var res := Load(c.defs, c.names); r == res.0 && c.Snapshot() == res.1
    ensures r.Err? ==> ErrorGenuine(c.defs, r.error)
  {
    c := new Container(decls, classes);
    assert Inv(c.defs, Empty());
    r := c.DoLoadBeanDefinitions();
  }
}
