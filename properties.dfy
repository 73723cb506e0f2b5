/**
 * What a load promises about the beans it resolves: it succeeds exactly
 * when the definitions are free of defects, every defined id ends up in the
 * ready tier with every property assigned, every bean is instantiated once,
 * every lookup of an id yields the same object, and a cycle of references
 * resolves to the very objects the ready tier holds.
 */
module Properties {
  import opened Beans
  import opened Resolution

  /** The registered names are exactly the defined ids (the registry is filled from one loader pass). */
  predicate Registered(defs: map<string, BeanDef>, names: seq<string>)
  {
    defs.Keys == set n | n in names
  }

  /** The ids the cache knows are ids in creation, hence defined. */
  lemma CachedAreDefined(defs: map<string, BeanDef>, st: State)
    requires Inv(defs, st)
    ensures Cache(st).Keys <= defs.Keys
  {
    forall n | n in Cache(st)
      ensures n in defs
    {
      assert n in st.ready || n in Pending(st);
    }
  }

  /** The load succeeds if and only if every definition resolves its class, its fields and its refs. */
  lemma LoadOkIffWellFormed(defs: map<string, BeanDef>, names: seq<string>)
    requires Registered(defs, names)
    ensures Load(defs, names).0.Ok? <==> WellFormed(defs)
  {
    var res := Load(defs, names);
    if res.0.Err? {
      GenuineErrorRefutes(defs, res.0.error);
    } else {
      var r := res.1;
      Settled(r);
      CachedAreDefined(defs, r);
      forall n | n in defs
        ensures DefOk(defs, n)
      {
        assert Wired(defs, n, r.ready[n], r.heap, r.ready);
      }
    }
  }

  /** After a successful load every id is ready, wired from the ready tier alone, and nothing is pending. */
  lemma LoadWiresEveryBean(defs: map<string, BeanDef>, names: seq<string>)
    requires Registered(defs, names) && Load(defs, names).0.Ok?
    ensures var r := Load(defs, names).1;
      && r.ready.Keys == defs.Keys && r.inCreation == defs.Keys
      && r.early == map[] && r.factories == map[]
      && forall n :: n in defs ==> GetBean(r, n) == Some(r.ready[n]) && Wired(defs, n, r.ready[n], r.heap, r.ready)
  {
    var r := Load(defs, names).1;
    Settled(r);
    CachedAreDefined(defs, r);
  }

  /** After a successful load each bean has exactly one object, and it is the ready one. */
  lemma LoadInstantiatesOnce(defs: map<string, BeanDef>, names: seq<string>)
    requires Registered(defs, names) && Load(defs, names).0.Ok?
    ensures var r := Load(defs, names).1;
      forall h :: h in r.heap ==> r.heap[h].bean in r.ready && r.ready[r.heap[h].bean] == h
  {
    var r := Load(defs, names).1;
    Settled(r);
  }

  /** Singleton identity: once an id is cached, resolving it again yields the cached object. */
  lemma ResolveAgainSameObject(defs: map<string, BeanDef>, st: State, id: string)
    requires Inv(defs, st) && id in defs && id in Cache(st)
    ensures DoGetBean(defs, st, id).0 == Ok(Cache(st)[id])
  {
    assert id in st.inCreation;
  }

  /** A successful resolution hands out the object every later resolution of the id returns. */
  lemma ResolutionIsStable(defs: map<string, BeanDef>, st: State, id: string)
    requires Inv(defs, st) && id in defs && DoGetBean(defs, st, id).0.Ok?
    ensures var (got, r) := DoGetBean(defs, st, id); DoGetBean(defs, r, id).0 == got
  {
    var r := DoGetBean(defs, st, id).1;
    ResolveAgainSameObject(defs, r, id);
  }

  /** The factory object moves to the early tier on the first early lookup; later lookups change nothing. */
  lemma PromotionHappensOnce(st: State, name: string, allowEarly: bool)
    requires CreationTracked(st)
    ensures var (b, r) := GetSingleton(st, name, true);
      && GetSingleton(r, name, allowEarly) == (b, r)
      && (b.Some? && name !in st.ready ==> name in r.early && name !in r.factories)
  {
    if name in st.factories && name !in st.ready && name in st.inCreation {
      assert name !in st.early;
    }
  }

  /**
   * createBean publishes the unpopulated object before populating it: at
   * that point an early lookup of the id finds it, while `getBean` does not.
   */
  lemma PublishedBeforePopulating(st: State, id: string, cls: BeanClass)
    requires CreationTracked(st) && id !in st.inCreation
    requires forall h :: h in st.heap ==> h < st.next
    ensures var created := Created(st, id, cls);
      && GetSingleton(created, id, true).0 == Some(st.next)
      && GetSingleton(created, id, false).0 == None
      && GetBean(created, id) == None
      && created.heap[st.next] == Instance(id, cls, map[])
  {
    CreationEffects(st, id, cls);
    assert id !in st.ready && id !in st.early;
  }

  /** A field no property names is left as `newInstance()` left it: unassigned. */
  lemma WiredFieldUnset(defs: map<string, BeanDef>, n: string, h: Handle, heap: map<Handle, Instance>,
                        objects: map<string, Handle>, f: string)
    requires Wired(defs, n, h, heap, objects)
    requires forall k :: 0 <= k < |defs[n].props| ==> defs[n].props[k].name != f
    ensures f !in heap[h].fields
  {
    ApplyUntouched(map[], defs[n].props, objects, f);
  }

  /** A field holds the literal, or the referenced bean's object, of the last property naming it. */
  lemma WiredFieldLast(defs: map<string, BeanDef>, n: string, h: Handle, heap: map<Handle, Instance>,
                       objects: map<string, Handle>, k: nat)
    requires Wired(defs, n, h, heap, objects)
    requires k < |defs[n].props|
    requires forall j :: k < j < |defs[n].props| ==> defs[n].props[j].name != defs[n].props[k].name
    ensures var p := defs[n].props[k];
      && p.name in heap[h].fields
      && (p.Literal? ==> heap[h].fields[p.name] == Str(p.value))
      && (p.Ref? ==> p.target in objects && heap[h].fields[p.name] == Obj(objects[p.target]))
  {
    ApplyLastWrite(map[], defs[n].props, objects, k);
  }

  /**
   * Two beans referring to each other (`a.fa` refers to `b`, `b.fb` refers
   * to `a`): the load succeeds and each reference field holds the exact
   * object `getBean` returns for the other id.
   */
  lemma CycleResolves(defs: map<string, BeanDef>, names: seq<string>, a: string, fa: string, b: string, fb: string)
    requires Registered(defs, names) && defs.Keys == {a, b} && a != b
    requires defs[a].beanClass.Some? && fa in defs[a].beanClass.value.fields && defs[a].props == [Ref(fa, b)]
    requires defs[b].beanClass.Some? && fb in defs[b].beanClass.value.fields && defs[b].props == [Ref(fb, a)]
    ensures Load(defs, names).0.Ok?
    ensures var r := Load(defs, names).1;
      && GetBean(r, a).Some? && GetBean(r, b).Some? && GetBean(r, a) != GetBean(r, b)
      && r.heap[GetBean(r, a).value].fields == map[fa := Obj(GetBean(r, b).value)]
      && r.heap[GetBean(r, b).value].fields == map[fb := Obj(GetBean(r, a).value)]
  {
    assert DefOk(defs, a) && DefOk(defs, b);
    LoadOkIffWellFormed(defs, names);
    LoadWiresEveryBean(defs, names);
    var r := Load(defs, names).1;
    assert Wired(defs, a, r.ready[a], r.heap, r.ready);
    assert Wired(defs, b, r.ready[b], r.heap, r.ready);
    assert r.heap[r.ready[a]].bean != r.heap[r.ready[b]].bean;
    SingleRef(fa, b, r.ready);
    SingleRef(fb, a, r.ready);
  }

  /** Assigning a single ref property sets exactly that field. */
  lemma SingleRef(f: string, target: string, objects: map<string, Handle>)
    requires target in objects
    ensures Resolvable([Ref(f, target)], objects.Keys)
    ensures Apply(map[], [Ref(f, target)], objects) == map[f := Obj(objects[target])]
  {
    assert [Ref(f, target)][1..] == [];
  }

  /** A ref to an id nobody defines, in any definition, makes the load fail. */
  lemma RefToUndefinedFails(defs: map<string, BeanDef>, names: seq<string>, n: string, k: nat)
    requires Registered(defs, names) && n in defs && k < |defs[n].props|
    requires defs[n].props[k].Ref? && defs[n].props[k].target !in defs
    ensures Load(defs, names).0.Err?
  {
    LoadOkIffWellFormed(defs, names);
    assert !DefOk(defs, n);
  }

  /** A `User` whose `roleId` refers to the undefined id `ghost` fails with exactly that reference. */
  lemma MissingReferenceFails()
    ensures var defs := map["A" := BeanDef("User", Some(BeanClass("User", {"roleId"})), [Ref("roleId", "ghost")])];
      Load(defs, ["A"]).0 == Err(UnknownReference("A", "ghost"))
  {
    var defs := map["A" := BeanDef("User", Some(BeanClass("User", {"roleId"})), [Ref("roleId", "ghost")])];
    RefToUndefinedFails(defs, ["A"], "A", 0);
    var e := Load(defs, ["A"]).0.error;
    assert ErrorGenuine(defs, e);
  }
}
