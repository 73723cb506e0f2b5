/**
 * The bean-resolution engine as functions over a snapshot of the container:
 * the three singleton tiers, the in-creation set and the object heap.
 * Each function returns its result together with the next snapshot; the
 * methods of `IocContainer.Container` are proved to follow them step by step.
 *
 * Termination of the recursion doGetBean -> getSingleton(def) -> createBean
 * -> populateBean -> doGetBean rests on the set of defined ids not yet in
 * creation: createBean adds its id to the in-creation set before populating,
 * and nothing ever removes an id from it.
 */
module Resolution {
  import opened Beans

  datatype State = State(
    ready: map<string, Handle>,      // singletonObjects
    early: map<string, Handle>,      // earlySingletonObjects
    factories: map<string, Handle>,  // singletonFactories
    inCreation: set<string>,         // singletonsCurrentlyInCreation
    heap: map<Handle, Instance>,     // the objects created so far
    next: Handle)                    // the handle the next `newInstance()` returns

  /** The container before anything is resolved. */
  function Empty(): State
  {
    State(map[], map[], map[], {}, map[], 0)
  }

  /** The object each id currently resolves to, whichever tier holds it. */
  function CacheOf(ready: map<string, Handle>, early: map<string, Handle>, factories: map<string, Handle>): map<string, Handle>
  {
    map n | n in ready.Keys + early.Keys + factories.Keys ::
      if n in ready then ready[n] else if n in early then early[n] else factories[n]
  }

  function Cache(st: State): map<string, Handle>
  {
    CacheOf(st.ready, st.early, st.factories)
  }

  /** The ids whose creation has started and not been committed. */
  function Pending(st: State): set<string>
  {
    st.early.Keys + st.factories.Keys
  }

  /** `m'` keeps every entry of `m`. */
  predicate Extends<K, V(==)>(m: map<K, V>, m': map<K, V>)
  {
    forall k :: k in m ==> k in m' && m'[k] == m[k]
  }

  /** Object `h`, created for bean `n`, has its class and every property of `n` assigned. */
  predicate Wired(defs: map<string, BeanDef>, n: string, h: Handle, heap: map<Handle, Instance>, objects: map<string, Handle>)
  {
    && n in defs && h in heap
    && heap[h].bean == n
    && defs[n].beanClass == Some(heap[h].cls)
    && Declared(defs[n].props, heap[h].cls)
    && Resolvable(defs[n].props, objects.Keys)
    && heap[h].fields == Apply(map[], defs[n].props, objects)
  }

  predicate ReadyWired(defs: map<string, BeanDef>, ready: map<string, Handle>, heap: map<Handle, Instance>, objects: map<string, Handle>)
  {
    forall n :: n in ready ==> Wired(defs, n, ready[n], heap, objects)
  }

  predicate TiersDisjoint(ready: map<string, Handle>, early: map<string, Handle>, factories: map<string, Handle>)
  {
    && ready.Keys !! early.Keys
    && ready.Keys !! factories.Keys
    && early.Keys !! factories.Keys
  }

  /** Every id in creation is cached in exactly one tier, and every cached id is in creation. */
  predicate CreationTracked(st: State)
  {
    Tracked(st.ready, st.early, st.factories, st.inCreation)
  }

  predicate Tracked(ready: map<string, Handle>, early: map<string, Handle>, factories: map<string, Handle>, inCreation: set<string>)
  {
    && TiersDisjoint(ready, early, factories)
    && inCreation == ready.Keys + early.Keys + factories.Keys
  }

  /**
   * Handles are below the counter, and every object is the one the cache
   * holds for its bean: an id never owns two objects.
   */
  predicate HeapSound(heap: map<Handle, Instance>, next: Handle,
                      ready: map<string, Handle>, early: map<string, Handle>, factories: map<string, Handle>)
  {
    forall h :: h in heap ==> h < next && Owns(ready, early, factories, heap[h].bean, h)
  }

  /** One of the tiers holds `h` under `n`. */
  predicate Owns(ready: map<string, Handle>, early: map<string, Handle>, factories: map<string, Handle>, n: string, h: Handle)
  {
    || (n in ready && ready[n] == h)
    || (n in early && early[n] == h)
    || (n in factories && factories[n] == h)
  }

  /** A tier holds, under each id, the object created for that id. */
  predicate TierSound(tier: map<string, Handle>, heap: map<Handle, Instance>)
  {
    forall n :: n in tier ==> tier[n] in heap && heap[tier[n]].bean == n
  }

  /**
   * The container invariant, kept by every operation that succeeds. It is
   * bound to a name so that callers prove and use it as one fact rather
   * than clause by clause.
   */
  predicate Inv(defs: map<string, BeanDef>, st: State)
  {
    var sound := Sound(defs, st); sound
  }

  /** The clauses of the container invariant. */
  predicate Sound(defs: map<string, BeanDef>, st: State)
  {
    && CreationTracked(st)
    && st.inCreation <= defs.Keys
    && HeapSound(st.heap, st.next, st.ready, st.early, st.factories)
    && TierSound(st.early, st.heap)
    && TierSound(st.factories, st.heap)
    && ReadyWired(defs, st.ready, st.heap, Cache(st))
  }

  /** How a successful operation may move the container from `st` to `r`. */
  predicate Growth(st: State, r: State)
  {
    && st.inCreation <= r.inCreation
    && Extends(Cache(st), Cache(r))
    && Extends(st.ready, r.ready)
  }

  // ---------------------------------------------------------------------------
  // The failures, stated against the definitions alone.

  predicate DefOk(defs: map<string, BeanDef>, n: string)
    requires n in defs
  {
    && defs[n].beanClass.Some?
    && Declared(defs[n].props, defs[n].beanClass.value)
    && Resolvable(defs[n].props, defs.Keys)
  }

  /** Every definition resolves its class, names declared fields and refers to defined ids. */
  predicate WellFormed(defs: map<string, BeanDef>)
  {
    forall n :: n in defs ==> DefOk(defs, n)
  }

  /** The error reports a defect that the definitions really have. */
  predicate ErrorGenuine(defs: map<string, BeanDef>, e: Error)
  {
    match e
    case UnknownReference(n, y) =>
      n in defs && y !in defs
      && exists k :: 0 <= k < |defs[n].props| && defs[n].props[k].Ref? && defs[n].props[k].target == y
    case NoBeanClass(n, cn) =>
      n in defs && defs[n].beanClass.None? && defs[n].className == cn
    case UnknownField(n, f) =>
      n in defs && defs[n].beanClass.Some? && f !in defs[n].beanClass.value.fields
      && exists k :: 0 <= k < |defs[n].props| && defs[n].props[k].name == f
  }

  /** A reported error rules out well-formed definitions. */
  lemma GenuineErrorRefutes(defs: map<string, BeanDef>, e: Error)
    requires ErrorGenuine(defs, e)
    ensures !WellFormed(defs)
  {
    match e
    case UnknownReference(n, y) =>
      var k :| 0 <= k < |defs[n].props| && defs[n].props[k].Ref? && defs[n].props[k].target == y;
      assert !Resolvable(defs[n].props, defs.Keys);
    case NoBeanClass(n, _) =>
      assert !DefOk(defs, n);
    case UnknownField(n, f) =>
      var k :| 0 <= k < |defs[n].props| && defs[n].props[k].name == f;
      assert !Declared(defs[n].props, defs[n].beanClass.value);
  }

  // ---------------------------------------------------------------------------
  // The single steps of createBean, getSingleton(def) and populateBean.

  /** `singletonsCurrentlyInCreation.add(id)`. */
  function StartCreation(st: State, id: string): State
  {
    st.(inCreation := st.inCreation + {id})
  }

  /** `newInstance()`: a fresh object of the class with no field assigned. */
  function Instantiate(st: State, id: string, cls: BeanClass): State
  {
    st.(heap := st.heap[st.next := Instance(id, cls, map[])], next := st.next + 1)
  }

  /** Publishes the unpopulated object in the factory tier unless the id is already ready. */
  function PublishFactory(st: State, id: string, h: Handle): State
  {
    if id !in st.ready then st.(factories := st.factories[id := h], early := st.early - {id}) else st
  }

  /** Commits a created object to the ready tier and clears the other tiers for its id. */
  function Commit(st: State, id: string, h: Handle): State
  {
    st.(ready := st.ready[id := h], factories := st.factories - {id}, early := st.early - {id})
  }

  /** `Field.set`: assigns field `f` of object `h`. */
  function WriteField(st: State, h: Handle, f: string, v: Value): State
    requires h in st.heap
  {
    st.(heap := st.heap[h := st.heap[h].(fields := st.heap[h].fields[f := v])])
  }

  /** Committing moves an id from the early or factory tier to the ready tier: the cache is unchanged. */
  lemma CacheCommit(ready: map<string, Handle>, early: map<string, Handle>, factories: map<string, Handle>, id: string, h: Handle)
    requires id !in ready && (id in early || id in factories)
    requires id in CacheOf(ready, early, factories) && CacheOf(ready, early, factories)[id] == h
    ensures CacheOf(ready[id := h], early - {id}, factories - {id}) == CacheOf(ready, early, factories)
  {
    var c := CacheOf(ready, early, factories);
    var c' := CacheOf(ready[id := h], early - {id}, factories - {id});
    assert c.Keys == c'.Keys;
    forall n | n in c
      ensures c'[n] == c[n]
    {
    }
  }

  /** Promotion moves an id from the factory tier to the early tier: the cache is unchanged. */
  lemma CachePromote(ready: map<string, Handle>, early: map<string, Handle>, factories: map<string, Handle>, id: string)
    requires id !in ready && id !in early && id in factories
    ensures CacheOf(ready, early[id := factories[id]], factories - {id}) == CacheOf(ready, early, factories)
  {
    var c := CacheOf(ready, early, factories);
    var c' := CacheOf(ready, early[id := factories[id]], factories - {id});
    assert c.Keys == c'.Keys;
    forall n | n in c
      ensures c'[n] == c[n]
    {
    }
  }

  /** Publishing a new id in the factory tier adds exactly that id to the cache. */
  lemma CachePublish(ready: map<string, Handle>, early: map<string, Handle>, factories: map<string, Handle>, id: string, h: Handle)
    requires id !in ready && id !in early && id !in factories
    ensures id !in CacheOf(ready, early, factories)
    ensures CacheOf(ready, early, factories[id := h]) == CacheOf(ready, early, factories)[id := h]
  {
    var c := CacheOf(ready, early, factories)[id := h];
    var c' := CacheOf(ready, early, factories[id := h]);
    assert c.Keys == c'.Keys;
    forall n | n in c
      ensures c'[n] == c[n]
    {
    }
  }

  /** Ready objects keep their wiring when the heap keeps them and the cache only grows. */
  lemma ReadyWiredFrame(defs: map<string, BeanDef>, ready: map<string, Handle>, heap: map<Handle, Instance>,
                        heap': map<Handle, Instance>, objects: map<string, Handle>, objects': map<string, Handle>)
    requires ReadyWired(defs, ready, heap, objects)
    requires forall n :: n in ready ==> ready[n] in heap' && heap'[ready[n]] == heap[ready[n]]
    requires Extends(objects, objects')
    ensures ReadyWired(defs, ready, heap', objects')
  {
    forall n | n in ready
      ensures Wired(defs, n, ready[n], heap', objects')
    {
      ApplyStable(map[], defs[n].props, objects, objects');
    }
  }

  /** The object being populated: created for a pending bean, of that bean's class. */
  predicate Populating(defs: map<string, BeanDef>, st: State, h: Handle)
  {
    && Inv(defs, st)
    && h in st.heap
    && st.heap[h].bean in Pending(st)
    && st.heap[h].bean in defs
    && defs[st.heap[h].bean].beanClass == Some(st.heap[h].cls)
  }

  /** The state createBean populates in: the id started, instantiated and published as a factory. */
  function Created(st: State, id: string, cls: BeanClass): State
  {
    PublishFactory(Instantiate(StartCreation(st, id), id, cls), id, st.next)
  }

  /** Starting a creation, instantiating and publishing the factory entry keeps the invariant. */
  lemma CreationKeepsInv(defs: map<string, BeanDef>, st: State, id: string, cls: BeanClass)
    requires Inv(defs, st) && id in defs && id !in st.inCreation
    requires defs[id].beanClass == Some(cls)
    ensures Populating(defs, Created(st, id, cls), st.next)
  {
    CreationEffects(st, id, cls);
    var obj := Instance(id, cls, map[]);
    PublishTiers(st.ready, st.early, st.factories, st.inCreation, st.heap, st.next, id, obj);
    ReadyWiredFrame(defs, st.ready, st.heap, st.heap[st.next := obj], Cache(st), Cache(Created(st, id, cls)));
  }

  /** The fields of the state createBean populates in. */
  lemma CreatedShape(st: State, id: string, cls: BeanClass)
    requires id !in st.ready && id !in st.early
    ensures Created(st, id, cls) == st.(factories := st.factories[id := st.next], inCreation := st.inCreation + {id},
                                        heap := st.heap[st.next := Instance(id, cls, map[])], next := st.next + 1)
  {
    assert st.early - {id} == st.early;
  }

  /** A new object published under a new id keeps the tiers and the heap consistent. */
  lemma PublishTiers(ready: map<string, Handle>, early: map<string, Handle>, factories: map<string, Handle>,
                     inCreation: set<string>, heap: map<Handle, Instance>, next: Handle, id: string, obj: Instance)
    requires Tracked(ready, early, factories, inCreation) && id !in inCreation && obj.bean == id
    requires HeapSound(heap, next, ready, early, factories) && TierSound(early, heap) && TierSound(factories, heap)
    ensures Tracked(ready, early, factories[id := next], inCreation + {id})
    ensures HeapSound(heap[next := obj], next + 1, ready, early, factories[id := next])
    ensures TierSound(early, heap[next := obj]) && TierSound(factories[id := next], heap[next := obj])
  {
    var heap', factories' := heap[next := obj], factories[id := next];
    assert next !in heap;
    forall x | x in heap'
      ensures x < next + 1 && Owns(ready, early, factories', heap'[x].bean, x)
    {
      if x != next {
        assert Owns(ready, early, factories, heap[x].bean, x);
      }
    }
  }

  /** What createBean's first three steps do to the container. */
  lemma CreationEffects(st: State, id: string, cls: BeanClass)
    requires CreationTracked(st) && id !in st.inCreation
    requires forall h :: h in st.heap ==> h < st.next
    ensures var r := Created(st, id, cls);
      && r == st.(factories := st.factories[id := st.next], inCreation := st.inCreation + {id},
                  heap := st.heap[st.next := Instance(id, cls, map[])], next := st.next + 1)
      && Pending(r) == Pending(st) + {id}
      && Cache(r) == Cache(st)[id := st.next] && id !in Cache(st)
      && Extends(Cache(st), Cache(r)) && Extends(st.heap, r.heap)
  {
    assert id !in st.ready && id !in st.early && id !in st.factories;
    assert st.next !in st.heap;
    CreatedShape(st, id, cls);
    CachePublish(st.ready, st.early, st.factories, id, st.next);
  }

  /** Committing a populated object keeps the invariant. */
  lemma CommitKeepsInv(defs: map<string, BeanDef>, st: State, id: string, h: Handle)
    requires Inv(defs, st) && id in Pending(st) && id in Cache(st) && Cache(st)[id] == h
    requires Wired(defs, id, h, st.heap, Cache(st))
    ensures Inv(defs, Commit(st, id, h))
  {
    assert id !in st.ready;
    assert (id in st.early ==> st.early[id] == h) && (id in st.factories ==> st.factories[id] == h);
    CommitTiers(st.ready, st.early, st.factories, st.inCreation, st.heap, st.next, id, h);
    CacheCommit(st.ready, st.early, st.factories, id, h);
    CommitKeepsWiring(defs, st, id, h);
  }

  /** Moving a pending id's object to the ready tier keeps the tiers and the heap consistent. */
  lemma CommitTiers(ready: map<string, Handle>, early: map<string, Handle>, factories: map<string, Handle>,
                    inCreation: set<string>, heap: map<Handle, Instance>, next: Handle, id: string, h: Handle)
    requires Tracked(ready, early, factories, inCreation) && id !in ready && (id in early || id in factories)
    requires (id in early ==> early[id] == h) && (id in factories ==> factories[id] == h)
    requires HeapSound(heap, next, ready, early, factories) && TierSound(early, heap) && TierSound(factories, heap)
    ensures Tracked(ready[id := h], early - {id}, factories - {id}, inCreation)
    ensures HeapSound(heap, next, ready[id := h], early - {id}, factories - {id})
    ensures TierSound(early - {id}, heap) && TierSound(factories - {id}, heap)
  {
    var ready', early', factories' := ready[id := h], early - {id}, factories - {id};
    assert inCreation == ready'.Keys + early'.Keys + factories'.Keys;
    forall x | x in heap
      ensures Owns(ready', early', factories', heap[x].bean, x)
    {
      assert Owns(ready, early, factories, heap[x].bean, x);
    }
  }

  /** Committing keeps the cache, ends the id's pending state and only adds to the ready tier. */
  lemma CommitEffects(st: State, id: string, h: Handle)
    requires CreationTracked(st) && id in Pending(st) && id in Cache(st) && Cache(st)[id] == h
    ensures var r := Commit(st, id, h);
      && Cache(r) == Cache(st)
      && Pending(r) == Pending(st) - {id}
      && r.inCreation == st.inCreation && r.heap == st.heap
      && Extends(st.ready, r.ready) && id in r.ready && r.ready[id] == h
  {
    assert id !in st.ready;
    CacheCommit(st.ready, st.early, st.factories, id, h);
  }

  lemma CommitKeepsWiring(defs: map<string, BeanDef>, st: State, id: string, h: Handle)
    requires ReadyWired(defs, st.ready, st.heap, Cache(st))
    requires Wired(defs, id, h, st.heap, Cache(st))
    ensures ReadyWired(defs, st.ready[id := h], st.heap, Cache(st))
  {
  }

  /** Assigning a field of the object being populated keeps the invariant. */
  lemma WriteFieldKeepsInv(defs: map<string, BeanDef>, st: State, h: Handle, f: string, v: Value)
    requires Populating(defs, st, h)
    ensures var r := WriteField(st, h, f, v);
      && Populating(defs, r, h)
      && r.heap[h] == st.heap[h].(fields := st.heap[h].fields[f := v])
      && Extends(st.heap - {h}, r.heap)
  {
    var obj := st.heap[h].(fields := st.heap[h].fields[f := v]);
    assert st.heap[h].bean !in st.ready;
    WriteTiers(st.ready, st.early, st.factories, st.heap, st.next, h, obj);
    ReadyNotPopulating(defs, st.ready, st.heap, Cache(st), h);
    ReadyWiredFrame(defs, st.ready, st.heap, st.heap[h := obj], Cache(st), Cache(st));
  }

  /** Rewriting an object's fields keeps the tiers and the heap consistent. */
  lemma WriteTiers(ready: map<string, Handle>, early: map<string, Handle>, factories: map<string, Handle>,
                   heap: map<Handle, Instance>, next: Handle, h: Handle, obj: Instance)
    requires h in heap && obj.bean == heap[h].bean
    requires HeapSound(heap, next, ready, early, factories) && TierSound(early, heap) && TierSound(factories, heap)
    ensures HeapSound(heap[h := obj], next, ready, early, factories)
    ensures TierSound(early, heap[h := obj]) && TierSound(factories, heap[h := obj])
  {
  }

  /** An object whose bean is not ready is none of the ready objects, which therefore stay as they are. */
  lemma ReadyNotPopulating(defs: map<string, BeanDef>, ready: map<string, Handle>, heap: map<Handle, Instance>,
                           objects: map<string, Handle>, h: Handle)
    requires ReadyWired(defs, ready, heap, objects) && h in heap && heap[h].bean !in ready
    ensures forall n :: n in ready ==> ready[n] != h
  {
    forall n | n in ready
      ensures ready[n] != h
    {
      assert heap[ready[n]].bean == n;
    }
  }

  // ---------------------------------------------------------------------------
  // The five operations.

  /**
   * `getSingleton(name, allowEarlyReference)`: the ready object; failing that,
   * for an id in creation, its early object; failing that, when early
   * references are allowed, its factory object, which moves to the early tier.
   */
  function GetSingleton(st: State, name: string, allowEarly: bool): (res: (Option<Handle>, State))
    ensures name in st.ready ==> res == (Some(st.ready[name]), st)
    ensures name !in st.ready && name !in st.inCreation ==> res == (None, st)
    ensures res.0.Some? ==> name in Cache(st) && res.0.value == Cache(st)[name]
    ensures res.0.None? ==> res.1 == st
    ensures allowEarly && CreationTracked(st) && res.0.None? ==> name !in st.inCreation
    ensures res.1.ready == st.ready && res.1.inCreation == st.inCreation
    ensures res.1.heap == st.heap && res.1.next == st.next
    ensures Cache(res.1) == Cache(st) && Pending(res.1) == Pending(st)
    ensures CreationTracked(st) ==> CreationTracked(res.1)
    ensures TierSound(st.early, st.heap) && TierSound(st.factories, st.heap) ==>
      TierSound(res.1.early, res.1.heap) && TierSound(res.1.factories, res.1.heap)
  {
    if name in st.ready then (Some(st.ready[name]), st)
    else if name !in st.inCreation then (None, st)
    else if name in st.early then (Some(st.early[name]), st)
    else if allowEarly && name in st.factories then
      var h := st.factories[name];
      var r := st.(early := st.early[name := h], factories := st.factories - {name});
      CachePromote(st.ready, st.early, st.factories, name);
      (Some(h), r)
    else (None, st)
  }

  /**
   * `doGetBean`: an object already cached or handed out early, else
   * the object `getSingleton(def)` creates and commits.
   */
  function DoGetBean(defs: map<string, BeanDef>, st: State, id: string): (res: (Result<Handle>, State))
    requires Inv(defs, st) && id in defs
    decreases defs.Keys - st.inCreation, 3
    ensures res.0.Ok? ==> Resolved(defs, st, id, res.0.value, res.1)
    ensures res.0.Err? ==> ErrorGenuine(defs, res.0.error)
  {
    var shared := GetSingleton(st, id, true);
    if shared.0.Some? then
      EarlyHit(defs, st, id);
      (Ok(shared.0.value), shared.1)
    else
      var got := GetOrCreateSingleton(defs, st, id);
      if got.0.Ok? then
        CommittedResolved(defs, st, id, got.0.value, got.1);
        got
      else got
  }

  /** A hit of getSingleton(id, true) resolves the id without creating anything. */
  lemma EarlyHit(defs: map<string, BeanDef>, st: State, id: string)
    requires Inv(defs, st) && GetSingleton(st, id, true).0.Some?
    ensures var (b, r) := GetSingleton(st, id, true); Resolved(defs, st, id, b.value, r)
  {
    var (b, r) := GetSingleton(st, id, true);
    if id !in st.ready && id !in st.early {
      PromoteTiers(st.ready, st.early, st.factories, st.inCreation, st.heap, st.next, id);
    }
    ReadyWiredFrame(defs, st.ready, st.heap, r.heap, Cache(st), Cache(r));
    assert Extends(st.ready, r.ready) && Extends(Cache(st), Cache(r)) && Extends(st.heap, r.heap);
  }

  /** Moving a factory object to the early tier keeps the tiers and the heap consistent. */
  lemma PromoteTiers(ready: map<string, Handle>, early: map<string, Handle>, factories: map<string, Handle>,
                     inCreation: set<string>, heap: map<Handle, Instance>, next: Handle, id: string)
    requires Tracked(ready, early, factories, inCreation) && id in factories && id !in ready && id !in early
    requires HeapSound(heap, next, ready, early, factories) && TierSound(early, heap) && TierSound(factories, heap)
    ensures Tracked(ready, early[id := factories[id]], factories - {id}, inCreation)
    ensures HeapSound(heap, next, ready, early[id := factories[id]], factories - {id})
    ensures TierSound(early[id := factories[id]], heap) && TierSound(factories - {id}, heap)
  {
    var early', factories' := early[id := factories[id]], factories - {id};
    assert inCreation == ready.Keys + early'.Keys + factories'.Keys;
    forall x | x in heap
      ensures Owns(ready, early', factories', heap[x].bean, x)
    {
      assert Owns(ready, early, factories, heap[x].bean, x);
    }
  }

  /** A committed id is resolved to its ready object. */
  lemma CommittedResolved(defs: map<string, BeanDef>, st: State, id: string, h: Handle, r: State)
    requires Committed(defs, st, id, h, r)
    ensures Resolved(defs, st, id, h, r)
  {
  }

  /** `r` is `st` after resolving `id` to `h`: the invariant holds and nothing cached is lost. */
  predicate Resolved(defs: map<string, BeanDef>, st: State, id: string, h: Handle, r: State)
  {
    && Inv(defs, r) && Growth(st, r)
    && Pending(r) == Pending(st) && Extends(st.heap, r.heap)
    && id in Cache(r) && Cache(r)[id] == h
  }

  /**
   * `getSingleton(beanDefinition)`: the ready object when there is one;
   * otherwise creates the bean and commits it to the ready tier.
   */
  function GetOrCreateSingleton(defs: map<string, BeanDef>, st: State, id: string): (res: (Result<Handle>, State))
    requires Inv(defs, st) && id in defs
    requires id in st.inCreation ==> id in st.ready
    decreases defs.Keys - st.inCreation, 2
    ensures id in st.ready ==> res == (Ok(st.ready[id]), st)
    ensures res.0.Ok? ==> Committed(defs, st, id, res.0.value, res.1)
    ensures res.0.Err? ==> ErrorGenuine(defs, res.0.error)
  {
    if id in st.ready then
      assert Extends(st.ready, st.ready) && Extends(Cache(st), Cache(st)) && Extends(st.heap, st.heap);
      (Ok(st.ready[id]), st)
    else
      var made := CreateBean(defs, st, id);
      if made.0.Err? then made
      else
        CommitOk(defs, st, id, made.0.value, made.1);
        (Ok(made.0.value), Commit(made.1, id, made.0.value))
  }

  /** `r` holds `h` as the ready, fully wired object of `id`, and nothing else lost from `st`. */
  predicate Committed(defs: map<string, BeanDef>, st: State, id: string, h: Handle, r: State)
  {
    && Inv(defs, r) && Growth(st, r)
    && Pending(r) == Pending(st) && Extends(st.heap, r.heap)
    && id in r.ready && r.ready[id] == h
    && id !in r.early && id !in r.factories
    && Wired(defs, id, h, r.heap, Cache(r))
  }

  /** getSingleton(def)'s postcondition from createBean's. */
  lemma CommitOk(defs: map<string, BeanDef>, st: State, id: string, h: Handle, made: State)
    requires CreationTracked(st) && id !in st.inCreation
    requires BuiltFrom(defs, st, id, h, made)
    ensures Committed(defs, st, id, h, Commit(made, id, h))
  {
    assert id !in Pending(st);
    CommitKeepsInv(defs, made, id, h);
    CommitEffects(made, id, h);
    ExtendsTrans(st.ready, made.ready, Commit(made, id, h).ready);
  }

  /**
   * `createBean`: marks the id in creation, instantiates its class, publishes
   * the unpopulated object in the factory tier and only then populates it.
   */
  function CreateBean(defs: map<string, BeanDef>, st: State, id: string): (res: (Result<Handle>, State))
    requires Inv(defs, st) && id in defs && id !in st.inCreation
    decreases defs.Keys - st.inCreation, 1
    ensures res.0.Ok? ==> res.0.value !in st.heap && BuiltFrom(defs, st, id, res.0.value, res.1)
    ensures res.0.Err? ==> ErrorGenuine(defs, res.0.error)
  {
    var started := StartCreation(st, id);
    var d := defs[id];
    if d.beanClass.None? then (Err(NoBeanClass(id, d.className)), started)
    else
      var h := started.next;
      CreationKeepsInv(defs, st, id, d.beanClass.value);
      var populated := Populate(defs, Created(st, id, d.beanClass.value), h, d.props, 0);
      if populated.0.Err? then (Err(populated.0.error), populated.1)
      else
        CreateBeanOk(defs, st, id, d.beanClass.value, populated.1);
        (Ok(h), populated.1)
  }

  /** A successful createBean(`id`) from `st` reached `r` with `h` as the id's object. */
  predicate BuiltFrom(defs: map<string, BeanDef>, st: State, id: string, h: Handle, r: State)
  {
    && Inv(defs, r) && Growth(st, r)
    && Pending(r) == Pending(st) + {id} && Extends(st.heap, r.heap)
    && id in Cache(r) && Cache(r)[id] == h
    && Wired(defs, id, h, r.heap, Cache(r))
  }

  /** A successful populateBean of `h` with `ps`, from `st`, reached `r`. */
  predicate PopulatedFrom(defs: map<string, BeanDef>, st: State, h: Handle, ps: seq<Prop>, r: State)
  {
    Inv(defs, r) && Populated(st, h, ps, r)
  }

  /** `r` differs from `st` by resolved beans and by the properties `ps` assigned to `h`. */
  predicate Populated(st: State, h: Handle, ps: seq<Prop>, r: State)
  {
    && Growth(st, r)
    && Pending(r) == Pending(st) && Extends(st.heap - {h}, r.heap)
    && h in st.heap && h in r.heap
    && r.heap[h].bean == st.heap[h].bean && r.heap[h].cls == st.heap[h].cls
    && Declared(ps, st.heap[h].cls)
    && Resolvable(ps, Cache(r).Keys)
    && r.heap[h].fields == Apply(st.heap[h].fields, ps, Cache(r))
  }

  /** createBean's postcondition from populateBean's. */
  lemma CreateBeanOk(defs: map<string, BeanDef>, st: State, id: string, cls: BeanClass, r: State)
    requires CreationTracked(st) && id !in st.inCreation && (forall h :: h in st.heap ==> h < st.next)
    requires id in defs && defs[id].beanClass == Some(cls)
    requires PopulatedFrom(defs, Created(st, id, cls), st.next, defs[id].props, r)
    ensures st.next !in st.heap && BuiltFrom(defs, st, id, st.next, r)
  {
    var mid := Created(st, id, cls);
    CreationEffects(st, id, cls);
    assert st.next !in st.heap;
    ExtendsSkip(st.heap, mid.heap, r.heap, st.next);
    ExtendsTrans(Cache(st), Cache(mid), Cache(r));
    ExtendsTrans(st.ready, mid.ready, r.ready);
    assert mid.heap[st.next] == Instance(id, cls, map[]);
  }

  /** Entries kept from `m1` to `m2`, and from `m2` except `h` to `m3`, are kept from `m1` when it lacks `h`. */
  lemma ExtendsSkip<K, V>(m1: map<K, V>, m2: map<K, V>, m3: map<K, V>, h: K)
    requires h !in m1 && Extends(m1, m2) && Extends(m2 - {h}, m3)
    ensures Extends(m1, m3)
  {
    forall k | k in m1
      ensures k in m3 && m3[k] == m1[k]
    {
      assert k in m2 - {h};
    }
  }

  /**
   * `populateBean` from property `i` on: a literal sets its field to the
   * string; a ref sets it to the target's ready object, or else to what
   * `doGetBean` returns for the target. The field is looked up first.
   */
  function Populate(defs: map<string, BeanDef>, st: State, h: Handle, props: seq<Prop>, i: nat): (res: (Result<()>, State))
    requires Populating(defs, st, h)
    requires props == defs[st.heap[h].bean].props && i <= |props|
    decreases defs.Keys - st.inCreation, 4, |props| - i
    ensures res.0.Ok? ==> PopulatedFrom(defs, st, h, props[i..], res.1)
    ensures res.0.Err? ==> ErrorGenuine(defs, res.0.error)
  {
    if i == |props| then
      PopulateDone(defs, st, h, props, i);
      (Ok(()), st)
    else
      var p := props[i];
      var inst := st.heap[h];
      if p.name !in inst.cls.fields then (Err(UnknownField(inst.bean, p.name)), st)
      else if p.Literal? || p.target in st.ready then
        var v := if p.Literal? then Str(p.value) else Obj(st.ready[p.target]);
        AssignDirect(defs, st, h, props, i);
        PopulateNext(defs, st, WriteField(st, h, p.name, v), h, props, i)
      else if p.target !in defs then (Err(UnknownReference(inst.bean, p.target)), st)
      else
        var got := DoGetBean(defs, st, p.target);
        if got.0.Err? then (Err(got.0.error), got.1)
        else
          AssignResolved(defs, st, got.0.value, got.1, h, props, i);
          PopulateNext(defs, st, WriteField(got.1, h, p.name, Obj(got.0.value)), h, props, i)
  }

  /** Property `i` has been assigned in `mid`; continues with property `i + 1`. */
  function PopulateNext(defs: map<string, BeanDef>, st: State, mid: State, h: Handle, props: seq<Prop>, i: nat): (res: (Result<()>, State))
    requires Assigned(defs, st, mid, h, props, i)
    decreases defs.Keys - st.inCreation, 4, |props| - i, 0
    ensures res.0.Ok? ==> PopulatedFrom(defs, st, h, props[i..], res.1)
    ensures res.0.Err? ==> ErrorGenuine(defs, res.0.error)
  {
    var rest := Populate(defs, mid, h, props, i + 1);
    if rest.0.Ok? then
      PopulateStep(st, mid, h, props, i, rest.1);
      rest
    else rest
  }

  /** `mid` is `st` with property `i` assigned to `h`, after whatever resolving its target took. */
  predicate Assigned(defs: map<string, BeanDef>, st: State, mid: State, h: Handle, props: seq<Prop>, i: nat)
  {
    && Populating(defs, st, h) && Populating(defs, mid, h)
    && props == defs[st.heap[h].bean].props
    && AssignedOne(st, mid, h, props, i)
  }

  /** `mid` differs from `st` by resolved beans and by property `i` assigned to `h`. */
  predicate AssignedOne(st: State, mid: State, h: Handle, props: seq<Prop>, i: nat)
  {
    && i < |props| && h in st.heap && h in mid.heap
    && Growth(st, mid) && Pending(mid) == Pending(st) && Extends(st.heap - {h}, mid.heap)
    && props[i].name in st.heap[h].cls.fields
    && (props[i].Ref? ==> props[i].target in Cache(mid))
    && mid.heap[h] == st.heap[h].(fields := st.heap[h].fields[props[i].name := ValueOf(props[i], Cache(mid))])
  }

  lemma PopulateDone(defs: map<string, BeanDef>, st: State, h: Handle, props: seq<Prop>, i: nat)
    requires Populating(defs, st, h) && i == |props|
    ensures PopulatedFrom(defs, st, h, props[i..], st)
  {
    assert props[i..] == [];
    assert Extends(st.ready, st.ready) && Extends(Cache(st), Cache(st)) && Extends(st.heap - {h}, st.heap);
  }

  /** A literal, or a ref whose target is ready, is assigned straight away. */
  lemma AssignDirect(defs: map<string, BeanDef>, st: State, h: Handle, props: seq<Prop>, i: nat)
    requires Populating(defs, st, h)
    requires props == defs[st.heap[h].bean].props && i < |props|
    requires props[i].name in st.heap[h].cls.fields
    requires props[i].Literal? || props[i].target in st.ready
    ensures Assigned(defs, st, WriteField(st, h, props[i].name, if props[i].Literal? then Str(props[i].value) else Obj(st.ready[props[i].target])), h, props, i)
  {
    var v := if props[i].Literal? then Str(props[i].value) else Obj(st.ready[props[i].target]);
    var mid := WriteField(st, h, props[i].name, v);
    WriteFieldKeepsInv(defs, st, h, props[i].name, v);
    assert Cache(mid) == Cache(st);
    assert Extends(st.ready, mid.ready) && Extends(Cache(st), Cache(mid));
  }

  /** A ref resolved by doGetBean is assigned the object it resolved to. */
  lemma AssignResolved(defs: map<string, BeanDef>, st: State, got: Handle, r: State, h: Handle, props: seq<Prop>, i: nat)
    requires Populating(defs, st, h)
    requires props == defs[st.heap[h].bean].props && i < |props|
    requires props[i].name in st.heap[h].cls.fields && props[i].Ref?
    requires Resolved(defs, st, props[i].target, got, r)
    ensures h in r.heap && Assigned(defs, st, WriteField(r, h, props[i].name, Obj(got)), h, props, i)
  {
    ResolvedKeepsPopulating(defs, st, props[i].target, got, r, h);
    WriteFieldKeepsInv(defs, r, h, props[i].name, Obj(got));
    var mid := WriteField(r, h, props[i].name, Obj(got));
    ExtendsAround(st.heap, r.heap, mid.heap, h);
  }

  /** Resolving another bean leaves the object being populated as it was. */
  lemma ResolvedKeepsPopulating(defs: map<string, BeanDef>, st: State, id: string, got: Handle, r: State, h: Handle)
    requires Populating(defs, st, h) && Resolved(defs, st, id, got, r)
    ensures Populating(defs, r, h) && r.heap[h] == st.heap[h]
  {
  }

  /** Entries other than `h` kept from `m1` to `m2` and from `m2` to `m3` are kept from `m1` to `m3`. */
  lemma ExtendsAround<K, V>(m1: map<K, V>, m2: map<K, V>, m3: map<K, V>, h: K)
    requires Extends(m1, m2) && Extends(m2 - {h}, m3)
    ensures Extends(m1 - {h}, m3)
  {
    forall k | k in m1 - {h}
      ensures k in m3 && m3[k] == m1[k]
    {
      assert k in m2 - {h};
    }
  }

  /** The loop step of populateBean, for a literal or a ref whose target is ready. */
  lemma PopulateAssigns(defs: map<string, BeanDef>, st: State, mid: State, h: Handle, props: seq<Prop>, i: nat)
    requires Populating(defs, st, h)
    requires props == defs[st.heap[h].bean].props && i < |props|
    requires props[i].name in st.heap[h].cls.fields
    requires props[i].Literal? || props[i].target in st.ready
    requires mid == WriteField(st, h, props[i].name, if props[i].Literal? then Str(props[i].value) else Obj(st.ready[props[i].target]))
    ensures Populating(defs, mid, h) && mid.heap[h].bean == st.heap[h].bean && st.inCreation <= mid.inCreation
    ensures Populate(defs, st, h, props, i) == Populate(defs, mid, h, props, i + 1)
  {
    AssignDirect(defs, st, h, props, i);
  }

  /** The loop step of populateBean, for a ref resolved by doGetBean. */
  lemma PopulateResolves(defs: map<string, BeanDef>, st: State, mid: State, h: Handle, props: seq<Prop>, i: nat)
    requires Populating(defs, st, h)
    requires props == defs[st.heap[h].bean].props && i < |props|
    requires props[i].name in st.heap[h].cls.fields
    requires props[i].Ref? && props[i].target !in st.ready && props[i].target in defs
    requires DoGetBean(defs, st, props[i].target).0.Ok?
    requires var (got, r) := DoGetBean(defs, st, props[i].target);
      h in r.heap && mid == WriteField(r, h, props[i].name, Obj(got.value))
    ensures Populating(defs, mid, h) && mid.heap[h].bean == st.heap[h].bean && st.inCreation <= mid.inCreation
    ensures Populate(defs, st, h, props, i) == Populate(defs, mid, h, props, i + 1)
  {
    var (got, r) := DoGetBean(defs, st, props[i].target);
    AssignResolved(defs, st, got.value, r, h, props, i);
  }

  /** The ways the loop of populateBean stops at property `i`: the end of the list, or one of its errors. */
  lemma PopulateStops(defs: map<string, BeanDef>, st: State, h: Handle, props: seq<Prop>, i: nat)
    requires Populating(defs, st, h)
    requires props == defs[st.heap[h].bean].props && i <= |props|
    ensures i == |props| ==> Populate(defs, st, h, props, i) == (Ok(()), st)
    ensures i < |props| && props[i].name !in st.heap[h].cls.fields ==>
      Populate(defs, st, h, props, i) == (Err(UnknownField(st.heap[h].bean, props[i].name)), st)
    ensures (i < |props| && props[i].name in st.heap[h].cls.fields && props[i].Ref?
             && props[i].target !in st.ready && props[i].target !in defs) ==>
      Populate(defs, st, h, props, i) == (Err(UnknownReference(st.heap[h].bean, props[i].target)), st)
    ensures (i < |props| && props[i].name in st.heap[h].cls.fields && props[i].Ref?
             && props[i].target !in st.ready && props[i].target in defs) ==>
      var (got, r) := DoGetBean(defs, st, props[i].target);
      got.Err? ==> Populate(defs, st, h, props, i) == (Err(got.error), r)
  {
  }

  lemma ExtendsTrans<K, V>(m1: map<K, V>, m2: map<K, V>, m3: map<K, V>)
    requires Extends(m1, m2) && Extends(m2, m3)
    ensures Extends(m1, m3)
  {
  }

  lemma GrowthTrans(s1: State, s2: State, s3: State)
    requires Growth(s1, s2) && Growth(s2, s3)
    ensures Growth(s1, s3)
  {
    ExtendsTrans(Cache(s1), Cache(s2), Cache(s3));
    ExtendsTrans(s1.ready, s2.ready, s3.ready);
  }

  /** One assigned property followed by the rest of the list is the whole list from `i`. */
  lemma PopulateStep(st: State, mid: State, h: Handle, props: seq<Prop>, i: nat, r: State)
    requires AssignedOne(st, mid, h, props, i)
    requires Populated(mid, h, props[i + 1..], r)
    ensures Populated(st, h, props[i..], r)
  {
    var ps := props[i..];
    assert ps[1..] == props[i + 1..];
    assert ps[0] == props[i];
    GrowthTrans(st, mid, r);
    ExtendsAround(st.heap - {h}, mid.heap, r.heap, h);
    assert st.heap - {h} - {h} == st.heap - {h};
    assert Declared(ps, st.heap[h].cls);
    assert Resolvable(ps, Cache(r).Keys);
    assert ValueOf(props[i], Cache(mid)) == ValueOf(props[i], Cache(r));
    assert Apply(st.heap[h].fields, ps, Cache(r))
        == Apply(st.heap[h].fields[props[i].name := ValueOf(props[i], Cache(r))], props[i + 1..], Cache(r));
  }

  /** `doLoadBeanDefinitions` from name `i` on: resolves every registered name in order. */
  function LoadFrom(defs: map<string, BeanDef>, names: seq<string>, st: State, i: nat): (res: (Result<()>, State))
    requires Inv(defs, st) && i <= |names|
    requires forall n :: n in names ==> n in defs
    decreases |names| - i
    ensures res.0.Ok? ==>
      && Inv(defs, res.1) && Growth(st, res.1) && Pending(res.1) == Pending(st)
      && forall k :: i <= k < |names| ==> names[k] in Cache(res.1)
    ensures res.0.Err? ==> ErrorGenuine(defs, res.0.error)
  {
    if i == |names| then (Ok(()), st)
    else
      var got := DoGetBean(defs, st, names[i]);
      if got.0.Err? then (Err(got.0.error), got.1)
      else
        var rest := LoadFrom(defs, names, got.1, i + 1);
        if rest.0.Ok? then
          LoadExtends(st, got.1, rest.1, names, i);
          rest
        else rest
  }

  /** Resolving `names[i]` and then the names after it leaves every name from `i` on cached. */
  lemma LoadExtends(st: State, mid: State, r: State, names: seq<string>, i: nat)
    requires i < |names|
    requires Growth(st, mid) && Pending(mid) == Pending(st) && names[i] in Cache(mid)
    requires Growth(mid, r) && Pending(r) == Pending(mid)
    requires forall k :: i + 1 <= k < |names| ==> names[k] in Cache(r)
    ensures Growth(st, r) && Pending(r) == Pending(st)
    ensures forall k :: i <= k < |names| ==> names[k] in Cache(r)
  {
    GrowthTrans(st, mid, r);
  }

  /** One name of doLoadBeanDefinitions: stop on its error, otherwise go on with the next name. */
  lemma LoadStep(defs: map<string, BeanDef>, names: seq<string>, st: State, i: nat, got: Result<Handle>, r: State)
    requires Inv(defs, st) && i < |names|
    requires forall n :: n in names ==> n in defs
    requires (got, r) == DoGetBean(defs, st, names[i])
    ensures got.Err? ==> LoadFrom(defs, names, st, i) == (Err(got.error), r)
    ensures got.Ok? ==> Inv(defs, r) && LoadFrom(defs, names, st, i) == LoadFrom(defs, names, r, i + 1)
  {
  }

  /** Past the last name, doLoadBeanDefinitions has nothing left to do. */
  lemma LoadDone(defs: map<string, BeanDef>, names: seq<string>, st: State)
    requires Inv(defs, st) && forall n :: n in names ==> n in defs
    ensures LoadFrom(defs, names, st, |names|) == (Ok(()), st)
  {
  }

  /** The whole load: every registered name resolved from an empty container. */
  function Load(defs: map<string, BeanDef>, names: seq<string>): (res: (Result<()>, State))
    requires forall n :: n in names ==> n in defs
    ensures res.0.Ok? ==>
      && Inv(defs, res.1) && res.1.early == map[] && res.1.factories == map[]
      && forall n :: n in names ==> n in res.1.ready
    ensures res.0.Err? ==> ErrorGenuine(defs, res.0.error)
  {
    assert Inv(defs, Empty());
    var res := LoadFrom(defs, names, Empty(), 0);
    if res.0.Ok? then
      Settled(res.1);
      res
    else res
  }

  /** With nothing pending, the cache is the ready tier. */
  lemma Settled(st: State)
    requires Pending(st) == {}
    ensures st.early == map[] && st.factories == map[] && Cache(st) == st.ready
  {
    assert st.early.Keys == {} && st.factories.Keys == {};
  }

  /** `getBean`: the ready object of the name, if any; never an early one. */
  function GetBean(st: State, name: string): (b: Option<Handle>)
    ensures b.Some? <==> name in st.ready
    ensures b.Some? ==> b.value == st.ready[name]
  {
    if name in st.ready then Some(st.ready[name]) else None
  }
}
