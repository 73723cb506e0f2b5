# IOC_1 bean resolution in Dafny

This project models the bean-resolution core of the small inversion-of-control
container `ioc.entity.IOC_1`. A loader hands over `<bean>` declarations. Each
declaration has an id, a class name, and properties that are either literals or
refs to other bean ids. The container registers each declaration, then resolves
every registered name, in order, into a singleton object whose fields are set
from the properties.

A ref to a bean that is still being created is satisfied from a three-tier
cache:

- `singletonObjects` (`ready`) holds finished objects.
- `earlySingletonObjects` (`early`) holds objects already handed out unpopulated.
- `singletonFactories` (`factories`) holds objects published by `createBean`
  before they are populated.

`singletonsCurrentlyInCreation` (`inCreation`) records every id whose creation
has started. This cache is what lets two beans refer to each other.

The project has four modules:

- `Beans` (`beans.dfy`): the values.
  - Declarations, definitions, properties, objects and errors.
  - How a `<property>` element's `name`, `value` and `ref` attributes are
    classified into a literal or a ref, element by element.
  - `Class.forName` as a lookup in a class table.
  - Registration into `beanNames` and `beanClassMap`.
  - `Apply`, the meaning of a property list: the fields an object ends with
    once the properties are assigned in order.
- `Resolution` (`resolution.dfy`): the resolution engine as functions from one
  container snapshot (`State`) to a result and the next snapshot:
  `GetSingleton`, `DoGetBean`, `GetOrCreateSingleton`, `CreateBean`, `Populate`,
  `LoadFrom`/`Load` and `GetBean`.
  - Their contracts keep the container invariant `Inv`:
    - The tiers are disjoint.
    - The ids in creation are exactly the cached ids.
    - Every object belongs to the one tier entry of its bean, so no bean has two objects.
    - Every ready object is fully wired.
  - They also state that every reported error is a real defect of the
    definitions (`ErrorGenuine`).
  - The recursion `doGetBean → getSingleton(def) → createBean → populateBean → doGetBean`
    terminates. Its measure is the set of defined ids not yet in creation, which
    shrinks at every `createBean`.
- `Properties` (`properties.dfy`): what a load promises.
  - The load succeeds if and only if the definitions are well formed.
  - Every bean ends ready and wired.
  - Every bean is instantiated once.
  - Resolution is stable, and promotion from the factory tier happens once.
  - Two beans that refer to each other end up holding each other's ready objects.
- `IocContainer` (`container.dfy`): the container as a `class`.
  - The collections are fields, updated in place.
  - The `while` loops of the registration, of `doLoadBeanDefinitions` and of
    `populateBean` are proved, with their invariants, to compute the `Beans`
    and `Resolution` functions.
  - Every property proved of those functions therefore holds of the container.

Java objects are modelled as natural-number handles into a heap, and
`newInstance()` hands out the next handle. A class is its name plus the set of
its declared field names. `Field.set` is a map update on the object's fields.
The errors carry the id of the bean being resolved, which is more than the Java
exceptions carry. The Java errors are:

- a `NullPointerException` from `doGetBean(null)` for a ref to an undefined id
  (`UnknownReference`);
- a `NullPointerException` from `newInstance()` on a class that did not load
  (`NoBeanClass`);
- a `NoSuchFieldException` (`UnknownField`).

A failed load is not rolled back: beans committed before the failure stay in
`singletonObjects`, and the model keeps them. On an error, the state returned,
and so the container's fields, is the state at the point of failure.

## Model

| member | source | states |
|---|---|---|
| Beans.ClassifyProperty | ioc/entity/IOC_1.java:84-94 | A property is a literal exactly when its `value` attribute is non-empty, and then it keeps that value. Otherwise it is a ref whose target is the `ref` attribute. The name is kept in both cases. |
| Beans.ClassifyAttributes | ioc/entity/IOC_1.java:84-94 | Classifying the attributes a property is written with gives back the same property, for every property whose literal is non-empty. |
| Beans.LiteralTakesPrecedence | ioc/entity/IOC_1.java:87-94 | With a non-empty `value`, the `ref` attribute makes no difference: the property is that literal. |
| Beans.ClassifyProperties | ioc/entity/IOC_1.java:78-98 | A bean's property list has one entry per property element, in document order. Entry k is element k classified. No literal has an empty value. |
| Beans.GetBeanClass | ioc/entity/IOC_1.java:241-249 | The class exists exactly when its name is on the class path. It then carries that name and its declared fields. Otherwise the result is none, as after the swallowed `ClassNotFoundException`. |
| Beans.BeanNames | ioc/entity/IOC_1.java:100 | `beanNames` holds one entry per declaration, in document order: entry k is the id of declaration k, duplicates included. |
| Beans.BeanClassMap | ioc/entity/IOC_1.java:101 | The ids `beanClassMap` defines are exactly the registered names. |
| Beans.BeanClassMapLast | ioc/entity/IOC_1.java:101 | An id maps to its last declaration: a later `put` replaces an earlier one. |
| Beans.ApplyUntouched | ioc/entity/IOC_1.java:210-233 | A field that no property names keeps what it held, including staying unassigned. |
| Beans.ApplyLastWrite | ioc/entity/IOC_1.java:210-233 | After the properties are assigned in order, a field holds the value of the last property naming it. |
| Resolution.GetSingleton | ioc/entity/IOC_1.java:144-160 | The result depends on where the name is cached. <br>• Ready: its ready object, with nothing changed. <br>• Not in creation: none, with nothing changed. <br>• Any object returned is the one the cache holds for the name. <br>• A miss changes nothing, and with early references allowed it means the name is not in creation. <br>• The ready tier, the in-creation set, the heap, the cache and the pending ids are unchanged. <br>• The tier invariants are kept. |
| Resolution.DoGetBean | ioc/entity/IOC_1.java:120-135 | Success resolves the id to the object the new state caches for it. The invariant holds and nothing cached, ready or on the heap is lost. No id becomes or stops being pending. A failure reports a genuine defect. |
| Resolution.GetOrCreateSingleton | ioc/entity/IOC_1.java:168-178 | A ready id returns its object, with nothing changed: nothing is re-created. Otherwise success commits the created object to the ready tier, fully wired, with no early or factory entry left for the id, and the invariant kept. A failure reports a genuine defect. |
| Resolution.CreateBean | ioc/entity/IOC_1.java:189-199 | Success returns a new object: one not on the old heap. The object is cached as the id's object and is wired with all of the definition's properties. The id is now pending. The invariant holds and nothing earlier is lost. A failure reports a genuine defect. |
| Resolution.Populate | ioc/entity/IOC_1.java:208-234 | Success from property `i` leaves the object with `Apply` of the remaining properties over its fields, with refs taken as the objects the cache holds. Every named field is declared by the class and every ref resolves. The object's bean and class are unchanged, and nothing else on the heap or in the cache is lost. A failure reports a genuine defect. |
| Resolution.LoadFrom | ioc/entity/IOC_1.java:111-118 | Success resolves every name from `i` on into the cache, keeps the invariant and leaves the pending ids as they were. A failure reports a genuine defect. |
| Resolution.Load | ioc/entity/IOC_1.java:104-118 | A successful load from an empty container leaves every registered name ready and the early and factory tiers empty, with the invariant holding. A failure reports a genuine defect. |
| Resolution.GetBean | ioc/entity/IOC_1.java:42-45 | `getBean` returns an object exactly when the name is ready, and then returns the ready object. An early or factory object is never returned. |
| Resolution.GenuineErrorRefutes | ioc/entity/IOC_1.java:192-229 | Each error the resolution reports shows that the definitions are not well formed. |
| Resolution.EarlyHit | ioc/entity/IOC_1.java:126-128 | An object found by `getSingleton(id, true)` resolves the id without creating anything, and the invariant is kept. |
| Resolution.PromoteTiers | ioc/entity/IOC_1.java:150-156 | Moving the factory object to the early tier keeps the tiers disjoint and the creation tracked, and every object still belongs to its bean's tier entry. |
| Resolution.CachePromote | ioc/entity/IOC_1.java:153-155 | Promotion leaves the object every id resolves to unchanged. |
| Resolution.CacheCommit | ioc/entity/IOC_1.java:173-175 | Committing leaves the object every id resolves to unchanged. |
| Resolution.CachePublish | ioc/entity/IOC_1.java:193-195 | Publishing the new object in the factory tier adds exactly that id to the cache. |
| Resolution.CommitTiers | ioc/entity/IOC_1.java:173-175 | Moving a pending id's object to the ready tier keeps the tiers disjoint and the creation tracked, and every object still belongs to its bean's tier entry. |
| Resolution.CommitEffects | ioc/entity/IOC_1.java:173-175 | Committing keeps the cache, the in-creation set and the heap. It ends the id's pending state and only adds the id to the ready tier. |
| Resolution.CommitKeepsInv | ioc/entity/IOC_1.java:173-175 | Committing a wired, pending object keeps the container invariant. |
| Resolution.CommitOk | ioc/entity/IOC_1.java:171-176 | A successful `createBean` followed by the commit leaves the id ready, wired, and with no early or factory entry. |
| Resolution.CreationEffects | ioc/entity/IOC_1.java:191-196 | The first three steps of `createBean` give the new state exactly: <br>• the id is added to the in-creation set; <br>• a field-less object of the class gets the next handle; <br>• that object is published in the factory tier. <br>The id becomes pending, and the cache gains exactly that id. |
| Resolution.CreationKeepsInv | ioc/entity/IOC_1.java:191-196 | After those steps the invariant holds and the new object is ready to be populated. |
| Resolution.CreateBeanOk | ioc/entity/IOC_1.java:197-198 | A successful `populateBean` of the new object completes `createBean`'s postcondition. |
| Resolution.WriteFieldKeepsInv | ioc/entity/IOC_1.java:217-221 | Assigning a field of the object being populated changes only that field of that object and keeps the invariant. |
| Resolution.ReadyNotPopulating | ioc/entity/IOC_1.java:217-227 | The object being populated is none of the ready objects, so assigning its fields leaves every ready object unchanged. |
| Resolution.AssignDirect | ioc/entity/IOC_1.java:220-227 | A literal, or a ref whose target is ready, assigns the string or the ready object to the field, and nothing else changes. |
| Resolution.AssignResolved | ioc/entity/IOC_1.java:229-230 | A ref resolved by `doGetBean` assigns the object it resolved to, and the object being populated is otherwise untouched. |
| Resolution.PopulateStep | ioc/entity/IOC_1.java:210-233 | One assigned property followed by the rest of the list amounts to populating from that property on. |
| Resolution.PopulateStops | ioc/entity/IOC_1.java:210-233 | The loop stops at property `i` in four ways: <br>• the list has ended: success; <br>• the field is missing: `UnknownField` with the bean and the field, nothing changed; <br>• the target is neither ready nor defined: `UnknownReference`, nothing changed; <br>• the target's `doGetBean` failed: its error and state. |
| Resolution.PopulateAssigns | ioc/entity/IOC_1.java:220-227 | For a literal or a ready target, populating from `i` is the direct assignment followed by populating from `i + 1`. |
| Resolution.PopulateResolves | ioc/entity/IOC_1.java:229-230 | For a ref that must be resolved, populating from `i` is `doGetBean` on the target, then the assignment, then populating from `i + 1`. |
| Resolution.LoadStep | ioc/entity/IOC_1.java:112-117 | Each name is resolved in order. The first failing `doGetBean` ends the load with its error. A success goes on with the next name. |
| Resolution.LoadDone | ioc/entity/IOC_1.java:112 | Past the last name the load succeeds and changes nothing. |
| Properties.CachedAreDefined | ioc/entity/IOC_1.java:189-191 | Every cached id has a definition. |
| Properties.LoadOkIffWellFormed | ioc/entity/IOC_1.java:111-118 | The load succeeds if and only if every definition has a class that loaded, names only declared fields, and refers only to defined ids. |
| Properties.LoadWiresEveryBean | ioc/entity/IOC_1.java:111-118 | After a successful load every defined id is ready and in creation, the early and factory tiers are empty, and `getBean` returns each bean's object. Each object is wired from the ready objects alone. |
| Properties.LoadInstantiatesOnce | ioc/entity/IOC_1.java:168-178 | After a successful load every object on the heap is the ready object of its bean: no bean was instantiated twice. |
| Properties.ResolveAgainSameObject | ioc/entity/IOC_1.java:120-135 | Resolving an id that is already cached returns the cached object. |
| Properties.ResolutionIsStable | ioc/entity/IOC_1.java:120-135 | Resolving an id again returns the object the first resolution returned. |
| Properties.PromotionHappensOnce | ioc/entity/IOC_1.java:144-160 | After one early lookup a second lookup changes nothing and returns the same object. A promoted id sits in the early tier and no longer in the factory tier. |
| Properties.PublishedBeforePopulating | ioc/entity/IOC_1.java:189-197 | Before populating, `createBean` has published the new field-less object. An early lookup of the id finds it; neither a lookup without early references nor `getBean` does. |
| Properties.WiredFieldUnset | ioc/entity/IOC_1.java:208-234 | A field of a wired bean that no property names stays unassigned. |
| Properties.WiredFieldLast | ioc/entity/IOC_1.java:208-234 | A field of a wired bean holds the literal, or the referenced bean's object, of the last property naming it. |
| Properties.CycleResolves | ioc/entity/IOC_1.java:120-234 | Two beans whose only properties refer to each other load successfully. Each field holds exactly the other bean's ready object, and the two objects are distinct. |
| Properties.RefToUndefinedFails | ioc/entity/IOC_1.java:223-229 | For any definitions, a ref to an id nobody defines, in any bean, makes the load fail. |
| Properties.MissingReferenceFails | ioc/entity/IOC_1.java:223-229 | A `User` bean `A` whose `roleId` refers to the undefined id `ghost` fails with exactly `UnknownReference("A", "ghost")`. |
| IocContainer.Container.constructor | ioc/entity/IOC_1.java:62-103 | The registration loop fills `beanNames` and `beanClassMap` as `BeanNames` and `BeanClassMap` give them. The tiers, the in-creation set and the heap start empty. |
| IocContainer.Container.GetBean | ioc/entity/IOC_1.java:42-45 | Returns an object exactly when the name is in `singletonObjects`, and then returns that object. |
| IocContainer.Container.DoLoadBeanDefinitions | ioc/entity/IOC_1.java:111-118 | The loop's result and the container's new state are those of `LoadFrom` from the first name. |
| IocContainer.Container.LoadName | ioc/entity/IOC_1.java:112-117 | One pass of the loop. A failure is the load's result from that name. A success keeps the invariant and leaves what remains of the load unchanged. |
| IocContainer.Container.DoGetBean | ioc/entity/IOC_1.java:120-135 | The result and the new state are those of `Resolution.DoGetBean`. |
| IocContainer.Container.GetSingleton | ioc/entity/IOC_1.java:144-160 | The result and the new state, including the promotion, are those of `Resolution.GetSingleton`. |
| IocContainer.Container.GetOrCreateSingleton | ioc/entity/IOC_1.java:168-178 | The result and the new state, including the commit, are those of `Resolution.GetOrCreateSingleton`. |
| IocContainer.Container.CreateBean | ioc/entity/IOC_1.java:189-199 | The result and the new state are those of `Resolution.CreateBean`, following its order: mark, instantiate, publish, populate. |
| IocContainer.Container.PopulateBean | ioc/entity/IOC_1.java:208-234 | The loop's result and the new state are those of `Populate` from the first property. |
| IocContainer.Container.AssignProperty | ioc/entity/IOC_1.java:210-233 | One pass of the loop. A failure is `Populate`'s result from that property. A success keeps the object populating and leaves what remains of `Populate` unchanged. |
| IocContainer.Open | ioc/entity/IOC_1.java:37-39 | `new IOC_1` registers the declarations, then loads them. The container ends in `Load`'s result and state, and any error it reports is a genuine defect of the definitions. |

## Left out

- Reading and parsing the XML file (lines 55-61 and 66-83) is not modelled. The loader's output is a sequence of `Decl` values, one per `<bean>` element in document order. Each `Decl` carries its property elements' raw `name`, `value` and `ref` attributes, and registration classifies them.
- Which `<property>` elements belong to a bean (`getElementsByTagName`) is left to the loader.
- `Class.forName` and reflection are modelled by a class table from class name to declared field names. A failed `forName` is modelled; its stack-trace printing is not.
- Field types are not modelled: every declared field accepts a string or an object. An `IllegalArgumentException` from `Field.set` on a mistyped field cannot occur in the model.
- Only inheritance-free lookup is modelled, as with `getDeclaredField`: a class's field set is its declared fields.
- `newInstance()` failing for a class that loaded is not modelled: an abstract class, a missing no-argument constructor, or a constructor that throws. Only a class that did not load fails to instantiate.
- Static collections shared across `IOC_1` instances are not modelled. The Java collections are `static`, so a second `new IOC_1` starts from what the first left behind. `IocContainer.Open` starts each container empty.
- `ConcurrentHashMap` and concurrent access are not modelled: resolution is single-threaded.
- The `main` demo (lines 252-274) only prints the loaded objects, and is not modelled.
- The exception types are not modelled: an error is a `Result` value that names the bean being resolved. Java throws `NullPointerException` or `NoSuchFieldException`, which carry less.
- `populateBean` is public in Java, but the model calls it only from `createBean`, on the object `createBean` has just published.
