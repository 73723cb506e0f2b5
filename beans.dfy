/**
 * The values the bean container works with: bean definitions as the XML
 * loader hands them over, the objects the container creates, and the pure
 * parts of loading and populating them (property classification, class
 * lookup, registration, the meaning of a property list).
 *
 * Java reflection is abstracted: a class is its name and the set of its
 * declared field names, an object is a handle into a heap, and `Field.set`
 * is a map update on the object's fields.
 */
module Beans {

  datatype Option<+T> = None | Some(value: T)

  /** An object reference; handles come from a counter in place of `newInstance()`. */
  type Handle = nat

  /** What a populated field holds: a literal string or a reference to another bean's object. */
  datatype Value = Str(s: string) | Obj(h: Handle)

  /** One `<property>` of a bean: a literal `value` or a `ref` to another bean id. */
  datatype Prop = Literal(name: string, value: string) | Ref(name: string, target: string)

  /** A loaded class: its name and the names of its declared fields. */
  datatype BeanClass = BeanClass(name: string, fields: set<string>)

  /** A `<property>` element as the loader reads it: its `name`, `value` and `ref` attributes, "" when absent. */
  datatype PropertyElement = PropertyElement(name: string, value: string, ref: string)

  /** A `<bean>` element as the loader reads it: id, class name and property elements in document order. */
  datatype Decl = Decl(id: string, className: string, props: seq<PropertyElement>)

  /** What the registry keeps per id: the class name, the class when it resolved, the properties. */
  datatype BeanDef = BeanDef(className: string, beanClass: Option<BeanClass>, props: seq<Prop>)

  /** An object of the heap: the bean it was created for, its runtime class, its assigned fields. */
  datatype Instance = Instance(bean: string, cls: BeanClass, fields: map<string, Value>)

  /** The three ways resolution fails; each aborts the whole load. */
  datatype Error =
    | UnknownReference(bean: string, target: string)  // a ref to an id with no definition
    | NoBeanClass(bean: string, className: string)     // the class name did not resolve
    | UnknownField(bean: string, field: string)        // the class declares no such field

  datatype Result<+T> = Ok(value: T) | Err(error: Error)

  /**
   * Classification of a `<property>` element from its `name`, `value` and
   * `ref` attributes (an absent attribute reads as ""): a non-empty `value`
   * makes a literal, whatever `ref` says; otherwise it is a reference to `ref`.
   */
  function ClassifyProperty(name: string, value: string, ref: string): (p: Prop)
    ensures p.name == name
    ensures p.Literal? <==> |value| > 0
    ensures p.Literal? ==> p.value == value
    ensures p.Ref? ==> p.target == ref
  {
    if |value| > 0 then Literal(name, value) else Ref(name, ref)
  }

  /** The `value` and `ref` attributes a property is written with. */
  function Attributes(p: Prop): (string, string)
  {
    match p
    case Literal(_, v) => (v, "")
    case Ref(_, t) => ("", t)
  }

  /** Classification reads back every property whose literal is non-empty. */
  lemma ClassifyAttributes(p: Prop)
    requires p.Literal? ==> p.value != ""
    ensures ClassifyProperty(p.name, Attributes(p).0, Attributes(p).1) == p
  {
  }

  /** A non-empty literal wins: the `ref` attribute is then irrelevant. */
  lemma LiteralTakesPrecedence(name: string, value: string, ref1: string, ref2: string)
    requires value != ""
    ensures ClassifyProperty(name, value, ref1) == ClassifyProperty(name, value, ref2) == Literal(name, value)
  {
  }

  /**
   * The property list of a bean: each element classified in document order.
   * A literal never has an empty value, since an empty `value` makes a ref.
   */
  function ClassifyProperties(es: seq<PropertyElement>): (ps: seq<Prop>)
    ensures |ps| == |es|
    ensures forall k :: 0 <= k < |es| ==> ps[k] == ClassifyProperty(es[k].name, es[k].value, es[k].ref)
    ensures forall k :: 0 <= k < |ps| && ps[k].Literal? ==> ps[k].value != ""
  {
    if es == [] then []
    else [ClassifyProperty(es[0].name, es[0].value, es[0].ref)] + ClassifyProperties(es[1..])
  }

  /** `Class.forName`: the class table stands for the classes on the class path. */
  function GetBeanClass(classes: map<string, set<string>>, className: string): (c: Option<BeanClass>)
    ensures c.Some? <==> className in classes
    ensures c.Some? ==> c.value.name == className && c.value.fields == classes[className]
  {
    if className in classes then Some(BeanClass(className, classes[className])) else None
  }

  /** The definition registered for a declaration; its class is resolved once, at load time. */
  function Define(d: Decl, classes: map<string, set<string>>): BeanDef
  {
    BeanDef(d.className, GetBeanClass(classes, d.className), ClassifyProperties(d.props))
  }

  /** `beanNames`: every declared id, in document order, duplicates included. */
  function BeanNames(decls: seq<Decl>): (names: seq<string>)
    ensures |names| == |decls|
    ensures forall k :: 0 <= k < |decls| ==> names[k] == decls[k].id
  {
    if decls == [] then [] else BeanNames(decls[..|decls| - 1]) + [decls[|decls| - 1].id]
  }

  /** `beanClassMap`: each id to its definition; a later declaration of an id replaces an earlier one. */
  function BeanClassMap(decls: seq<Decl>, classes: map<string, set<string>>): (m: map<string, BeanDef>)
    ensures forall n :: n in m <==> n in BeanNames(decls)
  {
    if decls == [] then map[]
    else
      var last := decls[|decls| - 1];
      BeanClassMap(decls[..|decls| - 1], classes)[last.id := Define(last, classes)]
  }

  /** The registry maps an id to the LAST declaration carrying it. */
  lemma {:induction false} BeanClassMapLast(decls: seq<Decl>, classes: map<string, set<string>>, k: nat)
    requires k < |decls|
    requires forall j :: k < j < |decls| ==> decls[j].id != decls[k].id
    ensures decls[k].id in BeanClassMap(decls, classes)
    ensures BeanClassMap(decls, classes)[decls[k].id] == Define(decls[k], classes)
  {
    if k < |decls| - 1 {
      var prefix := decls[..|decls| - 1];
      assert forall j :: k < j < |prefix| ==> prefix[j].id != prefix[k].id;
      BeanClassMapLast(prefix, classes, k);
    }
  }

  /** Every ref of the property list has a target among `ids`. */
  predicate Resolvable(ps: seq<Prop>, ids: set<string>)
  {
    forall k :: 0 <= k < |ps| && ps[k].Ref? ==> ps[k].target in ids
  }

  /** Every property of the list names a field the class declares. */
  predicate Declared(ps: seq<Prop>, cls: BeanClass)
  {
    forall k :: 0 <= k < |ps| ==> ps[k].name in cls.fields
  }

  /** The value a property assigns, given the object each bean id resolves to. */
  function ValueOf(p: Prop, objects: map<string, Handle>): (v: Value)
    requires p.Ref? ==> p.target in objects
    ensures p.Literal? ==> v == Str(p.value)
    ensures p.Ref? ==> v == Obj(objects[p.target])
  {
    match p
    case Literal(_, s) => Str(s)
    case Ref(_, t) => Obj(objects[t])
  }

  /** The fields of an object after the properties are assigned in order, one `Field.set` each. */
  function Apply(fields: map<string, Value>, ps: seq<Prop>, objects: map<string, Handle>): map<string, Value>
    requires Resolvable(ps, objects.Keys)
    decreases ps
  {
    if ps == [] then fields
    else Apply(fields[ps[0].name := ValueOf(ps[0], objects)], ps[1..], objects)
  }

  /** A field no property names keeps what it held. */
  lemma {:induction false} ApplyUntouched(fields: map<string, Value>, ps: seq<Prop>, objects: map<string, Handle>, f: string)
    requires Resolvable(ps, objects.Keys)
    requires forall k :: 0 <= k < |ps| ==> ps[k].name != f
    ensures f in Apply(fields, ps, objects) <==> f in fields
    ensures f in fields ==> Apply(fields, ps, objects)[f] == fields[f]
    decreases ps
  {
    if ps != [] {
      ApplyUntouched(fields[ps[0].name := ValueOf(ps[0], objects)], ps[1..], objects, f);
    }
  }

  /** A field holds the value of the last property that names it. */
  lemma {:induction false} ApplyLastWrite(fields: map<string, Value>, ps: seq<Prop>, objects: map<string, Handle>, k: nat)
    requires Resolvable(ps, objects.Keys)
    requires k < |ps|
    requires forall j :: k < j < |ps| ==> ps[j].name != ps[k].name
    ensures ps[k].name in Apply(fields, ps, objects)
    ensures Apply(fields, ps, objects)[ps[k].name] == ValueOf(ps[k], objects)
    decreases ps
  {
    var next := fields[ps[0].name := ValueOf(ps[0], objects)];
    if k == 0 {
      ApplyUntouched(next, ps[1..], objects, ps[0].name);
    } else {
      ApplyLastWrite(next, ps[1..], objects, k - 1);
    }
  }

  /** Once every ref resolves, adding more objects does not change the result. */
  lemma {:induction false} ApplyStable(fields: map<string, Value>, ps: seq<Prop>, objects: map<string, Handle>, more: map<string, Handle>)
    requires Resolvable(ps, objects.Keys)
    requires forall n :: n in objects ==> n in more && more[n] == objects[n]
    ensures Resolvable(ps, more.Keys)
    ensures Apply(fields, ps, objects) == Apply(fields, ps, more)
    decreases ps
  {
    if ps != [] {
      ApplyStable(fields[ps[0].name := ValueOf(ps[0], objects)], ps[1..], objects, more);
    }
  }
}
