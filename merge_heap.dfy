/**
 * The in-place `merge` of util.js on heap objects: `source` is an object whose
 * properties are updated one key at a time, nested objects are merged where
 * they stand, and the very same object is returned. Each object owns the
 * objects below it (no sharing, no cycles); the incoming `merged` object is
 * only read, so it is given as a value.
 */
module MergeHeap {
  import opened Util

  /** What a property of a heap object holds: a non-object value, or a reference
      to another heap object. */
  datatype Slot = Prim(v: Value) | Ref(obj: JsObject)

  class JsObject {
    var cls: ObjectClass
    var props: map<string, Slot>
    ghost var Repr: set<JsObject>  // this object and every object below it

    /** The objects below form a tree owned by this one. */
    ghost predicate Valid()
      reads this, Repr
      decreases Repr
    {
      && this in Repr
      && (forall k | k in props && props[k].Prim? :: !props[k].v.Obj?)
      && (forall k | k in props && props[k].Ref? ::
            && props[k].obj in Repr
            && props[k].obj.Repr <= Repr
            && this !in props[k].obj.Repr
            && props[k].obj.Valid())
      && (forall k, k' | k in props && k' in props && k != k' && props[k].Ref? && props[k'].Ref? ::
            props[k].obj.Repr !! props[k'].obj.Repr)
    }

    /** The value this object denotes. */
    ghost function Model(): (v: Value)
      reads this, Repr
      requires Valid()
      ensures v.Obj? && v.cls == cls && v.props.Keys == props.Keys
      decreases Repr
    {
      Obj(cls, map k | k in props :: if props[k].Ref? then props[k].obj.Model() else props[k].v)
    }

    /** A new object of class `c` with no properties; `{}` is `Init(PlainObject)`. */
    constructor Init(c: ObjectClass)
      ensures Valid() && fresh(Repr) && Model() == Obj(c, map[])
    {
      cls := c;
      props := map[];
      Repr := {this};
    }

    /** `this[k] = v` for a value that is not an object. */
    method SetPrim(k: string, v: Value)
      requires Valid() && !v.Obj?
      modifies this
      ensures Valid() && cls == old(cls) && Repr == old(Repr)
      ensures Model() == Obj(cls, old(Model()).props[k := v])
    {
      ghost var before := Model().props;
      props := props[k := Prim(v)];
      forall k' | k' in props && k' != k && props[k'].Ref?
        ensures props[k'].obj.Valid() && props[k'].obj.Model() == before[k']
      {
      }
      assert Valid();
      assert Model().props == before[k := v];
    }

    /** `this[k] = child` for an object this one does not own yet. */
    method SetRef(k: string, child: JsObject)
      requires Valid() && child.Valid() && child.Repr !! Repr
      modifies this
      ensures Valid() && cls == old(cls) && Repr == old(Repr) + child.Repr
      ensures Model() == Obj(cls, old(Model()).props[k := child.Model()])
    {
      ghost var before := Model().props;
      props := props[k := Ref(child)];
      Repr := Repr + child.Repr;
      forall k' | k' in props && k' != k && props[k'].Ref?
        ensures props[k'].obj.Valid() && props[k'].obj.Model() == before[k']
      {
      }
      assert Valid();
      assert Model().props == before[k := child.Model()];
    }

    /** Takes the object at `k` out of this one's ownership, so that it can be
        changed without touching this one; `SetRef` stores it back. */
    method Detach(k: string) returns (child: JsObject)
      requires Valid() && k in props && props[k].Ref?
      modifies this
      ensures child == old(props[k].obj) && child.Valid() && child.Repr !! Repr
      ensures Valid() && cls == old(cls) && Repr <= old(Repr)
      ensures child.Model() == old(Model()).props[k]
      ensures Model() == Obj(cls, old(Model()).props - {k})
    {
      ghost var before := Model().props;
      child := props[k].obj;
      props := props - {k};
      Repr := Repr - child.Repr;
      forall k' | k' in props && props[k'].Ref?
        ensures props[k'].obj.Repr !! child.Repr && this !in props[k'].obj.Repr
        ensures props[k'].obj.Valid() && props[k'].obj.Model() == before[k']
      {
      }
      assert Valid();
      assert Model().props == before - {k};
    }
  }

  /** Allocates objects for an object value, one property at a time. */
  method FromValue(v: Value) returns (o: JsObject)
    requires v.Obj?
    ensures o.Valid() && fresh(o.Repr) && o.Model() == v
    decreases v, 0
  {
    o := new JsObject.Init(v.cls);
    var keys := v.props.Keys;
    ghost var done: set<string> := {};
    while keys != {}
      invariant keys !! done && keys + done == v.props.Keys
      invariant o.Valid() && fresh(o.Repr) && o.cls == v.cls
      invariant o.Model() == Obj(v.cls, map x | x in done :: v.props[x])
      decreases keys
    {
      var k :| k in keys;
      Assign(o, k, v.props[k]);
      RestrictGrow(v.props, done, k);
      keys := keys - {k};
      done := done + {k};
    }
    RestrictAll(v.props, done);
  }

  /** `o[k] = x`, where an object value is stored as a new object of its own. */
  method Assign(o: JsObject, k: string, x: Value)
    requires o.Valid()
    modifies o
    ensures o.Valid() && fresh(o.Repr - old(o.Repr)) && o.cls == old(o.cls)
    ensures o.Model() == Obj(o.cls, old(o.Model()).props[k := x])
    decreases x, 1
  {
    if x.Obj? {
      var child := FromValue(x);
      o.SetRef(k, child);
    } else {
      o.SetPrim(k, x);
    }
  }

  lemma RestrictGrow(m: map<string, Value>, done: set<string>, k: string)
    requires done <= m.Keys && k in m
    ensures (map x | x in done :: m[x])[k := m[k]] == map x | x in done + {k} :: m[x]
  {
  }

  lemma RestrictAll(m: map<string, Value>, done: set<string>)
    requires done == m.Keys
    ensures (map x | x in done :: m[x]) == m
  {
  }

  /** The kind of value a property holds, as `typeof` reports it. */
  function SlotTypeof(s: Slot): string
  {
    if s.Ref? then "object" else Typeof(s.v)
  }

  /** The loop of util.js lines 22-29 has visited one more key. */
  lemma OverlayExtend(props: map<string, Value>, merged: Value, done: set<string>, k: string)
    requires done <= Props(merged).Keys && k in Props(merged) && k !in done
    ensures Overlay(props, merged, done + {k})
         == Overlay(props, merged, done)[k := Step(Lookup(props, k), Props(merged)[k])]
  {
  }

  /** `merge(source, merged)`: for every key of `merged`, a plain object is merged
      into `source[key]` (which is first replaced by `{}` unless it is
      typeof "object"), anything else is assigned; `source` itself is returned.
      `thrown` is the TypeError of assigning a property of null. */
  method Merge(source: JsObject, merged: Value) returns (r: JsObject, thrown: bool)
    requires source.Valid()
    modifies source.Repr
    ensures r == source
    ensures source.Valid() && fresh(source.Repr - old(source.Repr))
    ensures thrown <==> Util.Merge(old(source.Model()), merged).Err?
    ensures !thrown ==> Util.Merge(old(source.Model()), merged) == Ok(source.Model())
    decreases merged, 0
  {
    ghost var m0 := source.Model();
    r, thrown := source, false;
    var keys := Props(merged).Keys;
    ghost var done: set<string> := {};
    while keys != {}
      invariant keys !! done && keys + done == Props(merged).Keys
      invariant source.Valid() && fresh(source.Repr - old(source.Repr)) && source.cls == m0.cls
      invariant source.Model() == Obj(m0.cls, Overlay(m0.props, merged, done))
      invariant forall k | k in done :: !StepThrows(Lookup(m0.props, k), Props(merged)[k])
      decreases keys
    {
      var k :| k in keys;
      assert Lookup(source.Model().props, k) == Lookup(m0.props, k);
      thrown := MergeKey(source, k, Props(merged)[k]);
      if thrown {
        return;
      }
      OverlayExtend(m0.props, merged, done, k);
      keys := keys - {k};
      done := done + {k};
    }
  }

  /** The loop body for one key `k` (util.js lines 23-28). */
  method MergeKey(source: JsObject, k: string, incoming: Value) returns (thrown: bool)
    requires source.Valid()
    modifies source.Repr
    ensures source.Valid() && fresh(source.Repr - old(source.Repr)) && source.cls == old(source.cls)
    ensures thrown <==> StepThrows(Lookup(old(source.Model()).props, k), incoming)
    ensures !thrown ==>
      source.Model() == Obj(source.cls, old(source.Model()).props[k := Step(Lookup(old(source.Model()).props, k), incoming)])
    decreases incoming, 3
  {
    if Tag(incoming) == "Object" {
      thrown := MergePlainKey(source, k, incoming);
    } else {
      thrown := false;
      Assign(source, k, incoming);
    }
  }

  /** Lines 24-25: a plain incoming object is merged into `source[k]`, which is
      first replaced by `{}` unless it is typeof "object"; on null the nested
      merge throws as soon as it has a key to assign. */
  method MergePlainKey(source: JsObject, k: string, incoming: Value) returns (thrown: bool)
    requires source.Valid() && IsPlain(incoming)
    modifies source.Repr
    ensures source.Valid() && fresh(source.Repr - old(source.Repr)) && source.cls == old(source.cls)
    ensures thrown <==> Throws(Prepared(Lookup(old(source.Model()).props, k)), incoming)
    ensures !thrown ==>
      source.Model() == Obj(source.cls, old(source.Model()).props[k := Merged(Prepared(Lookup(old(source.Model()).props, k)), incoming)])
    decreases incoming, 2
  {
    ghost var was := source.Model().props;
    var current := if k in source.props then source.props[k] else Prim(Undefined);
    if SlotTypeof(current) != "object" {
      var empty := new JsObject.Init(PlainObject);
      source.SetRef(k, empty);
      current := Ref(empty);
      assert source.Model().props == was[k := EmptyObject];
    }
    if current.Ref? {
      assert source.Model().props[k] == Prepared(Lookup(was, k));
      thrown := MergeIntoProperty(source, k, incoming);
      UpdateTwice(was, k, EmptyObject, Merged(EmptyObject, incoming));
    } else {
      assert Lookup(was, k) == Null;
      // merge(null, incoming) assigns a property of null as soon as there is a key
      thrown := Props(incoming) != map[];
      assert was[k := Null] == was;
    }
  }

  lemma RemoveThenUpdate(m: map<string, Value>, k: string, a: Value)
    ensures (m - {k})[k := a] == m[k := a]
  {
  }

  lemma UpdateTwice(m: map<string, Value>, k: string, a: Value, b: Value)
    ensures m[k := a][k := b] == m[k := b]
  {
  }

  /** `source[key] = merge(source[key], merged[key])` (util.js line 25), for a
      property that holds an object: it is merged into where it stands. */
  method MergeIntoProperty(source: JsObject, k: string, incoming: Value) returns (thrown: bool)
    requires source.Valid() && k in source.props && source.props[k].Ref?
    modifies source.Repr
    ensures source.Valid() && fresh(source.Repr - old(source.Repr)) && source.cls == old(source.cls)
    ensures thrown <==> Util.Merge(old(source.Model()).props[k], incoming).Err?
    ensures !thrown ==>
      source.Model() == Obj(source.cls, old(source.Model()).props[k := Util.Merge(old(source.Model()).props[k], incoming).value])
    decreases incoming, 1
  {
    ghost var was := source.Model().props;
    var child := source.Detach(k);
    ghost var rest := source.Model();
    ghost var before := child.Model();
    var res;
    res, thrown := Merge(child, incoming);
    assert source.Model() == rest;
    ghost var merged := child.Model();
    assert !thrown ==> Util.Merge(before, incoming) == Ok(merged);
    source.SetRef(k, child);
    RemoveThenUpdate(was, k, merged);
  }
}
