/**
 * JavaScript values as the build layer handles them, and the two helpers of
 * util.js: `tag`, the built-in class name of a value, and `merge`, the
 * recursive deep merge that overlays one options object onto another.
 *
 * Values are finite trees: prototype chains, object identity and cycles are
 * not part of this module (the in-place, reference-based merge is modelled in
 * module MergeHeap, against the specification given here).
 */
module Util {

  /** The built-in class of an object, as `Object.prototype.toString` names it. */
  datatype ObjectClass =
    | PlainObject               // "[object Object]"
    | ArrayObject(length: nat)  // elements are the properties "0", "1", ...
    | DateObject
    | RegExpObject
    | MapObject
    | SetObject

  /** A JavaScript value. Numbers are modelled as integers. */
  datatype Value =
    | Undefined
    | Null
    | Boolean(b: bool)
    | Number(n: int)
    | Str(s: string)
    | Function(id: nat, fprops: map<string, Value>)  // a callable, with its own properties
    | Obj(cls: ObjectClass, props: map<string, Value>)

  datatype Result<T, E> = Ok(value: T) | Err(error: E)

  /** The TypeError thrown when `merge` assigns a property of `null`. */
  datatype MergeError = PropertyOfNull

  const EmptyObject: Value := Obj(PlainObject, map[])

  /** `tag(data)`: `Object.prototype.toString.call(data).slice(8, -1)`. */
  function Tag(v: Value): (t: string)
    ensures t == "Object" <==> v.Obj? && v.cls == PlainObject
    ensures t == "Array" <==> v.Obj? && v.cls.ArrayObject?
    ensures t == "Function" <==> v.Function?
  {
    match v
    case Undefined => "Undefined"
    case Null => "Null"
    case Boolean(_) => "Boolean"
    case Number(_) => "Number"
    case Str(_) => "String"
    case Function(_, _) => "Function"
    case Obj(cls, _) =>
      match cls
      case PlainObject => "Object"
      case ArrayObject(_) => "Array"
      case DateObject => "Date"
      case RegExpObject => "RegExp"
      case MapObject => "Map"
      case SetObject => "Set"
  }

  /** The `typeof` operator. Arrays and null are "object"; functions are not. */
  function Typeof(v: Value): (t: string)
    ensures t == "object" <==> v.Null? || v.Obj?
    ensures t == "function" <==> v.Function?
  {
    match v
    case Undefined => "undefined"
    case Null => "object"
    case Boolean(_) => "boolean"
    case Number(_) => "number"
    case Str(_) => "string"
    case Function(_, _) => "function"
    case Obj(_, _) => "object"
  }

  /** JavaScript truthiness (`!v` is false). NaN is not modelled. */
  predicate Truthy(v: Value)
  {
    match v
    case Undefined => false
    case Null => false
    case Boolean(b) => b
    case Number(n) => n != 0
    case Str(s) => s != ""
    case _ => true
  }

  /** `v instanceof Object`: objects, arrays and functions. */
  predicate IsInstanceOfObject(v: Value)
  {
    v.Obj? || v.Function?
  }

  /** Reading `props[key]`: a missing key reads as `undefined`. */
  function Lookup(props: map<string, Value>, key: string): Value
  {
    if key in props then props[key] else Undefined
  }

  /** The own enumerable properties a `for…in` loop visits. */
  function Props(v: Value): map<string, Value>
  {
    match v
    case Obj(_, props) => props
    case Function(_, fprops) => fprops
    case _ => map[]
  }

  /** Property access `v[key]` on an object or function; anything else reads `undefined`. */
  function Get(v: Value, key: string): Value
  {
    Lookup(Props(v), key)
  }

  /** `v instanceof Array`. */
  predicate IsArray(v: Value)
  {
    v.Obj? && v.cls.ArrayObject?
  }

  function DigitChar(d: nat): char
    requires d < 10
  {
    "0123456789"[d]
  }

  /** The decimal numeral of `n`, which is also the property name of array
      index `n`. */
  function IndexKey(n: nat): (s: string)
    ensures 0 < |s| && forall c | c in s :: '0' <= c <= '9'
    ensures n < 10 <==> |s| == 1
    decreases n
  {
    if n < 10 then [DigitChar(n)] else IndexKey(n / 10) + [DigitChar(n % 10)]
  }

  /** Distinct indices name distinct properties. */
  lemma {:induction false} IndexKeyInjective(a: nat, b: nat)
    requires IndexKey(a) == IndexKey(b)
    ensures a == b
    decreases a
  {
    if 10 <= a {
      var ka, kb := IndexKey(a), IndexKey(b);
      assert ka[..|ka| - 1] == IndexKey(a / 10) && ka[|ka| - 1] == DigitChar(a % 10);
      assert kb[..|kb| - 1] == IndexKey(b / 10) && kb[|kb| - 1] == DigitChar(b % 10);
      IndexKeyInjective(a / 10, b / 10);
    }
  }

  /** The elements `forEach` visits among the indices below `n`, in index
      order; an index without a property (a hole) is skipped. */
  function ElementsBelow(props: map<string, Value>, n: nat): (es: seq<Value>)
    ensures |es| <= n
  {
    if n == 0 then []
    else ElementsBelow(props, n - 1) + (if IndexKey(n - 1) in props then [props[IndexKey(n - 1)]] else [])
  }

  /** The elements of an array, as `forEach` visits them. */
  function Elements(v: Value): seq<Value>
    requires IsArray(v)
  {
    ElementsBelow(v.props, v.cls.length)
  }

  /** Without holes, `forEach` visits every index below `n` once, in order. */
  lemma {:induction false} DenseElements(props: map<string, Value>, n: nat)
    requires forall i: nat | i < n :: IndexKey(i) in props
    ensures |ElementsBelow(props, n)| == n
    ensures forall i: nat | i < n :: ElementsBelow(props, n)[i] == props[IndexKey(i)]
  {
    if n > 0 {
      DenseElements(props, n - 1);
      var init, last := ElementsBelow(props, n - 1), props[IndexKey(n - 1)];
      assert ElementsBelow(props, n) == init + [last];
      forall i: nat | i < n
        ensures ElementsBelow(props, n)[i] == props[IndexKey(i)]
      {
        if i < n - 1 {
          assert (init + [last])[i] == init[i];
        }
      }
    }
  }

  /** The test of util.js line 23: is the incoming value recursed into? */
  predicate IsPlain(v: Value)
  {
    Tag(v) == "Object"
  }

  /** Line 24: a current value that is not typeof "object" is replaced by `{}`;
      null, arrays and every other object are kept as they are. */
  function Prepared(current: Value): (r: Value)
    ensures Typeof(r) == "object"
    ensures current.Null? || current.Obj? ==> r == current
    ensures !(current.Null? || current.Obj?) ==> r == EmptyObject
  {
    if Typeof(current) != "object" then EmptyObject else current
  }

  /** `merge(source, merged)` throws: somewhere along the recursion a key is
      assigned on `null`. */
  predicate Throws(source: Value, merged: Value)
    requires Typeof(source) == "object"
    decreases merged, 1
  {
    if source.Null? then
      Props(merged) != map[]
    else
      exists k | k in Props(merged) :: StepThrows(Lookup(source.props, k), Props(merged)[k])
  }

  /** The body of the loop for one key throws. */
  predicate StepThrows(current: Value, incoming: Value)
    decreases incoming, 2
  {
    IsPlain(incoming) && Throws(Prepared(current), incoming)
  }

  /** The value `merge(source, merged)` leaves in `source` when it does not throw. */
  function Merged(source: Value, merged: Value): Value
    requires Typeof(source) == "object"
    decreases merged, 1
  {
    if source.Null? then Null
    else Obj(source.cls, Overlay(source.props, merged, Props(merged).Keys))
  }

  /** The properties after the loop has visited the keys `done` of `merged`. */
  function Overlay(props: map<string, Value>, merged: Value, done: set<string>): map<string, Value>
    requires done <= Props(merged).Keys
    decreases merged, 0
  {
    map k | k in props.Keys + done ::
      if k in done then Step(Lookup(props, k), Props(merged)[k]) else props[k]
  }

  /** The new value of `source[key]` for one visited key (lines 23-28). */
  function Step(current: Value, incoming: Value): Value
    decreases incoming, 2
  {
    if IsPlain(incoming) then Merged(Prepared(current), incoming) else incoming
  }

  /** `merge(source, merged)` of util.js, as a value: the merged `source`, or the
      TypeError it throws. */
  function Merge(source: Value, merged: Value): (r: Result<Value, MergeError>)
    requires Typeof(source) == "object"
    ensures r.Ok? && source.Obj? ==> r.value.Obj? && r.value.cls == source.cls
    ensures r.Ok? && source.Null? ==> r.value == Null && Props(merged) == map[]
  {
    if Throws(source, merged) then Err(PropertyOfNull) else Ok(Merged(source, merged))
  }

  // ---------------------------------------------------------------------------
  // Properties of Merge

  /** What `merge` leaves at one key: untouched keys keep their value,
      non-plain incoming values replace, plain ones are merged recursively. */
  lemma MergeAtKey(source: Value, merged: Value, k: string)
    requires source.Obj? && Merge(source, merged).Ok?
    ensures var r := Merge(source, merged).value;
      && r.props.Keys == source.props.Keys + Props(merged).Keys
      && (k !in Props(merged) && k in source.props ==> r.props[k] == source.props[k])
      && (k in Props(merged) && !IsPlain(Props(merged)[k]) ==> r.props[k] == Props(merged)[k])
      && (k in Props(merged) && IsPlain(Props(merged)[k]) ==>
            Merge(Prepared(Lookup(source.props, k)), Props(merged)[k]) == Ok(r.props[k]))
  {
    var r := Merge(source, merged).value;
    var m := Overlay(source.props, merged, Props(merged).Keys);
    assert r == Obj(source.cls, m);
    if k in Props(merged) {
      assert m[k] == Step(Lookup(source.props, k), Props(merged)[k]);
      if IsPlain(Props(merged)[k]) {
        assert !StepThrows(Lookup(source.props, k), Props(merged)[k]);
      }
    }
  }

  /** An object already at `source[k]` (an array, a Date, a plain object, ...)
      is merged into rather than replaced: it keeps its class and every
      property the incoming plain object does not name. */
  lemma MergeKeepsExistingObject(source: Value, merged: Value, k: string, x: string)
    requires source.Obj? && Merge(source, merged).Ok?
    requires k in source.props && source.props[k].Obj?
    requires k in Props(merged) && IsPlain(Props(merged)[k])
    ensures var r := Merge(source, merged).value;
      && k in r.props && r.props[k].Obj? && r.props[k].cls == source.props[k].cls
      && (x in source.props[k].props && x !in Props(merged)[k].props ==>
            x in r.props[k].props && r.props[k].props[x] == source.props[k].props[x])
  {
    var r := Merge(source, merged).value;
    MergeAtKey(source, merged, k);
    var current, incoming := source.props[k], Props(merged)[k];
    assert Prepared(Lookup(source.props, k)) == current;
    assert Merge(current, incoming) == Ok(r.props[k]);
    MergeAtKey(current, incoming, x);
  }

  /** One visited key, read through Merge: the step does not throw exactly
      when the nested merge succeeds, and then stores its result. */
  lemma StepByMerge(current: Value, incoming: Value)
    ensures IsPlain(incoming) ==>
      (!StepThrows(current, incoming) <==> Merge(Prepared(current), incoming).Ok?)
    ensures IsPlain(incoming) && Merge(Prepared(current), incoming).Ok? ==>
      Step(current, incoming) == Merge(Prepared(current), incoming).value
    ensures !IsPlain(incoming) ==> !StepThrows(current, incoming) && Step(current, incoming) == incoming
  {
  }

  /** Merging `P` into a fresh `{}` builds a value equal to `P` (a deep copy). */
  lemma {:induction false} MergeIntoEmptyCopies(p: Value)
    requires IsPlain(p)
    ensures Merge(EmptyObject, p) == Ok(p)
  {
    assert Props(p) == p.props;
    forall k | k in p.props
      ensures !StepThrows(Lookup(map[], k), p.props[k])
      ensures Step(Lookup(map[], k), p.props[k]) == p.props[k]
    {
      assert Prepared(Lookup(map[], k)) == EmptyObject;
      if IsPlain(p.props[k]) {
        MergeIntoEmptyCopies(p.props[k]);
      }
      StepByMerge(Lookup(map[], k), p.props[k]);
    }
    assert !Throws(EmptyObject, p);
    var m := Overlay(map[], p, Props(p).Keys);
    assert m == p.props;
  }

  /** When no plain incoming value meets an object-typed current value, merge is
      a shallow overlay: the caller's keys win, every other key is kept. */
  lemma MergeOverNonObjects(source: Value, merged: Value)
    requires source.Obj?
    requires forall k | k in Props(merged) && IsPlain(Props(merged)[k]) ::
      Typeof(Lookup(source.props, k)) != "object"
    ensures Merge(source, merged) == Ok(Obj(source.cls, source.props + Props(merged)))
  {
    forall k | k in Props(merged)
      ensures !StepThrows(Lookup(source.props, k), Props(merged)[k])
      ensures Step(Lookup(source.props, k), Props(merged)[k]) == Props(merged)[k]
    {
      if IsPlain(Props(merged)[k]) {
        assert Prepared(Lookup(source.props, k)) == EmptyObject;
        MergeIntoEmptyCopies(Props(merged)[k]);
      }
      StepByMerge(Lookup(source.props, k), Props(merged)[k]);
    }
    assert !Throws(source, merged);
    var m := Overlay(source.props, merged, Props(merged).Keys);
    assert m == source.props + Props(merged);
  }

  /** Merging an object with no enumerable keys changes nothing. */
  lemma MergeNothing(source: Value, merged: Value)
    requires Typeof(source) == "object" && Props(merged) == map[]
    ensures Merge(source, merged) == Ok(source)
  {
    assert Props(merged).Keys == {};
    assert !Throws(source, merged);
    if source.Obj? {
      assert Overlay(source.props, merged, {}) == source.props;
    }
  }

  /** Merging the same object a second time changes nothing more:
      `merge(merge(A, B), B)` equals `merge(A, B)`. */
  lemma {:induction false} MergeIdempotent(source: Value, merged: Value)
    requires Typeof(source) == "object" && Merge(source, merged).Ok?
    ensures Merge(Merge(source, merged).value, merged) == Merge(source, merged)
    decreases merged
  {
    var r := Merge(source, merged).value;
    if source.Null? {
      MergeNothing(r, merged);
    } else {
      forall k | k in Props(merged)
        ensures !StepThrows(Lookup(r.props, k), Props(merged)[k])
        ensures Step(Lookup(r.props, k), Props(merged)[k]) == Lookup(r.props, k)
      {
        MergeAtKey(source, merged, k);
        if IsPlain(Props(merged)[k]) {
          var inner := Prepared(Lookup(source.props, k));
          MergeIdempotent(inner, Props(merged)[k]);
          assert Prepared(Lookup(r.props, k)) == r.props[k];
        }
        StepByMerge(Lookup(r.props, k), Props(merged)[k]);
      }
      assert !Throws(r, merged);
      var m := Overlay(r.props, merged, Props(merged).Keys);
      MergeAtKey(source, merged, "");
      assert m == r.props;
    }
  }

  /** Line 24-25 on `null`: `source[key]` is null and the incoming plain object
      has a key, so the recursive call assigns a property of null and throws. */
  lemma MergeThrowsOnNull(source: Value, merged: Value, k: string)
    requires source.Obj? && k in Props(merged) && IsPlain(Props(merged)[k])
    requires Lookup(source.props, k) == Null && Props(Props(merged)[k]) != map[]
    ensures Merge(source, merged) == Err(PropertyOfNull)
  {
    assert StepThrows(Lookup(source.props, k), Props(merged)[k]);
  }

  /** An object-typed value none of whose object-typed descendants is null. */
  predicate NullFree(v: Value)
    decreases v
  {
    v != Null && (v.Obj? ==> forall k | k in v.props :: Typeof(v.props[k]) == "object" ==> NullFree(v.props[k]))
  }

  /** Conversely, a source without nested nulls never makes merge throw. */
  lemma {:induction false} MergeNullFreeSucceeds(source: Value, merged: Value)
    requires Typeof(source) == "object" && NullFree(source)
    ensures Merge(source, merged).Ok?
    decreases merged
  {
    forall k | k in Props(merged)
      ensures !StepThrows(Lookup(source.props, k), Props(merged)[k])
    {
      var inner := Prepared(Lookup(source.props, k));
      if IsPlain(Props(merged)[k]) {
        assert NullFree(inner);
        MergeNullFreeSucceeds(inner, Props(merged)[k]);
      }
      StepByMerge(Lookup(source.props, k), Props(merged)[k]);
    }
    assert !Throws(source, merged);
  }

  /** merge({a: 1, b: {x: 1}}, {b: {y: 2}}) gives {a: 1, b: {x: 1, y: 2}}. */
  lemma MergeNestedExample()
    ensures Merge(Obj(PlainObject, map["a" := Number(1), "b" := Obj(PlainObject, map["x" := Number(1)])]),
                  Obj(PlainObject, map["b" := Obj(PlainObject, map["y" := Number(2)])]))
         == Ok(Obj(PlainObject, map["a" := Number(1), "b" := Obj(PlainObject, map["x" := Number(1), "y" := Number(2)])]))
  {
    var inner := Obj(PlainObject, map["x" := Number(1)]);
    var incoming := Obj(PlainObject, map["y" := Number(2)]);
    var both := Obj(PlainObject, map["x" := Number(1), "y" := Number(2)]);
    var props := map["a" := Number(1), "b" := inner];
    NestedExampleStep();
    StepByMerge(inner, incoming);
    assert Lookup(props, "b") == inner;
    MergeOneKey(PlainObject, props, "b", incoming);
    assert props["b" := both] == map["a" := Number(1), "b" := both];
  }

  /** Merging an object with a single key `k` changes `source[k]` only. */
  lemma MergeOneKey(c: ObjectClass, props: map<string, Value>, k: string, v: Value)
    requires !StepThrows(Lookup(props, k), v)
    ensures Merge(Obj(c, props), Obj(PlainObject, map[k := v]))
         == Ok(Obj(c, props[k := Step(Lookup(props, k), v)]))
  {
    var merged := Obj(PlainObject, map[k := v]);
    assert Props(merged).Keys == {k};
    assert Props(merged)[k] == v;
    assert !Throws(Obj(c, props), merged);
    OverlaySingle(props, merged, k);
  }

  lemma OverlaySingle(props: map<string, Value>, merged: Value, k: string)
    requires Props(merged).Keys == {k}
    ensures Overlay(props, merged, {k}) == props[k := Step(Lookup(props, k), Props(merged)[k])]
  {
  }

  /** The inner step of the example above: {x: 1} merged with {y: 2}. */
  lemma NestedExampleStep()
    ensures Step(Obj(PlainObject, map["x" := Number(1)]), Obj(PlainObject, map["y" := Number(2)]))
         == Obj(PlainObject, map["x" := Number(1), "y" := Number(2)])
  {
    var inner := Obj(PlainObject, map["x" := Number(1)]);
    var incoming := Obj(PlainObject, map["y" := Number(2)]);
    MergeOverNonObjects(inner, incoming);
    assert inner.props + incoming.props == map["x" := Number(1), "y" := Number(2)];
    StepByMerge(inner, incoming);
  }

  /** merge({a: {x: 1}}, {a: 5}) gives {a: 5}: a non-object replaces. */
  lemma MergeReplaceExample()
    ensures Merge(Obj(PlainObject, map["a" := Obj(PlainObject, map["x" := Number(1)])]),
                  Obj(PlainObject, map["a" := Number(5)]))
         == Ok(Obj(PlainObject, map["a" := Number(5)]))
  {
    var source := Obj(PlainObject, map["a" := Obj(PlainObject, map["x" := Number(1)])]);
    var merged := Obj(PlainObject, map["a" := Number(5)]);
    assert Props(merged).Keys == {"a"};
    assert !StepThrows(Lookup(source.props, "a"), Number(5));
    assert !Throws(source, merged);
    var m := Overlay(source.props, merged, {"a"});
    assert m.Keys == {"a"};
    assert m == map["a" := Number(5)];
  }
}
