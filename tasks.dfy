/**
 * `set` of index.js: turns the array of actions given to a task into the array
 * of functions the task runner calls in sequence. A function is taken as it
 * is, any other object contributes its `execute` property, and anything else
 * (a primitive, null, undefined) is dropped.
 */
module Tasks {
  import opened Util
  import Action

  /** What one element of the array adds to the result. */
  function Contribution(action: Value): seq<Value>
  {
    if action.Function? then [action]
    else if IsInstanceOfObject(action) then [Get(action, "execute")]
    else []
  }

  /** `set(setArr)` as a value, for the elements `forEach` visits: the
      contributions of the elements, in order. */
  function Executions(actions: seq<Value>): (r: seq<Value>)
    ensures |r| <= |actions|
  {
    if actions == [] then []
    else Executions(actions[..|actions| - 1]) + Contribution(actions[|actions| - 1])
  }

  /** `set(setArr)`: a `forEach` that pushes onto a fresh local array, which
      is returned; `setArr` itself is only read. */
  method Set(setArr: Value) returns (execution: seq<Value>)
    requires IsArray(setArr)
    ensures execution == Executions(Elements(setArr))
  {
    var props, n := setArr.props, setArr.cls.length;
    execution := [];
    var i := 0;
    while i < n
      invariant i <= n
      invariant execution == Executions(ElementsBelow(props, i))
    {
      ghost var es := ElementsBelow(props, i);
      var key := IndexKey(i);
      if key in props {
        var action := props[key];
        assert ElementsBelow(props, i + 1) == es + [action];
        ExecutionsSnoc(es, action);
        if action.Function? {
          execution := execution + [action];
        } else if IsInstanceOfObject(action) {
          execution := execution + [Get(action, "execute")];
        }
      } else {
        assert ElementsBelow(props, i + 1) == es;
      }
      i := i + 1;
    }
  }

  lemma ExecutionsSnoc(es: seq<Value>, action: Value)
    ensures Executions(es + [action]) == Executions(es) + Contribution(action)
  {
    assert (es + [action])[..|es|] == es;
  }

  /** The result of a concatenation is the concatenation of the results: the
      output keeps the order of the input. */
  lemma {:induction false} ExecutionsAppend(a: seq<Value>, b: seq<Value>)
    ensures Executions(a + b) == Executions(a) + Executions(b)
    decreases |b|
  {
    if b == [] {
      assert a + b == a;
    } else {
      assert (a + b)[..|a + b| - 1] == a + b[..|b| - 1];
      ExecutionsAppend(a, b[..|b| - 1]);
    }
  }

  /** When every element is an object or a function, nothing is dropped and
      the i-th function comes from the i-th element: the element itself when it
      is a function, its `execute` property (possibly undefined) otherwise. */
  lemma {:induction false} ExecutionsOfObjects(actions: seq<Value>)
    requires forall i | 0 <= i < |actions| :: IsInstanceOfObject(actions[i])
    ensures |Executions(actions)| == |actions|
    ensures forall i | 0 <= i < |actions| ::
      Executions(actions)[i] == if actions[i].Function? then actions[i] else Get(actions[i], "execute")
    decreases |actions|
  {
    if actions != [] {
      ExecutionsOfObjects(actions[..|actions| - 1]);
    }
  }

  /** Primitives, null and undefined contribute nothing. */
  lemma {:induction false} ExecutionsOfPrimitives(actions: seq<Value>)
    requires forall i | 0 <= i < |actions| :: !IsInstanceOfObject(actions[i])
    ensures Executions(actions) == []
    decreases |actions|
  {
    if actions != [] {
      ExecutionsOfPrimitives(actions[..|actions| - 1]);
    }
  }

  /** Every element of the result is a function of the input or the `execute`
      property of an object of the input. */
  lemma {:induction false} ExecutionsFromInput(actions: seq<Value>)
    ensures forall x | x in Executions(actions) ::
      exists a | a in actions :: (a.Function? && x == a) || (a.Obj? && x == Get(a, "execute"))
    decreases |actions|
  {
    if actions != [] {
      var init := actions[..|actions| - 1];
      ExecutionsFromInput(init);
      assert forall a | a in init :: a in actions;
    }
  }

  /** An action a builder returned, as an element of the array: the task runner
      receives the `execute` function the builder attached, with its
      `displayName`. */
  lemma SetOfBuiltActions(kinds: seq<Action.Kind>, fields: seq<map<string, Value>>, closures: seq<nat>)
    requires |kinds| == |fields| == |closures|
    requires forall i | 0 <= i < |kinds| :: !Action.Missing(kinds[i], fields[i])
    ensures var actions := seq(|kinds|, i requires 0 <= i < |kinds| =>
                              Obj(PlainObject, Action.Built(kinds[i], fields[i], closures[i]).value));
      && |Executions(actions)| == |kinds|
      && forall i | 0 <= i < |kinds| :: Executions(actions)[i] ==
           Function(closures[i], map["displayName" := Action.DisplayName(kinds[i], fields[i])])
  {
    var actions := seq(|kinds|, i requires 0 <= i < |kinds| =>
                       Obj(PlainObject, Action.Built(kinds[i], fields[i], closures[i]).value));
    ExecutionsOfObjects(actions);
    forall i | 0 <= i < |kinds|
      ensures Executions(actions)[i] ==
        Function(closures[i], map["displayName" := Action.DisplayName(kinds[i], fields[i])])
    {
      Action.BuiltDescriptor(kinds[i], fields[i], closures[i]);
    }
  }
}
