/**
 * Change detection. At compile time the processor walks the fields of the diffed
 * type and emits one comparison per readable field (the plan); at run time the
 * emitted method performs those comparisons in order on two objects and puts each
 * detected change into a fresh map under the field's name.
 */
module DiffEngine {
  import opened JavaModel
  import opened Binding

  /** One detected change: the field's value in the old and in the new object. */
  datatype Change = Change(oldValue: Value, newValue: Value)

  /** One emitted comparison: the key it reports under, how it reads the field, and
      whether it compares with `!=` (primitive) or with the null-aware equals rule. */
  datatype Check = Check(field: string, access: Accessor, primitive: bool)

  /** What the emitted code emits for one enclosed element: nothing for a non-field or
      an unreadable field, one check otherwise. */
  function CheckFor(e: Element, methods: set<string>): seq<Check> {
    if e.FieldElem? then
      match GetterMethodName(e.field, methods)
      case None => []
      case Some(a) => [Check(e.field.name, a, IsPrimitive(e.field.kind))]
    else []
  }

  /** Check `c` is the one emitted for element `e`. */
  predicate Emits(e: Element, methods: set<string>, c: Check) {
    && e.FieldElem?
    && e.field.name == c.field
    && GetterMethodName(e.field, methods) == Some(c.access)
    && c.primitive == IsPrimitive(e.field.kind)
  }

  /** Check `c` is emitted for one of the elements. */
  ghost predicate EmittedFor(elems: seq<Element>, methods: set<string>, c: Check) {
    exists i :: 0 <= i < |elems| && Emits(elems[i], methods, c)
  }

  ghost predicate UniqueFieldNames(elems: seq<Element>) {
    forall i, j :: 0 <= i < j < |elems| && elems[i].FieldElem? && elems[j].FieldElem? ==>
      elems[i].field.name != elems[j].field.name
  }

  ghost predicate UniqueKeys(plan: seq<Check>) {
    forall i, j :: 0 <= i < j < |plan| ==> plan[i].field != plan[j].field
  }

  /** The comparisons emitted for the type's enclosed elements, in declaration order. */
  function Plan(elems: seq<Element>, methods: set<string>): (plan: seq<Check>)
    ensures |plan| <= |elems|
  {
    if elems == [] then []
    else Plan(elems[..|elems| - 1], methods) + CheckFor(elems[|elems| - 1], methods)
  }

  /** Every emitted comparison belongs to a readable field of the type. */
  lemma {:induction false} PlanChecksEmitted(elems: seq<Element>, methods: set<string>)
    ensures forall c :: c in Plan(elems, methods) ==> EmittedFor(elems, methods, c)
  {
    if elems != [] {
      var init := elems[..|elems| - 1];
      PlanChecksEmitted(init, methods);
      forall c | c in Plan(elems, methods)
        ensures EmittedFor(elems, methods, c)
      {
        if c in Plan(init, methods) {
          var i :| 0 <= i < |init| && Emits(init[i], methods, c);
          assert elems[i] == init[i];
        } else {
          assert Emits(elems[|elems| - 1], methods, c);
        }
      }
    }
  }

  /** Every readable field gets its comparison. */
  lemma {:induction false} PlanCoversField(elems: seq<Element>, methods: set<string>, i: nat)
    requires i < |elems| && elems[i].FieldElem?
    requires GetterMethodName(elems[i].field, methods).Some?
    ensures Check(elems[i].field.name, GetterMethodName(elems[i].field, methods).value, IsPrimitive(elems[i].field.kind))
              in Plan(elems, methods)
  {
    var init := elems[..|elems| - 1];
    if i < |elems| - 1 {
      assert init[i] == elems[i];
      PlanCoversField(init, methods, i);
    }
  }

  /** Distinct field names give distinct keys in the emitted code. */
  lemma {:induction false} PlanKeysUnique(elems: seq<Element>, methods: set<string>)
    requires UniqueFieldNames(elems)
    ensures UniqueKeys(Plan(elems, methods))
  {
    if elems != [] {
      var init := elems[..|elems| - 1];
      var last := elems[|elems| - 1];
      assert forall i :: 0 <= i < |init| ==> init[i] == elems[i];
      PlanKeysUnique(init, methods);
      PlanChecksEmitted(init, methods);
      var prev := Plan(init, methods);
      var plan := Plan(elems, methods);
      forall i, j | 0 <= i < j < |plan|
        ensures plan[i].field != plan[j].field
      {
        if j >= |prev| {
          assert plan[j] == CheckFor(last, methods)[0];
          assert prev[i] in prev && EmittedFor(init, methods, prev[i]);
          var k :| 0 <= k < |init| && Emits(init[k], methods, prev[i]);
          assert elems[k].FieldElem? && elems[k].field.name == plan[i].field;
        }
      }
    }
  }

  /** The value an emitted read yields on an object. */
  function Read(obj: Instance, a: Accessor): Value {
    match a
    case Call(m) => obj.invoke(m)
    case FieldAccess(n) => obj.fieldValue(n)
  }

  /** The condition of the emitted `if`: `!=` for a primitive; for a reference,
      `old == null && new != null`, or else `old != null && !old.equals(new)`. */
  predicate Changed(c: Check, oldObj: Instance, newObj: Instance, equals: (Value, Value) -> bool) {
    var ov := Read(oldObj, c.access);
    var nv := Read(newObj, c.access);
    if c.primitive then ov != nv
    else (ov == Null && nv != Null) || (ov != Null && !equals(ov, nv))
  }

  function ChangeOf(c: Check, oldObj: Instance, newObj: Instance): Change {
    Change(Read(oldObj, c.access), Read(newObj, c.access))
  }

  /** The map the emitted method returns after running the checks in order; a later
      put under the same key replaces an earlier one. */
  function Changes(plan: seq<Check>, oldObj: Instance, newObj: Instance, equals: (Value, Value) -> bool)
    : (changes: map<string, Change>)
  {
    if plan == [] then map[]
    else
      var c := plan[|plan| - 1];
      var prev := Changes(plan[..|plan| - 1], oldObj, newObj, equals);
      if Changed(c, oldObj, newObj, equals) then prev[c.field := ChangeOf(c, oldObj, newObj)]
      else prev
  }

  /** Each comparison puts at most one entry, so the map has no more entries than the plan
      has comparisons. */
  lemma {:induction false} ChangesSize(plan: seq<Check>, oldObj: Instance, newObj: Instance, equals: (Value, Value) -> bool)
    ensures |Changes(plan, oldObj, newObj, equals)| <= |plan|
  {
    if plan != [] {
      var c := plan[|plan| - 1];
      var prev := Changes(plan[..|plan| - 1], oldObj, newObj, equals);
      ChangesSize(plan[..|plan| - 1], oldObj, newObj, equals);
      if Changed(c, oldObj, newObj, equals) {
        assert prev[c.field := ChangeOf(c, oldObj, newObj)].Keys == prev.Keys + {c.field};
      }
    }
  }

  /** Some comparison detected a change. */
  ghost predicate DetectedBy(plan: seq<Check>, k: string, oldObj: Instance, newObj: Instance, equals: (Value, Value) -> bool) {
    exists j :: 0 <= j < |plan| && plan[j].field == k && Changed(plan[j], oldObj, newObj, equals)
  }

  /** Every key of the result was put by a comparison that detected a change. */
  lemma {:induction false} ChangesKeys(plan: seq<Check>, oldObj: Instance, newObj: Instance, equals: (Value, Value) -> bool)
    ensures forall k :: k in Changes(plan, oldObj, newObj, equals) ==> DetectedBy(plan, k, oldObj, newObj, equals)
  {
    if plan != [] {
      var init := plan[..|plan| - 1];
      ChangesKeys(init, oldObj, newObj, equals);
      forall k | k in Changes(plan, oldObj, newObj, equals)
        ensures DetectedBy(plan, k, oldObj, newObj, equals)
      {
        if k in Changes(init, oldObj, newObj, equals) && k != plan[|plan| - 1].field {
          var j :| 0 <= j < |init| && init[j].field == k && Changed(init[j], oldObj, newObj, equals);
          assert plan[j] == init[j];
        } else {
          assert plan[|plan| - 1].field == k;
        }
      }
    }
  }

  /** With distinct keys, a check's key is in the result exactly when that check
      detected a change, and then it holds that check's old and new values. */
  lemma {:induction false} ChangesAt(plan: seq<Check>, j: nat, oldObj: Instance, newObj: Instance, equals: (Value, Value) -> bool)
    requires UniqueKeys(plan) && j < |plan|
    ensures plan[j].field in Changes(plan, oldObj, newObj, equals) <==> Changed(plan[j], oldObj, newObj, equals)
    ensures plan[j].field in Changes(plan, oldObj, newObj, equals) ==>
      Changes(plan, oldObj, newObj, equals)[plan[j].field] == ChangeOf(plan[j], oldObj, newObj)
  {
    var init := plan[..|plan| - 1];
    assert forall i :: 0 <= i < |init| ==> init[i] == plan[i];
    if j < |plan| - 1 {
      ChangesAt(init, j, oldObj, newObj, equals);
      assert plan[|plan| - 1].field != plan[j].field;
    } else {
      ChangesKeys(init, oldObj, newObj, equals);
      assert !DetectedBy(init, plan[j].field, oldObj, newObj, equals);
    }
  }

  /** The emitted method's result for a type with enclosed elements `elems`; it fails
      when the method table cannot be built. */
  function GeneratedDiff(elems: seq<Element>, oldObj: Instance, newObj: Instance, equals: (Value, Value) -> bool)
    : (r: Result<map<string, Change>, Error>)
  {
    match GetMethodMap(elems)
    case Failure(e) => Failure(e)
    case Success(methods) => Success(Changes(Plan(elems, methods), oldObj, newObj, equals))
  }

  /** Generation fails exactly when two public methods share a name. */
  lemma GeneratedDiffFails(elems: seq<Element>, oldObj: Instance, newObj: Instance, equals: (Value, Value) -> bool)
    ensures GeneratedDiff(elems, oldObj, newObj, equals).Failure? <==> !UniquePublicMethods(elems)
  {
    GetMethodMapSucceeds(elems);
  }

  /** Every key of the result is the name of a field of the type. */
  lemma KeysAreFieldNames(elems: seq<Element>, oldObj: Instance, newObj: Instance, equals: (Value, Value) -> bool, k: string)
    requires GeneratedDiff(elems, oldObj, newObj, equals).Success?
    requires k in GeneratedDiff(elems, oldObj, newObj, equals).value
    ensures exists i :: 0 <= i < |elems| && elems[i].FieldElem? && elems[i].field.name == k
  {
    var methods := GetMethodMap(elems).value;
    PlanKeysAreFieldNames(elems, methods, oldObj, newObj, equals, k);
  }

  lemma PlanKeysAreFieldNames(elems: seq<Element>, methods: set<string>, oldObj: Instance, newObj: Instance, equals: (Value, Value) -> bool, k: string)
    requires k in Changes(Plan(elems, methods), oldObj, newObj, equals)
    ensures exists i :: 0 <= i < |elems| && elems[i].FieldElem? && elems[i].field.name == k
  {
    var plan := Plan(elems, methods);
    ChangesKeys(plan, oldObj, newObj, equals);
    PlanChecksEmitted(elems, methods);
    var j :| 0 <= j < |plan| && plan[j].field == k && Changed(plan[j], oldObj, newObj, equals);
    assert plan[j] in plan;
    var i :| 0 <= i < |elems| && Emits(elems[i], methods, plan[j]);
    assert elems[i].field.name == k;
  }

  /** A readable field is reported exactly when its emitted comparison detects a change,
      and then with the values read from the old and the new object. */
  lemma ReadableFieldEntry(elems: seq<Element>, i: nat, oldObj: Instance, newObj: Instance, equals: (Value, Value) -> bool)
    requires UniqueFieldNames(elems) && GetMethodMap(elems).Success?
    requires i < |elems| && elems[i].FieldElem?
    requires GetterMethodName(elems[i].field, GetMethodMap(elems).value).Some?
    ensures
      var f := elems[i].field;
      var a := GetterMethodName(f, GetMethodMap(elems).value).value;
      var changes := GeneratedDiff(elems, oldObj, newObj, equals).value;
      && (f.name in changes <==> Changed(Check(f.name, a, IsPrimitive(f.kind)), oldObj, newObj, equals))
      && (f.name in changes ==> changes[f.name] == Change(Read(oldObj, a), Read(newObj, a)))
  {
    var methods := GetMethodMap(elems).value;
    var f := elems[i].field;
    var c := Check(f.name, GetterMethodName(f, methods).value, IsPrimitive(f.kind));
    var plan := Plan(elems, methods);
    PlanCoversField(elems, methods, i);
    PlanKeysUnique(elems, methods);
    var j :| 0 <= j < |plan| && plan[j] == c;
    ChangesAt(plan, j, oldObj, newObj, equals);
  }

  /** A field with no accessor and no public visibility is never reported, whatever
      the two objects hold. */
  lemma UnreadableFieldNeverReported(elems: seq<Element>, i: nat, oldObj: Instance, newObj: Instance, equals: (Value, Value) -> bool)
    requires UniqueFieldNames(elems) && GetMethodMap(elems).Success?
    requires i < |elems| && elems[i].FieldElem?
    requires GetterMethodName(elems[i].field, GetMethodMap(elems).value).None?
    ensures elems[i].field.name !in GeneratedDiff(elems, oldObj, newObj, equals).value
  {
    var methods := GetMethodMap(elems).value;
    var plan := Plan(elems, methods);
    var name := elems[i].field.name;
    ChangesKeys(plan, oldObj, newObj, equals);
    PlanChecksEmitted(elems, methods);
    forall j | 0 <= j < |plan|
      ensures plan[j].field != name
    {
      assert plan[j] in plan;
      var k :| 0 <= k < |elems| && Emits(elems[k], methods, plan[j]);
      assert k != i;
    }
  }

  /** `equals` is reflexive on objects, as Java's contract for it demands. */
  ghost predicate ReflexiveEquals(equals: (Value, Value) -> bool) {
    forall v: Value :: v != Null ==> equals(v, v)
  }

  /** `x.equals(null)` is false for every object `x`, as Java's contract demands. */
  ghost predicate NullUnequal(equals: (Value, Value) -> bool) {
    forall v: Value :: v != Null ==> !equals(v, Null)
  }

  /** Diffing an object against itself reports nothing. */
  lemma {:induction false} SelfDiffEmpty(plan: seq<Check>, obj: Instance, equals: (Value, Value) -> bool)
    requires ReflexiveEquals(equals)
    ensures Changes(plan, obj, obj, equals) == map[]
  {
    if plan != [] {
      var c := plan[|plan| - 1];
      SelfDiffEmpty(plan[..|plan| - 1], obj, equals);
      var v := Read(obj, c.access);
      assert v != Null ==> equals(v, v);
    }
  }

  /** The same, for the whole generated method. */
  lemma GeneratedSelfDiffEmpty(elems: seq<Element>, obj: Instance, equals: (Value, Value) -> bool)
    requires ReflexiveEquals(equals) && GetMethodMap(elems).Success?
    ensures GeneratedDiff(elems, obj, obj, equals) == Success(map[])
  {
    SelfDiffEmpty(Plan(elems, GetMethodMap(elems).value), obj, equals);
  }

  /** A primitive field is reported exactly when its two values differ (a reading aid for
      the primitive branch of `Changed`). */
  lemma PrimitiveRule(c: Check, oldObj: Instance, newObj: Instance, equals: (Value, Value) -> bool)
    requires c.primitive
    ensures Changed(c, oldObj, newObj, equals) <==> Read(oldObj, c.access) != Read(newObj, c.access)
  {
  }

  /** The null-aware rule for reference fields, case by case. */
  lemma ReferenceRule(c: Check, oldObj: Instance, newObj: Instance, equals: (Value, Value) -> bool)
    requires !c.primitive
    ensures Read(oldObj, c.access) == Null && Read(newObj, c.access) == Null ==> !Changed(c, oldObj, newObj, equals)
    ensures Read(oldObj, c.access) == Null && Read(newObj, c.access) != Null ==> Changed(c, oldObj, newObj, equals)
    ensures Read(oldObj, c.access) != Null ==>
      (Changed(c, oldObj, newObj, equals) <==> !equals(Read(oldObj, c.access), Read(newObj, c.access)))
  {
  }

  /** With an `equals` that is false against null, exactly one null side is always a change,
      whichever side it is. */
  lemma NullSymmetry(c: Check, oldObj: Instance, newObj: Instance, equals: (Value, Value) -> bool)
    requires !c.primitive && NullUnequal(equals)
    ensures (Read(oldObj, c.access) == Null) != (Read(newObj, c.access) == Null) ==> Changed(c, oldObj, newObj, equals)
  {
    var ov := Read(oldObj, c.access);
    if ov != Null {
      assert !equals(ov, Null);
    }
  }

  /** Java's `Objects.equals(a, b)`: the same reference, or a non-null `a` equal to `b`. */
  predicate ObjectsEquals(a: Value, b: Value, equals: (Value, Value) -> bool) {
    a == b || (a != Null && equals(a, b))
  }

  /** The asymmetric reference rule reports the same changes as the symmetric
      `!Objects.equals(old, new)`, for any reflexive `equals`. */
  lemma ReferenceRuleIsObjectsEquals(c: Check, oldObj: Instance, newObj: Instance, equals: (Value, Value) -> bool)
    requires !c.primitive && ReflexiveEquals(equals)
    ensures Changed(c, oldObj, newObj, equals) <==>
      !ObjectsEquals(Read(oldObj, c.access), Read(newObj, c.access), equals)
  {
    var ov := Read(oldObj, c.access);
    if ov != Null {
      assert equals(ov, ov);
    }
  }

  /** The processor's loop over the enclosed elements: build the method table, then emit
      one comparison per readable field, skipping everything else. */
  method GenerateMethodBody(elems: seq<Element>) returns (r: Result<seq<Check>, Error>)
    ensures r.Failure? <==> GetMethodMap(elems).Failure?
    ensures r.Failure? ==> r.error == GetMethodMap(elems).error
    ensures r.Success? ==> r.value == Plan(elems, GetMethodMap(elems).value)
  {
    var methodMap := GetMethodMap(elems);
    if methodMap.Failure? {
      return Failure(methodMap.error);
    }
    var methods := methodMap.value;
    var plan := [];
    for i := 0 to |elems|
      invariant plan == Plan(elems[..i], methods)
    {
      assert elems[..i + 1][..i] == elems[..i];
      var e := elems[i];
      if !e.FieldElem? {
        continue;
      }
      var accessor := GetterMethodName(e.field, methods);
      if accessor.None? {
        continue;
      }
      plan := plan + [Check(e.field.name, accessor.value, IsPrimitive(e.field.kind))];
    }
    assert elems[..|elems|] == elems;
    return Success(plan);
  }

  /** The emitted method: a fresh map, then for each comparison in order, a put under
      the field's name when it detects a change. */
  method ExecuteDiff(plan: seq<Check>, oldObj: Instance, newObj: Instance, equals: (Value, Value) -> bool)
    returns (changeFields: map<string, Change>)
    ensures changeFields == Changes(plan, oldObj, newObj, equals)
  {
    changeFields := map[];
    for i := 0 to |plan|
      invariant changeFields == Changes(plan[..i], oldObj, newObj, equals)
    {
      assert plan[..i + 1][..i] == plan[..i];
      var c := plan[i];
      var ov := Read(oldObj, c.access);
      var nv := Read(newObj, c.access);
      if c.primitive {
        if ov != nv {
          changeFields := changeFields[c.field := Change(ov, nv)];
        }
      } else {
        if ov == Null && nv != Null {
          changeFields := changeFields[c.field := Change(ov, nv)];
        } else if ov != Null && !equals(ov, nv) {
          changeFields := changeFields[c.field := Change(ov, nv)];
        }
      }
    }
    assert plan[..|plan|] == plan;
  }

  /** Generating the method for the type and calling it on two objects. */
  method Diff(elems: seq<Element>, oldObj: Instance, newObj: Instance, equals: (Value, Value) -> bool)
    returns (r: Result<map<string, Change>, Error>)
    ensures r == GeneratedDiff(elems, oldObj, newObj, equals)
  {
    var body := GenerateMethodBody(elems);
    if body.Failure? {
      return Failure(body.error);
    }
    var changes := ExecuteDiff(body.value, oldObj, newObj, equals);
    return Success(changes);
  }
}
