/**
 * The sample type `Demo` and the two objects its test diffs, as a fixture for the
 * model: seven fields, a constructor and fourteen public accessors.
 */
module DemoFixture {
  import opened JavaModel
  import opened Naming
  import opened Binding
  import opened DiffEngine

  /** The members of `Demo` as the compiler lists them: fields, constructor, methods. */
  const DemoElements: seq<Element> := [
    FieldElem(Field("intVal", NumericPrimitive, false)),
    FieldElem(Field("strVal", Reference, false)),
    FieldElem(Field("inner", Reference, false)),
    FieldElem(Field("pStrVal", Reference, true)),
    FieldElem(Field("isBool", Boolean, false)),
    FieldElem(Field("exist", Boolean, false)),
    FieldElem(Field("is", Boolean, false)),
    OtherElem,
    MethodElem("getIntVal", true),
    MethodElem("setIntVal", true),
    MethodElem("getStrVal", true),
    MethodElem("setStrVal", true),
    MethodElem("getInner", true),
    MethodElem("setInner", true),
    MethodElem("getpStrVal", true),
    MethodElem("setpStrVal", true),
    MethodElem("isBool", true),
    MethodElem("setBool", true),
    MethodElem("isExist", true),
    MethodElem("setExist", true),
    MethodElem("isIs", true),
    MethodElem("setIs", true)
  ]

  /** The names of the public methods of `Demo`. */
  const DemoMethods: set<string> := {
    "getIntVal", "setIntVal", "getStrVal", "setStrVal", "getInner", "setInner",
    "getpStrVal", "setpStrVal", "isBool", "setBool", "isExist", "setExist", "isIs", "setIs"
  }

  /** A `Demo` object. Strings and `DemoInner` objects are references; two references
      with different ids hold different contents. */
  function DemoObject(intVal: int, strVal: Value, inner: Value, pStrVal: Value, isBool: bool, exist: bool, isIs: bool): Instance {
    Instance(
      m =>
        if m == "getIntVal" then Num(intVal)
        else if m == "getStrVal" then strVal
        else if m == "getInner" then inner
        else if m == "getpStrVal" then pStrVal
        else if m == "isBool" then Bool(isBool)
        else if m == "isExist" then Bool(exist)
        else if m == "isIs" then Bool(isIs)
        else Null,
      f => if f == "pStrVal" then pStrVal else Null)
  }

  /** `equals` on the fixture's references: same contents iff same id. */
  function ContentEquals(a: Value, b: Value): bool {
    a == b
  }

  /** The naming table of the sample: each field's core name. */
  lemma DemoNamingTable()
    ensures GetterCoreName("intVal") == "IntVal"
    ensures GetterCoreName("strVal") == "StrVal"
    ensures GetterCoreName("inner") == "Inner"
    ensures GetterCoreName("pStrVal") == "pStrVal"
    ensures GetterCoreName("isBool") == "Bool"
    ensures GetterCoreName("exist") == "Exist"
    ensures GetterCoreName("is") == "Is"
  {
    assert KeepsName("pStrVal");
    assert StripsIs("isBool");
  }

  /** No public method at positions `lo` to `hi` of `elems` is declared again later. The
      sample's uniqueness is proved in ranges only to keep each proof small. */
  ghost predicate UniqueFrom(elems: seq<Element>, lo: nat, hi: nat) {
    forall i, j :: lo <= i < hi && i < j < |elems| && elems[i].MethodElem? && elems[i].isPublic ==>
      !IsPublicMethod(elems[j], elems[i].name)
  }

  /** `getIntVal` and `setIntVal` are not declared again later. */
  lemma DemoUnique0To10()
    ensures UniqueFrom(DemoElements, 0, 10)
  {
  }

  /** `getStrVal` and `setStrVal` are not declared again later. */
  lemma DemoUnique10To12()
    ensures UniqueFrom(DemoElements, 10, 12)
  {
  }

  /** `getInner`, `setInner` and `getpStrVal` are not declared again later. */
  lemma DemoUnique12To15()
    ensures UniqueFrom(DemoElements, 12, 15)
  {
  }

  /** `setpStrVal` and the accessors after it are not declared again later. */
  lemma DemoUnique15To22()
    ensures UniqueFrom(DemoElements, 15, 22)
  {
  }

  /** No public method of the sample is declared twice. */
  lemma DemoUnique()
    ensures UniquePublicMethods(DemoElements)
  {
    DemoUnique0To10();
    DemoUnique10To12();
    DemoUnique12To15();
    DemoUnique15To22();
  }

  /** The method table of the sample is built, and holds the accessors binding consults. */
  lemma DemoMethodMap()
    ensures GetMethodMap(DemoElements).Success?
    ensures DemoAccessors(GetMethodMap(DemoElements).value)
  {
    DemoMethodTable();
    assert DemoAccessors(DemoMethods);
  }

  /** The method table of the sample holds exactly the names of its fourteen public methods. */
  lemma DemoMethodTable()
    ensures GetMethodMap(DemoElements).Success?
    ensures GetMethodMap(DemoElements).value == DemoMethods
  {
    DemoUnique();
    GetMethodMapSucceeds(DemoElements);
    GetMethodMapNames(DemoElements);
    DemoDeclaresAll();
    DemoDeclaresOnly();
  }

  /** Every name of `DemoMethods` is declared as a public method of the sample. */
  lemma DemoDeclaresAll()
    ensures forall m :: m in DemoMethods ==> Declares(DemoElements, m)
  {
    assert IsPublicMethod(DemoElements[8], "getIntVal");
    assert IsPublicMethod(DemoElements[9], "setIntVal");
    assert IsPublicMethod(DemoElements[10], "getStrVal");
    assert IsPublicMethod(DemoElements[11], "setStrVal");
    assert IsPublicMethod(DemoElements[12], "getInner");
    assert IsPublicMethod(DemoElements[13], "setInner");
    assert IsPublicMethod(DemoElements[14], "getpStrVal");
    assert IsPublicMethod(DemoElements[15], "setpStrVal");
    assert IsPublicMethod(DemoElements[16], "isBool");
    assert IsPublicMethod(DemoElements[17], "setBool");
    assert IsPublicMethod(DemoElements[18], "isExist");
    assert IsPublicMethod(DemoElements[19], "setExist");
    assert IsPublicMethod(DemoElements[20], "isIs");
    assert IsPublicMethod(DemoElements[21], "setIs");
  }

  /** Every public method of the sample is named in `DemoMethods`. */
  lemma DemoDeclaresOnly()
    ensures forall m :: Declares(DemoElements, m) ==> m in DemoMethods
  {
  }

  /** The membership facts about the sample's method table that binding consults. */
  predicate DemoAccessors(methods: set<string>) {
    && "getIntVal" in methods && "getStrVal" in methods && "getInner" in methods && "getpStrVal" in methods
    && "getBool" !in methods && "isBool" in methods
    && "getExist" !in methods && "isExist" in methods
    && "getIs" !in methods && "isIs" in methods
  }

  /** The plan of one more element is the plan so far followed by that element's comparison. */
  lemma PlanStep(elems: seq<Element>, k: nat, methods: set<string>)
    requires k < |elems|
    ensures Plan(elems[..k + 1], methods) == Plan(elems[..k], methods) + CheckFor(elems[k], methods)
  {
    assert elems[..k + 1][..k] == elems[..k];
  }

  /** Elements that are not fields add nothing to the plan. */
  lemma {:induction false} PlanSkipsNonFields(elems: seq<Element>, k: nat, methods: set<string>)
    requires k <= |elems|
    requires forall i :: k <= i < |elems| ==> !elems[i].FieldElem?
    ensures Plan(elems, methods) == Plan(elems[..k], methods)
  {
    if k < |elems| {
      var init := elems[..|elems| - 1];
      PlanSkipsNonFields(init, k, methods);
      assert init[..k] == elems[..k];
    } else {
      assert elems[..k] == elems;
    }
  }

  /** The comparisons generated for `Demo`, one per field, with the accessor each one reads. */
  const DemoPlanChecks: seq<Check> := [
      Check("intVal", Call("getIntVal"), true),
      Check("strVal", Call("getStrVal"), false),
      Check("inner", Call("getInner"), false),
      Check("pStrVal", Call("getpStrVal"), false),
      Check("isBool", Call("isBool"), true),
      Check("exist", Call("isExist"), true),
      Check("is", Call("isIs"), true)
    ]

  /** A field whose get-accessor is declared is read through it. */
  lemma ReadThroughGet(f: Field, methods: set<string>, core: string)
    requires GetterCoreName(f.name) == core && "get" + core in methods
    ensures CheckFor(FieldElem(f), methods) == [Check(f.name, Call("get" + core), IsPrimitive(f.kind))]
  {
  }

  /** A Boolean field without a get-accessor but with an is-accessor is read through that. */
  lemma ReadThroughIs(f: Field, methods: set<string>, core: string)
    requires f.kind == Boolean && GetterCoreName(f.name) == core
    requires "get" + core !in methods && "is" + core in methods
    ensures CheckFor(FieldElem(f), methods) == [Check(f.name, Call("is" + core), true)]
  {
  }

  /** A field read through `checks[k]` extends the plan `checks[..k]` of the elements before it. */
  lemma PlanExtend(elems: seq<Element>, k: nat, methods: set<string>, checks: seq<Check>)
    requires k < |elems| && k < |checks|
    requires Plan(elems[..k], methods) == checks[..k] && CheckFor(elems[k], methods) == [checks[k]]
    ensures Plan(elems[..k + 1], methods) == checks[..k + 1]
  {
    PlanStep(elems, k, methods);
    PrefixSnoc(checks, k);
  }

  /** A prefix one longer is the prefix followed by the next element. */
  lemma PrefixSnoc<T>(s: seq<T>, k: nat)
    requires k < |s|
    ensures s[..k + 1] == s[..k] + [s[k]]
  {
  }

  /** `intVal` is read through `getIntVal`. */
  lemma IntValCheck(methods: set<string>)
    requires DemoAccessors(methods)
    ensures CheckFor(FieldElem(Field("intVal", NumericPrimitive, false)), methods) == [Check("intVal", Call("getIntVal"), true)]
  {
    assert GetterCoreName("intVal") == "IntVal" && "get" + "IntVal" == "getIntVal";
    ReadThroughGet(Field("intVal", NumericPrimitive, false), methods, "IntVal");
  }

  /** `strVal` is read through `getStrVal`. */
  lemma StrValCheck(methods: set<string>)
    requires DemoAccessors(methods)
    ensures CheckFor(FieldElem(Field("strVal", Reference, false)), methods) == [Check("strVal", Call("getStrVal"), false)]
  {
    assert GetterCoreName("strVal") == "StrVal" && "get" + "StrVal" == "getStrVal";
    ReadThroughGet(Field("strVal", Reference, false), methods, "StrVal");
  }

  /** `inner` is read through `getInner`. */
  lemma InnerCheck(methods: set<string>)
    requires DemoAccessors(methods)
    ensures CheckFor(FieldElem(Field("inner", Reference, false)), methods) == [Check("inner", Call("getInner"), false)]
  {
    assert GetterCoreName("inner") == "Inner" && "get" + "Inner" == "getInner";
    ReadThroughGet(Field("inner", Reference, false), methods, "Inner");
  }

  /** `pStrVal` is read through `getpStrVal`. */
  lemma PStrValCheck(methods: set<string>)
    requires DemoAccessors(methods)
    ensures CheckFor(FieldElem(Field("pStrVal", Reference, true)), methods) == [Check("pStrVal", Call("getpStrVal"), false)]
  {
    assert GetterCoreName("pStrVal") == "pStrVal" && "get" + "pStrVal" == "getpStrVal";
    ReadThroughGet(Field("pStrVal", Reference, true), methods, "pStrVal");
  }

  /** `isBool` has no `getBool`, so it is read through `isBool`. */
  lemma IsBoolCheck(methods: set<string>)
    requires DemoAccessors(methods)
    ensures CheckFor(FieldElem(Field("isBool", Boolean, false)), methods) == [Check("isBool", Call("isBool"), true)]
  {
    assert GetterCoreName("isBool") == "Bool";
    assert "get" + "Bool" == "getBool" && "is" + "Bool" == "isBool";
    ReadThroughIs(Field("isBool", Boolean, false), methods, "Bool");
  }

  /** `exist` has no `getExist`, so it is read through `isExist`. */
  lemma ExistCheck(methods: set<string>)
    requires DemoAccessors(methods)
    ensures CheckFor(FieldElem(Field("exist", Boolean, false)), methods) == [Check("exist", Call("isExist"), true)]
  {
    assert GetterCoreName("exist") == "Exist";
    assert "get" + "Exist" == "getExist" && "is" + "Exist" == "isExist";
    ReadThroughIs(Field("exist", Boolean, false), methods, "Exist");
  }

  /** `is` has no `getIs`, so it is read through `isIs`. */
  lemma IsIsCheck(methods: set<string>)
    requires DemoAccessors(methods)
    ensures CheckFor(FieldElem(Field("is", Boolean, false)), methods) == [Check("is", Call("isIs"), true)]
  {
    assert GetterCoreName("is") == "Is";
    assert "get" + "Is" == "getIs" && "is" + "Is" == "isIs";
    ReadThroughIs(Field("is", Boolean, false), methods, "Is");
  }

  /** The plan of the fields up to `intVal`. */
  lemma IntValPlan(elems: seq<Element>, methods: set<string>)
    requires elems == DemoElements && DemoAccessors(methods)
    ensures Plan(elems[..1], methods) == DemoPlanChecks[..1]
  {
    assert elems[..0] == [] && DemoPlanChecks[..0] == [];
    IntValCheck(methods);
    PlanExtend(elems, 0, methods, DemoPlanChecks);
  }

  /** The plan of the fields up to `strVal`. */
  lemma StrValPlan(elems: seq<Element>, methods: set<string>)
    requires elems == DemoElements && DemoAccessors(methods)
    ensures Plan(elems[..2], methods) == DemoPlanChecks[..2]
  {
    IntValPlan(elems, methods);
    StrValCheck(methods);
    PlanExtend(elems, 1, methods, DemoPlanChecks);
  }

  /** The plan of the fields up to `inner`. */
  lemma InnerPlan(elems: seq<Element>, methods: set<string>)
    requires elems == DemoElements && DemoAccessors(methods)
    ensures Plan(elems[..3], methods) == DemoPlanChecks[..3]
  {
    StrValPlan(elems, methods);
    InnerCheck(methods);
    PlanExtend(elems, 2, methods, DemoPlanChecks);
  }

  /** The plan of the fields up to `pStrVal`. */
  lemma PStrValPlan(elems: seq<Element>, methods: set<string>)
    requires elems == DemoElements && DemoAccessors(methods)
    ensures Plan(elems[..4], methods) == DemoPlanChecks[..4]
  {
    InnerPlan(elems, methods);
    PStrValCheck(methods);
    PlanExtend(elems, 3, methods, DemoPlanChecks);
  }

  /** The plan of the fields up to `isBool`. */
  lemma IsBoolPlan(elems: seq<Element>, methods: set<string>)
    requires elems == DemoElements && DemoAccessors(methods)
    ensures Plan(elems[..5], methods) == DemoPlanChecks[..5]
  {
    PStrValPlan(elems, methods);
    IsBoolCheck(methods);
    PlanExtend(elems, 4, methods, DemoPlanChecks);
  }

  /** The plan of the fields up to `exist`. */
  lemma ExistPlan(elems: seq<Element>, methods: set<string>)
    requires elems == DemoElements && DemoAccessors(methods)
    ensures Plan(elems[..6], methods) == DemoPlanChecks[..6]
  {
    IsBoolPlan(elems, methods);
    ExistCheck(methods);
    PlanExtend(elems, 5, methods, DemoPlanChecks);
  }

  /** The plan of the fields up to `is`. */
  lemma IsIsPlan(elems: seq<Element>, methods: set<string>)
    requires elems == DemoElements && DemoAccessors(methods)
    ensures Plan(elems[..7], methods) == DemoPlanChecks[..7]
  {
    ExistPlan(elems, methods);
    IsIsCheck(methods);
    PlanExtend(elems, 6, methods, DemoPlanChecks);
  }

  /** The members after the fields are not fields. */
  lemma DemoTailHasNoFields()
    ensures forall i :: 7 <= i < |DemoElements| ==> !DemoElements[i].FieldElem?
  {
  }

  /** Every field of the sample is readable, so the plan has one comparison per field. */
  lemma DemoPlan(methods: set<string>)
    requires DemoAccessors(methods)
    ensures Plan(DemoElements, methods) == DemoPlanChecks
  {
    IsIsPlan(DemoElements, methods);
    assert DemoPlanChecks[..7] == DemoPlanChecks;
    DemoTailHasNoFields();
    PlanSkipsNonFields(DemoElements, 7, methods);
  }

  /** Running one more check adds its entry to the map exactly when it detects a change. */
  lemma ChangesStep(plan: seq<Check>, k: nat, oldObj: Instance, newObj: Instance, equals: (Value, Value) -> bool)
    requires k < |plan|
    ensures Changes(plan[..k + 1], oldObj, newObj, equals) ==
      if Changed(plan[k], oldObj, newObj, equals)
      then Changes(plan[..k], oldObj, newObj, equals)[plan[k].field := ChangeOf(plan[k], oldObj, newObj)]
      else Changes(plan[..k], oldObj, newObj, equals)
  {
    assert plan[..k + 1][..k] == plan[..k];
  }

  /** The two objects of the sample test. */
  const Before: Instance := DemoObject(1, Ref(2), Ref(3), Ref(4), true, true, true)
  const After: Instance := DemoObject(11, Ref(22), Ref(5), Ref(44), false, false, false)

  /** The values the sample's accessors return on the two objects. */
  lemma DemoReads()
    ensures Read(Before, Call("getIntVal")) == Num(1) && Read(After, Call("getIntVal")) == Num(11)
    ensures Read(Before, Call("getStrVal")) == Ref(2) && Read(After, Call("getStrVal")) == Ref(22)
    ensures Read(Before, Call("getInner")) == Ref(3) && Read(After, Call("getInner")) == Ref(5)
    ensures Read(Before, Call("getpStrVal")) == Ref(4) && Read(After, Call("getpStrVal")) == Ref(44)
    ensures Read(Before, Call("isBool")) == Bool(true) && Read(After, Call("isBool")) == Bool(false)
    ensures Read(Before, Call("isExist")) == Bool(true) && Read(After, Call("isExist")) == Bool(false)
    ensures Read(Before, Call("isIs")) == Bool(true) && Read(After, Call("isIs")) == Bool(false)
  {
  }

  /** A check that detects a change adds its entry to the map built by the checks before it. */
  lemma ChangesExtend(plan: seq<Check>, k: nat, oldObj: Instance, newObj: Instance, equals: (Value, Value) -> bool,
                      m: map<string, Change>, v: Change)
    requires k < |plan| && Changes(plan[..k], oldObj, newObj, equals) == m
    requires Changed(plan[k], oldObj, newObj, equals) && ChangeOf(plan[k], oldObj, newObj) == v
    ensures Changes(plan[..k + 1], oldObj, newObj, equals) == m[plan[k].field := v]
  {
    ChangesStep(plan, k, oldObj, newObj, equals);
  }

  /** The first two checks of the sample on the two objects of the sample test. */
  lemma DemoChangesFirst(plan: seq<Check>)
    requires plan == DemoPlanChecks
    ensures Changes(plan[..2], Before, After, ContentEquals) == map[
        "intVal" := Change(Num(1), Num(11)),
        "strVal" := Change(Ref(2), Ref(22))]
  {
    DemoReads();
    var m: map<string, Change> := map[];
    assert plan[..0] == [];
    ChangesExtend(plan, 0, Before, After, ContentEquals, m, Change(Num(1), Num(11)));
    m := m["intVal" := Change(Num(1), Num(11))];
    ChangesExtend(plan, 1, Before, After, ContentEquals, m, Change(Ref(2), Ref(22)));
  }

  /** The first four checks of the sample on the two objects of the sample test. */
  lemma DemoChangesMiddle(plan: seq<Check>)
    requires plan == DemoPlanChecks
    ensures Changes(plan[..4], Before, After, ContentEquals) == map[
        "intVal" := Change(Num(1), Num(11)),
        "strVal" := Change(Ref(2), Ref(22)),
        "inner" := Change(Ref(3), Ref(5)),
        "pStrVal" := Change(Ref(4), Ref(44))]
  {
    DemoReads();
    DemoChangesFirst(plan);
    var m: map<string, Change> := map[
        "intVal" := Change(Num(1), Num(11)),
        "strVal" := Change(Ref(2), Ref(22))];
    ChangesExtend(plan, 2, Before, After, ContentEquals, m, Change(Ref(3), Ref(5)));
    m := m["inner" := Change(Ref(3), Ref(5))];
    ChangesExtend(plan, 3, Before, After, ContentEquals, m, Change(Ref(4), Ref(44)));
  }

  /** Running all the sample's checks on the two objects of the sample test. */
  lemma DemoChanges(plan: seq<Check>)
    requires plan == DemoPlanChecks
    ensures Changes(plan, Before, After, ContentEquals) == map[
        "intVal" := Change(Num(1), Num(11)),
        "strVal" := Change(Ref(2), Ref(22)),
        "inner" := Change(Ref(3), Ref(5)),
        "pStrVal" := Change(Ref(4), Ref(44)),
        "isBool" := Change(Bool(true), Bool(false)),
        "exist" := Change(Bool(true), Bool(false)),
        "is" := Change(Bool(true), Bool(false))]
  {
    DemoReads();
    DemoChangesMiddle(plan);
    var m: map<string, Change> := map[
        "intVal" := Change(Num(1), Num(11)),
        "strVal" := Change(Ref(2), Ref(22)),
        "inner" := Change(Ref(3), Ref(5)),
        "pStrVal" := Change(Ref(4), Ref(44))];
    ChangesExtend(plan, 4, Before, After, ContentEquals, m, Change(Bool(true), Bool(false)));
    m := m["isBool" := Change(Bool(true), Bool(false))];
    ChangesExtend(plan, 5, Before, After, ContentEquals, m, Change(Bool(true), Bool(false)));
    m := m["exist" := Change(Bool(true), Bool(false))];
    ChangesExtend(plan, 6, Before, After, ContentEquals, m, Change(Bool(true), Bool(false)));
    assert plan[..7] == plan;
  }

  /** The sample test: two objects differing in all seven fields give seven changes. */
  lemma DemoAllFieldsChanged()
    ensures
      var r := GeneratedDiff(DemoElements, Before, After, ContentEquals);
      && r.Success?
      && r.value == map[
        "intVal" := Change(Num(1), Num(11)),
        "strVal" := Change(Ref(2), Ref(22)),
        "inner" := Change(Ref(3), Ref(5)),
        "pStrVal" := Change(Ref(4), Ref(44)),
        "isBool" := Change(Bool(true), Bool(false)),
        "exist" := Change(Bool(true), Bool(false)),
        "is" := Change(Bool(true), Bool(false))]
  {
    DemoMethodMap();
    DemoPlan(GetMethodMap(DemoElements).value);
    DemoChanges(DemoPlanChecks);
  }

  /** Two objects differing only in `intVal` give that one change. */
  lemma DemoOneFieldChanged()
    ensures
      var d1 := DemoObject(5, Ref(2), Ref(3), Ref(4), true, true, true);
      var d2 := DemoObject(6, Ref(2), Ref(3), Ref(4), true, true, true);
      GeneratedDiff(DemoElements, d1, d2, ContentEquals) == Success(map["intVal" := Change(Num(5), Num(6))])
  {
    var d1 := DemoObject(5, Ref(2), Ref(3), Ref(4), true, true, true);
    var d2 := DemoObject(6, Ref(2), Ref(3), Ref(4), true, true, true);
    DemoMethodMap();
    DemoPlan(GetMethodMap(DemoElements).value);
    ChangesStep(DemoPlanChecks, 0, d1, d2, ContentEquals);
    ChangesStep(DemoPlanChecks, 1, d1, d2, ContentEquals);
    ChangesStep(DemoPlanChecks, 2, d1, d2, ContentEquals);
    ChangesStep(DemoPlanChecks, 3, d1, d2, ContentEquals);
    ChangesStep(DemoPlanChecks, 4, d1, d2, ContentEquals);
    ChangesStep(DemoPlanChecks, 5, d1, d2, ContentEquals);
    ChangesStep(DemoPlanChecks, 6, d1, d2, ContentEquals);
    assert DemoPlanChecks[..0] == [];
    assert DemoPlanChecks[..7] == DemoPlanChecks;
  }
}
