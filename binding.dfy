/**
 * Accessor binding: the table of public method names of the diffed type, the
 * choice of how each field is read, and which annotated declarations are accepted.
 */
module Binding {
  import opened JavaModel
  import opened Naming

  /** Collecting the method table fails when two public methods share a name. */
  datatype Error = DuplicateKey(name: string)

  predicate IsPublicMethod(e: Element, m: string) {
    e.MethodElem? && e.isPublic && e.name == m
  }

  ghost predicate UniquePublicMethods(elems: seq<Element>) {
    forall i, j :: 0 <= i < j < |elems| && elems[i].MethodElem? && elems[i].isPublic ==>
      !IsPublicMethod(elems[j], elems[i].name)
  }

  /** The names of the public methods the type declares, collected in declaration
      order into a table whose keys must be unique. */
  function GetMethodMap(elems: seq<Element>): (r: Result<set<string>, Error>)
  {
    if elems == [] then Success({})
    else
      var prefix := GetMethodMap(elems[..|elems| - 1]);
      var e := elems[|elems| - 1];
      if prefix.Failure? then prefix
      else if e.MethodElem? && e.isPublic then
        if e.name in prefix.value then Failure(DuplicateKey(e.name))
        else Success(prefix.value + {e.name})
      else prefix
  }

  /** A public method `m` is declared among `elems`. */
  ghost predicate Declares(elems: seq<Element>, m: string) {
    exists i :: 0 <= i < |elems| && IsPublicMethod(elems[i], m)
  }

  /** A built table holds exactly the names of the public methods. */
  lemma {:induction false} GetMethodMapNames(elems: seq<Element>)
    requires GetMethodMap(elems).Success?
    ensures forall m :: m in GetMethodMap(elems).value <==> Declares(elems, m)
  {
    if elems != [] {
      var init := elems[..|elems| - 1];
      var last := elems[|elems| - 1];
      GetMethodMapNames(init);
      forall m
        ensures m in GetMethodMap(elems).value <==> Declares(elems, m)
      {
        if Declares(init, m) {
          var i :| 0 <= i < |init| && IsPublicMethod(init[i], m);
          assert IsPublicMethod(elems[i], m);
        }
        if Declares(elems, m) && !IsPublicMethod(last, m) {
          var i :| 0 <= i < |elems| && IsPublicMethod(elems[i], m);
          assert i < |init| && IsPublicMethod(init[i], m);
        }
      }
    }
  }

  /** The table is built exactly when no two public methods share a name. */
  lemma {:induction false} GetMethodMapSucceeds(elems: seq<Element>)
    ensures GetMethodMap(elems).Success? <==> UniquePublicMethods(elems)
  {
    if elems != [] {
      var init := elems[..|elems| - 1];
      var last := elems[|elems| - 1];
      assert forall i :: 0 <= i < |init| ==> init[i] == elems[i];
      GetMethodMapSucceeds(init);
      var prefix := GetMethodMap(init);
      if prefix.Success? {
        GetMethodMapNames(init);
        if last.MethodElem? && last.isPublic && last.name in prefix.value {
          var i :| 0 <= i < |init| && IsPublicMethod(init[i], last.name);
          assert IsPublicMethod(elems[i], last.name) && IsPublicMethod(elems[|elems| - 1], last.name);
        } else {
          forall i, j | 0 <= i < j < |elems| && elems[i].MethodElem? && elems[i].isPublic
            ensures !IsPublicMethod(elems[j], elems[i].name)
          {
          }
        }
      }
    }
  }

  /** When the table cannot be built, the error names a method declared twice. */
  lemma {:induction false} GetMethodMapDuplicate(elems: seq<Element>)
    requires GetMethodMap(elems).Failure?
    ensures exists i, j :: 0 <= i < j < |elems| && IsPublicMethod(elems[i], GetMethodMap(elems).error.name)
                                                && IsPublicMethod(elems[j], GetMethodMap(elems).error.name)
  {
    var init := elems[..|elems| - 1];
    var last := elems[|elems| - 1];
    var name := GetMethodMap(elems).error.name;
    if GetMethodMap(init).Failure? {
      GetMethodMapDuplicate(init);
      var i, j :| 0 <= i < j < |init| && IsPublicMethod(init[i], name) && IsPublicMethod(init[j], name);
      assert IsPublicMethod(elems[i], name) && IsPublicMethod(elems[j], name);
    } else {
      GetMethodMapNames(init);
      assert Declares(init, name);
      var i :| 0 <= i < |init| && IsPublicMethod(init[i], name);
      assert IsPublicMethod(elems[i], name) && IsPublicMethod(elems[|elems| - 1], name);
    }
  }

  /** How the generated code reads a field: by calling a parameterless method, or by
      reading the public field itself. */
  datatype Accessor = Call(methodName: string) | FieldAccess(name: string)

  /** The accessor for field `f`, given the type's public method names; None when the
      field cannot be read and is skipped. */
  function GetterMethodName(f: Field, methods: set<string>): (r: Option<Accessor>)
    ensures r.Some? && r.value.Call? ==> r.value.methodName in methods
    ensures r.Some? && r.value.FieldAccess? ==> f.isPublic && r.value.name == f.name
    ensures r == Some(Call("is" + GetterCoreName(f.name))) ==> f.kind == Boolean
    ensures r.None? <==>
      && "get" + GetterCoreName(f.name) !in methods
      && !(f.kind == Boolean && "is" + GetterCoreName(f.name) in methods)
      && !f.isPublic
  {
    var core := GetterCoreName(f.name);
    assert ("get" + core)[0] != ("is" + core)[0];
    if "get" + core in methods then Some(Call("get" + core))
    else if f.kind == Boolean && "is" + core in methods then Some(Call("is" + core))
    else if f.isPublic then Some(FieldAccess(f.name))
    else None
  }

  /** The order in which accessors are preferred; a reading aid that spells out the
      definition branch by branch. */
  lemma BindingPriority(f: Field, methods: set<string>)
    ensures "get" + GetterCoreName(f.name) in methods ==>
      GetterMethodName(f, methods) == Some(Call("get" + GetterCoreName(f.name)))
    ensures "get" + GetterCoreName(f.name) !in methods && f.kind == Boolean && "is" + GetterCoreName(f.name) in methods ==>
      GetterMethodName(f, methods) == Some(Call("is" + GetterCoreName(f.name)))
    ensures f.kind != Boolean ==> forall a :: GetterMethodName(f, methods) == Some(a) ==> a != Call("is" + GetterCoreName(f.name))
    ensures "get" + GetterCoreName(f.name) !in methods && !(f.kind == Boolean && "is" + GetterCoreName(f.name) in methods) ==>
      GetterMethodName(f, methods) == if f.isPublic then Some(FieldAccess(f.name)) else None
  {
    var core := GetterCoreName(f.name);
    assert ("get" + core)[0] != ("is" + core)[0];
  }

  /** The text the processor splices after `oldObj.` and `newObj.`; "" means "skip". */
  function Render(a: Option<Accessor>): string {
    match a
    case None => ""
    case Some(Call(m)) => m + "()"
    case Some(FieldAccess(n)) => n
  }

  /** For a field with a (non-empty) Java identifier as its name, the processor's
      test for "" skips exactly the unreadable fields. */
  lemma RenderEmptyIffSkipped(f: Field, methods: set<string>)
    requires f.name != []
    ensures Render(GetterMethodName(f, methods)) == [] <==> GetterMethodName(f, methods).None?
  {
    match GetterMethodName(f, methods)
    case None =>
    case Some(Call(m)) => assert |Render(Some(Call(m)))| == |m| + 2;
    case Some(FieldAccess(n)) =>
  }

  /** The element kinds Java counts as classes and as interfaces. */
  predicate IsClassKind(k: DeclKind) {
    k == ClassDecl || k == EnumDecl || k == RecordDecl
  }

  predicate IsInterfaceKind(k: DeclKind) {
    k == InterfaceDecl || k == AnnotationTypeDecl
  }

  /** Only an abstract class or an interface may carry the annotation. */
  function IsSupportAnnotations(d: Decl): (ok: bool)
    ensures IsClassKind(d.kind) ==> (ok <==> d.isAbstract)
    ensures IsInterfaceKind(d.kind) ==> ok
    ensures !IsClassKind(d.kind) && !IsInterfaceKind(d.kind) ==> !ok
    ensures ok ==> d.isAbstract || IsInterfaceKind(d.kind)
  {
    (IsClassKind(d.kind) && d.isAbstract) || IsInterfaceKind(d.kind)
  }

  /** One processing round over the annotated declarations, in order: each supported one
      gets its implementation generated; the first unsupported one stops the round with
      an error, so the round succeeds exactly when every declaration is supported.
      `generated` counts the declarations whose implementation was generated. */
  method ProcessRound(targets: seq<Decl>) returns (ok: bool, generated: nat)
    ensures ok <==> forall i :: 0 <= i < |targets| ==> IsSupportAnnotations(targets[i])
    ensures ok ==> generated == |targets|
    ensures !ok ==> generated < |targets| && !IsSupportAnnotations(targets[generated])
    ensures forall i :: 0 <= i < generated ==> IsSupportAnnotations(targets[i])
  {
    generated := 0;
    while generated < |targets|
      invariant generated <= |targets|
      invariant forall i :: 0 <= i < generated ==> IsSupportAnnotations(targets[i])
    {
      if !IsSupportAnnotations(targets[generated]) {
        return false, generated;
      }
      generated := generated + 1;
    }
    return true, generated;
  }
}
