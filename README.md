# object-diff: a Dafny model of the diff annotation processor

object-diff is an annotation processor. An abstract class or interface can be annotated
with `@Diff`. For each method it declares, the processor then generates an implementation
that compares two objects of the method's parameter type field by field. It returns a
`Map<String, Change>` with one entry per changed field, keyed by the field's name and
holding the old and the new value.

The model covers the processor's core, in five modules:

- **`Naming`** (`naming.dfy`) resolves a field name to the *core name* of its getter:
  `getterCoreName`, the name to which `get` or `is` is prepended.
- **`Util`** (`util.dfy`) is the second copy of that resolver, in the helper class. It is
  proved equal to the first.
- **`Binding`** (`binding.dfy`) holds three things:
  - the table of public method names of the diffed type (`getMethodMap`), including the
    failure of `Collectors.toMap` on a duplicate name;
  - the choice of accessor for each field (`getterMethodName`);
  - the check on the annotated declaration (`isSupportAnnotations`), and the processing
    round that stops at the first declaration it rejects.
- **`DiffEngine`** (`diff_engine.dfy`) models the processor in two stages:
  - `GenerateMethodBody` is the processor's loop over the enclosed elements. It emits one
    comparison per readable field, called the *plan*.
  - `ExecuteDiff` is the method that code emits. It runs the comparisons in order on two
    objects and puts each detected change into a fresh map.
  - Each stage is a method proved against a specification function: `Plan` for the first,
    `Changes` for the second. The emitted comparison rules and the properties of the
    resulting map are proved as lemmas.
- **`DemoFixture`** (`demo.dfy`) holds the sample type `Demo` and the two objects its
  test diffs. It proves the naming table, the method table, the plan, and the exact
  seven-entry result of the test.

`JavaModel` (`java_model.dfy`) and `Ascii` (`ascii.dfy`) hold the shared descriptors.
They stand in for `javax.lang.model`: fields, methods, other elements, declaration kinds,
runtime values and objects. They also give ASCII letter case.

How the model represents the Java program:

- An object is an `Instance` with two functions. One gives the result of a parameterless
  method call by name; the other reads a public field by name.
- A reference value is `Null` or `Ref(id)`. The `equals` method is a parameter of the
  diff.
- The result of `getterMethodName` is `Option<Accessor>`. `None` stands for the
  source's `""`, and `Binding.Render` gives back the source's string.

## Model

| member | source | states |
|---|---|---|
| Ascii.ToUpper | object-diff-core/src/main/java/io/github/zonewave/objectdiff/core/processor/DiffProcessor.java:185 | A lower-case letter becomes its upper-case letter (code point minus 32); every other character is unchanged; the result is never lower-case |
| Naming.GetterCoreName | object-diff-core/src/main/java/io/github/zonewave/objectdiff/core/processor/DiffProcessor.java:171-186 | The core name is empty exactly when the field name is; it is as long as the name or two shorter; a core name starting with a lower-case letter is the field name itself |
| Naming.CoreNameRules | object-diff-core/src/main/java/io/github/zonewave/objectdiff/core/processor/DiffProcessor.java:173-185 | The four rules, first match wins: empty stays empty; lower-then-upper start is kept; `is`+upper has `is` stripped; otherwise the first character is upper-cased and the rest kept |
| Naming.CoreNameLength | object-diff-core/src/main/java/io/github/zonewave/objectdiff/core/processor/DiffProcessor.java:181-185 | The core name is exactly two characters shorter precisely when the `is` prefix is stripped, otherwise of equal length |
| Naming.CoreNameIdempotent | object-diff-core/src/main/java/io/github/zonewave/objectdiff/core/processor/DiffProcessor.java:171-186 | Resolving a core name again returns it unchanged |
| Naming.CoreNameCollision | object-diff-core/src/main/java/io/github/zonewave/objectdiff/core/processor/DiffProcessor.java:181-185 | The field names `isBool` and `bool` resolve to the same core name `Bool`, so they look for the same accessors |
| Util.GetterCoreName | object-diff-core/src/main/java/io/github/zonewave/objectdiff/core/processor/Util.java:15-30 | Same length and emptiness guarantees as the processor's resolver |
| Util.AgreesWithProcessor | object-diff-core/src/main/java/io/github/zonewave/objectdiff/core/processor/Util.java:15-30 | The helper's copy returns the same core name as the processor's on every input |
| Util.CoreNameRules | object-diff-core/src/main/java/io/github/zonewave/objectdiff/core/processor/Util.java:17-29 | The helper's copy follows the same four ordered rules |
| Binding.GetMethodMapNames | object-diff-core/src/main/java/io/github/zonewave/objectdiff/core/processor/DiffProcessor.java:137-142 | A built method table holds exactly the names of the public methods among the enclosed elements |
| Binding.GetMethodMapSucceeds | object-diff-core/src/main/java/io/github/zonewave/objectdiff/core/processor/DiffProcessor.java:138-140 | The table is built if and only if no two public methods share a name |
| Binding.GetMethodMapDuplicate | object-diff-core/src/main/java/io/github/zonewave/objectdiff/core/processor/DiffProcessor.java:140 | When building fails, the reported name belongs to two different public methods |
| Binding.GetterMethodName | object-diff-core/src/main/java/io/github/zonewave/objectdiff/core/processor/DiffProcessor.java:145-159 | A chosen method is in the table; a field is read directly only when it is public and then by its own name; an `is` accessor is chosen only for a boolean field; no accessor exactly when there is no `get` method, no `is` method usable for a boolean, and the field is not public |
| Binding.BindingPriority | object-diff-core/src/main/java/io/github/zonewave/objectdiff/core/processor/DiffProcessor.java:149-157 | `get`+core wins when present; else `is`+core for a boolean field; never `is` for a non-boolean; else the public field; else nothing |
| Binding.RenderEmptyIffSkipped | object-diff-core/src/main/java/io/github/zonewave/objectdiff/core/processor/DiffProcessor.java:113-116 | For a field with a non-empty name, the processor's test for `""` skips exactly the fields with no accessor |
| Binding.IsSupportAnnotations | object-diff-core/src/main/java/io/github/zonewave/objectdiff/core/processor/DiffProcessor.java:89-94 | A class, enum or record is accepted exactly when it is abstract; an interface or annotation type is always accepted; every other kind is rejected |
| Binding.ProcessRound | object-diff-core/src/main/java/io/github/zonewave/objectdiff/core/processor/DiffProcessor.java:45-84 | The round succeeds exactly when every annotated declaration is supported; on failure it stops at the first unsupported one, having generated code for all before it |
| DiffEngine.Plan | object-diff-core/src/main/java/io/github/zonewave/objectdiff/core/processor/DiffProcessor.java:106-129 | At most one comparison is emitted per enclosed element |
| DiffEngine.PlanChecksEmitted | object-diff-core/src/main/java/io/github/zonewave/objectdiff/core/processor/DiffProcessor.java:106-116 | Every emitted comparison belongs to a field of the type, under its name, with its accessor and its primitive flag |
| DiffEngine.PlanCoversField | object-diff-core/src/main/java/io/github/zonewave/objectdiff/core/processor/DiffProcessor.java:106-129 | Every field that has an accessor gets its comparison |
| DiffEngine.PlanKeysUnique | object-diff-core/src/main/java/io/github/zonewave/objectdiff/core/processor/DiffProcessor.java:117-118 | Distinct field names give distinct map keys in the emitted code |
| DiffEngine.ChangesSize | object-diff-core/src/main/java/io/github/zonewave/objectdiff/core/processor/DiffProcessor.java:117-128 | The result has no more entries than there are comparisons |
| DiffEngine.ChangesKeys | object-diff-core/src/main/java/io/github/zonewave/objectdiff/core/processor/DiffProcessor.java:117-128 | Every key of the result was put by a comparison that detected a change |
| DiffEngine.ChangesAt | object-diff-core/src/main/java/io/github/zonewave/objectdiff/core/processor/DiffProcessor.java:117-128 | With distinct keys, a comparison's key is present exactly when it detects a change, and then maps to the old and new values it read |
| DiffEngine.GeneratedDiffFails | object-diff-core/src/main/java/io/github/zonewave/objectdiff/core/processor/DiffProcessor.java:105 | Generating the diff fails exactly when two public methods share a name |
| DiffEngine.KeysAreFieldNames | object-diff-core/src/main/java/io/github/zonewave/objectdiff/core/processor/DiffProcessor.java:117-118 | Every key of the result is the name of a field of the type |
| DiffEngine.PlanKeysAreFieldNames | object-diff-core/src/main/java/io/github/zonewave/objectdiff/core/processor/DiffProcessor.java:117-118 | The same, for a given method table |
| DiffEngine.ReadableFieldEntry | object-diff-core/src/main/java/io/github/zonewave/objectdiff/core/processor/DiffProcessor.java:113-128 | A readable field is in the result exactly when its comparison detects a change, and then holds the values read from the old and the new object |
| DiffEngine.UnreadableFieldNeverReported | object-diff-core/src/main/java/io/github/zonewave/objectdiff/core/processor/DiffProcessor.java:113-116 | A field with no accessor is never in the result, whatever the two objects hold |
| DiffEngine.SelfDiffEmpty | object-diff-core/src/main/java/io/github/zonewave/objectdiff/core/processor/DiffProcessor.java:117-128 | With a reflexive `equals`, comparing an object with itself reports nothing |
| DiffEngine.GeneratedSelfDiffEmpty | object-diff-core/src/main/java/io/github/zonewave/objectdiff/core/processor/DiffProcessor.java:103-135 | The same for the whole generated method |
| DiffEngine.PrimitiveRule | object-diff-core/src/main/java/io/github/zonewave/objectdiff/core/processor/DiffProcessor.java:120-121 | A primitive field is reported exactly when its two values differ |
| DiffEngine.ReferenceRule | object-diff-core/src/main/java/io/github/zonewave/objectdiff/core/processor/DiffProcessor.java:122-126 | Reference fields: both null is no change; null to non-null is a change; a non-null old value is a change exactly when it is not `equals` to the new value |
| DiffEngine.NullSymmetry | object-diff-core/src/main/java/io/github/zonewave/objectdiff/core/processor/DiffProcessor.java:123-125 | If `x.equals(null)` is false for every object `x`, then exactly one null side is a change, whichever side it is |
| DiffEngine.ReferenceRuleIsObjectsEquals | object-diff-core/src/main/java/io/github/zonewave/objectdiff/core/processor/DiffProcessor.java:122-126 | With a reflexive `equals`, the reference rule reports exactly what `!Objects.equals(old, new)` would |
| DiffEngine.GenerateMethodBody | object-diff-core/src/main/java/io/github/zonewave/objectdiff/core/processor/DiffProcessor.java:103-135 | The processor's loop fails exactly when the method table cannot be built, with the same error; otherwise it yields the plan |
| DiffEngine.ExecuteDiff | object-diff-core/src/main/java/io/github/zonewave/objectdiff/core/processor/DiffProcessor.java:117-131 | The emitted method returns the map of detected changes, with a later put replacing an earlier one under the same key |
| DiffEngine.Diff | object-diff-core/src/main/java/io/github/zonewave/objectdiff/core/processor/DiffProcessor.java:96-135 | Generating the method and calling it gives the specified result |
| DemoFixture.DemoNamingTable | demo-test/src/main/java/io/github/zonewave/objectdiff/samples/Demo.java:6-13 | Core names of the sample's fields: IntVal, StrVal, Inner, pStrVal (kept), Bool (stripped), Exist, Is |
| DemoFixture.DemoUnique | demo-test/src/main/java/io/github/zonewave/objectdiff/samples/Demo.java:30-84 | No public method of the sample is declared twice |
| DemoFixture.DemoMethodTable | demo-test/src/main/java/io/github/zonewave/objectdiff/samples/Demo.java:30-84 | The sample's method table is built and holds exactly its fourteen public methods |
| DemoFixture.DemoMethodMap | demo-test/src/main/java/io/github/zonewave/objectdiff/samples/Demo.java:30-84 | The sample's table has the `get` and `is` accessors binding consults, and no `getBool`, `getExist` or `getIs` |
| DemoFixture.PlanSkipsNonFields | object-diff-core/src/main/java/io/github/zonewave/objectdiff/core/processor/DiffProcessor.java:107-109 | Elements after position k that are not fields leave the plan unchanged |
| DemoFixture.ReadThroughGet | object-diff-core/src/main/java/io/github/zonewave/objectdiff/core/processor/DiffProcessor.java:149-150 | A field whose `get` accessor is in the table is compared through that call, with its primitive flag |
| DemoFixture.ReadThroughIs | object-diff-core/src/main/java/io/github/zonewave/objectdiff/core/processor/DiffProcessor.java:151-152 | A boolean field with no `get` accessor but an `is` accessor is compared primitively through the `is` call |
| DemoFixture.IntValCheck | demo-test/src/main/java/io/github/zonewave/objectdiff/samples/Demo.java:30 | `intVal` is compared primitively, through `getIntVal()` |
| DemoFixture.StrValCheck | demo-test/src/main/java/io/github/zonewave/objectdiff/samples/Demo.java:38 | `strVal` is compared as a reference, through `getStrVal()` |
| DemoFixture.InnerCheck | demo-test/src/main/java/io/github/zonewave/objectdiff/samples/Demo.java:46 | `inner` is compared as a reference, through `getInner()` |
| DemoFixture.PStrValCheck | demo-test/src/main/java/io/github/zonewave/objectdiff/samples/Demo.java:54 | `pStrVal` is read through `getpStrVal()`: the kept core name finds the getter before the public field |
| DemoFixture.IsBoolCheck | demo-test/src/main/java/io/github/zonewave/objectdiff/samples/Demo.java:62 | `isBool` is read through `isBool()` |
| DemoFixture.ExistCheck | demo-test/src/main/java/io/github/zonewave/objectdiff/samples/Demo.java:70 | `exist` is read through `isExist()` |
| DemoFixture.IsIsCheck | demo-test/src/main/java/io/github/zonewave/objectdiff/samples/Demo.java:78 | `is` is read through `isIs()` |
| DemoFixture.DemoPlan | demo-test/src/main/java/io/github/zonewave/objectdiff/samples/Demo.java:6-13 | The sample's plan is the seven comparisons in field order |
| DemoFixture.DemoAllFieldsChanged | demo-test/src/test/java/io/github/zonewave/objectdiff/samples/DemoDiffTest.java:13-16 | The test's two objects differ in all seven fields, and the result is exactly the seven changes with their old and new values |
| DemoFixture.DemoOneFieldChanged | object-diff-core/src/main/java/io/github/zonewave/objectdiff/core/processor/DiffProcessor.java:120-121 | Two sample objects that differ only in `intVal` give that one change |

## Left out

- Running the processor inside javac is not modelled:
  - the `Filer` and `Messager` calls and writing the generated source file;
  - naming the implementation class (`Impl` suffix) and declaring it with JavaPoet;
  - the error message text.

  `ProcessRound` keeps only the accept-or-stop decision and a count of the declarations
  handled.
- Generated Java text is not modelled. The model gives the emitted code's meaning instead:
  the comparisons (`Check`) and the map they build (`Changes`).
- `javax.lang.model` is replaced by descriptors:
  - enclosed elements become `Element` values;
  - a type kind is primitive boolean, another primitive, or a reference;
  - a boxed `Boolean` is a reference, so it gets no `is` accessor, as in the source.
- The diffed type is given as its elements. Taking it from the first parameter of each
  method declared by the annotated declaration (DiffProcessor.java:59-67), including the
  crash on a method with no parameters, is not modelled.
- Only element kinds and names matter for the method table and binding:
  - the parameter and return types of an accessor are not checked;
  - inherited members are not considered;
  - a static field is treated like any other field, as the source does.
- Non-ASCII letters and locale-dependent upper-casing are left out. `Character.isUpperCase`
  and `toUpperCase` are modelled on the ASCII letters only.
- Null field names are left out: a Java field name is never null. The empty name is
  modelled.
- `float` and `double` fields are folded into the other primitives. The model compares
  them by value equality, so NaN, for which `!=` is true, is not modelled.
- The emitted code calls each accessor twice or more (in the condition and in the
  `put`). The model reads each value once, so accessors are taken to be side-effect-free
  and deterministic.
- `equals` is any function on values. Java's contract for it is assumed only where a
  lemma says so, through `ReflexiveEquals` and `NullUnequal`. In the fixture, a
  string's or a `DemoInner`'s contents are represented by its reference id.
- The map's entry count is stated as the separate lemma `DiffEngine.ChangesSize`, not in
  the contract of `Changes`.
- The count of seven changes in the sample test is implied by
  `DemoFixture.DemoAllFieldsChanged`: the exact map it gives has seven distinct keys.
  The cardinality is not stated as a number of its own.
- Fields are compared with `!=` exactly when `TypeKind.isPrimitive()` holds
  (DiffProcessor.java:120). An `is` accessor is considered only for the primitive kind
  `BOOLEAN` (DiffProcessor.java:151), so a boxed `Boolean` field gets none.
- Null objects and throwing calls are not modelled. An `Instance` is never null, and its
  accessors and `equals` are total functions that never throw. In Java, the emitted code
  dereferences both `oldObj` and `newObj` (DiffProcessor.java:118-125), so a null argument
  throws `NullPointerException` once the type has a readable field. A getter or `equals`
  that throws ends the method with no map.
