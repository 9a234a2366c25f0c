# SerializableActions core, modelled in Dafny

This project models the decision logic of a Unity Editor plugin. The plugin
lets designers bind a method call to a MonoBehaviour field in the Inspector.
Three pieces are modelled. Reflection objects are replaced by abstract records.

- **MethodLister.** The filter picks, from a type's public instance methods, the
  ones to offer. It works through a chain of "option flag absent and condition
  holds, so skip" checks. With IncludeCoroutines set, coroutine methods are
  exempt from the return-value checks. The survivors are sorted:
  non-accessors first, then getters and setters, each group by name
  (`method_lister.dfy`).
- **SerializableMethod.** The descriptor stores a method's name, containing
  type, binding flags, generic flag and parallel parameter-type and
  parameter-name arrays, with per-position generic marks. It resolves back to
  a method by taking the first same-name candidate whose parameters match. The
  rule is "generic matches generic, otherwise the exact type". The result is
  cached in a field. Equality is meant to be field-wise. As written, comparing
  two distinct descriptors with the same name never returns (see Findings)
  (`serializable_method.dfy`).
- **UnknownObjectDrawer field collection.** It walks the base-type chain onto
  a stack and pops it root first. It keeps the public or `[SerializeField]`
  instance fields. The result is memoised per type in a dictionary
  (`unknown_object_drawer.dfy`).

A method is a `MethodRecord` (`reflection.dfy`). It has a name, a declaring
type, a return-is-void flag, a generic flag, visibility and staticness, its
parameters, its generic definition's parameters and its type arguments. The
answers of MethodLister's per-method checks are boolean fields. NeverInclude,
IsInvokeMethod, IsCoroutineMethod, IsUnityEditTimeProp and IsSendMessage look
the method up in MonoBehaviour member tables. IsGetter and IsSetter search the
declaring type's property accessors. IsObsolete reads the method's
`[Obsolete]` attribute. A type for the drawer is a `TypeNode`: its
declared instance fields plus an optional base type, so every chain is finite.
Options and binding flags are 32-bit bit vectors with the source's and .NET's
bit values.

The filter loop, the parameter extraction, the resolution loop and the
drawer's two stack loops (`PushChain`, `CollectDrawableFields`) are methods
with loop invariants. Each is proved against a specification function (`Selected`, `ParametersExtracted`,
`FirstMatch`/`Resolve`, `DrawableFieldsOf`). The properties the source
promises are lemmas about those functions. The descriptor and the drawer's
dictionary are classes, with the cache as a field that the methods update.

## Model

| member | source | states |
|---|---|---|
| `MethodLister.SelectedCount` | Assets/Plugins/Scripts/Editor/MethodLister.cs:80-113 | A method is in the filtered list as often as it is enumerated if it passes every check, and otherwise not at all. The filter is the conjunction of the checks and nothing more. |
| `MethodLister.SelectedMembership` | Assets/Plugins/Scripts/Editor/MethodLister.cs:78-113 | An entry of the result is an enumerated public method that passes every check, and every such method is an entry. |
| `MethodLister.NeverIncludedNeverListed` | Assets/Plugins/Scripts/Editor/MethodLister.cs:82-83 | No never-include method is listed. No method is listed more often than it is enumerated. |
| `MethodLister.ReturnValueRule` | Assets/Plugins/Scripts/Editor/MethodLister.cs:84-95 | Without HasReturnValue, a non-void method is listed only when IncludeCoroutines is set and it is a coroutine method. Without NoReturnValue, the same holds for void methods. |
| `MethodLister.ExclusionRule` | Assets/Plugins/Scripts/Editor/MethodLister.cs:96-111 | When its flag is absent, no generic, getter, setter, obsolete, Invoke-family, coroutine, edit-time-property or SendMessage-family method is listed. |
| `MethodLister.SelectedMonotone` | Assets/Plugins/Scripts/Editor/MethodLister.cs:84-111 | If options ⊆ options' as bit sets, then the result for options is a sub-multiset of, and so a subset of, the result for options'. |
| `MethodLister.DefaultListsNoReturnValuesOrGetters` | Assets/Plugins/Scripts/Editor/MethodLister.cs:63-99 | Under Default (NoReturnValue \| IncludeSetters), every listed method returns void and none is a getter. |
| `MethodLister.MethodComparerAntisymmetric` | Assets/Plugins/Scripts/Editor/MethodLister.cs:121-131 | The comparer `MethodLister.MethodComparer` (getters and setters after other methods, then names): MethodComparer(a, b) is the negation of MethodComparer(b, a). |
| `MethodLister.MethodComparerZero` | Assets/Plugins/Scripts/Editor/MethodLister.cs:121-131 | `MethodLister.MethodComparer` returns 0 exactly when both methods are in the same accessor group and have the same name. |
| `MethodLister.MethodComparerTransitive` | Assets/Plugins/Scripts/Editor/MethodLister.cs:121-131 | "Sorts no later than" under `MethodLister.MethodComparer` is transitive, so it is a total preorder that a sort can use. |
| `MethodLister.InsertedSorted` | Assets/Plugins/Scripts/Editor/MethodLister.cs:116 | Placing a method after every entry that sorts no later than it and before every entry that sorts no earlier keeps a sorted list sorted. |
| `MethodLister.Insert` | Assets/Plugins/Scripts/Editor/MethodLister.cs:116 | Inserting one method into a list sorted by MethodComparer keeps it sorted and adds exactly that method. |
| `MethodLister.Sort` | Assets/Plugins/Scripts/Editor/MethodLister.cs:116 | The sort yields a permutation of its input that is ordered by MethodComparer. |
| `MethodLister.ListedMethods` | Assets/Plugins/Scripts/Editor/MethodLister.cs:74-118 | The skip-chain loop plus the sort yields a permutation of the kept methods. Every non-accessor precedes every getter or setter. Names do not decrease within each group. The order of equal-named overloads is not promised. |
| `MethodLister.NewDescriptors` | Assets/Plugins/Scripts/Editor/MethodLister.cs:113 | One new descriptor per method, in order. The descriptors are pairwise distinct objects. Each descriptor, its wrapper and its arrays are fresh, and each wraps its method. |
| `MethodLister.SerializeableMethodsOn` | Assets/Plugins/Scripts/Editor/MethodLister.cs:74-119 | The options default to Default. It returns one fresh descriptor per listed method, in the sorted order, and no descriptor appears twice. Each descriptor, its containing-type wrapper and its parameter arrays are fresh. Each descriptor caches the method it wraps and stores that method's name, declaring type, generic flag and binding flags, and the parameter arrays extracted from it. |
| `OrdinalOrder.CompareOrdinal` | Assets/Plugins/Scripts/Editor/MethodLister.cs:127 | The name comparison is negative, zero or positive, as -1, 0 or 1. |
| `OrdinalOrder.CompareOrdinalZero` | Assets/Plugins/Scripts/Editor/MethodLister.cs:127 | Two names compare as 0 exactly when they are equal. |
| `OrdinalOrder.CompareOrdinalAntisymmetric` | Assets/Plugins/Scripts/Editor/MethodLister.cs:127 | Swapping the names negates the comparison. |
| `OrdinalOrder.CompareOrdinalTransitive` | Assets/Plugins/Scripts/Editor/MethodLister.cs:127 | The name order is transitive. |
| `SerializableMethods.SerializableMethod.constructor` | Assets/Plugins/Scripts/SerializableMethod.cs:45-59 | The constructor caches the method and stores its name and generic flag. It stores its declaring type in a fresh SerializableSystemType wrapper. It stores fresh extracted parameter arrays and the binding flags for its visibility and staticness. |
| `SerializableMethods.BindingFlagsFor` | Assets/Plugins/Scripts/SerializableMethod.cs:55-57 | The stored flags hold exactly one of Public/NonPublic, matching visibility. They hold exactly one of Static/Instance, matching staticness. They hold no other bit. |
| `SerializableMethods.ExtractParameters` | Assets/Plugins/Scripts/SerializableMethod.cs:61-82 | Both arrays are fresh and have the method's parameter count. Position i holds parameter i's type and name. For a generic method, position i is marked generic exactly when the definition's parameter i is a generic parameter. |
| `SerializableMethods.SerializableMethod.ParametersMatch` | Assets/Plugins/Scripts/SerializableMethod.cs:122-145 | It is false when the lengths differ. It is true exactly when at every position either the candidate parameter is a generic parameter and the stored entry is marked generic, or the candidate parameter is not generic and the types are equal. |
| `SerializableMethods.FirstMatch` | Assets/Plugins/Scripts/SerializableMethod.cs:97-105 | The result is none exactly when no candidate has the stored name and matching parameters. Otherwise it is the earliest candidate that does. |
| `SerializableMethods.GenericArgumentsLength` | Assets/Plugins/Scripts/SerializableMethod.cs:109 | There is one type argument per generic-marked position. |
| `SerializableMethods.GenericArgumentsInOrder` | Assets/Plugins/Scripts/SerializableMethod.cs:107-111 | The re-binding's type arguments are the stored types of the generic-marked positions, in parameter order. The k-th marked position supplies argument k. |
| `SerializableMethods.ResolveFindsFirstMatch` | Assets/Plugins/Scripts/SerializableMethod.cs:89-118 | Resolution yields nothing exactly when the name is empty or no candidate matches. Otherwise it yields the first match, re-bound to the generic arguments when the descriptor is generic. |
| `SerializableMethods.SerializableMethod.GetMethodInfo` | Assets/Plugins/Scripts/SerializableMethod.cs:85-120 | A cached method is returned unchanged and stays cached. Otherwise the resolution result is cached and returned. Only the cache field changes. |
| `SerializableMethods.ExtractedParametersResolve` | Assets/Plugins/Scripts/SerializableMethod.cs:61-105 | The round trip: parameters extracted from a method match the parameters the containing type enumerates for it, when its non-generic positions keep their types. So a descriptor with a non-empty name resolves whenever that entry is among the candidates. |
| `SerializableMethods.SerializableMethod.EqualsObject` | Assets/Plugins/Scripts/SerializableMethod.cs:147-165 | Equals(object) as evidently intended (see Findings). It is true exactly for a descriptor that the private `SerializableMethods.SerializableMethod.Equals` accepts: name, wrapped containing type, binding flags, generic flag and parameter types all equal this one's. It is false for null and for other runtime types. Parameter names and the cache are ignored. |
| `SerializableMethods.EqualsIsEquivalence` | Assets/Plugins/Scripts/SerializableMethod.cs:147-154 | The private `SerializableMethods.SerializableMethod.Equals` is reflexive, symmetric and transitive. This is consistent with the same-reference shortcut. |
| `SerializableMethods.OperatorEqWithNullDiverges` | Assets/Plugins/Scripts/SerializableSystemType.cs:77-92 | The user operator== (`SerializableMethods.OperatorEq`, with a call budget) never returns when it compares a non-null wrapper with null, whatever the budget, because its own `a == null` re-enters it. |
| `SerializableMethods.ObjectEqualsAsWritten` | Assets/Plugins/Scripts/SerializableSystemType.cs:60-92 | Static object.Equals on two wrappers (`SerializableMethods.ObjectEquals`, through Equals(object), operator== and Equals(SerializableSystemType)) returns, with true, only for the same reference. For distinct wrappers it returns under no budget. |
| `SerializableMethods.SerializableMethod.EqualsObjectAsWritten` | Assets/Plugins/Scripts/SerializableMethod.cs:147-165 | Equals(object) as written. It fails to return exactly when the other object is a distinct descriptor with the same name and a different wrapper object. Whenever it returns, it agrees with EqualsObject. |
| `SerializableMethods.DescriptorsOfSameMethod` | Assets/Plugins/Scripts/SerializableMethod.cs:45-59 | Two descriptors constructed from the same method are equal as intended. As written, comparing them never returns. |
| `ObjectDrawer.ChainVisitsEachTypeOnce` | Assets/Plugins/Scripts/Editor/UnknownObjectDrawer.cs:57-62 | The base chain has one entry per level, and the type at position i is i levels above the start. So each type is visited exactly once, and the walk ends. |
| `ObjectDrawer.PushChain` | Assets/Plugins/Scripts/Editor/UnknownObjectDrawer.cs:57-62 | The push loop leaves the whole base chain on the stack, derived type at the bottom and root on top. |
| `ObjectDrawer.CollectDrawableFields` | Assets/Plugins/Scripts/Editor/UnknownObjectDrawer.cs:55-76 | The two stack loops yield exactly the type's drawn fields: each type's public or SerializeField fields, root type first. |
| `ObjectDrawer.BaseFieldsFirst` | Assets/Plugins/Scripts/Editor/UnknownObjectDrawer.cs:57-76 | A type's drawn fields are its base type's drawn fields followed by its own drawable fields. So base-type fields come before derived-type fields. |
| `ObjectDrawer.DrawableDeclaredCount` | Assets/Plugins/Scripts/Editor/UnknownObjectDrawer.cs:68-75 | A declared field is kept, as often as it is declared, exactly when it is public or tagged SerializeField. |
| `ObjectDrawer.DrawableFieldsMembership` | Assets/Plugins/Scripts/Editor/UnknownObjectDrawer.cs:64-76 | A field is drawn exactly when some type of the chain declares it and it is public or tagged SerializeField. |
| `ObjectDrawer.UnknownObjectDrawer.constructor` | Assets/Plugins/Scripts/Editor/UnknownObjectDrawer.cs:12 | The dictionary starts empty, which satisfies the cache invariant. |
| `ObjectDrawer.UnknownObjectDrawer.CacheDrawableFieldsFor` | Assets/Plugins/Scripts/Editor/UnknownObjectDrawer.cs:53-79 | The type's drawn fields, computed by the two stack loops, are stored under key t only. Every other entry is unchanged, and nothing but the dictionary changes. |
| `ObjectDrawer.UnknownObjectDrawer.DrawableFields` | Assets/Plugins/Scripts/Editor/UnknownObjectDrawer.cs:46-51 | Afterwards t is cached and the returned list is its drawn fields. A cached type leaves the dictionary untouched. Otherwise only key t is added. The invariant that every entry is its key's drawn fields is preserved. |

## Findings

| source | as written | input that shows it | evidently intended | confidence | as-written member | corrected member |
|---|---|---|---|---|---|---|
| Assets/Plugins/Scripts/SerializableMethod.cs:150 | The private `Equals` compares containing types with static `object.Equals`. For distinct wrappers this calls `SerializableSystemType.Equals(object)`, whose `temp == null` (SerializableSystemType.cs:63) selects the user `operator ==`, which re-enters itself on `a == null` (line 86) and recurses without end. | Two descriptors constructed from the same method: same name, distinct `SerializableSystemType` wrappers of the same type. | Compare the wrapped `System.Type`s, so that the two descriptors are equal. | high, not executed | `SerializableMethods.DescriptorsOfSameMethod` (with `SerializableMethods.SerializableMethod.EqualsObjectAsWritten` and `SerializableMethods.ObjectEqualsAsWritten`) | `SerializableMethods.SerializableMethod.EqualsObject` |

## Left out

- Reflection and Unity lookups are left out. This covers `GetMethods`, `GetProperties`, `MethodHandle` comparison, `GetCustomAttributes`, `Type.GetType`, `GetParameters` and `GetGenericMethodDefinition`. It also covers the hard-coded MonoBehaviour member tables and their lazy filling. Their answers are fields of `MethodRecord` and `TypeNode`, and the candidates for resolution are a given sequence.
- `IsObsolete`'s fallback to the property of a getter or setter is left out. It cannot be reached for a non-null method, so obsolescence is a flag on the method.
- String order: `string.CompareTo` is culture-sensitive. The model compares names ordinally, code point by code point, as an abstract total order.
- MethodLister.Sort: `List<T>.Sort`'s algorithm is not visible. The model sorts by insertion, and callers rely only on its contract: sorted and a permutation. The model also filters and sorts the methods and then wraps each in a descriptor, where the source wraps before sorting. Each descriptor's comparer inputs are the cached method it wraps and that method's name, so the orders agree.
- SerializableMethods.SerializableMethod.GetMethodInfo: `MakeGenericMethod` is modelled as recording the type arguments on the definition. Substituting them into parameter types, and the exception for a wrong number of type arguments, are not modelled. The source takes one type argument per generic-marked parameter position (SerializableMethod.cs:109), not one per type parameter of the definition. So `Foo<T>(T a, T b)` gets two arguments, and `Foo<T>()` or `Foo<T>(List<T> xs)` get none. `MakeGenericMethod` (line 110) then throws, after line 102 has already cached the unbound definition, and later reads return that definition. The model does not track the definition's type-parameter count, so it cannot show this. The unused `types` array built at the start of the lookup is not modelled.
- Null strings and arrays are not modelled. A method name is never null, so "null or empty" is "empty". `SerializableSystemType` is modelled as a wrapper object around a type value. Its name, assembly-qualified name and Unity serialisation callbacks are left out. The intended equality compares the wrapped types. The as-written equality is modelled only as far as it is reached from a descriptor comparison.
- SerializableMethods.OperatorEq: the recursion is bounded by a call budget, and running out of it stands for the stack overflow. The overflow exception itself and what catches it are not modelled.
- `SerializeableParameterType` is not part of this model. A new entry is taken to be unmarked (`IsGeneric` false), and two entries are taken to be equal when type and mark agree. `Util.ArraysEqual` is taken to be element-wise equality.
- SerializableMethods.ExtractParameters: requires that a generic method's definition has no more parameters than the method itself. Otherwise the source indexes past the array. Reflection always supplies equal counts.
- `GetHashCode` is left out. It uses overflowing int arithmetic and hashes the parameter array by reference, so it does not agree with `Equals`.
- IMGUI drawing (`UnknownObjectDrawer.Draw`, indent levels) and the float height computations (`HeightRequiredToDraw`, `CacheRequiredHeightFor`) are left out, as is their dictionary.
- Unity serialisation and persistence of `[SerializeField]` data are left out. The static dictionary and static fields are modelled as fields of one object.
- The drawer returns a list that callers share and could mutate. The model returns an immutable sequence.
