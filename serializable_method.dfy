/**
 * The serialisable wrapper for a method: its name, containing type, binding
 * flags, generic flag and parallel arrays of parameter types and names, plus a
 * lazily filled cache of the method it resolves to.
 */
module SerializableMethods {

  import opened Wrappers
  import opened Reflection

  /** A SerializeableParameterType: the parameter's type and whether it stands for a generic parameter. */
  datatype SerializedParameter = SerializedParameter(systemType: SysType, isGeneric: bool)

  /** System.Reflection.BindingFlags, with .NET's values for the four flags used here. */
  type BindingFlags = bv32
  const Instance: BindingFlags := 4
  const Static: BindingFlags := 8
  const Public: BindingFlags := 16
  const NonPublic: BindingFlags := 32

  /** The binding flags the constructor stores for a method of the given visibility and staticness. */
  function BindingFlagsFor(isPublic: bool, isStatic: bool): (flags: BindingFlags)
    ensures (flags & Public != 0) == isPublic && (flags & NonPublic != 0) == !isPublic
    ensures (flags & Static != 0) == isStatic && (flags & Instance != 0) == !isStatic
    ensures flags & !(Public | NonPublic | Static | Instance) == 0
  {
    (if isPublic then Public else NonPublic) | (if isStatic then Static else Instance)
  }

  /**
   * The arrays ExtractParameters builds for `m`: position i holds parameter i's
   * type and name, and is marked generic when `isGeneric` holds and parameter i
   * of the generic definition is a generic parameter (positions past the
   * definition's parameters keep the unmarked default).
   */
  ghost predicate ParametersExtracted(m: MethodRecord, isGeneric: bool, types: seq<SerializedParameter>, names: seq<string>)
  {
    && |types| == |m.parameters|
    && |names| == |m.parameters|
    && forall i :: 0 <= i < |m.parameters| ==>
         && types[i].systemType == m.parameters[i].parameterType
         && types[i].isGeneric == (isGeneric && i < |m.definitionParameters| && m.definitionParameters[i].parameterType.isGenericParameter)
         && names[i] == m.parameters[i].name
  }

  /** Fills the parallel parameter-type and parameter-name arrays for `m`. */
  method ExtractParameters(m: MethodRecord, isGeneric: bool) returns (paramTypes: array<SerializedParameter>, paramNames: array<string>)
    requires isGeneric ==> |m.definitionParameters| <= |m.parameters|
    ensures fresh(paramTypes) && fresh(paramNames)
    ensures ParametersExtracted(m, isGeneric, paramTypes[..], paramNames[..])
  {
    var rawParameters := m.parameters;
    paramTypes := new SerializedParameter[|rawParameters|];
    paramNames := new string[|rawParameters|];

    for i := 0 to |rawParameters|
      invariant forall k :: 0 <= k < i ==>
        paramTypes[k] == SerializedParameter(rawParameters[k].parameterType, false) && paramNames[k] == rawParameters[k].name
    {
      paramTypes[i] := SerializedParameter(rawParameters[i].parameterType, false);
      paramNames[i] := rawParameters[i].name;
    }

    if isGeneric {
      var genericParams := m.definitionParameters;
      for i := 0 to |genericParams|
        invariant forall k :: 0 <= k < |rawParameters| ==>
          && paramTypes[k].systemType == rawParameters[k].parameterType
          && paramTypes[k].isGeneric == (k < i && genericParams[k].parameterType.isGenericParameter)
          && paramNames[k] == rawParameters[k].name
      {
        paramTypes[i] := paramTypes[i].(isGeneric := genericParams[i].parameterType.isGenericParameter);
      }
    }
  }

  /** The matching rule at one position: generic matches generic, otherwise the exact type. */
  predicate PositionMatches(p: Parameter, s: SerializedParameter)
  {
    if p.parameterType.isGenericParameter then s.isGeneric else p.parameterType == s.systemType
  }

  /** A candidate's parameters agree with the stored ones: same length and every position matches. */
  predicate ParametersAgree(parameters: seq<Parameter>, stored: seq<SerializedParameter>)
  {
    |parameters| == |stored| && forall i :: 0 <= i < |parameters| ==> PositionMatches(parameters[i], stored[i])
  }

  /** A candidate the stored descriptor may resolve to. */
  predicate Matches(c: MethodRecord, name: string, stored: seq<SerializedParameter>)
  {
    c.name == name && ParametersAgree(c.parameters, stored)
  }

  /** The first candidate, in enumeration order, with the stored name and matching parameters. */
  function FirstMatch(candidates: seq<MethodRecord>, name: string, stored: seq<SerializedParameter>): (r: Option<MethodRecord>)
    ensures r.None? <==> forall j :: 0 <= j < |candidates| ==> !Matches(candidates[j], name, stored)
    ensures r.Some? ==> exists k :: 0 <= k < |candidates| && candidates[k] == r.value && Matches(r.value, name, stored)
                                    && forall j :: 0 <= j < k ==> !Matches(candidates[j], name, stored)
  {
    if candidates == [] then None
    else if Matches(candidates[0], name, stored) then Some(candidates[0])
    else
      var r := FirstMatch(candidates[1..], name, stored);
      assert forall j :: 1 <= j < |candidates| ==> candidates[j] == candidates[1..][j - 1];
      r
  }

  /** Scanning one more candidate: the first match from position i is that candidate if it matches, else the first match after it. */
  lemma FirstMatchStep(candidates: seq<MethodRecord>, i: nat, name: string, stored: seq<SerializedParameter>)
    requires i < |candidates|
    ensures FirstMatch(candidates[i..], name, stored) ==
      if Matches(candidates[i], name, stored) then Some(candidates[i]) else FirstMatch(candidates[i + 1..], name, stored)
  {
    assert candidates[i..][1..] == candidates[i + 1..];
  }

  /** The type arguments of the generic re-binding: the stored types of the generic-marked positions, in order. */
  function GenericArguments(stored: seq<SerializedParameter>): seq<SysType>
  {
    if stored == [] then []
    else (if stored[0].isGeneric then [stored[0].systemType] else []) + GenericArguments(stored[1..])
  }

  /** How many stored positions are marked generic. */
  function CountGeneric(stored: seq<SerializedParameter>): nat
  {
    if stored == [] then 0 else (if stored[0].isGeneric then 1 else 0) + CountGeneric(stored[1..])
  }

  /**
   * There is one type argument per generic-marked position, and the generic
   * position i supplies the argument whose index is the number of marked
   * positions before it: the arguments follow parameter order.
   */
  lemma {:induction false} GenericArgumentsInOrder(stored: seq<SerializedParameter>, i: nat)
    requires i < |stored| && stored[i].isGeneric
    ensures |GenericArguments(stored)| == CountGeneric(stored)
    ensures CountGeneric(stored[..i]) < CountGeneric(stored)
    ensures GenericArguments(stored)[CountGeneric(stored[..i])] == stored[i].systemType
  {
    GenericArgumentsLength(stored);
    if i > 0 {
      GenericArgumentsInOrder(stored[1..], i - 1);
      assert stored[..i][1..] == stored[1..][..i - 1];
    }
  }

  lemma {:induction false} GenericArgumentsLength(stored: seq<SerializedParameter>)
    ensures |GenericArguments(stored)| == CountGeneric(stored)
  {
    if stored != [] {
      GenericArgumentsLength(stored[1..]);
    }
  }

  /**
   * The method a stored descriptor resolves to: nothing for an empty name,
   * otherwise the first matching candidate, re-bound to the generic arguments
   * when the descriptor is generic.
   */
  function Resolve(candidates: seq<MethodRecord>, name: string, stored: seq<SerializedParameter>, isGeneric: bool): Option<MethodRecord>
  {
    if name == [] then None
    else match FirstMatch(candidates, name, stored)
      case None => None
      case Some(c) => Some(if isGeneric then MakeGenericMethod(c, GenericArguments(stored)) else c)
  }

  /**
   * Resolution finds nothing exactly when the name is empty or no candidate
   * matches; otherwise it yields the first match, bound to the generic
   * arguments when the descriptor is generic.
   */
  lemma ResolveFindsFirstMatch(candidates: seq<MethodRecord>, name: string, stored: seq<SerializedParameter>, isGeneric: bool)
    ensures Resolve(candidates, name, stored, isGeneric).None? <==>
      name == [] || forall j :: 0 <= j < |candidates| ==> !Matches(candidates[j], name, stored)
    ensures Resolve(candidates, name, stored, isGeneric).Some? ==>
      exists k :: 0 <= k < |candidates| && Matches(candidates[k], name, stored)
        && (forall j :: 0 <= j < k ==> !Matches(candidates[j], name, stored))
        && Resolve(candidates, name, stored, isGeneric).value ==
             (if isGeneric then MakeGenericMethod(candidates[k], GenericArguments(stored)) else candidates[k])
  {
  }

  /**
   * The parameters the containing type reports for the method `m` wraps: the
   * generic definition's for a generic method, its own otherwise.
   */
  function EnumeratedParameters(m: MethodRecord): seq<Parameter>
  {
    if m.isGenericMethod then m.definitionParameters else m.parameters
  }

  /**
   * Round trip: the parameters extracted from `m` match the parameters the
   * containing type enumerates for `m`, provided every position that is not a
   * generic parameter there has the same type as in `m` (for a non-generic
   * method: no parameter is a generic parameter). So a descriptor built from
   * `m` resolves to some method whenever the enumeration lists `m`'s entry.
   */
  lemma {:induction false} ExtractedParametersResolve(m: MethodRecord, types: seq<SerializedParameter>, names: seq<string>, candidates: seq<MethodRecord>, c: MethodRecord)
    requires WellFormed(m)
    requires ParametersExtracted(m, m.isGenericMethod, types, names)
    requires forall i :: 0 <= i < |m.parameters| && !EnumeratedParameters(m)[i].parameterType.isGenericParameter ==>
      EnumeratedParameters(m)[i].parameterType == m.parameters[i].parameterType
    requires !m.isGenericMethod ==> forall i :: 0 <= i < |m.parameters| ==> !m.parameters[i].parameterType.isGenericParameter
    requires c in candidates && c.name == m.name && c.parameters == EnumeratedParameters(m)
    ensures ParametersAgree(EnumeratedParameters(m), types)
    ensures m.name != [] ==> Resolve(candidates, m.name, types, m.isGenericMethod).Some?
  {
    var ps := EnumeratedParameters(m);
    forall i | 0 <= i < |ps| ensures PositionMatches(ps[i], types[i]) {
    }
    if m.name != [] {
      var k :| 0 <= k < |candidates| && candidates[k] == c;
      assert Matches(candidates[k], m.name, types);
    }
  }

  /**
   * A SerializableSystemType: a wrapper object around a System.Type. Each
   * conversion from a Type allocates a new wrapper.
   */
  class SerializableSystemType {
    const systemType: SysType

    constructor (t: SysType)
      ensures systemType == t
    {
      systemType := t;
    }
  }

  /**
   * SerializableSystemType's user-defined operator==, with `None` for null and a
   * call budget: `None` as the result means the budget ran out before the call
   * returned. The same reference gives true; otherwise `a == null` and then
   * `b == null` are themselves calls of this operator, and only then does
   * `a.Equals(b)` compare the wrapped types.
   */
  function OperatorEq(a: Option<SerializableSystemType>, b: Option<SerializableSystemType>, fuel: nat): Option<bool>
    decreases fuel, 0
  {
    if a == b then Some(true)
    else if fuel == 0 then None
    else match OperatorEq(a, None, fuel - 1)
      case None => None
      case Some(aIsNull) =>
        // a.None? cannot reach here (null == null is true); the test only guards a.value
        if aIsNull || a.None? then Some(false)
        else match OperatorEq(b, None, fuel - 1)
          case None => None
          case Some(bIsNull) =>
            if bIsNull then Some(false)
            else TypedEquals(a.value, b, fuel - 1)
  }

  /** SerializableSystemType.Equals(SerializableSystemType): `other == null` goes through operator==, then the wrapped types are compared. */
  function TypedEquals(self: SerializableSystemType, other: Option<SerializableSystemType>, fuel: nat): Option<bool>
    decreases fuel, 1
  {
    match OperatorEq(other, None, fuel)
    case None => None
    case Some(otherIsNull) =>
      if otherIsNull || other.None? then Some(false)
      else Some(self.systemType == other.value.systemType)
  }

  /**
   * The static object.Equals(a, b) on two non-null wrappers: the same reference
   * gives true; otherwise the virtual Equals(object) runs, whose `temp == null`
   * goes through operator== before Equals(SerializableSystemType).
   */
  function ObjectEquals(a: SerializableSystemType, b: SerializableSystemType, fuel: nat): Option<bool>
  {
    if a == b then Some(true)
    else match OperatorEq(Some(b), None, fuel)
      case None => None
      case Some(tempIsNull) =>
        if tempIsNull then Some(false) else TypedEquals(a, Some(b), fuel)
  }

  /** Comparing a non-null wrapper with null through operator== never returns, whatever the budget. */
  lemma {:induction false} OperatorEqWithNullDiverges(x: SerializableSystemType, fuel: nat)
    ensures OperatorEq(Some(x), None, fuel) == None
  {
    if fuel > 0 {
      OperatorEqWithNullDiverges(x, fuel - 1);
    }
  }

  /**
   * The outcome of object.Equals on two wrappers as written, independent of the
   * budget: true for the same reference, no answer for distinct wrappers.
   */
  function WrappersEqualAsWritten(a: SerializableSystemType, b: SerializableSystemType): Option<bool>
  {
    if a == b then Some(true) else None
  }

  /** For every budget, object.Equals on two wrappers is WrappersEqualAsWritten: it returns only for the same reference. */
  lemma ObjectEqualsAsWritten(a: SerializableSystemType, b: SerializableSystemType, fuel: nat)
    ensures ObjectEquals(a, b, fuel) == WrappersEqualAsWritten(a, b)
  {
    OperatorEqWithNullDiverges(b, fuel);
  }

  /** A reference as SerializableMethod.Equals(object) sees it: null, a descriptor, or an object of another runtime type. */
  datatype ObjectRef = Null | Descriptor(d: SerializableMethod) | OtherType(o: object)

  class SerializableMethod {
    var methodName: string
    var containingType: SerializableSystemType
    var bindingFlags: BindingFlags
    var isGeneric: bool
    var parameterTypes: array<SerializedParameter>
    var parameterNames: array<string>
    /** The resolved method, filled on construction or on first lookup. */
    var methodInfo: Option<MethodRecord>

    constructor (m: MethodRecord)
      requires WellFormed(m)
      ensures methodInfo == Some(m)
      ensures methodName == m.name && isGeneric == m.isGenericMethod
      ensures fresh(containingType) && containingType.systemType == m.declaringType
      ensures bindingFlags == BindingFlagsFor(m.isPublic, m.isStatic)
      ensures fresh(parameterTypes) && fresh(parameterNames)
      ensures ParametersExtracted(m, m.isGenericMethod, parameterTypes[..], parameterNames[..])
    {
      methodInfo := Some(m);
      methodName := m.name;
      containingType := new SerializableSystemType(m.declaringType);
      isGeneric := m.isGenericMethod;
      var types, names := ExtractParameters(m, m.isGenericMethod);
      parameterTypes, parameterNames := types, names;
      bindingFlags := BindingFlagsFor(m.isPublic, m.isStatic);
    }

    /** Whether the candidate's parameters match the stored ones, scanning positions with early exits. */
    method ParametersMatch(parameters: seq<Parameter>, serializedParameters: array<SerializedParameter>) returns (r: bool)
      ensures |parameters| != serializedParameters.Length ==> !r
      ensures r <==> ParametersAgree(parameters, serializedParameters[..])
    {
      if |parameters| != serializedParameters.Length {
        return false;
      }
      for i := 0 to |parameters|
        invariant forall k :: 0 <= k < i ==> PositionMatches(parameters[k], serializedParameters[k])
      {
        if parameters[i].parameterType.isGenericParameter {
          if !serializedParameters[i].isGeneric {
            return false;
          }
        } else {
          if parameters[i].parameterType != serializedParameters[i].systemType {
            return false;
          }
        }
      }
      return true;
    }

    /**
     * The MethodInfo property. `candidates` are the methods the containing type
     * reports for the stored binding flags, in enumeration order. A cached method
     * is returned unchanged; otherwise the lookup result is cached and returned.
     */
    method GetMethodInfo(candidates: seq<MethodRecord>) returns (r: Option<MethodRecord>)
      modifies this`methodInfo
      ensures old(methodInfo).Some? ==> methodInfo == old(methodInfo)
      ensures old(methodInfo).None? ==> methodInfo == Resolve(candidates, methodName, parameterTypes[..], isGeneric)
      ensures r == methodInfo
    {
      if methodInfo.None? && methodName != [] {
        var allMethods := candidates;
        ghost var stored := parameterTypes[..];
        ghost var first := FirstMatch(allMethods, methodName, stored);
        var i := 0;
        while i < |allMethods|
          invariant 0 <= i <= |allMethods|
          invariant methodInfo.None? ==> FirstMatch(allMethods[i..], methodName, stored) == first
          invariant methodInfo.Some? ==> methodInfo == first && i == |allMethods|
        {
          var candidate := allMethods[i];
          FirstMatchStep(allMethods, i, methodName, stored);
          if candidate.name == methodName {
            var ok := ParametersMatch(candidate.parameters, parameterTypes);
            if ok {
              methodInfo := Some(candidate);
              break;
            }
          }
          i := i + 1;
        }

        if methodInfo.Some? && isGeneric {
          methodInfo := Some(MakeGenericMethod(methodInfo.value, GenericArguments(parameterTypes[..])));
        }

        if methodInfo.None? {
          return None;
        }
      }
      return methodInfo;
    }

    /**
     * The private Equals(SerializableMethod) as evidently intended: field-wise,
     * comparing the containing types by the System.Type they wrap, and ignoring
     * parameter names and the cache.
     */
    predicate Equals(other: SerializableMethod)
      reads this, other, parameterTypes, other.parameterTypes
    {
      && methodName == other.methodName
      && containingType.systemType == other.containingType.systemType
      && bindingFlags == other.bindingFlags
      && isGeneric == other.isGeneric
      && parameterTypes[..] == other.parameterTypes[..]
    }

    /** Equals(object): false for null and other runtime types, true for the same reference, otherwise field-wise. */
    predicate EqualsObject(obj: ObjectRef)
      reads this, parameterTypes
      reads if obj.Descriptor? then {obj.d, obj.d.parameterTypes} else {}
      ensures EqualsObject(obj) <==> obj.Descriptor? && Equals(obj.d)
    {
      if obj.Null? then false
      else if obj == Descriptor(this) then true
      else if obj.OtherType? then false
      else Equals(obj.d)
    }

    /**
     * Equals(object) as the source runs it, None where the call never returns:
     * the name check comes first, then the containing-type check, which diverges
     * for distinct wrapper objects. Whenever it returns, it agrees with EqualsObject.
     */
    function EqualsObjectAsWritten(obj: ObjectRef): (r: Option<bool>)
      reads this, parameterTypes
      reads if obj.Descriptor? then {obj.d, obj.d.parameterTypes} else {}
      ensures r.None? <==> obj.Descriptor? && obj.d != this && methodName == obj.d.methodName
                           && containingType != obj.d.containingType
      ensures r.Some? ==> r.value == EqualsObject(obj)
    {
      if obj.Null? then Some(false)
      else if obj == Descriptor(this) then Some(true)
      else if obj.OtherType? then Some(false)
      else
        var other := obj.d;
        if methodName != other.methodName then Some(false)
        else match WrappersEqualAsWritten(containingType, other.containingType)
          case None => None
          case Some(same) =>
            Some(same && bindingFlags == other.bindingFlags && isGeneric == other.isGeneric
                 && parameterTypes[..] == other.parameterTypes[..])
    }
  }

  /**
   * Two descriptors built from the same method are Equal, but as the source runs
   * it their comparison never returns: each constructor wrapped the containing
   * type in its own SerializableSystemType.
   */
  method DescriptorsOfSameMethod(m: MethodRecord) returns (d1: SerializableMethod, d2: SerializableMethod)
    requires WellFormed(m)
    ensures d1.EqualsObject(Descriptor(d2))
    ensures d1.EqualsObjectAsWritten(Descriptor(d2)) == None
  {
    d1 := new SerializableMethod(m);
    d2 := new SerializableMethod(m);
    assert d1.parameterTypes[..] == d2.parameterTypes[..];
  }

  /** Descriptor equality is an equivalence relation. */
  lemma EqualsIsEquivalence(a: SerializableMethod, b: SerializableMethod, c: SerializableMethod)
    ensures a.Equals(a)
    ensures a.Equals(b) ==> b.Equals(a)
    ensures a.Equals(b) && b.Equals(c) ==> a.Equals(c)
  {
  }

}
