/**
 * Abstract records standing for the .NET reflection objects the plugin inspects.
 * A method is a record with a name, a return-is-void flag, a generic flag, its
 * parameter list and the membership facts that MethodLister's checks compute
 * by reflection; each of those checks becomes a flag.
 */
module Reflection {

  /** A System.Type handle, compared by value as reflection compares Type objects. */
  datatype SysType = SysType(fullName: string, isGenericParameter: bool)

  /** A ParameterInfo: the parameter's declared name and type. */
  datatype Parameter = Parameter(name: string, parameterType: SysType)

  /**
   * The answers of MethodLister's per-method checks: NeverInclude and the
   * Invoke, coroutine, edit-time-property and SendMessage checks look the method
   * up in MonoBehaviour member tables; IsGetter and IsSetter search the declaring
   * type's property accessors; IsObsolete reads the method's [Obsolete] attribute.
   */
  datatype Membership = Membership(
    neverInclude: bool,        // NeverInclude
    isGetter: bool,            // IsGetter
    isSetter: bool,            // IsSetter
    isObsolete: bool,          // IsObsolete
    isInvoke: bool,            // IsInvokeMethod
    isCoroutine: bool,         // IsCoroutineMethod
    isEditTimeProperty: bool,  // IsUnityEditTimeProp
    isSendMessage: bool)       // IsSendMessage

  /**
   * A MethodInfo. `definitionParameters` are the parameters of
   * GetGenericMethodDefinition() (meaningful for a generic method only);
   * `typeArguments` are the arguments a constructed generic method was bound to.
   */
  datatype MethodRecord = MethodRecord(
    name: string,
    declaringType: SysType,
    returnsVoid: bool,
    isGenericMethod: bool,
    isPublic: bool,
    isStatic: bool,
    parameters: seq<Parameter>,
    definitionParameters: seq<Parameter>,
    typeArguments: seq<SysType>,
    membership: Membership)

  /** What reflection guarantees: a generic method has as many parameters as its definition. */
  predicate WellFormed(m: MethodRecord)
  {
    m.isGenericMethod ==> |m.definitionParameters| == |m.parameters|
  }

  /** A property getter or setter. */
  predicate IsAccessor(m: MethodRecord)
  {
    m.membership.isGetter || m.membership.isSetter
  }

  /** MethodInfo.MakeGenericMethod: the definition bound to the given type arguments. */
  function MakeGenericMethod(definition: MethodRecord, typeArguments: seq<SysType>): MethodRecord
  {
    definition.(typeArguments := typeArguments)
  }

}
