/**
 * MethodLister: which public instance methods of a type are offered for
 * binding, under a bit-flag set of options, and in which order.
 */
module MethodLister {

  import opened Wrappers
  import opened Reflection
  import opened OrdinalOrder
  import opened SerializableMethods

  /** MethodListerOptions, a [Flags] enum: one bit per option. */
  type Options = bv32
  const HasReturnValue: Options := 1
  const NoReturnValue: Options := 2
  const IncludeGenerics: Options := 4
  const IncludeGetters: Options := 8
  const IncludeSetters: Options := 16
  const IncludeObsolete: Options := 32
  const IncludeInvokes: Options := 64
  const IncludeCoroutines: Options := 128
  const IncludeUnityEditTimeProperties: Options := 256
  const IncludeSendMessage: Options := 512
  const Default: Options := NoReturnValue | IncludeSetters

  /** `(options & flag) != 0` */
  predicate Has(options: Options, flag: Options)
  {
    options & flag != 0
  }

  /** The one cross-flag exception: with IncludeCoroutines, a coroutine method skips the return-value checks. */
  predicate CoroutineExempt(m: MethodRecord, options: Options)
  {
    Has(options, IncludeCoroutines) && m.membership.isCoroutine
  }

  /** A method survives the filter when it passes every check: the conjunction of the checks. */
  predicate Keep(m: MethodRecord, options: Options)
  {
    && !m.membership.neverInclude
    && (!Has(options, HasReturnValue) && !m.returnsVoid ==> CoroutineExempt(m, options))
    && (!Has(options, NoReturnValue) && m.returnsVoid ==> CoroutineExempt(m, options))
    && (!Has(options, IncludeGenerics) ==> !m.isGenericMethod)
    && (!Has(options, IncludeGetters) ==> !m.membership.isGetter)
    && (!Has(options, IncludeSetters) ==> !m.membership.isSetter)
    && (!Has(options, IncludeObsolete) ==> !m.membership.isObsolete)
    && (!Has(options, IncludeInvokes) ==> !m.membership.isInvoke)
    && (!Has(options, IncludeCoroutines) ==> !m.membership.isCoroutine)
    && (!Has(options, IncludeUnityEditTimeProperties) ==> !m.membership.isEditTimeProperty)
    && (!Has(options, IncludeSendMessage) ==> !m.membership.isSendMessage)
  }

  /** The methods of `s` that survive the filter, in enumeration order. */
  function Selected(s: seq<MethodRecord>, options: Options): seq<MethodRecord>
  {
    if s == [] then []
    else Selected(s[..|s| - 1], options) + (if Keep(s[|s| - 1], options) then [s[|s| - 1]] else [])
  }

  /** Each kept method appears as often as in the input; every other method not at all. */
  lemma {:induction false} SelectedCount(s: seq<MethodRecord>, options: Options, x: MethodRecord)
    ensures multiset(Selected(s, options))[x] == if Keep(x, options) then multiset(s)[x] else 0
  {
    if s != [] {
      var last := s[|s| - 1];
      SelectedCount(s[..|s| - 1], options, x);
      assert s == s[..|s| - 1] + [last];
    }
  }

  /** An entry of the result is an input method that passes every check, and conversely. */
  lemma {:induction false} SelectedMembership(s: seq<MethodRecord>, options: Options, x: MethodRecord)
    ensures x in Selected(s, options) <==> x in s && Keep(x, options)
  {
    SelectedCount(s, options, x);
    assert x in Selected(s, options) <==> x in multiset(Selected(s, options));
  }

  /** No never-include method is listed, and no entry is listed more often than the input holds it. */
  lemma NeverIncludedNeverListed(s: seq<MethodRecord>, options: Options)
    ensures forall x :: x in Selected(s, options) ==> !x.membership.neverInclude
    ensures multiset(Selected(s, options)) <= multiset(s)
  {
    forall x | x in Selected(s, options) ensures !x.membership.neverInclude {
      SelectedMembership(s, options, x);
    }
    forall x ensures multiset(Selected(s, options))[x] <= multiset(s)[x] {
      SelectedCount(s, options, x);
    }
  }

  /**
   * Without HasReturnValue a non-void method is listed only as a coroutine
   * method under IncludeCoroutines; symmetrically for NoReturnValue and void methods.
   */
  lemma {:induction false} ReturnValueRule(s: seq<MethodRecord>, options: Options)
    ensures forall x :: x in Selected(s, options) && !Has(options, HasReturnValue) && !x.returnsVoid ==>
      Has(options, IncludeCoroutines) && x.membership.isCoroutine
    ensures forall x :: x in Selected(s, options) && !Has(options, NoReturnValue) && x.returnsVoid ==>
      Has(options, IncludeCoroutines) && x.membership.isCoroutine
  {
    forall x | x in Selected(s, options) ensures Keep(x, options) {
      SelectedMembership(s, options, x);
    }
  }

  /** With a flag absent, no method of the kind that flag admits is listed. */
  lemma {:induction false} ExclusionRule(s: seq<MethodRecord>, options: Options)
    ensures forall x :: x in Selected(s, options) ==>
      && (!Has(options, IncludeGenerics) ==> !x.isGenericMethod)
      && (!Has(options, IncludeGetters) ==> !x.membership.isGetter)
      && (!Has(options, IncludeSetters) ==> !x.membership.isSetter)
      && (!Has(options, IncludeObsolete) ==> !x.membership.isObsolete)
      && (!Has(options, IncludeInvokes) ==> !x.membership.isInvoke)
      && (!Has(options, IncludeCoroutines) ==> !x.membership.isCoroutine)
      && (!Has(options, IncludeUnityEditTimeProperties) ==> !x.membership.isEditTimeProperty)
      && (!Has(options, IncludeSendMessage) ==> !x.membership.isSendMessage)
  {
    forall x | x in Selected(s, options) ensures Keep(x, options) {
      SelectedMembership(s, options, x);
    }
  }

  /** Adding flags never removes a method: every check reads "flag absent and condition holds". */
  lemma {:induction false} SelectedMonotone(s: seq<MethodRecord>, options: Options, options': Options)
    requires options & options' == options
    ensures multiset(Selected(s, options)) <= multiset(Selected(s, options'))
    ensures forall x :: x in Selected(s, options) ==> x in Selected(s, options')
  {
    if s != [] {
      SelectedMonotone(s[..|s| - 1], options, options');
      var last := s[|s| - 1];
      if Keep(last, options) {
        assert Has(options, IncludeCoroutines) ==> Has(options', IncludeCoroutines);
        assert Has(options, HasReturnValue) ==> Has(options', HasReturnValue);
        assert Has(options, NoReturnValue) ==> Has(options', NoReturnValue);
        assert Has(options, IncludeGenerics) ==> Has(options', IncludeGenerics);
        assert Has(options, IncludeGetters) ==> Has(options', IncludeGetters);
        assert Has(options, IncludeSetters) ==> Has(options', IncludeSetters);
        assert Has(options, IncludeObsolete) ==> Has(options', IncludeObsolete);
        assert Has(options, IncludeInvokes) ==> Has(options', IncludeInvokes);
        assert Has(options, IncludeUnityEditTimeProperties) ==> Has(options', IncludeUnityEditTimeProperties);
        assert Has(options, IncludeSendMessage) ==> Has(options', IncludeSendMessage);
        assert Keep(last, options');
      }
    }
  }

  /** Under the Default options no method with a return value and no getter is listed. */
  lemma {:induction false} DefaultListsNoReturnValuesOrGetters(s: seq<MethodRecord>)
    ensures forall x :: x in Selected(s, Default) ==> x.returnsVoid && !x.membership.isGetter
  {
    assert !Has(Default, HasReturnValue) && !Has(Default, IncludeCoroutines) && !Has(Default, IncludeGetters);
    forall x | x in Selected(s, Default) ensures Keep(x, Default) {
      SelectedMembership(s, Default, x);
    }
  }

  /**
   * MethodComparer, on the methods the descriptors wrap: non-accessors before
   * getters and setters, each group by name.
   */
  function MethodComparer(m1: MethodRecord, m2: MethodRecord): int
  {
    var m1IsGetOrSet := IsAccessor(m1);
    var m2IsGetOrSet := IsAccessor(m2);
    if m1IsGetOrSet == m2IsGetOrSet then CompareOrdinal(m1.name, m2.name)
    else if m1IsGetOrSet then 1
    else -1
  }

  /** The comparer is antisymmetric. */
  lemma MethodComparerAntisymmetric(m1: MethodRecord, m2: MethodRecord)
    ensures MethodComparer(m1, m2) == -MethodComparer(m2, m1)
  {
    CompareOrdinalAntisymmetric(m1.name, m2.name);
  }

  /** The comparer returns 0 exactly for two methods of the same accessor group with equal names. */
  lemma MethodComparerZero(m1: MethodRecord, m2: MethodRecord)
    ensures MethodComparer(m1, m2) == 0 <==> IsAccessor(m1) == IsAccessor(m2) && m1.name == m2.name
  {
    CompareOrdinalZero(m1.name, m2.name);
  }

  /** "Sorts no later than" under the comparer is transitive. */
  lemma MethodComparerTransitive(m1: MethodRecord, m2: MethodRecord, m3: MethodRecord)
    requires MethodComparer(m1, m2) <= 0 && MethodComparer(m2, m3) <= 0
    ensures MethodComparer(m1, m3) <= 0
  {
    if IsAccessor(m1) == IsAccessor(m2) == IsAccessor(m3) {
      CompareOrdinalTransitive(m1.name, m2.name, m3.name);
    }
  }

  /** Ordered by the comparer: no entry sorts after a later one. */
  ghost predicate SortedByComparer(s: seq<MethodRecord>)
  {
    forall i, j :: 0 <= i < j < |s| ==> MethodComparer(s[i], s[j]) <= 0
  }

  /** Inserts `x` into a sorted sequence, after every entry that sorts no later than it. */
  method Insert(sorted: seq<MethodRecord>, x: MethodRecord) returns (r: seq<MethodRecord>)
    requires SortedByComparer(sorted)
    ensures SortedByComparer(r)
    ensures multiset(r) == multiset(sorted) + multiset{x}
  {
    var k := 0;
    while k < |sorted| && MethodComparer(sorted[k], x) <= 0
      invariant 0 <= k <= |sorted|
      invariant forall j :: 0 <= j < k ==> MethodComparer(sorted[j], x) <= 0
    {
      k := k + 1;
    }
    forall j | k <= j < |sorted| ensures MethodComparer(x, sorted[j]) <= 0 {
      MethodComparerAntisymmetric(sorted[k], x);
      if j > k {
        MethodComparerTransitive(x, sorted[k], sorted[j]);
      }
    }
    r := sorted[..k] + [x] + sorted[k..];
    InsertedSorted(sorted, k, x);
    assert sorted == sorted[..k] + sorted[k..];
  }

  /** Placing `x` after every entry no later than it and before every entry no earlier keeps the sequence sorted. */
  lemma InsertedSorted(sorted: seq<MethodRecord>, k: nat, x: MethodRecord)
    requires k <= |sorted| && SortedByComparer(sorted)
    requires forall j :: 0 <= j < k ==> MethodComparer(sorted[j], x) <= 0
    requires forall j :: k <= j < |sorted| ==> MethodComparer(x, sorted[j]) <= 0
    ensures SortedByComparer(sorted[..k] + [x] + sorted[k..])
  {
    var r := sorted[..k] + [x] + sorted[k..];
    assert forall i :: 0 <= i < k ==> r[i] == sorted[i];
    assert r[k] == x;
    assert forall i :: k < i < |r| ==> r[i] == sorted[i - 1];
    forall i, j | 0 <= i < j < |r| ensures MethodComparer(r[i], r[j]) <= 0 {
      if j < k {
        assert MethodComparer(sorted[i], sorted[j]) <= 0;
      } else if j == k {
        assert MethodComparer(sorted[i], x) <= 0;
      } else if i < k {
        assert MethodComparer(sorted[i], sorted[j - 1]) <= 0;
      } else if i == k {
        assert MethodComparer(x, sorted[j - 1]) <= 0;
      } else {
        assert MethodComparer(sorted[i - 1], sorted[j - 1]) <= 0;
      }
    }
  }

  /**
   * List<T>.Sort with a comparison: a permutation ordered by the comparer.
   * The library's algorithm is not part of this model; this one inserts
   * entries one at a time, and callers rely only on its contract.
   */
  method Sort(s: seq<MethodRecord>) returns (r: seq<MethodRecord>)
    ensures SortedByComparer(r)
    ensures multiset(r) == multiset(s)
  {
    r := [];
    for i := 0 to |s|
      invariant SortedByComparer(r)
      invariant multiset(r) == multiset(s[..i])
    {
      assert s[..i + 1] == s[..i] + [s[i]];
      r := Insert(r, s[i]);
    }
    assert s[..|s|] == s;
  }

  /**
   * The methods SerializeableMethodsOn lists, as the methods its descriptors
   * wrap: the kept public methods, each as often as enumerated, with every
   * non-accessor before every getter or setter and names non-decreasing within
   * each group. Equal-named overloads come in no promised order.
   */
  method ListedMethods(publicMethods: seq<MethodRecord>, options: Options) returns (listed: seq<MethodRecord>)
    ensures multiset(listed) == multiset(Selected(publicMethods, options))
    ensures SortedByComparer(listed)
    ensures forall i, j :: 0 <= i < j < |listed| && IsAccessor(listed[i]) ==> IsAccessor(listed[j])
    ensures forall i, j :: 0 <= i < j < |listed| && IsAccessor(listed[i]) == IsAccessor(listed[j]) ==>
      CompareOrdinal(listed[i].name, listed[j].name) <= 0
  {
    var kept := [];
    for i := 0 to |publicMethods|
      invariant kept == Selected(publicMethods[..i], options)
    {
      assert publicMethods[..i + 1][..i] == publicMethods[..i];
      var m := publicMethods[i];
      if m.membership.neverInclude {
        continue;
      }
      if !Has(options, HasReturnValue) && !m.returnsVoid {
        // with IncludeCoroutines a coroutine method is accepted despite its return value
        if !Has(options, IncludeCoroutines) || !m.membership.isCoroutine {
          continue;
        }
      }
      if !Has(options, NoReturnValue) && m.returnsVoid {
        // with IncludeCoroutines a coroutine method is accepted despite returning nothing
        if !Has(options, IncludeCoroutines) || !m.membership.isCoroutine {
          continue;
        }
      }
      if !Has(options, IncludeGenerics) && m.isGenericMethod {
        continue;
      }
      if !Has(options, IncludeGetters) && m.membership.isGetter {
        continue;
      }
      if !Has(options, IncludeSetters) && m.membership.isSetter {
        continue;
      }
      if !Has(options, IncludeObsolete) && m.membership.isObsolete {
        continue;
      }
      if !Has(options, IncludeInvokes) && m.membership.isInvoke {
        continue;
      }
      if !Has(options, IncludeCoroutines) && m.membership.isCoroutine {
        continue;
      }
      if !Has(options, IncludeUnityEditTimeProperties) && m.membership.isEditTimeProperty {
        continue;
      }
      if !Has(options, IncludeSendMessage) && m.membership.isSendMessage {
        continue;
      }
      kept := kept + [m];
    }
    assert publicMethods[..|publicMethods|] == publicMethods;
    listed := Sort(kept);
  }

  /** What `new SerializableMethod(m)` stores: a descriptor of `m` that caches `m`. */
  ghost predicate Wraps(d: SerializableMethod, m: MethodRecord)
    reads d, d.parameterTypes, d.parameterNames
  {
    && d.methodInfo == Some(m)
    && d.methodName == m.name
    && d.containingType.systemType == m.declaringType
    && d.isGeneric == m.isGenericMethod
    && d.bindingFlags == BindingFlagsFor(m.isPublic, m.isStatic)
    && ParametersExtracted(m, m.isGenericMethod, d.parameterTypes[..], d.parameterNames[..])
  }

  /** The wrapping loop of SerializeableMethodsOn: one new descriptor per method, in order. */
  method NewDescriptors(methods: seq<MethodRecord>) returns (serMethods: seq<SerializableMethod>)
    requires forall m :: m in methods ==> WellFormed(m)
    ensures |serMethods| == |methods|
    ensures forall i :: 0 <= i < |serMethods| ==>
      && fresh(serMethods[i]) && fresh(serMethods[i].containingType)
      && fresh(serMethods[i].parameterTypes) && fresh(serMethods[i].parameterNames)
      && Wraps(serMethods[i], methods[i])
    ensures forall i, j :: 0 <= i < j < |serMethods| ==> serMethods[i] != serMethods[j]
  {
    serMethods := [];
    for i := 0 to |methods|
      invariant |serMethods| == i
      invariant forall k :: 0 <= k < i ==>
        && fresh(serMethods[k]) && fresh(serMethods[k].containingType)
        && fresh(serMethods[k].parameterTypes) && fresh(serMethods[k].parameterNames)
        && Wraps(serMethods[k], methods[k])
      invariant forall k, l :: 0 <= k < l < i ==> serMethods[k] != serMethods[l]
    {
      var descriptor := new SerializableMethod(methods[i]);
      serMethods := serMethods + [descriptor];
    }
  }

  /**
   * SerializeableMethodsOn: one new descriptor per listed method, in the
   * listed order; each caches the method it wraps, so MethodComparer on the
   * descriptors is MethodComparer on `listed`.
   */
  method SerializeableMethodsOn(publicMethods: seq<MethodRecord>, options: Options := Default)
    returns (serMethods: seq<SerializableMethod>, ghost listed: seq<MethodRecord>)
    requires forall m :: m in publicMethods ==> WellFormed(m)
    ensures multiset(listed) == multiset(Selected(publicMethods, options))
    ensures SortedByComparer(listed)
    ensures |serMethods| == |listed|
    ensures forall i :: 0 <= i < |serMethods| ==>
      && fresh(serMethods[i]) && fresh(serMethods[i].containingType)
      && fresh(serMethods[i].parameterTypes) && fresh(serMethods[i].parameterNames)
      && Wraps(serMethods[i], listed[i])
    ensures forall i, j :: 0 <= i < j < |serMethods| ==> serMethods[i] != serMethods[j]
  {
    var methods := ListedMethods(publicMethods, options);
    listed := methods;
    forall m | m in methods
      ensures WellFormed(m)
    {
      assert m in multiset(Selected(publicMethods, options));
      SelectedMembership(publicMethods, options, m);
    }
    serMethods := NewDescriptors(methods);
  }

}
