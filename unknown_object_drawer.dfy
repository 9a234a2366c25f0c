/**
 * UnknownObjectDrawer's field collection: the fields drawn for a type are the
 * public or [SerializeField]-tagged instance fields of the type and all its
 * base types, base types first, memoised per type.
 */
module ObjectDrawer {

  import opened Wrappers

  /** A FieldInfo: its name, whether it is public, and whether it carries [SerializeField]. */
  datatype FieldRecord = FieldRecord(name: string, isPublic: bool, hasSerializeField: bool)

  /**
   * A System.Type as the walk sees it: the instance fields it declares, in
   * enumeration order, and its base type (None past the root of the chain).
   */
  datatype TypeNode = TypeNode(name: string, declaredFields: seq<FieldRecord>, baseType: Option<TypeNode>)

  /** Whether a field is drawn: public, or tagged [SerializeField]. */
  predicate IsDrawable(f: FieldRecord)
  {
    f.isPublic || f.hasSerializeField
  }

  /** The drawable fields of one type's own declarations, in enumeration order. */
  function DrawableDeclared(fields: seq<FieldRecord>): seq<FieldRecord>
  {
    if fields == [] then []
    else DrawableDeclared(fields[..|fields| - 1]) + (if IsDrawable(fields[|fields| - 1]) then [fields[|fields| - 1]] else [])
  }

  /** The number of types from `current` up to the root. */
  function Depth(current: Option<TypeNode>): nat
  {
    match current
    case None => 0
    case Some(t) => 1 + Depth(t.baseType)
  }

  /** The base-type chain from `current` up to the root, derived type first. */
  function Chain(current: Option<TypeNode>): seq<TypeNode>
  {
    match current
    case None => []
    case Some(t) => [t] + Chain(t.baseType)
  }

  /** The fields drawn for a chain segment given derived-first: later (base) types' fields come first. */
  function FieldsRootFirst(chain: seq<TypeNode>): seq<FieldRecord>
  {
    if chain == [] then [] else FieldsRootFirst(chain[1..]) + DrawableDeclared(chain[0].declaredFields)
  }

  /** The fields UnknownObjectDrawer draws for `t`. */
  function DrawableFieldsOf(t: TypeNode): seq<FieldRecord>
  {
    FieldsRootFirst(Chain(Some(t)))
  }

  /**
   * The chain visits each type exactly once: its length is the depth, and the
   * type at position i sits i levels above `current`, so no type repeats.
   */
  lemma {:induction false} ChainVisitsEachTypeOnce(current: Option<TypeNode>)
    ensures |Chain(current)| == Depth(current)
    ensures forall i :: 0 <= i < |Chain(current)| ==> Depth(Some(Chain(current)[i])) == Depth(current) - i
    ensures forall i, j :: 0 <= i < j < |Chain(current)| ==> Chain(current)[i] != Chain(current)[j]
  {
    match current
    case None =>
    case Some(t) =>
      ChainVisitsEachTypeOnce(t.baseType);
      var c := Chain(current);
      assert forall i :: 1 <= i < |c| ==> c[i] == Chain(t.baseType)[i - 1];
  }

  /** Taking one more declared field appends it to the drawable ones exactly when it is drawable. */
  lemma DrawableDeclaredStep(fields: seq<FieldRecord>, j: nat)
    requires j < |fields|
    ensures DrawableDeclared(fields[..j + 1]) == DrawableDeclared(fields[..j]) + (if IsDrawable(fields[j]) then [fields[j]] else [])
  {
    assert fields[..j + 1][..j] == fields[..j];
  }

  /** Popping position k of a chain segment appends that type's own drawable fields to those of the types above it. */
  lemma FieldsRootFirstStep(chain: seq<TypeNode>, k: nat)
    requires k < |chain|
    ensures FieldsRootFirst(chain[k..]) == FieldsRootFirst(chain[k + 1..]) + DrawableDeclared(chain[k].declaredFields)
  {
    assert chain[k..][1..] == chain[k + 1..];
  }

  /** A derived type's drawn fields are its base type's drawn fields followed by its own. */
  lemma BaseFieldsFirst(t: TypeNode)
    ensures DrawableFieldsOf(t) == (match t.baseType
                                    case None => []
                                    case Some(b) => DrawableFieldsOf(b)) + DrawableDeclared(t.declaredFields)
  {
    assert Chain(Some(t))[1..] == Chain(t.baseType);
    assert FieldsRootFirst(Chain(Some(t))) == FieldsRootFirst(Chain(t.baseType)) + DrawableDeclared(t.declaredFields);
  }

  /** A declared field is drawn exactly when it is drawable, and as often as it is declared. */
  lemma {:induction false} DrawableDeclaredCount(fields: seq<FieldRecord>, f: FieldRecord)
    ensures multiset(DrawableDeclared(fields))[f] == if IsDrawable(f) then multiset(fields)[f] else 0
  {
    if fields != [] {
      DrawableDeclaredCount(fields[..|fields| - 1], f);
      assert fields == fields[..|fields| - 1] + [fields[|fields| - 1]];
    }
  }

  /** A field is drawn for `t` exactly when some type of its chain declares it and it is drawable. */
  lemma {:induction false} DrawableFieldsMembership(current: Option<TypeNode>, f: FieldRecord)
    ensures f in FieldsRootFirst(Chain(current)) <==>
      IsDrawable(f) && exists u :: u in Chain(current) && f in u.declaredFields
  {
    match current
    case None =>
    case Some(t) =>
      DrawableFieldsMembership(t.baseType, f);
      DrawableDeclaredCount(t.declaredFields, f);
      assert Chain(current)[1..] == Chain(t.baseType);
      assert f in DrawableDeclared(t.declaredFields) <==> f in multiset(DrawableDeclared(t.declaredFields));
      assert f in t.declaredFields <==> f in multiset(t.declaredFields);
  }

  /** The first loop of CacheDrawableFieldsFor: pushes `t` and each base type in turn, so the root ends on top. */
  method PushChain(t: TypeNode) returns (typeStack: seq<TypeNode>)
    ensures typeStack == Chain(Some(t))
  {
    typeStack := [];
    var current := Some(t);
    while current.Some?
      invariant typeStack + Chain(current) == Chain(Some(t))
      decreases Depth(current)
    {
      typeStack := typeStack + [current.value];
      current := current.value.baseType;
    }
  }

  /**
   * The walk of CacheDrawableFieldsFor: pushes the chain from `t` up to the root
   * onto a stack, then pops it root first, appending each popped type's public
   * or [SerializeField] fields in declaration order.
   */
  method CollectDrawableFields(t: TypeNode) returns (drawableFields: seq<FieldRecord>)
    ensures drawableFields == DrawableFieldsOf(t)
  {
    ghost var chain := Chain(Some(t));
    drawableFields := [];
    var typeStack := PushChain(t);
    while |typeStack| > 0
      invariant typeStack == chain[..|typeStack|]
      invariant drawableFields == FieldsRootFirst(chain[|typeStack|..])
    {
      var top := typeStack[|typeStack| - 1];
      typeStack := typeStack[..|typeStack| - 1];
      ghost var popped := |typeStack|;
      ghost var above := drawableFields;
      var allFields := top.declaredFields;
      for j := 0 to |allFields|
        invariant drawableFields == above + DrawableDeclared(allFields[..j])
      {
        DrawableDeclaredStep(allFields, j);
        var field := allFields[j];
        if field.isPublic {
          drawableFields := drawableFields + [field];
        } else if field.hasSerializeField {
          drawableFields := drawableFields + [field];
        }
      }
      assert allFields[..|allFields|] == allFields;
      FieldsRootFirstStep(chain, popped);
    }
    assert chain[0..] == chain;
  }

  /** Holds the static dictionary drawableFieldsForType. */
  class UnknownObjectDrawer {
    var drawableFieldsForType: map<TypeNode, seq<FieldRecord>>

    /** Every cached entry is the drawn-field list of its key. */
    ghost predicate Valid()
      reads this
    {
      forall u :: u in drawableFieldsForType ==> drawableFieldsForType[u] == DrawableFieldsOf(u)
    }

    constructor ()
      ensures drawableFieldsForType == map[]
      ensures Valid()
    {
      drawableFieldsForType := map[];
    }

    /** Stores the drawn-field list of `t` under `t` only; other entries are untouched. */
    method CacheDrawableFieldsFor(t: TypeNode)
      modifies this`drawableFieldsForType
      ensures drawableFieldsForType == old(drawableFieldsForType)[t := DrawableFieldsOf(t)]
    {
      var drawableFields := CollectDrawableFields(t);
      drawableFieldsForType := drawableFieldsForType[t := drawableFields];
    }

    /** Check-then-fill memoisation: a cached list is returned as stored, otherwise it is computed and cached. */
    method DrawableFields(t: TypeNode) returns (fields: seq<FieldRecord>)
      requires Valid()
      modifies this`drawableFieldsForType
      ensures Valid()
      ensures t in drawableFieldsForType && fields == drawableFieldsForType[t]
      ensures fields == DrawableFieldsOf(t)
      ensures t in old(drawableFieldsForType) ==> drawableFieldsForType == old(drawableFieldsForType)
      ensures t !in old(drawableFieldsForType) ==> drawableFieldsForType == old(drawableFieldsForType)[t := DrawableFieldsOf(t)]
    {
      if t !in drawableFieldsForType {
        CacheDrawableFieldsFor(t);
      }
      fields := drawableFieldsForType[t];
    }
  }

}
