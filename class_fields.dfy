/**
 * The validated attributes (ClassFields): descriptors whose setter checks
 * the Python type, and for some the sign, of a value before storing it in
 * the instance's attribute dictionary, and raises ValueError otherwise.
 * Python values are modelled by a small dynamic Value type so that the
 * isinstance checks, including Python's bool being an int, keep their
 * meaning.
 */
module ClassFields {
  import opened Wrappers

  /** A Python value, as far as the setters look at it. */
  datatype Value =
    | VInt(i: int)
    | VBool(b: bool)
    | VFloat(f: real)
    | VStr(s: string)
    | VNone
    | VList(items: seq<Value>)
    | VTuple(elems: seq<Value>)

  /** `isinstance(v, int)`: bool is a subclass of int. */
  predicate IsInt(v: Value)
  {
    v.VInt? || v.VBool?
  }

  /** The integer an int or bool stands for (True is 1). */
  function IntOf(v: Value): int
    requires IsInt(v)
  {
    if v.VInt? then v.i else if v.b then 1 else 0
  }

  /** `isinstance(v, float) or isinstance(v, int)` */
  predicate IsNumber(v: Value)
  {
    IsInt(v) || v.VFloat?
  }

  /** `float(v)` for a number. */
  function FloatOf(v: Value): real
    requires IsNumber(v)
  {
    if v.VFloat? then v.f else IntOf(v) as real
  }

  /** Every element of the list is a number. */
  predicate AllNumbers(items: seq<Value>)
  {
    forall k :: 0 <= k < |items| ==> IsNumber(items[k])
  }

  /** Every element of the list is a tuple. */
  predicate AllTuples(items: seq<Value>)
  {
    forall k :: 0 <= k < |items| ==> items[k].VTuple?
  }

  /** Every item of every tuple of the list is a number (the flattened comprehension). */
  predicate AllTupleItemsNumbers(items: seq<Value>)
    requires AllTuples(items)
  {
    forall k :: 0 <= k < |items| ==> AllNumbers(items[k].elems)
  }

  /** The descriptor classes. */
  datatype Kind =
    | IntField
    | PositiveIntField
    | NonNegativeIntField
    | FloatField
    | ListField
    | FloatListField
    | FloatPairListField

  /** Why a setter raised ValueError. */
  datatype Reason =
    | ExpectingInteger
    | ExpectingPositive        // PositiveIntField: value <= 0
    | ExpectingNonNegative     // NonNegativeIntField: value < 0 (its message also says "positive")
    | ExpectingFloat
    | ExpectingList
    | ExpectingListOfFloats
    | ExpectingListOfTuples
    | ExpectingListOfTuplesOfFloats

  datatype FieldError = ValueError(name: string, reason: Reason)

  /**
   * What `__set__` of a field of the given kind does with v: the value it
   * stores, or the ValueError it raises, checks in the source's order.
   */
  function Admit(kind: Kind, name: string, v: Value): Result<Value, FieldError>
  {
    match kind
    case IntField =>
      if !IsInt(v) then Err(ValueError(name, ExpectingInteger)) else Ok(v)
    case PositiveIntField =>
      if !IsInt(v) then Err(ValueError(name, ExpectingInteger))
      else if IntOf(v) <= 0 then Err(ValueError(name, ExpectingPositive))
      else Ok(v)
    case NonNegativeIntField =>
      if !IsInt(v) then Err(ValueError(name, ExpectingInteger))
      else if IntOf(v) < 0 then Err(ValueError(name, ExpectingNonNegative))
      else Ok(v)
    case FloatField =>
      if !IsNumber(v) then Err(ValueError(name, ExpectingFloat)) else Ok(VFloat(FloatOf(v)))
    case ListField =>
      if !v.VList? then Err(ValueError(name, ExpectingList)) else Ok(v)
    case FloatListField =>
      if !v.VList? then Err(ValueError(name, ExpectingList))
      else if !AllNumbers(v.items) then Err(ValueError(name, ExpectingListOfFloats))
      else Ok(v)
    case FloatPairListField =>
      if !v.VList? then Err(ValueError(name, ExpectingList))
      else if !AllTuples(v.items) then Err(ValueError(name, ExpectingListOfTuples))
      else if !AllTupleItemsNumbers(v.items) then Err(ValueError(name, ExpectingListOfTuplesOfFloats))
      else Ok(v)
  }

  /** The integer fields store exactly the ints (bools included) in their range, unchanged. */
  lemma IntegerFieldsAdmit(name: string, v: Value)
    ensures Admit(IntField, name, v).Ok? <==> IsInt(v)
    ensures Admit(PositiveIntField, name, v).Ok? <==> IsInt(v) && IntOf(v) > 0
    ensures Admit(NonNegativeIntField, name, v).Ok? <==> IsInt(v) && IntOf(v) >= 0
    ensures forall k :: k in {IntField, PositiveIntField, NonNegativeIntField} && Admit(k, name, v).Ok? ==>
              Admit(k, name, v).value == v
  {
  }

  /**
   * A value every stricter integer field takes is taken by the looser ones:
   * positive, then non-negative, then any int, then any float.
   */
  lemma IntegerFieldsNest(name: string, v: Value)
    ensures Admit(PositiveIntField, name, v).Ok? ==> Admit(NonNegativeIntField, name, v).Ok?
    ensures Admit(NonNegativeIntField, name, v).Ok? ==> Admit(IntField, name, v).Ok?
    ensures Admit(IntField, name, v).Ok? ==> Admit(FloatField, name, v).Ok?
    ensures Admit(FloatListField, name, v).Ok? ==> Admit(ListField, name, v).Ok?
    ensures Admit(FloatPairListField, name, v).Ok? ==> Admit(ListField, name, v).Ok?
  {
  }

  /** FloatField takes exactly the numbers and stores their float value. */
  lemma FloatFieldAdmits(name: string, v: Value)
    ensures Admit(FloatField, name, v).Ok? <==> IsNumber(v)
    ensures IsNumber(v) ==> Admit(FloatField, name, v) == Ok(VFloat(FloatOf(v)))
    ensures v.VInt? ==> Admit(FloatField, name, v) == Ok(VFloat(v.i as real))
  {
  }

  /**
   * Setting a field to the value it stored stores the same value again:
   * every setter's output passes its own checks.
   */
  lemma AdmitIdempotent(kind: Kind, name: string, v: Value)
    requires Admit(kind, name, v).Ok?
    ensures Admit(kind, name, Admit(kind, name, v).value) == Admit(kind, name, v)
  {
  }

  /** The list fields store the list itself, and an empty list always passes. */
  lemma ListFieldsAdmit(name: string, v: Value)
    ensures Admit(FloatListField, name, v).Ok? <==> v.VList? && AllNumbers(v.items)
    ensures Admit(FloatPairListField, name, v).Ok? <==>
              v.VList? && AllTuples(v.items) && AllTupleItemsNumbers(v.items)
    ensures forall k :: k in {ListField, FloatListField, FloatPairListField} && Admit(k, name, v).Ok? ==>
              Admit(k, name, v).value == v
    ensures forall k :: k in {ListField, FloatListField, FloatPairListField} ==> Admit(k, name, VList([])).Ok?
  {
  }

  /** The first failing check names the error: a list holding a non-tuple is refused as such. */
  lemma PairListChecksInOrder(name: string, items: seq<Value>)
    requires !AllTuples(items)
    ensures Admit(FloatPairListField, name, VList(items)) == Err(ValueError(name, ExpectingListOfTuples))
  {
  }

  /** Bools pass as integers: True is a positive int, False a non-negative one. */
  lemma BoolsAreIntegers(name: string)
    ensures Admit(PositiveIntField, name, VBool(true)) == Ok(VBool(true))
    ensures Admit(PositiveIntField, name, VBool(false)) == Err(ValueError(name, ExpectingPositive))
    ensures Admit(NonNegativeIntField, name, VBool(false)) == Ok(VBool(false))
    ensures Admit(FloatField, name, VBool(true)) == Ok(VFloat(1.0))
  {
  }

  /**
   * Tuple lengths are not checked: putting a tuple of numbers of any length
   * in place of a tuple of numbers never changes what the setter does.
   */
  lemma PairLengthNotChecked(name: string, items: seq<Value>, k: int, t: seq<Value>)
    requires 0 <= k < |items| && items[k].VTuple? && AllNumbers(items[k].elems) && AllNumbers(t)
    ensures var v, w := VList(items), VList(items[k := VTuple(t)]);
      && (Admit(FloatPairListField, name, w).Ok? <==> Admit(FloatPairListField, name, v).Ok?)
      && (Admit(FloatPairListField, name, w).Ok? ==> Admit(FloatPairListField, name, w).value == w)
      && (Admit(FloatPairListField, name, v).Err? ==> Admit(FloatPairListField, name, w) == Admit(FloatPairListField, name, v))
  {
    var items' := items[k := VTuple(t)];
    assert AllTuples(items') <==> AllTuples(items) by {
      forall j | 0 <= j < |items| ensures items'[j].VTuple? <==> items[j].VTuple? {
      }
    }
    if AllTuples(items) {
      assert AllTupleItemsNumbers(items') <==> AllTupleItemsNumbers(items) by {
        forall j | 0 <= j < |items| ensures AllNumbers(items'[j].elems) <==> AllNumbers(items[j].elems) {
        }
      }
    }
  }

  /** An object's attribute dictionary, written through the descriptors. */
  class Instance {
    var dict: map<string, Value>

    constructor ()
      ensures dict == map[]
    {
      dict := map[];
    }

    /** `__get__`: the stored value, None where nothing was stored (Python raises KeyError). */
    function Get(name: string): (r: Option<Value>)
      reads this
      ensures r.Some? <==> name in dict
    {
      if name in dict then Some(dict[name]) else None
    }

    /**
     * `__set__` of a field of the given kind: the checks in order, raising
     * on the first that fails and leaving the dictionary as it was;
     * otherwise the value (a float for FloatField) is stored under the
     * field's name and nothing else changes.
     */
    method Set(kind: Kind, name: string, value: Value) returns (r: Result<(), FieldError>)
      modifies this
      ensures r.Err? <==> Admit(kind, name, value).Err?
      ensures r.Err? ==> r.error == Admit(kind, name, value).error && dict == old(dict)
      ensures r.Ok? ==> dict == old(dict)[name := Admit(kind, name, value).value]
    {
      var stored := value;
      match kind {
        case IntField =>
          if !IsInt(value) {
            return Err(ValueError(name, ExpectingInteger));
          }
        case PositiveIntField =>
          if !IsInt(value) {
            return Err(ValueError(name, ExpectingInteger));
          }
          if IntOf(value) <= 0 {
            return Err(ValueError(name, ExpectingPositive));
          }
        case NonNegativeIntField =>
          if !IsInt(value) {
            return Err(ValueError(name, ExpectingInteger));
          }
          if IntOf(value) < 0 {
            return Err(ValueError(name, ExpectingNonNegative));
          }
        case FloatField =>
          if !IsNumber(value) {
            return Err(ValueError(name, ExpectingFloat));
          }
          stored := VFloat(FloatOf(value));
        case ListField =>
          if !value.VList? {
            return Err(ValueError(name, ExpectingList));
          }
        case FloatListField =>
          if !value.VList? {
            return Err(ValueError(name, ExpectingList));
          }
          if !AllNumbers(value.items) {
            return Err(ValueError(name, ExpectingListOfFloats));
          }
        case FloatPairListField =>
          if !value.VList? {
            return Err(ValueError(name, ExpectingList));
          }
          if !AllTuples(value.items) {
            return Err(ValueError(name, ExpectingListOfTuples));
          }
          if !AllTupleItemsNumbers(value.items) {
            return Err(ValueError(name, ExpectingListOfTuplesOfFloats));
          }
      }
      dict := dict[name := stored];
      r := Ok(());
    }
  }
}
