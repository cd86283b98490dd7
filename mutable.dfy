/**
 * `DfMutable`: a cell holding one nullable value. `set` refuses null; the
 * readers either look at the value or fail when there is none. Callbacks
 * (predicates, mappers, suppliers) are pure functions here; a consumer is
 * modelled by reporting which branch ran and on what value.
 */
module Mutables {
  import opened Wrappers

  /** What `ifPresent` / `ifPresentOrElse` did: fed the value to the consumer, ran the fallback, or nothing. */
  datatype Branch<T> = Consumed(value: T) | RanOther | Skipped

  class DfMutable<T> {
    /** The value; `None` is Java's null. */
    var value: Option<T>

    /** The no-argument constructor: an empty cell. */
    constructor Empty()
      ensures value == None
    {
      value := None;
    }

    /** The all-argument constructor, which takes any value, null included. */
    constructor Of(v: Option<T>)
      ensures value == v
    {
      value := v;
    }

    /** `set`: null fails with a NullPointerException naming "value" and changes nothing. */
    method Set(v: Option<T>) returns (o: Outcome)
      modifies this
      ensures v.None? ==> o == Fail(NullPointer("value")) && value == old(value)
      ensures v.Some? ==> o == Pass && value == v
      ensures v.Some? ==> IsPresent() && Require() == Ok(v.value) && Maybe() == v
    {
      if v.None? {
        return Fail(NullPointer("value"));
      }
      value := v;
      o := Pass;
    }

    function IsPresent(): (b: bool)
      reads this
      ensures b <==> value != None
    {
      value.Some?
    }

    /** `isEmpty`, the interface default. */
    function IsEmpty(): (b: bool)
      reads this
      ensures b <==> !IsPresent()
    {
      !IsPresent()
    }

    /** `check`: false on an empty cell, otherwise the predicate on the value. */
    function Check(p: T -> bool): (b: bool)
      reads this
      ensures b ==> IsPresent()
      ensures IsPresent() ==> (b <==> p(value.value))
    {
      value.Some? && p(value.value)
    }

    /** `maybe`: the value as an `Optional`. */
    function Maybe(): (r: Option<T>)
      reads this
      ensures r.Some? <==> IsPresent()
      ensures r.Some? ==> r == value
    {
      value
    }

    /** `or(other)`: the value if present, else `other`, which must not be null. */
    function Or(other: Option<T>): (r: Result<T>)
      reads this
      ensures IsPresent() ==> r == Ok(value.value)
      ensures !IsPresent() && other.Some? ==> r == Ok(other.value)
      ensures !IsPresent() && other.None? ==> r == Err(NullPointer("other"))
    {
      if value.Some? then Ok(value.value)
      else if other.Some? then Ok(other.value)
      else Err(NullPointer("other"))
    }

    /** `or(supplier)`: the supplier is asked only when the cell is empty, and must not give null. */
    function OrGet(supplier: () -> Option<T>): (r: Result<T>)
      reads this
      ensures IsPresent() ==> r == Ok(value.value)
      ensures !IsPresent() ==> r == if supplier().Some? then Ok(supplier().value) else Err(NullPointer("supplier"))
    {
      if value.Some? then Ok(value.value)
      else if supplier().Some? then Ok(supplier().value)
      else Err(NullPointer("supplier"))
    }

    /** `mapOr`: the mapper on the value, else the fallback; neither may give null. */
    function MapOr<R>(mapper: T -> Option<R>, other: () -> Option<R>): (r: Result<R>)
      reads this
      ensures IsPresent() ==>
        r == if mapper(value.value).Some? then Ok(mapper(value.value).value) else Err(NullPointer("mapper"))
      ensures !IsPresent() ==>
        r == if other().Some? then Ok(other().value) else Err(NullPointer("other"))
    {
      if value.Some? then
        (if mapper(value.value).Some? then Ok(mapper(value.value).value) else Err(NullPointer("mapper")))
      else if other().Some? then Ok(other().value)
      else Err(NullPointer("other"))
    }

    /** `ifPresent`: the consumer runs on the value, or nothing happens. */
    function IfPresent(): (b: Branch<T>)
      reads this
      ensures b != RanOther
      ensures b.Consumed? <==> IsPresent()
      ensures b.Consumed? ==> b.value == value.value
    {
      if value.Some? then Consumed(value.value) else Skipped
    }

    /** `ifPresentOrElse`: exactly one of the consumer and the fallback runs. */
    function IfPresentOrElse(): (b: Branch<T>)
      reads this
      ensures b != Skipped
      ensures b.Consumed? <==> IsPresent()
      ensures b.Consumed? ==> b.value == value.value
    {
      if value.Some? then Consumed(value.value) else RanOther
    }

    /** `require`: the value, or NoSuchElementException "No value present". */
    function Require(): (r: Result<T>)
      reads this
      ensures r.Ok? <==> IsPresent()
      ensures r.Ok? ==> Some(r.value) == value
      ensures r.Err? ==> r.error == NoSuchElement("No value present")
    {
      if value.None? then Err(NoSuchElement("No value present")) else Ok(value.value)
    }
  }

  /** The readers agree: `or`, `ifPresent` and `check` behave as `require` says the cell is. */
  lemma ReadersAgree<T>(m: DfMutable<T>, other: T, p: T -> bool)
    ensures m.Require().Ok? ==> m.Or(Some(other)) == m.Require() && m.IfPresent() == Consumed(m.Require().value)
    ensures m.Require().Err? ==> m.Or(Some(other)) == Ok(other) && m.IfPresentOrElse() == RanOther
    ensures m.Check(p) <==> m.Require().Ok? && p(m.Require().value)
  {
  }
}
