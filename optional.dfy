// util/optional.hpp: a move-only optional. The stored value of an empty
// optional is the value-initialised T{}, given here as `zero`.
module OptionalValue {
  import opened VkTypes

  class Optional<T> {
    /** T{}: what an empty optional stores. */
    const zero: T
    var hasValue: bool
    var val: T

    /** What the optional holds, as a value. */
    function Get(): (o: Option<T>)
      reads this
      ensures o.Some? <==> hasValue
      ensures o.Some? ==> o.value == val
    {
      if hasValue then Some(val) else None
    }

    /** The default constructor: empty. */
    constructor Empty(z: T)
      ensures zero == z && Get() == None && val == z
    {
      zero := z;
      hasValue := false;
      val := z;
    }

    /** Construction from a value: holds it. */
    constructor Of(z: T, v: T)
      ensures zero == z && Get() == Some(v)
    {
      zero := z;
      hasValue := true;
      val := v;
    }

    /**
     * Move construction: the new optional takes over opt's value and opt
     * becomes empty; from an empty opt the new one is empty too.
     */
    constructor MoveFrom(opt: Optional<T>)
      modifies opt
      ensures zero == opt.zero && Get() == old(opt.Get()) && opt.Get() == None
      ensures !hasValue ==> val == zero
    {
      zero := opt.zero;
      hasValue := opt.hasValue;
      if opt.hasValue {
        val := opt.val;
        opt.hasValue := false;
      } else {
        val := opt.zero;
      }
    }

    /** has_value(). */
    function HasValue(): (b: bool)
      reads this
      ensures b <==> Get().Some?
    {
      hasValue
    }

    /** value(), operator* and operator->: only with a value present. */
    function Value(): (v: T)
      reads this
      requires hasValue
      ensures Get() == Some(v)
    {
      val
    }

    /** reset(): empty again, storing T{}. */
    method Reset()
      modifies this
      ensures Get() == None && val == zero
    {
      hasValue := false;
      val := zero;
    }

    /** set(v) (both overloads) and assignment from a value: holds v. */
    method Set(v: T)
      modifies this
      ensures Get() == Some(v)
    {
      val := v;
      hasValue := true;
    }

    /**
     * Move assignment: a no-op onto itself; otherwise this takes over
     * opt's value (opt becomes empty), or becomes empty when opt is.
     */
    method MoveAssign(opt: Optional<T>)
      modifies this, opt
      ensures opt == this ==> Get() == old(Get()) && val == old(val)
      ensures opt != this ==> Get() == old(opt.Get()) && opt.Get() == None
      ensures opt != this && !old(opt.hasValue) ==> val == zero
    {
      if opt != this {
        if opt.hasValue {
          hasValue := true;
          val := opt.val;
          opt.hasValue := false;
        } else {
          val := zero;
          hasValue := false;
        }
      }
    }
  }
}
