/**
 * `antlrcpp::Any` (support/Any.h): a type-erased box. It owns at most one
 * heap holder, a `Derived<T>` that stores a value of the storage type
 * `T = std::decay<U>` it was built from; the box answers `is<U>` and `as<U>`
 * by an exact match of the holder's type against `std::decay<U>`.
 *
 * Values of every C++ type are represented by one type parameter `P` of the
 * classes below, and the C++ type a value has by a `CppType` tag.
 */
module AnyBox {
  import opened Wrappers

  /** The C++ types, as far as `std::decay` and copying see them. */
  datatype CppType =
    | Named(name: string, nothrowCopyable: bool)
    | Pointer(to: CppType)
    | Const(of: CppType)
    | LRef(of: CppType)
    | RRef(of: CppType)

  /** `std::decay<T>` on these types: drop references and `const` qualifiers at the top. */
  function Decay(t: CppType): (d: CppType)
    ensures d.Named? || d.Pointer?
    ensures t.Named? || t.Pointer? ==> d == t
  {
    match t
    case Named(_, _) => t
    case Pointer(_) => t
    case Const(x) => Decay(x)
    case LRef(x) => Decay(x)
    case RRef(x) => Decay(x)
  }

  /** Decaying a decayed type changes nothing. */
  lemma DecayIdempotent(t: CppType)
    ensures Decay(Decay(t)) == Decay(t)
  {
  }

  /** `std::is_nothrow_copy_constructible<T>` for a storage type. */
  predicate NothrowCopyable(t: CppType) {
    match t
    case Named(_, nothrow) => nothrow
    case Pointer(_) => true
    case _ => false
  }

  /** The `bad_cast` that `as<U>` throws. */
  datatype BadCast = BadCast

  /**
   * `Any::Derived<T>`: the heap holder of a value of storage type `storage`.
   * The value can be written through the reference `as<U>()` answers.
   */
  class Holder<P> {
    const storage: CppType
    var value: P

    /** `Derived(U&& value_)` */
    constructor(storage: CppType, value: P)
      ensures this.storage == storage && this.value == value
    {
      this.storage := storage;
      this.value := value;
    }

    /**
     * `Derived<T>::clone()`: a new holder with a copy of the value when `T` is
     * nothrow-copy-constructible, and null otherwise.
     */
    method Clone() returns (h: Holder?<P>)
      ensures NothrowCopyable(storage) ==> h != null && fresh(h) && h.storage == storage && h.value == value
      ensures !NothrowCopyable(storage) ==> h == null
    {
      if NothrowCopyable(storage) {
        h := new Holder(storage, value);
      } else {
        h := null;
      }
    }
  }

  /** `antlrcpp::Any`: `_ptr` is its holder, or null. */
  class Any<P> {
    var ptr: Holder?<P>

    /** `Any()` */
    constructor Empty()
      ensures ptr == null && IsNull()
    {
      ptr := null;
    }

    /** `Any(std::nullptr_t&&)` */
    constructor FromNullptr()
      ensures ptr == null && IsNull()
    {
      ptr := null;
    }

    /** `Any(U&& value)`: a new holder of type `Derived<StorageType<U>>`. */
    constructor FromValue(u: CppType, v: P)
      ensures ptr != null && fresh(ptr) && ptr.storage == Decay(u) && ptr.value == v
      ensures !IsNull() && Is(u) && As(u) == Success(v)
    {
      var h := new Holder(Decay(u), v);
      ptr := h;
    }

    /**
     * `Any(Any&)`, `Any(const Any&)` and `Any(const Any&&)`: a holder of its
     * own, `that.clone()`; a non-empty copy is therefore never `equals` to
     * its source.
     */
    constructor Copy(that: Any<P>)
      ensures ptr == null <==> that.ptr == null || !NothrowCopyable(that.ptr.storage)
      ensures ptr != null ==> fresh(ptr) && ptr.storage == that.ptr.storage && ptr.value == that.ptr.value
      ensures ptr != null ==> !Equals(that)
    {
      var h := that.CloneHolder();
      ptr := h;
    }

    /** `Any(Any&& that)`: takes `that`'s holder and leaves `that` null. */
    constructor Move(that: Any<P>)
      modifies that
      ensures ptr == old(that.ptr) && that.ptr == null
    {
      ptr := that.ptr;
      that.ptr := null;
    }

    /** `isNull()` */
    predicate IsNull()
      reads this
      ensures IsNull() <==> !IsNotNull()
    {
      ptr == null
    }

    /** `isNotNull()` */
    predicate IsNotNull()
      reads this
    {
      ptr != null
    }

    /**
     * `getDerived<U>(checkCast)`: `antlr_cast<Derived<StorageType<U>>*>(_ptr)`,
     * which answers the holder only when its type is exactly
     * `Derived<StorageType<U>>`; on a mismatch or an empty box it answers
     * null, or throws `bad_cast` when `checkCast` is set.
     */
    function GetDerived(u: CppType, checkCast: bool): (r: Result<Holder?<P>, BadCast>)
      reads this
      ensures r.Success? && r.value != null <==> ptr != null && ptr.storage == Decay(u)
      ensures r.Success? && r.value != null ==> r.value == ptr
      ensures r.Failure? <==> checkCast && (ptr == null || ptr.storage != Decay(u))
    {
      if ptr != null && ptr.storage == Decay(u) then Success(ptr)
      else if checkCast then Failure(BadCast)
      else Success(null)
    }

    /** `is<U>()`: never throws. */
    predicate Is(u: CppType)
      reads this
      ensures Is(u) ==> IsNotNull() && ptr.storage == Decay(u)
    {
      var d := GetDerived(u, false);
      d.Success? && d.value != null
    }

    /** `as<U>()`: the stored value, or `bad_cast`. */
    function As(u: CppType): (r: Result<P, BadCast>)
      reads this, ptr
      ensures r.Success? <==> Is(u)
      ensures r.Success? ==> ptr != null && r.value == ptr.value
    {
      var d := GetDerived(u, true);
      if d.Failure? then Failure(d.error) else Success(d.value.value)
    }

    /**
     * `as<U>() = v`: the non-const `as<U>()` answers a reference to the
     * holder's value, and assigning through it changes the value in the
     * holder, and so in every box that shares it.
     */
    method SetAs(u: CppType, v: P)
      requires Is(u)
      modifies ptr
      ensures ptr.value == v && ptr.storage == old(ptr.storage)
      ensures As(u) == Success(v)
    {
      ptr.value := v;
    }

    /** `equals(other)`: the two boxes share a holder (or are both empty). */
    predicate Equals(other: Any<P>)
      reads this, other
      ensures Equals(other) ==> (IsNull() <==> other.IsNull())
      ensures other == this ==> Equals(other)
    {
      ptr == other.ptr
    }

    /** `Any::clone()`: null for an empty box, otherwise the holder's `clone()`. */
    method CloneHolder() returns (h: Holder?<P>)
      ensures h == null <==> ptr == null || !NothrowCopyable(ptr.storage)
      ensures h != null ==> fresh(h) && h.storage == ptr.storage && h.value == ptr.value
    {
      if ptr != null {
        h := ptr.Clone();
      } else {
        h := null;
      }
    }

    /**
     * `operator=(const Any& a)`: nothing when both share a holder; otherwise
     * this box gets `a.clone()` and its old holder is deleted.
     */
    method CopyAssign(a: Any<P>)
      modifies this
      ensures old(ptr) == a.ptr ==> ptr == old(ptr)
      ensures old(ptr) != a.ptr ==>
        (ptr == null <==> a.ptr == null || !NothrowCopyable(a.ptr.storage)) &&
        (ptr != null ==> fresh(ptr) && ptr.storage == a.ptr.storage && ptr.value == a.ptr.value)
    {
      if ptr == a.ptr {
        return;
      }
      var h := a.CloneHolder();
      ptr := h;
    }

    /**
     * `operator=(Any&& a)`: nothing when both share a holder; otherwise the
     * two boxes swap holders, so `a` keeps this box's old contents.
     */
    method MoveAssign(a: Any<P>)
      modifies this, a
      ensures ptr == old(a.ptr) && a.ptr == old(ptr)
    {
      if ptr == a.ptr {
        return;
      }
      ptr, a.ptr := a.ptr, ptr;
    }
  }

  /** `is<U>` and `as<U>` depend only on `std::decay<U>`. */
  lemma IsDependsOnDecay<P>(a: Any<P>, u: CppType)
    ensures a.Is(u) == a.Is(Decay(u)) && a.As(u) == a.As(Decay(u))
  {
    DecayIdempotent(u);
  }

  /** An empty box is no type: `is<U>` is false and `as<U>` throws, for every `U`. */
  lemma EmptyIsNothing<P>(a: Any<P>, u: CppType)
    requires a.IsNull()
    ensures !a.Is(u) && a.As(u) == Failure(BadCast)
  {
  }

  /** A box holds exactly one storage type: `is<U>` and `is<V>` both hold only when `U` and `V` decay alike. */
  lemma IsExactType<P>(a: Any<P>, u: CppType, v: CppType)
    requires a.Is(u) && a.Is(v)
    ensures Decay(u) == Decay(v)
  {
  }

  /**
   * A copy owns a holder of its own: writing through the copy's `as<U>()`
   * leaves the value in the original untouched.
   */
  method CopyIsIndependent<P>(that: Any<P>, u: CppType, v: P) returns (c: Any<P>)
    requires that.Is(u) && NothrowCopyable(that.ptr.storage)
    ensures that.ptr == old(that.ptr) && that.ptr.value == old(that.ptr.value)
    ensures c.As(u) == Success(v) && that.As(u) == Success(old(that.ptr.value))
  {
    c := new Any.Copy(that);
    c.SetAs(u, v);
  }

  /**
   * Boxes that are `equals` share their holder: writing through one box's
   * `as<U>()` is seen through the other's.
   */
  method SharedHolderAliases<P>(a: Any<P>, b: Any<P>, u: CppType, v: P)
    requires a.Equals(b) && a.Is(u)
    modifies a.ptr
    ensures b.As(u) == Success(v)
  {
    a.SetAs(u, v);
  }
}
