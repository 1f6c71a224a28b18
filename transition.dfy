/**
 * The classification of ATN transitions (atn/Transition.h): the fixed
 * serialization tags, the `ClassType` bit flags that `isType` tests, and the
 * factory that places transitions in a `LinearAllocator` arena.
 */
module Transitions {
  import opened Wrappers
  import Allocators

  /** `Transition::SerializationType` */
  datatype SerializationType =
    | Epsilon | Range | Rule | Predicate | Atom | Action | Set | NotSet | Wildcard | Precedence

  /** The number each serialization type is written as. */
  function Tag(t: SerializationType): (n: int)
    ensures 1 <= n <= 10
  {
    match t
    case Epsilon => 1
    case Range => 2
    case Rule => 3
    case Predicate => 4
    case Atom => 5
    case Action => 6
    case Set => 7
    case NotSet => 8
    case Wildcard => 9
    case Precedence => 10
  }

  /** The serialization type a number stands for, if any. */
  function FromTag(n: int): (r: Option<SerializationType>)
    ensures r.Some? <==> 1 <= n <= 10
  {
    match n
    case 1 => Some(Epsilon)
    case 2 => Some(Range)
    case 3 => Some(Rule)
    case 4 => Some(Predicate)
    case 5 => Some(Atom)
    case 6 => Some(Action)
    case 7 => Some(Set)
    case 8 => Some(NotSet)
    case 9 => Some(Wildcard)
    case 10 => Some(Precedence)
    case _ => None
  }

  /** The tags are a one-to-one numbering of the serialization types by 1..10. */
  lemma TagRoundTrip(t: SerializationType, n: int)
    ensures FromTag(Tag(t)) == Some(t)
    ensures FromTag(n).Some? ==> Tag(FromTag(n).value) == n
  {
  }

  /** `Transition::ClassType` */
  datatype ClassType =
    | TransitionClass
    | AbstractPredicateTransitionClass
    | ActionTransitionClass
    | AtomTransitionClass
    | EpsilonTransitionClass
    | RangeTransitionClass
    | RuleTransitionClass
    | SetTransitionClass
    | WildcardTransitionClass
    | NotSetTransitionClass
    | PredicateTransitionClass

  /** The position of each flag's bit. */
  function BitIndex(c: ClassType): (i: nat)
    ensures i <= 10
  {
    match c
    case TransitionClass => 0
    case AbstractPredicateTransitionClass => 1
    case ActionTransitionClass => 2
    case AtomTransitionClass => 3
    case EpsilonTransitionClass => 4
    case RangeTransitionClass => 5
    case RuleTransitionClass => 6
    case SetTransitionClass => 7
    case WildcardTransitionClass => 8
    case NotSetTransitionClass => 9
    case PredicateTransitionClass => 10
  }

  /** The value of each flag, as declared. */
  function Bit(c: ClassType): bv64 {
    match c
    case TransitionClass => 1
    case AbstractPredicateTransitionClass => 2
    case ActionTransitionClass => 4
    case AtomTransitionClass => 8
    case EpsilonTransitionClass => 16
    case RangeTransitionClass => 32
    case RuleTransitionClass => 64
    case SetTransitionClass => 128
    case WildcardTransitionClass => 256
    case NotSetTransitionClass => 512
    case PredicateTransitionClass => 1024
  }

  /** Each flag is the power of two at its own position, so two flags share a bit only when they are the same. */
  lemma BitsArePowersOfTwo(c: ClassType, d: ClassType)
    ensures Bit(c) == 1 << BitIndex(c)
    ensures 1 <= Bit(c) <= 1024
    ensures Bit(c) & Bit(d) != 0 <==> c == d
  {
  }

  /** `isType(type)`: `(classtype & type) != 0`. */
  predicate IsType(classtype: bv64, t: ClassType) {
    HasAny(classtype, Bit(t))
  }

  /** `classtype` has some bit of `mask`. */
  predicate HasAny(classtype: bv64, mask: bv64) {
    classtype & mask != 0
  }

  /** A flag on its own is of its own type and of no other. */
  lemma IsTypeOfBit(c: ClassType, t: ClassType)
    ensures IsType(Bit(c), t) <==> c == t
  {
    BitsArePowersOfTwo(c, t);
  }

  /** Or-ing `flags` into `classtype` keeps every `isType` that held, and adds the types `flags` are. */
  lemma IsTypeMonotone(classtype: bv64, flags: bv64, t: ClassType)
    ensures IsType(classtype | flags, t) <==> IsType(classtype, t) || IsType(flags, t)
  {
    OrMasked(classtype, flags, Bit(t));
    assert HasAny(classtype | flags, Bit(t)) <==> HasAny(classtype, Bit(t)) || HasAny(flags, Bit(t));
  }

  /** Masking an or of two words is non-zero exactly when masking one of them is. */
  lemma OrMasked(x: bv64, b: bv64, m: bv64)
    ensures (x | b) & m != 0 <==> x & m != 0 || b & m != 0
  {
    AndDistributes(x, b, m);
    OrZero(x & m, b & m);
  }

  lemma AndDistributes(x: bv64, b: bv64, m: bv64)
    ensures (x | b) & m == (x & m) | (b & m)
  {
  }

  lemma OrZero(y: bv64, z: bv64)
    ensures y | z != 0 <==> y != 0 || z != 0
  {
  }

  /** After or-ing in flag `c`, `isType` holds of `c` and of what it held of before. */
  lemma IsTypeAfterAdding(classtype: bv64, c: ClassType, t: ClassType)
    ensures IsType(classtype | Bit(c), t) <==> IsType(classtype, t) || t == c
  {
    IsTypeMonotone(classtype, Bit(c), t);
    IsTypeOfBit(c, t);
  }

  /** The `classtype` of an object whose constructors or-ed in the flags `cs`, starting from 0. */
  function Flags(cs: seq<ClassType>): bv64 {
    if cs == [] then 0 else Flags(cs[..|cs| - 1]) | Bit(cs[|cs| - 1])
  }

  /** `isType` answers exactly the flags that were or-ed in. */
  lemma {:induction false} IsTypeIffFlagged(cs: seq<ClassType>, t: ClassType)
    ensures IsType(Flags(cs), t) <==> t in cs
  {
    if cs != [] {
      var init := cs[..|cs| - 1];
      IsTypeIffFlagged(init, t);
      IsTypeMonotone(Flags(init), Bit(cs[|cs| - 1]), t);
      IsTypeOfBit(cs[|cs| - 1], t);
      assert cs == init + [cs[|cs| - 1]];
    }
  }

  /** `Transition`: its class flags and its target state. */
  class Transition {
    var classtype: bv64
    const target: nat

    /** `Transition(target)`: the class flags start as `TransitionClass` alone. */
    constructor(target: nat)
      ensures classtype == Flags([TransitionClass]) && this.target == target
      ensures forall t :: IsType(classtype, t) <==> t == TransitionClass
    {
      classtype := 1;
      this.target := target;
      forall t
        ensures IsType(1, t) <==> t == TransitionClass
      {
        IsTypeIffFlagged([TransitionClass], t);
      }
    }

    /** `isType(type)` */
    predicate IsTypeOf(t: ClassType)
      reads this
    {
      IsType(classtype, t)
    }

    /** `classtype |= flag`, as the constructor of a derived class does. */
    method AddClass(c: ClassType)
      modifies this
      ensures classtype == old(classtype) | Bit(c)
      ensures forall t :: IsType(classtype, t) <==> IsType(old(classtype), t) || t == c
    {
      var before := classtype;
      classtype := before | Bit(c);
      forall t
        ensures IsType(classtype, t) <==> IsType(before, t) || t == c
      {
        IsTypeAfterAdding(before, c, t);
      }
    }
  }

  /** `TransitionFactory`: creates transitions in the memory of its own `LinearAllocator`. */
  class TransitionFactory {
    const allocator: Allocators.LinearAllocator

    ghost predicate Valid()
      reads this, allocator
    {
      allocator.Valid()
    }

    /** `TransitionFactory(size)`: an empty arena of blocks of `RoundUp(size)` bytes. */
    constructor(size: nat)
      requires size < Allocators.SizeModulus
      ensures fresh(allocator) && allocator.blockSize == Allocators.RoundUp(size)
      ensures allocator.blocks == [] && allocator.handed == [] && Valid()
    {
      allocator := new Allocators.LinearAllocator(size);
    }

    /**
     * `Create<T>(args...)`: `sizeof(T)` bytes from the arena (with `malloc`'s
     * answer `data` should a new block be needed), where the transition is
     * placed. The placement is the arena's bump, as `Allocate` does it; a
     * `sizeof(T)` larger than the block size is answered with null.
     * Successive creations occupy disjoint ranges inside the arena's blocks.
     */
    method Create(sizeOfT: nat, data: Allocators.Addr) returns (p: Allocators.Addr)
      requires Valid() && sizeOfT < Allocators.SizeModulus
      requires data == 0 || allocator.FreshBlock(data)
      modifies allocator
      ensures Valid()
      ensures sizeOfT > allocator.blockSize ==> p == 0
      ensures sizeOfT <= allocator.blockSize ==>
        (p, allocator.blocks) == allocator.AllocateAsWritten(old(allocator.blocks), sizeOfT, data)
      ensures p != 0 ==> sizeOfT <= Allocators.RoundUp(sizeOfT)
      ensures p != 0 ==> allocator.blocks[0].head == p + Allocators.RoundUp(sizeOfT)
      ensures p != 0 ==> Allocators.Region(p, Allocators.RoundUp(sizeOfT)).Within(allocator.BlockRegion(allocator.blocks[0].data))
      ensures p != 0 ==> allocator.handed == old(allocator.handed) + [Allocators.Region(p, Allocators.RoundUp(sizeOfT))]
      ensures p != 0 ==> forall k :: 0 <= k < |old(allocator.handed)| ==>
        Allocators.Region(p, Allocators.RoundUp(sizeOfT)).Disjoint(old(allocator.handed)[k])
      ensures p == 0 ==> allocator.blocks == old(allocator.blocks) && allocator.handed == old(allocator.handed)
    {
      p := allocator.Allocate(sizeOfT, data);
    }

    /**
     * `Destroy(transition)`: it calls `allocator.Free`, which a
     * `LinearAllocator` does not have; the arena gives nothing back before it
     * is purged, so destroying changes nothing.
     */
    method Destroy(transition: Allocators.Addr)
      requires Valid()
      ensures Valid()
    {
    }

    /** `~TransitionFactory()`: purges the arena, releasing every block. */
    method Dispose() returns (released: seq<Allocators.Addr>)
      requires Valid()
      modifies allocator
      ensures released == allocator.DataOf(old(allocator.blocks))
      ensures allocator.blocks == [] && allocator.handed == [] && Valid()
    {
      released := allocator.Purge();
    }
  }
}
