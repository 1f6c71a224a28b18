/**
 * The hand-rolled type identity layer of the runtime (RTTI.h).
 *
 * A class of an RTTI hierarchy is described by how it was declared: the root
 * `RTTI`, a class declared with `IMPLEMENT_RTTI(name, base)`, or one declared
 * with `IMPLEMENT_RTTI_2_BASES(name, base1, base2)`. Its type id is the 64-bit
 * FNV-1a hash of "/" + name chained onto the id of its base(s); `AsType` is the
 * virtual lookup that returns the subobject whose id matches, and `Cast<T>` is
 * `AsType(T::kTypeId)`. A subobject is identified here by its class.
 */
module Rtti {
  import opened Wrappers

  /** `typedef uint64_t typeid_t` */
  type TypeId = bv64

  const FNV1aInitialHash64: bv64 := 0xCBF2_9CE4_8422_2325
  const FNV1aPrime64: bv64 := 0x100_0000_01B3

  /** No NUL byte: the characters of a C string before its terminator. */
  predicate NoNul(s: seq<bv8>) {
    forall i :: 0 <= i < |s| ==> s[i] != 0
  }

  /**
   * `static_cast<uint64_t>(*str)` where `*str` is a (signed) `char`: the
   * two's-complement sign extension of the byte.
   */
  function CharToUInt64(c: bv8): (x: bv64)
    ensures c < 0x80 ==> x == c as bv64
    ensures c >= 0x80 ==> x == c as bv64 | 0xFFFF_FFFF_FFFF_FF00
  {
    ((c as bv64) ^ 0x80) - 0x80
  }

  /** One step of the hash: `(hash ^ c) * kFNV1aPrime64`, modulo 2^64. */
  function Mix(hash: bv64, c: bv8): bv64 {
    (hash ^ CharToUInt64(c)) * 0x100_0000_01B3
  }

  /**
   * `RTTIHash(str, hash)`. `str` is the buffer the pointer addresses: the
   * recursion stops at its first NUL (and, in the model, at its end).
   */
  function RTTIHash(str: seq<bv8>, hash: bv64): bv64
    decreases |str|
  {
    if |str| == 0 || str[0] == 0 then hash else RTTIHash(str[1..], Mix(hash, str[0]))
  }

  /** Hashing a C string distributes over concatenation. */
  lemma {:induction false} RTTIHashAppend(s: seq<bv8>, t: seq<bv8>, hash: bv64)
    requires NoNul(s)
    ensures RTTIHash(s + t, hash) == RTTIHash(t, RTTIHash(s, hash))
    decreases |s|
  {
    if s == [] {
      assert s + t == t;
    } else {
      assert (s + t)[0] == s[0];
      assert (s + t)[1..] == s[1..] + t;
      RTTIHashAppend(s[1..], t, Mix(hash, s[0]));
    }
  }

  /**
   * Evaluating the hash one character at a time: `hs` lists the hash before
   * each character and, last, the final one.
   */
  lemma {:induction false} RTTIHashTrace(s: seq<bv8>, hs: seq<bv64>)
    requires |hs| == |s| + 1
    requires forall k :: 0 <= k < |s| ==> s[k] != 0 && Mix(hs[k], s[k]) == hs[k + 1]
    ensures NoNul(s) && RTTIHash(s, hs[0]) == hs[|s|]
    decreases |s|
  {
    if s != [] {
      RTTIHashTrace(s[1..], hs[1..]);
    }
  }

  /** The terminating NUL ends the hash: nothing after it is read. */
  lemma {:induction false} RTTIHashStopsAtNul(s: seq<bv8>, t: seq<bv8>, hash: bv64)
    requires NoNul(s)
    ensures RTTIHash(s + [0] + t, hash) == RTTIHash(s, hash)
  {
    RTTIHashAppend(s, [0] + t, hash);
    assert s + [0] + t == s + ([0] + t);
  }

  /**
   * The textbook definition of 64-bit FNV-1a over octets: start from the
   * offset basis, and for each octet xor it in (zero-extended) and multiply by
   * the prime.
   */
  function Fnv1a64(data: seq<bv8>): bv64 {
    if data == [] then FNV1aInitialHash64
    else FnvStep(Fnv1a64(data[..|data| - 1]), data[|data| - 1] as bv64)
  }

  /** xor a 64-bit value into the hash and multiply by the prime, modulo 2^64. */
  function FnvStep(hash: bv64, x: bv64): bv64 {
    (hash ^ x) * 0x100_0000_01B3
  }

  lemma MixIsFnvStep(hash: bv64, c: bv8)
    ensures Mix(hash, c) == FnvStep(hash, CharToUInt64(c))
  {
  }

  /** A character below 0x80 is not sign-extended: it mixes in as the octet itself. */
  lemma MixAscii(hash: bv64, c: bv8)
    requires c < 0x80
    ensures Mix(hash, c) == FnvStep(hash, c as bv64)
  {
    MixIsFnvStep(hash, c);
    assert CharToUInt64(c) == c as bv64;
  }

  /** On NUL-free ASCII text, `RTTIHash` from the offset basis is 64-bit FNV-1a. */
  lemma {:induction false} RTTIHashIsFnv1a64(s: seq<bv8>)
    requires forall i :: 0 <= i < |s| ==> 0 < s[i] < 0x80
    ensures RTTIHash(s, FNV1aInitialHash64) == Fnv1a64(s)
    decreases |s|
  {
    if s != [] {
      var init, last := s[..|s| - 1], s[|s| - 1];
      assert s == init + [last];
      RTTIHashIsFnv1a64(init);
      RTTIHashAppend(init, [last], FNV1aInitialHash64);
      var h := Fnv1a64(init);
      assert [last][1..] == [];
      assert RTTIHash([last], h) == Mix(h, last);
      MixAscii(h, last);
    }
  }

  /** "RTTI" */
  const RootName: seq<bv8> := [0x52, 0x54, 0x54, 0x49]
  /** "/" */
  const Slash: seq<bv8> := [0x2F]

  /**
   * A class of an RTTI hierarchy, described by its declaration and carrying its
   * `static constexpr typeid_t kTypeId`: the root `RTTI`, a class declared with
   * `IMPLEMENT_RTTI(name, base)`, or one declared with
   * `IMPLEMENT_RTTI_2_BASES(name, base1, base2)`.
   */
  datatype Class =
    | Root(kTypeId: TypeId)
    | Single(name: seq<bv8>, base: Class, kTypeId: TypeId)
    | Double(name: seq<bv8>, base1: Class, base2: Class, kTypeId: TypeId)

  /** The `RTTI` root class: `kTypeId = RTTIHash("RTTI", kFNV1aInitialHash64)`. */
  const RTTIClass: Class := Root(RTTIHash(RootName, FNV1aInitialHash64))

  /** `IMPLEMENT_RTTI(name, base)`: `kTypeId = RTTIHash("/" #classType, Base::kTypeId)`. */
  function ImplementRtti(name: seq<bv8>, base: Class): (c: Class)
    ensures c.Single? && c.name == name && c.base == base
    ensures c.kTypeId == RTTIHash(Slash + name, base.kTypeId)
  {
    Single(name, base, RTTIHash(Slash + name, base.kTypeId))
  }

  /**
   * `IMPLEMENT_RTTI_2_BASES(name, base1, base2)`:
   * `kTypeId = RTTIHash("/" #classType, Base1::kTypeId ^ Base2::kTypeId)`.
   */
  function ImplementRtti2Bases(name: seq<bv8>, base1: Class, base2: Class): (c: Class)
    ensures c.Double? && c.name == name && c.base1 == base1 && c.base2 == base2
    ensures c.kTypeId == RTTIHash(Slash + name, base1.kTypeId ^ base2.kTypeId)
  {
    Double(name, base1, base2, RTTIHash(Slash + name, base1.kTypeId ^ base2.kTypeId))
  }

  /** Every class of the description has the id its declaration computes. */
  predicate WellDeclared(c: Class) {
    match c
    case Root(id) => c == RTTIClass
    case Single(name, base, id) => WellDeclared(base) && c == ImplementRtti(name, base)
    case Double(name, base1, base2, id) =>
      WellDeclared(base1) && WellDeclared(base2) && c == ImplementRtti2Bases(name, base1, base2)
  }

  /** `classType::kTypeId` */
  function KTypeId(c: Class): TypeId {
    c.kTypeId
  }

  /** The classes whose `AsType` is tried, in the order the lookup tries them. */
  function Ancestors(c: Class): (a: seq<Class>)
    ensures |a| > 0 && a[0] == c
  {
    match c
    case Root(_) => [c]
    case Single(_, base, _) => [c] + Ancestors(base)
    case Double(_, base1, base2, _) => [c] + Ancestors(base1) + Ancestors(base2)
  }

  /** The ids along the lookup order: the ancestor-id chain. */
  function Ids(classes: seq<Class>): (ids: seq<TypeId>)
    ensures |ids| == |classes|
    ensures forall i :: 0 <= i < |classes| ==> ids[i] == KTypeId(classes[i])
  {
    if classes == [] then [] else [KTypeId(classes[0])] + Ids(classes[1..])
  }

  /** Linear search: the first class of the list whose id is `tid`. */
  function FirstWithId(classes: seq<Class>, tid: TypeId): (r: Option<Class>)
  {
    if classes == [] then None
    else if KTypeId(classes[0]) == tid then Some(classes[0])
    else FirstWithId(classes[1..], tid)
  }

  lemma {:induction false} FirstWithIdAppend(a: seq<Class>, b: seq<Class>, tid: TypeId)
    ensures FirstWithId(a + b, tid) == if FirstWithId(a, tid).Some? then FirstWithId(a, tid) else FirstWithId(b, tid)
  {
    if a == [] {
      assert a + b == b;
    } else {
      assert (a + b)[0] == a[0];
      assert (a + b)[1..] == a[1..] + b;
      FirstWithIdAppend(a[1..], b, tid);
    }
  }

  /**
   * `AsType(tid)` on an object whose dynamic class is `c`: the root answers
   * itself iff `tid == RTTI::kTypeId`; a one-base class answers itself on its
   * own id and otherwise delegates to `Base`; a two-base class tries itself,
   * then `Base1`, then `Base2`, keeping the first non-null answer.
   */
  function AsType(c: Class, tid: TypeId): (r: Option<Class>)
    ensures r.Some? ==> r.value in Ancestors(c) && KTypeId(r.value) == tid
  {
    match c
    case Root(_) => if tid == KTypeId(c) then Some(c) else None
    case Single(_, base, _) => if tid == KTypeId(c) then Some(c) else AsType(base, tid)
    case Double(_, base1, base2, _) =>
      if tid == KTypeId(c) then Some(c)
      else
        var p := AsType(base1, tid);
        if p.Some? then p else AsType(base2, tid)
  }

  /** The recursive lookup is the linear search along the lookup order. */
  lemma {:induction false} AsTypeIsFirstOnChain(c: Class, tid: TypeId)
    ensures AsType(c, tid) == FirstWithId(Ancestors(c), tid)
  {
    match c
    case Root(_) =>
      assert Ancestors(c)[1..] == [];
    case Single(_, base, _) =>
      AsTypeIsFirstOnChain(base, tid);
      assert Ancestors(c)[1..] == Ancestors(base);
    case Double(_, base1, base2, _) =>
      AsTypeIsFirstOnChain(base1, tid);
      AsTypeIsFirstOnChain(base2, tid);
      AsTypeIsFirstOnChainDouble(c, tid);
  }

  /** The two-base step of `AsTypeIsFirstOnChain`. */
  lemma AsTypeIsFirstOnChainDouble(c: Class, tid: TypeId)
    requires c.Double?
    requires AsType(c.base1, tid) == FirstWithId(Ancestors(c.base1), tid)
    requires AsType(c.base2, tid) == FirstWithId(Ancestors(c.base2), tid)
    ensures AsType(c, tid) == FirstWithId(Ancestors(c), tid)
  {
    var a1, a2 := Ancestors(c.base1), Ancestors(c.base2);
    assert Ancestors(c) == [c] + a1 + a2;
    assert [c] + a1 + a2 == [c] + (a1 + a2);
    assert ([c] + (a1 + a2))[1..] == a1 + a2;
    FirstWithIdAppend(a1, a2, tid);
    assert FirstWithId(Ancestors(c), tid) == if KTypeId(c) == tid then Some(c) else FirstWithId(a1 + a2, tid);
  }

  /** `AsType` finds an answer exactly when `tid` is on the ancestor-id chain. */
  lemma AsTypeSucceedsIffOnChain(c: Class, tid: TypeId)
    ensures AsType(c, tid).Some? <==> tid in Ids(Ancestors(c))
  {
    AsTypeIsFirstOnChain(c, tid);
  }

  /** `GetTypeId()`: the virtual accessor answers the dynamic class's own id. */
  function GetTypeId(c: Class): (id: TypeId)
    ensures id == Ids(Ancestors(c))[0]
  {
    KTypeId(c)
  }

  /** `obj->Cast<T>()` on an object whose dynamic class is `c`. */
  function Cast(c: Class, t: Class): (r: Option<Class>)
    ensures r.Some? <==> KTypeId(t) in Ids(Ancestors(c))
    ensures r.Some? ==> r.value in Ancestors(c) && KTypeId(r.value) == KTypeId(t)
    ensures t == c ==> r == Some(c)
  {
    AsTypeSucceedsIffOnChain(c, KTypeId(t));
    AsType(c, KTypeId(t))
  }

  /** A cast to any class on the lookup order succeeds. */
  lemma CastToAncestorSucceeds(c: Class, t: Class)
    requires t in Ancestors(c)
    ensures Cast(c, t).Some?
  {
    var i :| 0 <= i < |Ancestors(c)| && Ancestors(c)[i] == t;
    assert Ids(Ancestors(c))[i] == KTypeId(t);
  }

  /** No two classes of the set share an id. */
  ghost predicate DistinctIds(classes: set<Class>) {
    forall a, b :: a in classes && b in classes && a != b ==> KTypeId(a) != KTypeId(b)
  }

  /**
   * When the ids of `t` and of the classes on `c`'s lookup order do not
   * collide, `Cast<T>` succeeds exactly on the ancestors (and `c` itself), and
   * answers the subobject of class `t`.
   */
  lemma CastSucceedsIffAncestor(c: Class, t: Class)
    requires DistinctIds(set a | a in Ancestors(c) + [t])
    ensures Cast(c, t).Some? <==> t in Ancestors(c)
    ensures Cast(c, t).Some? ==> Cast(c, t) == Some(t)
  {
    if Cast(c, t).Some? {
      var s := Cast(c, t).value;
      assert s in Ancestors(c) + [t] && t in Ancestors(c) + [t];
    } else if t in Ancestors(c) {
      CastToAncestorSucceeds(c, t);
    }
  }

  /** An object handle: the object's identity and its dynamic class. */
  datatype Ref = Ref(address: nat, dynamic: Class)

  /**
   * `rtti_cast<T>(u)`, for a raw pointer and for a shared pointer alike: a
   * null or empty input, or a failed `Cast<T>`, gives null (an empty `Ref`);
   * otherwise the result refers to the same object.
   */
  function RttiCast(u: Option<Ref>, t: Class): (r: Option<Ref>)
    ensures r.Some? <==> u.Some? && KTypeId(t) in Ids(Ancestors(u.value.dynamic))
    ensures r.Some? ==> r == u
  {
    if u.None? then None
    else if Cast(u.value.dynamic, t).Some? then u
    else None
  }
}
