/**
 * The exception hierarchy of the runtime (Exceptions.h), an instance of the
 * RTTI layer: every exception class is declared with a single RTTI base, and
 * every constructor takes a message (default "") and passes it on to its base
 * until `RuntimeException` or `IOException` stores it.
 */
module Exceptions {
  import opened Wrappers
  import Rtti

  /** The exception classes of Exceptions.h. */
  datatype Kind =
    | RuntimeException
    | IllegalStateException
    | IllegalArgumentException
    | NullPointerException
    | IndexOutOfBoundsException
    | UnsupportedOperationException
    | EmptyStackException
    | IOException
    | CancellationException
    | ParseCancellationException

  /** The RTTI base each class is declared with; `None` stands for the `RTTI` root. */
  function Parent(k: Kind): (p: Option<Kind>)
    ensures p.None? <==> k == RuntimeException || k == IOException
    ensures p.Some? ==> Rank(p.value) + 1 == Rank(k)
  {
    match k
    case RuntimeException => None
    case IllegalStateException => Some(RuntimeException)
    case IllegalArgumentException => Some(RuntimeException)
    case NullPointerException => Some(RuntimeException)
    case IndexOutOfBoundsException => Some(RuntimeException)
    case UnsupportedOperationException => Some(RuntimeException)
    case EmptyStackException => Some(RuntimeException)
    case IOException => None
    case CancellationException => Some(IllegalStateException)
    case ParseCancellationException => Some(CancellationException)
  }

  /** How many declarations lie between a class and its root-derived ancestor. */
  function Rank(k: Kind): nat {
    match k
    case RuntimeException => 0
    case IOException => 0
    case CancellationException => 2
    case ParseCancellationException => 3
    case _ => 1
  }

  /** "Runtime" */
  const WordRuntime: seq<bv8> := [0x52, 0x75, 0x6E, 0x74, 0x69, 0x6D, 0x65]
  /** "Exception" */
  const WordException: seq<bv8> := [0x45, 0x78, 0x63, 0x65, 0x70, 0x74, 0x69, 0x6F, 0x6E]
  /** "Illegal" */
  const WordIllegal: seq<bv8> := [0x49, 0x6C, 0x6C, 0x65, 0x67, 0x61, 0x6C]
  /** "State" */
  const WordState: seq<bv8> := [0x53, 0x74, 0x61, 0x74, 0x65]
  /** "Argument" */
  const WordArgument: seq<bv8> := [0x41, 0x72, 0x67, 0x75, 0x6D, 0x65, 0x6E, 0x74]
  /** "Null" */
  const WordNull: seq<bv8> := [0x4E, 0x75, 0x6C, 0x6C]
  /** "Pointer" */
  const WordPointer: seq<bv8> := [0x50, 0x6F, 0x69, 0x6E, 0x74, 0x65, 0x72]
  /** "Index" */
  const WordIndex: seq<bv8> := [0x49, 0x6E, 0x64, 0x65, 0x78]
  /** "OutOf" */
  const WordOutOf: seq<bv8> := [0x4F, 0x75, 0x74, 0x4F, 0x66]
  /** "Bounds" */
  const WordBounds: seq<bv8> := [0x42, 0x6F, 0x75, 0x6E, 0x64, 0x73]
  /** "Unsupported" */
  const WordUnsupported: seq<bv8> := [0x55, 0x6E, 0x73, 0x75, 0x70, 0x70, 0x6F, 0x72, 0x74, 0x65, 0x64]
  /** "Operation" */
  const WordOperation: seq<bv8> := [0x4F, 0x70, 0x65, 0x72, 0x61, 0x74, 0x69, 0x6F, 0x6E]
  /** "Empty" */
  const WordEmpty: seq<bv8> := [0x45, 0x6D, 0x70, 0x74, 0x79]
  /** "Stack" */
  const WordStack: seq<bv8> := [0x53, 0x74, 0x61, 0x63, 0x6B]
  /** "IO" */
  const WordIO: seq<bv8> := [0x49, 0x4F]
  /** "Cancellation" */
  const WordCancellation: seq<bv8> := [0x43, 0x61, 0x6E, 0x63, 0x65, 0x6C, 0x6C, 0x61, 0x74, 0x69, 0x6F, 0x6E]
  /** "Parse" */
  const WordParse: seq<bv8> := [0x50, 0x61, 0x72, 0x73, 0x65]

  /** The class name as its `#classType` string literal spells it, one ASCII byte per character. */
  function Name(k: Kind): seq<bv8> {
    match k
    case RuntimeException => WordRuntime + WordException
    case IllegalStateException => WordIllegal + (WordState + WordException)
    case IllegalArgumentException => WordIllegal + (WordArgument + WordException)
    case NullPointerException => WordNull + (WordPointer + WordException)
    case IndexOutOfBoundsException => WordIndex + (WordOutOf + (WordBounds + WordException))
    case UnsupportedOperationException => WordUnsupported + (WordOperation + WordException)
    case EmptyStackException => WordEmpty + (WordStack + WordException)
    case IOException => WordIO + WordException
    case CancellationException => WordCancellation + WordException
    case ParseCancellationException => WordParse + (WordCancellation + WordException)
  }

  /** `RTTI::kTypeId`, as the compiler evaluates it. */
  const RootTypeId: Rtti.TypeId := 0x078F_342C_1208_6EC4

  /** `classType::kTypeId` of each exception class, as the compiler evaluates it. */
  function TypeIdOf(k: Kind): Rtti.TypeId {
    match k
    case RuntimeException => 0xE011_8823_2E2D_6190
    case IllegalStateException => 0x3A8A_528B_CC16_07EB
    case IllegalArgumentException => 0x4826_ED46_FBB4_0C4B
    case NullPointerException => 0x51C5_2744_5615_66D6
    case IndexOutOfBoundsException => 0x77FA_47CF_1BCA_274A
    case UnsupportedOperationException => 0x491A_DFE1_D9A8_3722
    case EmptyStackException => 0x60B0_1BB4_B07D_33FF
    case IOException => 0x9ED7_25FC_2A14_5076
    case CancellationException => 0xB59C_DD67_D757_B210
    case ParseCancellationException => 0xE50C_C1D4_B1DA_A698
  }

  /** The id the class's declaration chains onto: its base's. */
  function BaseTypeId(k: Kind): Rtti.TypeId {
    if Parent(k).None? then RootTypeId else TypeIdOf(Parent(k).value)
  }

  /** The `RTTI` root class, carrying its evaluated id. */
  const RootClass: Rtti.Class := Rtti.Root(RootTypeId)

  /** The ten evaluated ids are pairwise distinct and differ from the root's. */
  lemma TypeIdsDistinct(a: Kind, b: Kind)
    ensures TypeIdOf(a) == TypeIdOf(b) ==> a == b
    ensures TypeIdOf(a) != RootTypeId
  {
  }

  /** The RTTI class of an exception class, carrying its evaluated id. */
  function ClassOf(k: Kind): (c: Rtti.Class)
    ensures c.Single? && c.name == Name(k) && Rtti.KTypeId(c) == TypeIdOf(k)
    ensures Parent(k).None? ==> c.base == RootClass
    ensures Parent(k).Some? ==> c.base == ClassOf(Parent(k).value)
    decreases Rank(k)
  {
    var base := if Parent(k).None? then RootClass else ClassOf(Parent(k).value);
    Rtti.Single(Name(k), base, TypeIdOf(k))
  }

  /**
   * The class and its bases up to the one declared on `RTTI`: each entry's
   * declared base is the next one.
   */
  function Chain(k: Kind): (ks: seq<Kind>)
    ensures |ks| == Rank(k) + 1 && ks[0] == k
    ensures Parent(ks[|ks| - 1]).None?
    ensures forall i :: 0 <= i < |ks| - 1 ==> Parent(ks[i]) == Some(ks[i + 1])
    decreases Rank(k)
  {
    if Parent(k).None? then [k] else [k] + Chain(Parent(k).value)
  }

  /** `k` is `t` or derives from it. */
  predicate IsA(k: Kind, t: Kind) {
    t in Chain(k)
  }

  /** The RTTI classes of a list of exception classes. */
  function ClassesOf(ks: seq<Kind>): (cs: seq<Rtti.Class>)
    ensures |cs| == |ks|
    ensures forall i :: 0 <= i < |ks| ==> cs[i] == ClassOf(ks[i])
  {
    seq(|ks|, i requires 0 <= i < |ks| => ClassOf(ks[i]))
  }

  /** The lookup order of an exception object: its chain, then the `RTTI` root. */
  lemma {:induction false} AncestorsAreChain(k: Kind)
    ensures Rtti.Ancestors(ClassOf(k)) == ClassesOf(Chain(k)) + [RootClass]
    decreases Rank(k)
  {
    var c := ClassOf(k);
    if Parent(k).Some? {
      var p := Parent(k).value;
      AncestorsAreChain(p);
      ClassesOfCons(k, Chain(p));
      assert Rtti.Ancestors(c) == [c] + Rtti.Ancestors(ClassOf(p));
    } else {
      ClassesOfCons(k, []);
      assert Rtti.Ancestors(c) == [c] + Rtti.Ancestors(RootClass);
    }
  }

  lemma ClassesOfCons(k: Kind, ks: seq<Kind>)
    ensures ClassesOf([k] + ks) == [ClassOf(k)] + ClassesOf(ks)
  {
    var l, r := ClassesOf([k] + ks), [ClassOf(k)] + ClassesOf(ks);
    forall i | 0 <= i < |l|
      ensures l[i] == r[i]
    {
      if i > 0 {
        assert ([k] + ks)[i] == ks[i - 1];
      }
    }
  }

  /** The evaluated ids of a list of exception classes. */
  function IdsOf(ks: seq<Kind>): (ids: seq<Rtti.TypeId>)
    ensures |ids| == |ks|
    ensures forall i :: 0 <= i < |ks| ==> ids[i] == TypeIdOf(ks[i])
  {
    seq(|ks|, i requires 0 <= i < |ks| => TypeIdOf(ks[i]))
  }

  /** Since the ids are distinct, a class's id is among a list's ids exactly when the class is in the list. */
  lemma IdInIdsOfIff(ks: seq<Kind>, t: Kind)
    ensures TypeIdOf(t) in IdsOf(ks) <==> t in ks
    ensures TypeIdOf(t) != RootTypeId
  {
    TypeIdsDistinct(t, t);
    if TypeIdOf(t) in IdsOf(ks) {
      var i :| 0 <= i < |ks| && IdsOf(ks)[i] == TypeIdOf(t);
      TypeIdsDistinct(ks[i], t);
    }
    if t in ks {
      var i :| 0 <= i < |ks| && ks[i] == t;
      assert IdsOf(ks)[i] == TypeIdOf(t);
    }
  }

  /** The ids along a lookup order made of exception classes and the root. */
  lemma ChainIds(ch: seq<Kind>)
    ensures Rtti.Ids(ClassesOf(ch) + [RootClass]) == IdsOf(ch) + [RootTypeId]
  {
  }

  /** The only class with `t`'s id on such a lookup order is `t`'s own. */
  lemma ClassWithIdOnChain(ch: seq<Kind>, c: Rtti.Class, t: Kind)
    requires c in ClassesOf(ch) + [RootClass] && Rtti.KTypeId(c) == TypeIdOf(t)
    ensures c == ClassOf(t)
  {
    var i :| 0 <= i < |ch| + 1 && (ClassesOf(ch) + [RootClass])[i] == c;
    TypeIdsDistinct(t, t);
    if i < |ch| {
      TypeIdsDistinct(ch[i], t);
    }
  }

  /** An id is on the lookup order of `k` exactly when it is the id of a class of `k`'s chain. */
  lemma IdOnChainIffIsA(k: Kind, t: Kind)
    ensures TypeIdOf(t) in Rtti.Ids(Rtti.Ancestors(ClassOf(k))) <==> IsA(k, t)
  {
    AncestorsAreChain(k);
    ChainIds(Chain(k));
    IdInIdsOfIff(Chain(k), t);
  }

  /**
   * `e.Cast<T>()` on an exception of dynamic class `k` succeeds exactly when
   * `k` is `T` or derives from it, and then answers the `T` subobject.
   */
  lemma CastIffIsA(k: Kind, t: Kind)
    ensures Rtti.Cast(ClassOf(k), ClassOf(t)).Some? <==> IsA(k, t)
    ensures IsA(k, t) ==> Rtti.Cast(ClassOf(k), ClassOf(t)) == Some(ClassOf(t))
  {
    IdOnChainIffIsA(k, t);
    var r := Rtti.Cast(ClassOf(k), ClassOf(t));
    if r.Some? {
      AncestorsAreChain(k);
      ClassWithIdOnChain(Chain(k), r.value, t);
    }
  }

  /** Every class of the hierarchy except `IOException` is a `RuntimeException`. */
  lemma RuntimeExceptionCoversAllButIO(k: Kind)
    ensures IsA(k, RuntimeException) <==> k != IOException
    ensures Rtti.Cast(ClassOf(k), ClassOf(RuntimeException)).Some? <==> k != IOException
  {
    CastIffIsA(k, RuntimeException);
  }

  /** Only the two cancellation classes derive from `IllegalStateException`. */
  lemma IllegalStateSubclasses(k: Kind)
    ensures IsA(k, IllegalStateException) <==>
      k in {IllegalStateException, CancellationException, ParseCancellationException}
  {
  }

  /** An `IOException` is no `RuntimeException`, and a parse cancellation is one. */
  lemma IOExceptionIsNotRuntime()
    ensures Rtti.Cast(ClassOf(IOException), ClassOf(RuntimeException)).None?
    ensures Rtti.Cast(ClassOf(ParseCancellationException), ClassOf(RuntimeException)).Some?
  {
    CastIffIsA(IOException, RuntimeException);
    CastIffIsA(ParseCancellationException, RuntimeException);
  }

  /** A parse cancellation is a cancellation, and not the other way round. */
  lemma CancellationIsNotParseCancellation()
    ensures Rtti.Cast(ClassOf(ParseCancellationException), ClassOf(CancellationException)).Some?
    ensures Rtti.Cast(ClassOf(CancellationException), ClassOf(ParseCancellationException)).None?
  {
    CastIffIsA(ParseCancellationException, CancellationException);
    CastIffIsA(CancellationException, ParseCancellationException);
  }

  /** The class whose private `_message` member holds an exception's message. */
  function Storer(k: Kind): (s: Kind)
    ensures Parent(s).None? && IsA(k, s)
  {
    Chain(k)[|Chain(k)| - 1]
  }

  /** Only `RuntimeException` and `IOException` store a message, and an `IOException` is the only one to store its own. */
  lemma StorerIsRuntimeOrIO(k: Kind)
    ensures Storer(k) == (if k == IOException then IOException else RuntimeException)
  {
  }

  /** An exception object: its dynamic class and the message it stores. */
  datatype Exception = Exception(kind: Kind, message: string)

  /**
   * `classType(msg)`: each constructor passes `msg` to its base's constructor;
   * the storing class keeps it. The result is the message stored.
   */
  function Forward(k: Kind, msg: string): (stored: string)
    ensures stored == msg
    decreases Rank(k)
  {
    if Parent(k).None? then msg else Forward(Parent(k).value, msg)
  }

  /** `classType(msg = "")` */
  function New(k: Kind, msg: string := ""): (e: Exception)
    ensures e.kind == k
  {
    Exception(k, Forward(k, msg))
  }

  /** `what()`: the stored message. */
  function What(e: Exception): string {
    e.message
  }

  /** `what()` of a freshly constructed exception is the message passed in, or "" by default. */
  lemma WhatIsMessage(k: Kind, msg: string)
    ensures What(New(k, msg)) == msg
    ensures What(New(k)) == ""
  {
  }
}
