# ANTLR C++ runtime core, modelled in Dafny

This project models a handful of self-contained pieces of the ANTLR 4 C++
runtime (`runtime/Cpp/runtime/src`) and proves what they promise:

- **RTTI** (`RTTI.h`) is the runtime's own type identification. It does not
  use `dynamic_cast`. Instead, every class carries a compile-time
  `kTypeId`, which is the FNV-1a 64-bit hash of `"/" + name`, seeded with
  its base's id. `antlr_cast` / `rtti_cast` succeed when the target's id
  lies on the object's chain of `AsType` lookups. This is module `Rtti`
  (`rtti.dfy`).
- **Exceptions** (`Exceptions.h`) is the ten exception classes, their
  hierarchy and their RTTI ids. This is modules `Exceptions`
  (`exceptions.dfy`) and `ExceptionTypeIds` (`exception_type_ids.dfy`).
  The second proves that the ten evaluated ids are the hashes their
  declarations compute.
- **Allocators** (`Allocators.h`, `Allocators.cpp`) is two allocators:
  - `FixedAllocator` is a pool of equal-sized chunks threaded on an
    intrusive free list.
  - `LinearAllocator` is a bump allocator over a list of blocks.

  Both are modelled as classes whose methods update the fields in place,
  over an abstract address space. This is module `Allocators`
  (`allocators.dfy`).
- **Any** (`support/Any.h`) is `antlrcpp::Any`, a type-erased box that owns
  at most one heap holder. This is module `AnyBox` (`any.dfy`).
- **Transition** (`atn/Transition.h`) covers:
  - the serialization tags;
  - the `ClassType` bit flags tested by `isType`;
  - the `TransitionFactory`, which places transitions in a
    `LinearAllocator`.

  This is module `Transitions` (`transition.dfy`).
- **ParseTreeWalker** (`tree/ParseTreeWalker.cpp`) is the recursive
  listener walk. Its calls to the listener and to the rule contexts are
  modelled as a trace of events. This is module `ParseTreeWalking`
  (`parse_tree_walker.dfy`).
- **TextChunk** (`tree/pattern/TextChunk.cpp`) is a literal piece of a tree
  pattern. This is module `TextChunks` (`text_chunk.dfy`).

`wrappers.dfy` holds the `Option` and `Result` types that the error paths
use.

Integer widths are written out where the source depends on them:
- the hash and the class flags are `bv64`;
- `std::size_t` arithmetic is taken modulo 2^64 (`SizeModulus`).

`malloc` is modelled as a parameter: the address it answers, with 0 for
failure. `free` is modelled as the list of blocks a method releases.

## Model

| member | source | states |
|---|---|---|
| Rtti.RTTIHash | runtime/Cpp/runtime/src/RTTI.h:16-21 | the hash of the bytes before the first NUL: one `Mix` per byte, from the seed; an empty string or a leading NUL leaves the seed |
| Rtti.CharToUInt64 | runtime/Cpp/runtime/src/RTTI.h:16-21 | a `char` widens to 64 bits with sign extension: bytes below 0x80 keep their value, the others get the upper 56 bits set |
| Rtti.Mix | runtime/Cpp/runtime/src/RTTI.h:16-21 | one step of the hash: xor the widened character in, then multiply by the FNV prime modulo 2^64 |
| Rtti.RTTIHashAppend | runtime/Cpp/runtime/src/RTTI.h:16-21 | hashing `s + t` is hashing `t` seeded with the hash of `s`, when `s` has no NUL |
| Rtti.RTTIHashTrace | runtime/Cpp/runtime/src/RTTI.h:16-21 | a sequence of intermediate hashes, each one xor-and-multiply step from the last, ends at the hash of the string |
| Rtti.RTTIHashStopsAtNul | runtime/Cpp/runtime/src/RTTI.h:16-21 | the hash stops at the first NUL: whatever follows it does not matter |
| Rtti.MixIsFnvStep | runtime/Cpp/runtime/src/RTTI.h:13-21 | one step of `RTTIHash` is an FNV-1a step on the sign-extended character |
| Rtti.MixAscii | runtime/Cpp/runtime/src/RTTI.h:13-21 | on an ASCII character the step is the plain FNV-1a step on the byte |
| Rtti.RTTIHashIsFnv1a64 | runtime/Cpp/runtime/src/RTTI.h:13-21 | from the FNV offset basis, `RTTIHash` of an ASCII string without NUL is the standard FNV-1a 64-bit hash |
| Rtti.ImplementRtti | runtime/Cpp/runtime/src/RTTI.h:69-80 | a class declared with one base gets `kTypeId = RTTIHash("/" + name, base::kTypeId)` |
| Rtti.ImplementRtti2Bases | runtime/Cpp/runtime/src/RTTI.h:82-106 | a class declared with two bases is seeded with the xor of the two bases' ids |
| Rtti.Ancestors | runtime/Cpp/runtime/src/RTTI.h:58-66 | the chain of classes that `AsType` tries starts with the class itself |
| Rtti.FirstWithIdAppend | runtime/Cpp/runtime/src/RTTI.h:90-105 | the first class with an id in `a + b` is the first in `a`, else the first in `b` |
| Rtti.AsType | runtime/Cpp/runtime/src/RTTI.h:58-66 | a successful `AsType` answers a class on the chain whose id is the one asked for |
| Rtti.AsTypeIsFirstOnChain | runtime/Cpp/runtime/src/RTTI.h:76-79 | `AsType` answers the first class on the chain (own class, then the bases in declaration order) with the asked id |
| Rtti.AsTypeIsFirstOnChainDouble | runtime/Cpp/runtime/src/RTTI.h:90-105 | for a two-base class, trying base 1 and then base 2 is the first hit on the concatenated chain |
| Rtti.AsTypeSucceedsIffOnChain | runtime/Cpp/runtime/src/RTTI.h:58-66 | `AsType` succeeds exactly when the id occurs on the chain |
| Rtti.GetTypeId | runtime/Cpp/runtime/src/RTTI.h:53-56 | the dynamic type id is the id of the object's own class, the head of its chain |
| Rtti.Cast | runtime/Cpp/runtime/src/RTTI.h:40-50 | `Cast<T>` succeeds exactly when `T::kTypeId` is on the object's chain, answers a class with that id, and always succeeds on the object's own class |
| Rtti.CastToAncestorSucceeds | runtime/Cpp/runtime/src/RTTI.h:40-50 | casting to any class on the chain succeeds |
| Rtti.CastSucceedsIffAncestor | runtime/Cpp/runtime/src/RTTI.h:40-50 | when the ids involved are distinct, a cast succeeds exactly for the ancestors and answers the target class itself |
| Rtti.RttiCast | runtime/Cpp/runtime/src/RTTI.h:108-126 | `rtti_cast` of a null or mismatching pointer is null, and otherwise the same object |
| Exceptions.Parent | runtime/Cpp/runtime/src/Exceptions.h:14-108 | the declared base of each class; only `RuntimeException` and `IOException` derive from `RTTI` directly, and a parent is one declaration closer to `RTTI` |
| Exceptions.TypeIdsDistinct | runtime/Cpp/runtime/src/Exceptions.h:14-108 | the ten exception ids are pairwise distinct and differ from `RTTI`'s |
| Exceptions.ClassOf | runtime/Cpp/runtime/src/Exceptions.h:14-108 | each exception class is declared with its name, its id and its base: `RTTI` for `RuntimeException` and `IOException`, and the declared parent otherwise |
| Exceptions.Chain | runtime/Cpp/runtime/src/Exceptions.h:14-108 | the declared parent chain of a class runs from the class to a root-derived class |
| Exceptions.AncestorsAreChain | runtime/Cpp/runtime/src/Exceptions.h:14-108 | the RTTI lookup chain of an exception class is its parent chain followed by `RTTI` |
| Exceptions.IdInIdsOfIff | runtime/Cpp/runtime/src/Exceptions.h:14-108 | an exception id occurs in the ids of a list of classes exactly when the class is in the list |
| Exceptions.IdOnChainIffIsA | runtime/Cpp/runtime/src/Exceptions.h:14-108 | `T`'s id is on `K`'s lookup chain exactly when `K` derives from `T` |
| Exceptions.CastIffIsA | runtime/Cpp/runtime/src/Exceptions.h:14-108 | `antlr_cast` between exception classes succeeds exactly when the source derives from the target, and then answers the target |
| Exceptions.RuntimeExceptionCoversAllButIO | runtime/Cpp/runtime/src/Exceptions.h:79-90 | every exception class except `IOException` is a `RuntimeException`, and casts to it |
| Exceptions.IllegalStateSubclasses | runtime/Cpp/runtime/src/Exceptions.h:92-108 | the `IllegalStateException`s are it, `CancellationException` and `ParseCancellationException` |
| Exceptions.IOExceptionIsNotRuntime | runtime/Cpp/runtime/src/Exceptions.h:79-90 | `IOException` does not cast to `RuntimeException`, and `ParseCancellationException` does |
| Exceptions.CancellationIsNotParseCancellation | runtime/Cpp/runtime/src/Exceptions.h:92-108 | the cast from `ParseCancellationException` to `CancellationException` succeeds, and the cast the other way fails |
| Exceptions.Storer | runtime/Cpp/runtime/src/Exceptions.h:14-22 | the class that stores the message is a root-derived ancestor of the class |
| Exceptions.StorerIsRuntimeOrIO | runtime/Cpp/runtime/src/Exceptions.h:79-90 | the message is stored by `IOException` for itself and by `RuntimeException` for every other class |
| Exceptions.Forward | runtime/Cpp/runtime/src/Exceptions.h:24-31 | each constructor hands its message unchanged to its base, down to the storing class |
| Exceptions.New | runtime/Cpp/runtime/src/Exceptions.h:14-108 | constructing an exception of a class gives an exception of that class |
| Exceptions.WhatIsMessage | runtime/Cpp/runtime/src/Exceptions.h:14-22 | `what()` is the message given to the constructor, and `""` by default |
| Exceptions.What | runtime/Cpp/runtime/src/Exceptions.h:14-22 | `what()` answers the stored message |
| ExceptionTypeIds.RootClassIsRtti | runtime/Cpp/runtime/src/RTTI.h:27 | `RTTI::kTypeId` evaluates to the constant the model uses |
| ExceptionTypeIds.TypeIdIsHash | runtime/Cpp/runtime/src/Exceptions.h:14-108 | each exception's evaluated id is `RTTIHash("/" + name, base::kTypeId)` |
| ExceptionTypeIds.ExceptionClassesWellDeclared | runtime/Cpp/runtime/src/Exceptions.h:14-108 | every exception class, with its whole chain of bases, is a well-declared RTTI class |
| Allocators.RoundUp | runtime/Cpp/runtime/src/Allocators.cpp:13-18 | the result is a multiple of 8, the least not below `n`, and is 0 when the `size_t` addition wraps |
| Allocators.AlignAddress | runtime/Cpp/runtime/src/Allocators.cpp:13-18 | an address rounded up to the alignment is at most 7 bytes further on |
| Allocators.RoundUpWithin | runtime/Cpp/runtime/src/Allocators.cpp:15-18 | a size no larger than a multiple of 8 rounds up to at most that multiple, and not below itself |
| Allocators.WithinDisjoint | runtime/Cpp/runtime/src/Allocators.h:29-32 | regions inside two disjoint blocks are disjoint |
| Allocators.FixedAllocator.constructor | runtime/Cpp/runtime/src/Allocators.cpp:20-25 | the chunk size is `RoundUp(max(sizeof(Chunk), size))`, there is no block, and the free list is empty |
| Allocators.FixedAllocator.Stitch | runtime/Cpp/runtime/src/Allocators.cpp:43-51 | the chunks of a new block are `chunkCount` chunks spaced `chunkSize` apart from the first |
| Allocators.FixedAllocator.ChunkWithinBlock | runtime/Cpp/runtime/src/Allocators.cpp:31-53 | every chunk lies inside the block it was carved from |
| Allocators.FixedAllocator.OwnedDisjoint | runtime/Cpp/runtime/src/Allocators.cpp:31-53 | two different chunks of the held blocks do not overlap |
| Allocators.FixedAllocator.AddBlockInvariant | runtime/Cpp/runtime/src/Allocators.cpp:31-53 | threading a fresh block's chunks onto an empty free list keeps the pool invariant |
| Allocators.FixedAllocator.AddBlock | runtime/Cpp/runtime/src/Allocators.cpp:31-53 | a failed `malloc` changes nothing; otherwise the block is pushed on the block list and the free list becomes its chunks in address order |
| Allocators.FixedAllocator.Thread | runtime/Cpp/runtime/src/Allocators.cpp:43-51 | the stitching loop links every chunk to the next and ends the list with null |
| Allocators.FixedAllocator.Allocate | runtime/Cpp/runtime/src/Allocators.cpp:55-63 | answers the head of the free list, adding a block first when it is empty, or null when `malloc` fails; the answer is a held chunk, was not in use, and overlaps no chunk in use |
| Allocators.FixedAllocator.Pop | runtime/Cpp/runtime/src/Allocators.cpp:60-62 | popping the free list answers its head, leaves its tail, and marks the chunk in use |
| Allocators.FixedAllocator.PopInvariant | runtime/Cpp/runtime/src/Allocators.cpp:60-62 | following the head's link keeps the pool invariant with one more chunk in use |
| Allocators.FixedAllocator.Free | runtime/Cpp/runtime/src/Allocators.cpp:65-69 | the chunk is pushed back on the head of the free list and leaves the in-use set |
| Allocators.FixedAllocator.ReleaseBlocks | runtime/Cpp/runtime/src/Allocators.cpp:71-77 | the release loop hands every block to `free`, in list order, and leaves no block |
| Allocators.FixedAllocator.Purge | runtime/Cpp/runtime/src/Allocators.cpp:71-77 | every block is released, and no chunk is left free or in use (corrected) |
| Allocators.FixedAllocator.PurgeAsWritten | runtime/Cpp/runtime/src/Allocators.cpp:71-77 | as written, after a purge with free chunks the free-list head still points into a released block |
| Allocators.FixedAllocator.HeadWithinBlock | runtime/Cpp/runtime/src/Allocators.h:34-37 | a non-empty free list starts at a chunk inside a held block |
| Allocators.Bump | runtime/Cpp/runtime/src/Allocators.cpp:109-111 | the bump moves the head by `size` and subtracts it from `available` modulo 2^64 |
| Allocators.LinearAllocator.constructor | runtime/Cpp/runtime/src/Allocators.cpp:79-82 | the block size is `RoundUp(size)` and there is no block |
| Allocators.LinearAllocator.NewArena | runtime/Cpp/runtime/src/Allocators.cpp:84-96 | a new block has all `blockSize` bytes available and nothing carved |
| Allocators.LinearAllocator.UsedWithinBlock | runtime/Cpp/runtime/src/Allocators.h:52-57 | the carved bytes of a block lie inside the block |
| Allocators.LinearAllocator.BumpInvariant | runtime/Cpp/runtime/src/Allocators.cpp:109-111 | a bump within the available bytes keeps the arena invariant, with the new region recorded |
| Allocators.LinearAllocator.BumpCarved | runtime/Cpp/runtime/src/Allocators.cpp:109-111 | after a bump, every region handed out, the new one included, lies in a carved part of a block |
| Allocators.LinearAllocator.BumpKeepsCarved | runtime/Cpp/runtime/src/Allocators.cpp:109-111 | a bump of the newest block keeps every carved region carved |
| Allocators.LinearAllocator.BumpDisjoint | runtime/Cpp/runtime/src/Allocators.cpp:109-111 | the region a bump carves overlaps no region handed out before |
| Allocators.LinearAllocator.NewArenaInvariant | runtime/Cpp/runtime/src/Allocators.cpp:84-96 | pushing a fresh block keeps the arena invariant |
| Allocators.LinearAllocator.AllocateAsWritten | runtime/Cpp/runtime/src/Allocators.cpp:102-113 | the code as written: a failed `malloc` when the newest block cannot hold the rounded size changes nothing; otherwise the answer is the bump pointer, and the head of the block it came from moves on by the rounded size |
| Allocators.LinearAllocator.AllocateAsWrittenOverruns | runtime/Cpp/runtime/src/Allocators.cpp:102-113 | as written, a request larger than the block size is carved past the end of a fresh block, and `available` wraps to more than the block size |
| Allocators.LinearAllocator.AllocateAsWrittenHugeIsEmpty | runtime/Cpp/runtime/src/Allocators.cpp:102-111 | as written, a request of 2^64 - 7 bytes or more rounds to 0 and is answered with a non-null pointer to no bytes |
| Allocators.LinearAllocator.Allocate | runtime/Cpp/runtime/src/Allocators.cpp:102-113 | (corrected) null when `size` exceeds the block size, so it could never fit; otherwise exactly the code as written, answering at least `size` bytes inside the newest block that overlap no earlier answer |
| Allocators.LinearAllocator.Carve | runtime/Cpp/runtime/src/Allocators.cpp:109-111 | the bump answers the old head, records the region, and keeps the invariant |
| Allocators.LinearAllocator.Purge | runtime/Cpp/runtime/src/Allocators.cpp:115-121 | every block is released in list order, and nothing remains carved |
| AnyBox.Decay | runtime/Cpp/runtime/src/support/Any.h:20-21 | `std::decay` leaves a plain or pointer type unchanged and reduces every type to one |
| AnyBox.DecayIdempotent | runtime/Cpp/runtime/src/support/Any.h:20-21 | decaying twice is decaying once |
| AnyBox.Holder.constructor | runtime/Cpp/runtime/src/support/Any.h:148-149 | the holder stores the value and its storage type |
| AnyBox.Holder.Clone | runtime/Cpp/runtime/src/support/Any.h:153-166 | a fresh copy of the holder when the type is nothrow-copyable, and null otherwise |
| AnyBox.Any.Empty | runtime/Cpp/runtime/src/support/Any.h:28-29 | the default box is null |
| AnyBox.Any.FromNullptr | runtime/Cpp/runtime/src/support/Any.h:192-194 | a box built from `nullptr` is null |
| AnyBox.Any.FromValue | runtime/Cpp/runtime/src/support/Any.h:44-46 | a box built from a value of type `U` holds it under `decay<U>`, is `U`, and `as<U>` answers the value |
| AnyBox.Any.Copy | runtime/Cpp/runtime/src/support/Any.h:31-42 | a copy owns a fresh clone of the holder, or is null when the source is empty or its type cannot be cloned, and is never `equals` to its source |
| AnyBox.Any.Move | runtime/Cpp/runtime/src/support/Any.h:34-36 | a move takes the source's holder and leaves the source null |
| AnyBox.Any.IsNull | runtime/Cpp/runtime/src/support/Any.h:25 | `isNull()`: the box has no holder, exactly when `isNotNull()` is false |
| AnyBox.Any.IsNotNull | runtime/Cpp/runtime/src/support/Any.h:26 | `isNotNull()`: the box has a holder |
| AnyBox.Any.GetDerived | runtime/Cpp/runtime/src/support/Any.h:178-186 | the holder when its type is exactly `decay<U>`; otherwise null, or `bad_cast` when the check is asked for |
| AnyBox.Any.Is | runtime/Cpp/runtime/src/support/Any.h:48-53 | `is<U>` holds only of a non-empty box whose holder's storage type is `decay<U>` |
| AnyBox.Any.As | runtime/Cpp/runtime/src/support/Any.h:55-67 | `as<U>` answers the stored value exactly when `is<U>`, and otherwise `bad_cast` |
| AnyBox.Any.SetAs | runtime/Cpp/runtime/src/support/Any.h:55-60 | assigning through the reference the non-const `as<U>()` answers changes the holder's value, which `as<U>` then answers, and keeps its storage type |
| AnyBox.Any.Equals | runtime/Cpp/runtime/src/support/Any.h:113-115 | `equals` compares holders: equal boxes are both empty or both not, and a box equals itself |
| AnyBox.Any.CloneHolder | runtime/Cpp/runtime/src/support/Any.h:170-176 | null for an empty box, otherwise the holder's clone |
| AnyBox.Any.CopyAssign | runtime/Cpp/runtime/src/support/Any.h:89-100 | assigning a box that shares the holder changes nothing; otherwise the box gets a clone of the other's holder |
| AnyBox.Any.MoveAssign | runtime/Cpp/runtime/src/support/Any.h:102-109 | move-assignment swaps the two holders |
| AnyBox.IsDependsOnDecay | runtime/Cpp/runtime/src/support/Any.h:48-67 | `is<U>` and `as<U>` depend only on `decay<U>` |
| AnyBox.EmptyIsNothing | runtime/Cpp/runtime/src/support/Any.h:48-67 | an empty box is no type, and `as` throws `bad_cast` |
| AnyBox.IsExactType | runtime/Cpp/runtime/src/support/Any.h:48-53 | a box is of exactly one storage type |
| AnyBox.CopyIsIndependent | runtime/Cpp/runtime/src/support/Any.h:31-42 | a copy owns its own holder: writing through the copy's `as<U>()` leaves the original's value unchanged |
| AnyBox.SharedHolderAliases | runtime/Cpp/runtime/src/support/Any.h:55-60 | boxes that are `equals` share one holder: a write through one box's `as<U>()` is seen through the other |
| Transitions.Tag | runtime/Cpp/runtime/src/atn/Transition.h:30-41 | every serialization type is numbered between 1 and 10 |
| Transitions.FromTag | runtime/Cpp/runtime/src/atn/Transition.h:30-41 | a number names a serialization type exactly when it is between 1 and 10 |
| Transitions.TagRoundTrip | runtime/Cpp/runtime/src/atn/Transition.h:30-41 | numbering and naming are inverse, so the numbering is one-to-one |
| Transitions.BitIndex | runtime/Cpp/runtime/src/atn/Transition.h:43-55 | each flag has a bit position of at most 10 |
| Transitions.BitsArePowersOfTwo | runtime/Cpp/runtime/src/atn/Transition.h:43-55 | each flag is a distinct power of two, so two flags share a bit only when they are equal |
| Transitions.IsType | runtime/Cpp/runtime/src/atn/Transition.h:59 | `isType(type)`: the flags share a bit with the type's flag |
| Transitions.IsTypeOfBit | runtime/Cpp/runtime/src/atn/Transition.h:59 | a flag on its own is of its own type and of no other |
| Transitions.IsTypeMonotone | runtime/Cpp/runtime/src/atn/Transition.h:57-59 | or-ing flags in keeps every type that held, and adds only the types of the new flags |
| Transitions.IsTypeAfterAdding | runtime/Cpp/runtime/src/atn/Transition.h:57-59 | after or-ing in flag `c`, `isType` holds of `c` and of the types it held of before, and of no other |
| Transitions.IsTypeIffFlagged | runtime/Cpp/runtime/src/atn/Transition.h:57-59 | `isType` holds of exactly the flags that the constructors or-ed in |
| Transitions.Transition.constructor | runtime/Cpp/runtime/src/atn/Transition.h:57-70 | a transition starts as `TransitionClass` alone, with its target |
| Transitions.Transition.IsTypeOf | runtime/Cpp/runtime/src/atn/Transition.h:59 | `isType` on the transition's own flags |
| Transitions.Transition.AddClass | runtime/Cpp/runtime/src/atn/Transition.h:57-59 | or-ing a subclass's flag adds exactly that type to those `isType` accepts |
| Transitions.TransitionFactory.constructor | runtime/Cpp/runtime/src/atn/Transition.h:98 | the factory owns a new, empty arena of blocks of `RoundUp(size)` bytes |
| Transitions.TransitionFactory.Create | runtime/Cpp/runtime/src/atn/Transition.h:101-104 | the transition is placed where the arena's `Allocate(sizeof(T))` bump puts it: at the old bump pointer of the newest block, inside that block, in at least `sizeof(T)` bytes overlapping no earlier transition; null when `malloc` fails or `sizeof(T)` exceeds the block size |
| Transitions.TransitionFactory.Destroy | runtime/Cpp/runtime/src/atn/Transition.h:106-108 | destroying keeps the arena valid |
| Transitions.TransitionFactory.Dispose | runtime/Cpp/runtime/src/atn/Transition.h:99 | destroying the factory purges the arena and releases every block |
| ParseTreeWalking.EnterRule | runtime/Cpp/runtime/src/tree/ParseTreeWalker.cpp:44-48 | `enterRule`: `enterEveryRule`, then the context's `enterRule` |
| ParseTreeWalking.ExitRule | runtime/Cpp/runtime/src/tree/ParseTreeWalker.cpp:50-54 | `exitRule`: the context's `exitRule`, then `exitEveryRule` |
| ParseTreeWalking.Walk | runtime/Cpp/runtime/src/tree/ParseTreeWalker.cpp:23-42 | `walk`: the calls made on a node; there is at least one, and the first and the last are about the node itself |
| ParseTreeWalking.WalkChildren | runtime/Cpp/runtime/src/tree/ParseTreeWalker.cpp:38-40 | the loop over the children: their walks in order, at least one call per child |
| ParseTreeWalking.LeafEvents | runtime/Cpp/runtime/src/tree/ParseTreeWalker.cpp:23-35 | a leaf gives one event, about itself: `visitErrorNode` exactly for an error node, otherwise `visitTerminal` |
| ParseTreeWalking.RuleEvents | runtime/Cpp/runtime/src/tree/ParseTreeWalker.cpp:37-54 | a rule node's events are `enterEveryRule` and `ctx.enterRule`, then its children's walks in order, then `ctx.exitRule` and `exitEveryRule` |
| ParseTreeWalking.WalkLength | runtime/Cpp/runtime/src/tree/ParseTreeWalker.cpp:23-42 | the walk makes four calls per rule node and one per leaf |
| ParseTreeWalking.WalkChildrenLength | runtime/Cpp/runtime/src/tree/ParseTreeWalker.cpp:38-40 | the same count, for a list of children |
| ParseTreeWalking.WalkArrivesInPreorder | runtime/Cpp/runtime/src/tree/ParseTreeWalker.cpp:23-42 | every node is reached once, in preorder |
| ParseTreeWalking.WalkChildrenArrivesInPreorder | runtime/Cpp/runtime/src/tree/ParseTreeWalker.cpp:38-40 | the same, for a list of children |
| ParseTreeWalking.WalkStaysInTree | runtime/Cpp/runtime/src/tree/ParseTreeWalker.cpp:23-42 | every event is about a node of the tree walked |
| ParseTreeWalking.WalkChildrenStaysInTree | runtime/Cpp/runtime/src/tree/ParseTreeWalker.cpp:38-40 | the same, for a list of children |
| ParseTreeWalking.RunAppend | runtime/Cpp/runtime/src/tree/ParseTreeWalker.cpp:37-41 | checking the nesting of two traces in a row checks the first, then the second from where the first left off |
| ParseTreeWalking.WalkIsWellNested | runtime/Cpp/runtime/src/tree/ParseTreeWalker.cpp:37-54 | every enter is matched by the exit of the same rule, properly nested |
| ParseTreeWalking.WalkChildrenIsWellNested | runtime/Cpp/runtime/src/tree/ParseTreeWalker.cpp:38-40 | the same, for a list of children |
| ParseTreeWalking.ExampleTrace | runtime/Cpp/runtime/src/tree/ParseTreeWalker.cpp:23-54 | the exact call sequence for a rule with a leaf, a nested rule and an error node |
| TextChunks.New | runtime/Cpp/runtime/src/tree/pattern/TextChunk.cpp:12-18 | the constructor throws `IllegalArgumentException("text cannot be nul")` exactly for empty text, and otherwise keeps the text |
| TextChunks.NewKeepsFlags | runtime/Cpp/runtime/src/tree/pattern/TextChunk.cpp:13 | the constructor keeps every class flag that was set, adds `TextChunkClass`, and sets no other bit |
| TextChunks.GetTextIsArgument | runtime/Cpp/runtime/src/tree/pattern/TextChunk.cpp:23-25 | `getText()` answers the text the chunk was built with |
| TextChunks.GetText | runtime/Cpp/runtime/src/tree/pattern/TextChunk.cpp:23-25 | `getText()` answers the chunk's text |
| TextChunks.ToString | runtime/Cpp/runtime/src/tree/pattern/TextChunk.cpp:27-29 | `toString()` is the text with a single quote on each side |
| TextChunks.UnquoteToString | runtime/Cpp/runtime/src/tree/pattern/TextChunk.cpp:27-29 | stripping the quotes from `toString()` gives the text back, so distinct texts print distinctly |

## Left out

- Addresses are unbounded naturals. Each `malloc` answer is a parameter: 0 stands for failure, and any other value names a block disjoint from the held ones. Each `free` is an entry in the `released` list a method returns. Sizes follow an LP64 target (`sizeof(Chunk)` 8; `Block` headers of 16 and 32 bytes after rounding).
- Allocators.FixedAllocator.constructor: requires `count >= 1` and a `size` at most 2^64 - 8. An empty block or a wrapped chunk size would make every block degenerate.
- Allocators.FixedAllocator.Free: requires that `ptr` is a chunk in use. The source does not validate its argument, and freeing anything else corrupts the free list.
- The `std::size_t` overflow of a block's total byte count (`chunkSize * chunkCount + …`, `blockSize + …`) is not modelled. Only the rounding and the `available` subtraction wrap.
- Transitions.TransitionFactory.Destroy: it calls `allocator.Free`, which `LinearAllocator` does not declare in `Allocators.h`. It is modelled as a no-op that keeps the arena valid.
- The transition subclasses, `Transition.cpp`, `TransitionFactory::GetInstance` and `serializationNames` are not part of this model. `Transition`'s `target` is a state number, not an `ATNState*`.
- Transitions.TransitionFactory.Create: it places transitions through the corrected `Allocators.LinearAllocator.Allocate`. A `sizeof(T)` larger than the block size is therefore answered with null, where the source overruns the block (see Findings).
- Rtti.CharToUInt64: widens a `char` as a signed type, by sign extension. Whether `char` is signed is implementation-defined; where it is unsigned (AArch64 Linux, for one), bytes from 0x80 up would be zero-extended. No class name in the model has such a byte, so no id depends on the choice.
- AnyBox.Decay: `CppType` has no arrays, function types or `volatile`, so the decays of those types are not expressed.
- AnyBox.Holder: in the source, `Derived<T>` exists only for a `T` that derives from `antlr4::RTTI` (Any.h:127). Pointers and built-in types cannot be stored there, and `Any("abc")` does not compile. The model does not restrict the storage type.
- AnyBox.Any.GetDerived: the holder match is modelled as equality of storage types. The source casts with `antlr_cast`, which compares the id `RTTIHash("/Derived", T::kTypeId)` (Any.h:132). That is type identity only when distinct storage types have distinct `kTypeId`s. A subclass that does not declare its own RTTI inherits its base's id, and the source would then accept it as its base.
- ParseTreeWalking.Walk: a tree is either a leaf or a rule node. The source's case of a non-terminal node that is not a `ParserRuleContext` is not modelled. There `enterRule` would dereference a null context.
- TextChunks.New: `TextChunkClass` is declared in `tree/pattern/Chunk.h`, which is not part of this model. Its value is a parameter.
- `what()`'s `std::exception` base and the `Exceptions.cpp` constructor bodies are not part of this model. Storing the message is modelled as forwarding it to the storing class.
- `Exceptions.h` and `Any.h` use a macro spelled `ANTLR_IMPLEMENT_RTTI`, while `RTTI.h` defines `IMPLEMENT_RTTI`. The model takes them to be the same declaration.
- `RTTIHash` collisions are not ruled out in general. `Rtti.CastSucceedsIffAncestor` assumes distinct ids. For the exception classes, the ids are evaluated and shown distinct (`Exceptions.TypeIdsDistinct`).
- Any: `operator U()`, the destructor and the `delete` of a replaced holder are not modelled, because memory is not reclaimed in the model. Values of every C++ type share one type parameter, tagged with their `CppType`.
- The walk's listener and its `ParserRuleContext` calls are modelled as events in a trace. The `IterativeParseTreeWalker` that `ParseTreeWalker::DEFAULT` refers to is not part of this model.

## Findings

| source | as written | input that shows it | evidently intended | confidence | as-written member | corrected member |
|---|---|---|---|---|---|---|
| runtime/Cpp/runtime/src/Allocators.cpp:71-77 | `FixedAllocator::Purge` frees every block but leaves `chunkHead` unchanged | a pool of two-chunk blocks with one chunk allocated, then `Purge()`: `chunkHead` still points at the second chunk of the freed block, and the next `Allocate()` answers it | reset `chunkHead` to null so that the next allocation obtains a new block | not executed | Allocators.FixedAllocator.PurgeAsWritten | Allocators.FixedAllocator.Purge |
| runtime/Cpp/runtime/src/Allocators.cpp:102-113 | `LinearAllocator::Allocate` adds a new block when `available < size`, then bumps unconditionally | `blockSize` 8 and `Allocate(16)`: the new block has 8 bytes, the 16 answered run past its end, and `available` wraps to 2^64 - 8 | never hand out a region larger than a block (answer null) | not executed | Allocators.LinearAllocator.AllocateAsWrittenOverruns | Allocators.LinearAllocator.Allocate |
| runtime/Cpp/runtime/src/Allocators.cpp:102-111 | `size = RoundUp(size)` wraps to 0 for the seven largest `size_t` values, and the 0-byte request then always fits | `Allocate(SIZE_MAX)` on an allocator that holds a block, or whose `malloc` succeeds: a non-null pointer to no bytes, and nothing carved | refuse a request larger than a block (answer null) | not executed | Allocators.LinearAllocator.AllocateAsWrittenHugeIsEmpty | Allocators.LinearAllocator.Allocate |
