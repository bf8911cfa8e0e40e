# Verified models of the arena allocator, the hypercomplex numbers and their stream formats

This project models three of the headers that the repository builds on, and proves properties of the
models with Dafny. `dafny verify dfyconfig.toml` checks everything.

**The arena allocator** (`arena_impl.h` of Protocol Buffers).

- `SerialArena.dfy` is the class: a block of memory as an array of eight-byte words, the two ends `ptr` and
  `limit`, and the free lists of returned arrays, whose heads and links are machine words inside the very memory
  that was returned. Every method is proved to do what `ArenaSpec.dfy` says and to leave other clients' memory alone.
- `ArenaSpec.dfy` is the same allocator as a pure state machine in which each word has one owner. Its
  invariant says which words are live, cached, in the directory of free lists, in cleanup nodes, or lost; every
  operation keeps it. `ArenaOutcomes.dfy` says what each operation is to do without the functions that compute it, and
  proves it of those. `ArenaMemory.dfy` ties the state machine to the words that are stored.
- `ArenaRuns.dfy` draws the conclusions for all sequences of operations: separation, conservation, movement of
  the two ends, and that the directory is moved at most three times. `ArenaReuse.dfy` shows the cache to be a stack.
- `ThreadCaches.dfy` models how threads find their serial arena (`ThreadSafeArena`), one step per load or
  store, and proves that no interleaving gives two threads the same one. `ThreadLookups.dfy` proves what lookups do
  find: the cached serial arena, the hinted one, or one from the fallback, which is then cached.

**Quaternions and octonions** (`quaternion.hpp` and `octonion.hpp` of Boost.Math), over exact reals.

- `ComplexNumbers.dfy`, `Quaternions.dfy` and `Octonions.dfy` climb the Cayley-Dickson construction: the product
  of each level, written by components as in the source, is shown to be the doubling of the product below it, and
  laws are proved from those of the level below. `Alternativity.dfy` says how far octonions are from being associative.
- `Division.dfy`, `Powers.dfy`, `QuaternionPowers.dfy` and `Magnitudes.dfy` cover division, integer powers and
  `abs`; `QuaternionObjects.dfy` and `OctonionObjects.dfy` hold the classes with the operators that update an
  object in place, and `pow`. `Valarrays.dfy` has the `valarray` operations they need.
- `MixedOperands.dfy` deals with octonion operators that take a quaternion, a complex number or a scalar. Four of
  them do not compute what the comment at `octonion.hpp:290-294` promises:
  `*=` and the generic `/=` by a quaternion read its second component three times; the generic `/=` by a complex
  number has two wrong signs; `/=` by a scalar of the `float`, `double` and `long double` specialisations divides
  only four components. The model does what the code does; for each operator one lemma gives operands on which it is
  wrong, and another states on exactly which operands the result is right all the same.

**Stream formats** of both kinds of numbers, on lexemes.

- `Lexemes.dfy` is the input stream with its flags, `putback`, and the extraction of numbers and complex numbers.
  `QuaternionIO.dfy` models the reader of quaternions branch by branch, and proves that it accepts exactly the
  documented formats and undoes the printer.
- `OctonionFormats.dfy` gives the formats of octonions, for which the source has only the branches of its reader (the
  comment at `octonion.hpp:1707-1708` speaks of choices made to disambiguate), and says what reading does with any
  input. `OctonionGrammar.dfy` proves that every input of these formats is accepted and no other one.
  `OctonionIO.dfy` has the reader, branch by branch on the stream, proved to do just that, and the printer.
- Two things a caller may not expect of the octonion reader: a plain number is accepted after `((a),` but not after
  `((a,b),` (`PlainAfterPairFails`); and two tests of the stream are missing at `octonion.hpp:2118-2138`, so that the
  unfinished input `((a),(e,(g,h))` sets failbit and overwrites the target all the same
  (`StoresAndFailsExactlyUnfinished`).
- Where the comment at `quaternion.hpp:638-641` lists the formats it does not say that a number at the very end of
  the input ends the extraction without a value and without failure. The code does that for `1`, but also for `(1`
  and `((1,2),3`; `EndsExactlyAfterNumbers` says for which inputs.

In the models a client returns only memory it holds, and at most once, and resetting an arena does not overlap with
other uses of it, as the source demands of its callers. Octonion and quaternion divisors are nonzero, except where a
nonzero one makes the source divide by zero.

## Model

| member | source | states |
|---|---|---|
| `ArenaSpec.AlignUpTo8RoundsUp` | 3rdParty/include/google/protobuf/arena_impl.h:65-68 | Of a 64-bit size, the result is a multiple of 8; it is at least n exactly if n <= 2^64 - 8 (beyond that it wraps around), and n itself exactly if n is aligned |
| `ArenaSpec.AlignUpTo8IsLeast` | 3rdParty/include/google/protobuf/arena_impl.h:65-68 | No multiple of 8 from n on is smaller |
| `ArenaSpec.ReturnedFitsClass` | 3rdParty/include/google/protobuf/arena_impl.h:292-295 | A block is put into the class whose range its whole words are in |
| `ArenaSpec.ReturnClassIsRange` | 3rdParty/include/google/protobuf/arena_impl.h:292-295 | A block of size bytes goes to class c exactly if 2^(c+4) <= size < 2^(c+5) |
| `ArenaSpec.RequestClassIsLeast` | 3rdParty/include/google/protobuf/arena_impl.h:230-235 | A request looks into the least class whose blocks all have n bytes: class c exactly if 2^(c+3) < n <= 2^(c+4) |
| `ArenaSpec.PowerIsFoundAgain` | 3rdParty/include/google/protobuf/arena_impl.h:230-295 | A block of 2^(c+4) bytes goes to the class in which a request for as many bytes looks |
| `ArenaSpec.RequestFitsBlock` | 3rdParty/include/google/protobuf/arena_impl.h:230-235 | Rounding up on request meets rounding down on return: every block of the class a request of n >= 16 bytes looks into has at least n and fewer than 4n bytes |
| `ArenaSpec.ClassOfReturned` | 3rdParty/include/google/protobuf/arena_impl.h:298-302 | A returned block has more words than the number of its class, which is below 60 |
| `ArenaSpec.GrowthFits` | 3rdParty/include/google/protobuf/arena_impl.h:297-311 | Whenever the directory grows, the block holds all of the old directory and more, the counted length strictly grows and stays within 64, and another block of the same size will be cached |
| `ArenaSpec.TopIsCached` | 3rdParty/include/google/protobuf/arena_impl.h:229-245 | In every state with the invariant, a cache hit takes a cached block of the right class with n <= bytes < 4n |
| `ArenaSpec.InitialInv` | 3rdParty/include/google/protobuf/arena_impl.h:424-425 | A fresh block has the invariant |
| `ArenaSpec.BumpKeepsInv` | 3rdParty/include/google/protobuf/arena_impl.h:272-279 | Taking words after ptr keeps owners, regions, directory and free lists consistent |
| `ArenaSpec.PopKeepsInv` | 3rdParty/include/google/protobuf/arena_impl.h:229-245 | Serving a request from a free list does; what the request does not need of the block becomes waste |
| `ArenaSpec.PushKeepsInv` | 3rdParty/include/google/protobuf/arena_impl.h:316-319 | Returning a block to a free list does |
| `ArenaSpec.GrowKeepsInv` | 3rdParty/include/google/protobuf/arena_impl.h:297-313 | Turning a returned block into the directory does; the old directory is abandoned |
| `ArenaSpec.BumpWithNodeKeepsInv` | 3rdParty/include/google/protobuf/arena_impl.h:345-355 | Taking words at one end and a cleanup node at the other does |
| `ArenaSpec.SpaceTestIsRight` | 3rdParty/include/google/protobuf/arena_impl.h:338 | The test that adds the size of a node as a size_t is right exactly if the sum does not wrap around, or wraps to eight when nothing is left |
| `ArenaSpec.SpaceTestCanFail` | 3rdParty/include/google/protobuf/arena_impl.h:338 | For n = 2^64 - 16 it passes although there is no room |
| `ArenaOutcomes.CacheHitIsServed` | 3rdParty/include/google/protobuf/arena_impl.h:229-237 | The cache serves a request exactly if the list of that class exists and has a block |
| `ArenaOutcomes.AllocateIsAllocated` | 3rdParty/include/google/protobuf/arena_impl.h:254-279 | From the cache comes the block on top of that list; else, if n bytes are left, the old ptr, which advances by n; else nothing. The region given is new, has n bytes, and nothing else changes |
| `ArenaOutcomes.AllocatedCanBeReturned` | 3rdParty/include/google/protobuf/arena_impl.h:254-290 | What was given may be returned with any size from 16 up to the n bytes asked for, and with no other |
| `ArenaOutcomes.ReturnIsReturned` | 3rdParty/include/google/protobuf/arena_impl.h:282-319 | If the class of the block has a list, the block goes on top of it and the directory stays; else, and only then, the block is the new directory, with min(64, size / 8) lists, the old ones as they were and the others empty, and the old directory is abandoned |
| `ArenaOutcomes.BumpWithNodeIsTaken` | 3rdParty/include/google/protobuf/arena_impl.h:345-355 | Words at the old ptr, 16 bytes less limit, and the node in front of the others |
| `ArenaMemory.WriteElsewhere` | 3rdParty/include/google/protobuf/arena_impl.h:420-425 | Lists and nodes survive any write to words that are neither the directory, nor the first of a cached block, nor cleanup nodes |
| `ArenaMemory.FreeListEnds` | 3rdParty/include/google/protobuf/arena_impl.h:413-425 | Following the links that lie in returned memory from a directory entry visits the blocks of that class, the one returned last first, and then reaches null |
| `ArenaMemory.FreeListIsAcyclic` | 3rdParty/include/google/protobuf/arena_impl.h:413-425 | Following them never comes to the same place twice |
| `ArenaMemory.BumpStored` | 3rdParty/include/google/protobuf/arena_impl.h:272-279 | Bumping ptr leaves stored lists and nodes, and live memory, as they were |
| `ArenaMemory.PopStored` | 3rdParty/include/google/protobuf/arena_impl.h:236-244 | Writing the second block's address over the head realises the pop, and changes no live memory |
| `ArenaMemory.PushStored` | 3rdParty/include/google/protobuf/arena_impl.h:316-319 | Linking the block before the head realises the push, and changes no memory that stays live |
| `ArenaMemory.GrowStored` | 3rdParty/include/google/protobuf/arena_impl.h:301-313 | Copying the heads into the block and filling the rest with null realises the growth: every existing list is where it was, the new ones are empty, all nodes are still stored, and no memory that stays live changes |
| `ArenaMemory.NodeStored` | 3rdParty/include/google/protobuf/arena_impl.h:358-363 | Writing a node below limit stores it in front of the others, which are not overwritten |
| `ArenaMemory.RefilledStored` | 3rdParty/include/google/protobuf/arena_impl.h:361-362 | Writing the two words of any node stores that node with the new contents, and all else as before |
| `ArenaMemory.BumpWithNodeStored` | 3rdParty/include/google/protobuf/arena_impl.h:345-355 | The same together with words taken at the other end |
| `SerialArenas.SerialArena.constructor` | 3rdParty/include/google/protobuf/arena_impl.h:405-425 | A new arena is valid, empty and has no directory; ptr is after the header and limit at the end |
| `SerialArenas.SerialArena.TryAllocateFromCachedBlock` | 3rdParty/include/google/protobuf/arena_impl.h:229-245 | Pops the block returned last of the request's class if there is one; otherwise nothing changes and null is returned; ptr and limit stay where they are |
| `SerialArenas.SerialArena.AllocateFromExisting` | 3rdParty/include/google/protobuf/arena_impl.h:272-279 | Returns the old ptr and takes the words after it |
| `SerialArenas.SerialArena.AllocateAligned` | 3rdParty/include/google/protobuf/arena_impl.h:254-269 | For arrays the cache comes first; then, exactly if n bytes are left, the old ptr is returned and advances by n; otherwise nothing changes |
| `SerialArenas.SerialArena.ReturnArrayMemory` | 3rdParty/include/google/protobuf/arena_impl.h:282-323 | Pushes the block if its class has a list, and makes it the directory exactly if not; no other live memory changes, and ptr and limit stay where they are |
| `SerialArenas.SerialArena.MakeDirectory` | 3rdParty/include/google/protobuf/arena_impl.h:297-314 | The growth branch, with its copy and fill inside the returned block |
| `SerialArenas.SerialArena.MaybeAllocateAligned` | 3rdParty/include/google/protobuf/arena_impl.h:327-333 | Succeeds exactly if the words fit, without looking into the cache |
| `SerialArenas.SerialArena.AllocateAlignedWithCleanup` | 3rdParty/include/google/protobuf/arena_impl.h:335-355 | Succeeds exactly if words and a node fit; the words come from ptr, the node from limit |
| `SerialArenas.SerialArena.AddCleanup` | 3rdParty/include/google/protobuf/arena_impl.h:358-363 | Registers the node in front of those registered before |
| `SerialArenas.SerialArena.FillNode` | 3rdParty/include/google/protobuf/arena_impl.h:358-363 | Writing to a node, the newest or any other, changes that node and nothing else |
| `SerialArenas.SerialArena.AllocateObject` | 3rdParty/include/google/protobuf/arena.h:598-602 | Memory for an object with a destructor: the aligned size at ptr, and a node with the object and its destructor in front of the others; exactly if both fit |
| `SerialArenas.SerialArena.ClientWrite` | 3rdParty/include/google/protobuf/arena_impl.h:282-323 | Whatever clients write into memory they hold, the arena stays valid in the same abstract state |
| `SerialArenas.CopyAndFill` | 3rdParty/include/google/protobuf/arena_impl.h:304-306 | std::copy and std::fill: the first words are the old ones, the rest null, and nothing outside changes |
| `SerialArenas.HeadOfList` | 3rdParty/include/google/protobuf/arena_impl.h:236-237 | A directory entry is null exactly if its list is empty, and otherwise points to the block returned last |
| `ArenaRuns.StepOutcome` | 3rdParty/include/google/protobuf/arena_impl.h:254-363 | Every step of a run has the outcome its operation is to have |
| `ArenaRuns.StepKeepsInv` | 3rdParty/include/google/protobuf/arena_impl.h:254-363 | Every legal operation keeps the invariant |
| `ArenaRuns.RunKeepsInv` | 3rdParty/include/google/protobuf/arena_impl.h:254-363 | So does every sequence of legal operations |
| `ArenaRuns.RegionsAreSeparate` | 3rdParty/include/google/protobuf/arena_impl.h:229-363 | After any run, live regions, cached blocks, the directory and the cleanup nodes are disjoint, lie between the header and the end of the block, and below ptr except for the nodes |
| `ArenaRuns.WordsAreAccountedFor` | 3rdParty/include/google/protobuf/arena_impl.h:254-323 | After any run, a word between the header and ptr is in exactly one live region, cached block or the directory, unless it is an abandoned directory or rounding waste, and then it is in none |
| `ArenaRuns.RunMovesInward` | 3rdParty/include/google/protobuf/arena_impl.h:224-363 | Over any run ptr never goes down, limit never up, they do not cross, and nodes once registered stay as they were |
| `ArenaRuns.GrowthUsesOneUp` | 3rdParty/include/google/protobuf/arena_impl.h:297-311 | A growth brings the directory from nothing to at least 2 entries, from 2 to at least 8, or from 8 to the final 64 |
| `ArenaRuns.GrowthsAreLimited` | 3rdParty/include/google/protobuf/arena_impl.h:297-311 | The growths of a run plus those still possible are never more than were possible at its start |
| `ArenaRuns.AtMostThreeGrowths` | 3rdParty/include/google/protobuf/arena_impl.h:297-311 | A block's directory is moved at most three times, however long the run |
| `ArenaRuns.LossIsLimited` | 3rdParty/include/google/protobuf/arena_impl.h:301-311 | What directories a run abandons, and what later ones still can, is never more than could be abandoned at its start |
| `ArenaRuns.AtMostSeventyWordsAbandoned` | 3rdParty/include/google/protobuf/arena_impl.h:301-311 | However long the run, at most 70 words of a block are lost to abandoned directories: 7 from one shorter than 8, and 63 from one shorter than 64 |
| `ArenaReuse.GiveBackAllPushes` | 3rdParty/include/google/protobuf/arena_impl.h:316-319 | Returning regions of one class appends them to that free list and moves nothing else |
| `ArenaReuse.TakeManyPops` | 3rdParty/include/google/protobuf/arena_impl.h:236-244 | As many array allocations as a free list has blocks take them from its top, and move neither ptr nor limit |
| `ArenaReuse.LastReturnedFirstReused` | 3rdParty/include/google/protobuf/arena_impl.h:229-323 | Blocks of 2^(c+4) to 2^(c+5)-1 bytes that were returned to an existing list are handed out again, in reverse order, to requests for more than 2^(c+3) and at most 2^(c+4) bytes, after which the free lists, ptr and limit are as before |
| `ThreadCaches.NextKeepsInv` | 3rdParty/include/google/protobuf/arena_impl.h:557-592 | Every single load or store of a lookup, of caching, of a reset, of the fallback, keeps: ids in use differ, hints belong to their arena, caches with a current id hold the thread's own serial arena |
| `ThreadCaches.RunKeepsInv` | 3rdParty/include/google/protobuf/arena_impl.h:557-592 | So does every interleaving |
| `ThreadCaches.LookupGivesOwnSerial` | 3rdParty/include/google/protobuf/arena_impl.h:567-592 | In every interleaving, a lookup gives a thread a serial arena that it owns and that is in the list of this arena's present lifecycle |
| `ThreadCaches.NoSharedSerial` | 3rdParty/include/google/protobuf/arena_impl.h:567-592 | In every interleaving, threads that are given the same serial arena within one lifecycle of the arena, at the same time or at different times, are the same thread |
| `ThreadCaches.OwnerCheckIsSafe` | 3rdParty/include/google/protobuf/arena_impl.h:573-574 | The owner of a hinted serial arena is never read after that serial arena is gone |
| `ThreadLookups.LookupsAreNeverStuck` | 3rdParty/include/google/protobuf/arena_impl.h:557-593 | In every interleaving, a thread in the middle of a lookup or of caching can take its next step |
| `ThreadLookups.CachedIsFound` | 3rdParty/include/google/protobuf/arena_impl.h:581-592 | If a thread has cached x for the present lifecycle of an arena, then after any run in which it caches nothing else and the arena is not reset, its next lookup there gives x in its first step |
| `ThreadLookups.HintDecides` | 3rdParty/include/google/protobuf/arena_impl.h:567-579 | If the ids differ, a hint that the thread owns gives that serial arena, and only a null hint or one of another owner leads to the fallback, whatever others do meanwhile |
| `ThreadLookups.FallbackGivesOwn` | 3rdParty/include/google/protobuf/arena_impl.h:593 | The fallback gives a thread the serial arena it has in this arena, or else a new one of its own |
| `ThreadLookups.FallbackIsCached` | 3rdParty/include/google/protobuf/arena_impl.h:557-565 | After the fallback, three stores later and whatever others do meanwhile, the thread holds x, its cache has the id and x, and the hint is x |
| `ThreadLookups.ResetForgets` | 3rdParty/include/google/protobuf/arena_impl.h:527-538 | After a reset the arena has no serial arena, no hint, and an id greater than all others, which no cache has |
| `ThreadLookups.NewArenaStartsAfresh` | 3rdParty/include/google/protobuf/arena_impl.h:527-538 | A new arena has no hint, and an id greater than all others, which no cache has |
| `ThreadLookups.NewThreadStartsAfresh` | 3rdParty/include/google/protobuf/arena_impl.h:617-620 | The cache of a new thread matches no arena |
| `ThreadLookups.LookupsBeginAgain` | 3rdParty/include/google/protobuf/arena_impl.h:581-587 | Done or having given up, a thread can look up any arena, which begins with comparing ids |
| `ThreadCaches.LookupsAgree` | 3rdParty/include/google/protobuf/arena_impl.h:567-592 | A thread's lookups in one arena agree as long as the arena's id does not change |
| `Quaternions.MulByHalves` | 3rdParty/include/boost/math/quaternion.hpp:383-394 | The four-component product is the Cayley-Dickson doubling of the complex product, on the complex parts of lines 168-176 |
| `Quaternions.ConjOfMul` | 3rdParty/include/boost/math/quaternion.hpp:953-960 | Conjugation reverses products |
| `Quaternions.MulAssociates` | 3rdParty/include/boost/math/quaternion.hpp:383-394 | The product is associative |
| `Quaternions.MulConj` | 3rdParty/include/boost/math/quaternion.hpp:946-950 | q times its conjugate, in either order, is the norm |
| `Quaternions.NormOfMul` | 3rdParty/include/boost/math/quaternion.hpp:946-950 | The norm is multiplicative (four-square identity) |
| `QuaternionPowers.DivisionSolves` | 3rdParty/include/boost/math/quaternion.hpp:408-420 | x / y is the one and only z with z y = x |
| `QuaternionPowers.NumeratorsAreProduct` | 3rdParty/include/boost/math/quaternion.hpp:416-417 | The four sums before division are x times the conjugate of the divisor |
| `QuaternionPowers.PowerOfSum` | 3rdParty/include/boost/math/quaternion.hpp:1155-1186 | q^(m+n) = q^m q^n for m, n >= 0 |
| `QuaternionPowers.IntPowerOfSum` | 3rdParty/include/boost/math/quaternion.hpp:1155-1186 | q^(m+n) = q^m q^n for all integers and q nonzero |
| `QuaternionPowers.NormOfIntPower` | 3rdParty/include/boost/math/quaternion.hpp:1155-1186 | norm(q^n) = norm(q)^n for all integers n |
| `QuaternionObjects.Quaternion.Swap` | 3rdParty/include/boost/math/quaternion.hpp:178-189 | Exchanges the values, also of an object with itself |
| `QuaternionObjects.Quaternion.MulAssign` | 3rdParty/include/boost/math/quaternion.hpp:383-394 | The new value is the product of the old ones, also for q *= q |
| `QuaternionObjects.Quaternion.DivAssign` | 3rdParty/include/boost/math/quaternion.hpp:408-420 | The new value is the quotient of the old ones, also for q /= q |
| `QuaternionObjects.Pow` | 3rdParty/include/boost/math/quaternion.hpp:1155-1186 | Exponentiation by squaring terminates and gives the n-fold product, for n < 0 the (-n)-fold product of the inverse |
| `Octonions.MulByHalves` | 3rdParty/include/boost/math/octonion.hpp:503-534 | With x = (p,q) and y = (r,s), the halves of the eight-component product are pr - conj(s)q and sp + q conj(r) by the quaternion product; the halves are those of lines 94-102 |
| `Octonions.OfQuatIsHomomorphism` | 3rdParty/include/boost/math/octonion.hpp:503-534 | On quaternions the octonion product, scaling, conjugate and norm are those of quaternions |
| `Octonions.MulOverAdd` | 3rdParty/include/boost/math/octonion.hpp:503-534 | The product is distributive |
| `Octonions.ConjOfMul` | 3rdParty/include/boost/math/octonion.hpp:3982-3993 | Conjugation reverses products |
| `Octonions.ConjTimesMul` | 3rdParty/include/boost/math/octonion.hpp:503-534 | conj(x)(xy) = norm(x) y although the product does not associate |
| `Octonions.MulTimesConj` | 3rdParty/include/boost/math/octonion.hpp:503-534 | (xy)conj(y) = norm(y) x |
| `Octonions.NormOfMul` | 3rdParty/include/boost/math/octonion.hpp:3975-3979 | The Cayley norm is multiplicative (eight-square identity) |
| `Octonions.NormIsPositive` | 3rdParty/include/boost/math/octonion.hpp:3975-3979 | The norm is never negative and vanishes only at zero |
| `Octonions.NoZeroDivisors` | 3rdParty/include/boost/math/octonion.hpp:503-534 | A product is zero only if a factor is |
| `Alternativity.Square` | 3rdParty/include/boost/math/octonion.hpp:503-534 | x x = 2 re(x) x - norm(x) |
| `Alternativity.LeftAlternative` | 3rdParty/include/boost/math/octonion.hpp:503-534 | (xx)y = x(xy) |
| `Alternativity.RightAlternative` | 3rdParty/include/boost/math/octonion.hpp:503-534 | (yx)x = y(xx) |
| `Alternativity.AssociatorAlternates` | 3rdParty/include/boost/math/octonion.hpp:503-534 | Exchanging neighbouring operands negates (xy)z - x(yz) |
| `Alternativity.Flexible` | 3rdParty/include/boost/math/octonion.hpp:503-534 | (xy)x = x(yx) |
| `Alternativity.LeftMoufang` | 3rdParty/include/boost/math/octonion.hpp:503-534 | ((xy)x)z = x(y(xz)) |
| `Alternativity.MiddleMoufang` | 3rdParty/include/boost/math/octonion.hpp:503-534 | (xy)(zx) = (x(yz))x |
| `Division.MulThenDiv` | 3rdParty/include/boost/math/octonion.hpp:290-294 | (xy)/y = x |
| `Division.DivThenMul` | 3rdParty/include/boost/math/octonion.hpp:290-294 | (x/y)y = x |
| `Division.DivisionSolves` | 3rdParty/include/boost/math/octonion.hpp:621-654 | x / y is the one and only z with z y = x |
| `Division.DivIsMulByInverse` | 3rdParty/include/boost/math/octonion.hpp:290-294 | x / y is x times the inverse of y |
| `Division.NumeratorsAreProduct` | 3rdParty/include/boost/math/octonion.hpp:635-642 | The eight sums before division are x times the conjugate of the divisor |
| `Division.QuaternionNumeratorsAreProduct` | 3rdParty/include/boost/math/octonion.hpp:1097-1104 | The sums of division by a quaternion are the octonion product with the conjugate of the embedded divisor |
| `Division.ScaledDivision` | 3rdParty/include/boost/math/octonion.hpp:1190-1207 | Scaling the divisor by any nonzero k, and the sums by k over its scaled norm, gives the unscaled quotient |
| `Powers.SpanAssociates` | 3rdParty/include/boost/math/octonion.hpp:503-534 | Two octonions in the plane of 1 and x associate with any third |
| `Powers.PowerInSpan` | 3rdParty/include/boost/math/octonion.hpp:4193-4224 | All powers of x lie in that plane |
| `Powers.PowerOfSum` | 3rdParty/include/boost/math/octonion.hpp:4193-4224 | x^(m+n) = x^m x^n for m, n >= 0, so squaring may be used |
| `Powers.IntPowerUp` | 3rdParty/include/boost/math/octonion.hpp:4193-4224 | x^(n+1) = x^n x for all integers n, across zero |
| `Powers.IntPowerOfSum` | 3rdParty/include/boost/math/octonion.hpp:4193-4224 | x^(m+n) = x^m x^n for all integers |
| `Powers.NormOfIntPower` | 3rdParty/include/boost/math/octonion.hpp:4193-4224 | norm(x^n) = norm(x)^n for all integers |
| `OctonionObjects.Octonion.MulAssign` | 3rdParty/include/boost/math/octonion.hpp:503-534 | The new value is the product of the old ones, also for o *= o |
| `OctonionObjects.Octonion.DivAssign` | 3rdParty/include/boost/math/octonion.hpp:621-654 | The new value is the quotient of the old ones, also for o /= o |
| `OctonionObjects.Octonion.MulAssignQuaternion` | 3rdParty/include/boost/math/octonion.hpp:473-500 | What it computes, and that this is the octonion product exactly if the object was zero or the operand's last three components are equal |
| `OctonionObjects.Octonion.DivAssignQuaternion` | 3rdParty/include/boost/math/octonion.hpp:590-618 | What it computes for any operand; for a nonzero one, it yields the quotient exactly if the first two components are not both zero, and the object was zero or the last three components are equal |
| `OctonionObjects.Octonion.DivAssignComplex` | 3rdParty/include/boost/math/octonion.hpp:561-587 | What it computes, and that this is the quotient exactly if the divisor is real or the second and seventh components were zero |
| `OctonionObjects.Octonion.DivAssignScalar` | 3rdParty/include/boost/math/octonion.hpp:938-947 | What it computes, and that this is the quotient exactly if the divisor is 1 or the last four components were zero |
| `OctonionObjects.Octonion.DivAssignQuaternionScaled` | 3rdParty/include/boost/math/octonion.hpp:1079-1121 | Division by a quaternion with overflow protection gives the octonion quotient by the embedded quaternion |
| `OctonionObjects.Octonion.DivAssignScaled` | 3rdParty/include/boost/math/octonion.hpp:1173-1219 | Division by an octonion with overflow protection gives the textbook quotient, also for o /= o |
| `OctonionObjects.Pow` | 3rdParty/include/boost/math/octonion.hpp:4193-4224 | Exponentiation by squaring terminates and gives the n-fold left-to-right product, for n < 0 the (-n)-fold product of the inverse |
| `MixedOperands.QuaternionProductIsProduct` | 3rdParty/include/boost/math/octonion.hpp:481-488 | The eight sums themselves are right: given the four true components they are the octonion product |
| `MixedOperands.MulByQuaternionValue` | 3rdParty/include/boost/math/octonion.hpp:473-500 | What it does compute: the product with the quaternion that has the second component in the last three places |
| `MixedOperands.MulByQuaternionAgrees` | 3rdParty/include/boost/math/octonion.hpp:473-500 | Exactly when the operator, which reads one component three times, agrees with the product |
| `MixedOperands.MulByQuaternionCanFail` | 3rdParty/include/boost/math/octonion.hpp:473-500 | 1 times j comes out wrong |
| `MixedOperands.DenominatorVanishes` | 3rdParty/include/boost/math/octonion.hpp:592-597 | The denominator is zero exactly if the first two components are, so some nonzero divisors divide by zero |
| `MixedOperands.DivByQuaternionAgrees` | 3rdParty/include/boost/math/octonion.hpp:590-618 | For every nonzero divisor: there is a quotient, and the right one, exactly if the first two components are not both zero, and the dividend is zero or the last three components are equal |
| `MixedOperands.DivByQuaternionValue` | 3rdParty/include/boost/math/octonion.hpp:590-618 | What it does compute: the quotient by that quaternion, and nothing if that is zero |
| `MixedOperands.DivByQuaternionCanFail` | 3rdParty/include/boost/math/octonion.hpp:590-618 | 1 / (1 + j) comes out wrong, and 0 / j not at all |
| `MixedOperands.DivByComplexAgrees` | 3rdParty/include/boost/math/octonion.hpp:561-587 | Exactly when the operator, which has two wrong signs, agrees with the quotient |
| `MixedOperands.DivByComplexValue` | 3rdParty/include/boost/math/octonion.hpp:561-587 | What it does compute: the quotient less an error in the first and the last component |
| `MixedOperands.DivByComplexCanFail` | 3rdParty/include/boost/math/octonion.hpp:561-587 | i / i comes out wrong |
| `MixedOperands.DivByScalarAgrees` | 3rdParty/include/boost/math/octonion.hpp:938-947 | Exactly when the operator, which divides four components, agrees with the quotient |
| `MixedOperands.DivByScalarValue` | 3rdParty/include/boost/math/octonion.hpp:938-947 | What it does compute: the first half of the quotient, and the second half of the dividend |
| `MixedOperands.DivByScalarCanFail` | 3rdParty/include/boost/math/octonion.hpp:938-947 | An octonion whose fifth component is 1, divided by 2, comes out wrong |
| `Valarrays.Abs` | 3rdParty/include/boost/math/quaternion.hpp:898-899 | Not negative, and the number or its negative |
| `Valarrays.AbsMax` | 3rdParty/include/boost/math/octonion.hpp:1190 | The greatest absolute value, which is attained |
| `Valarrays.MulScalar` | 3rdParty/include/boost/math/octonion.hpp:1192 | Every element is multiplied in place |
| `Valarrays.MulSelf` | 3rdParty/include/boost/math/octonion.hpp:1205 | Every element is squared in place |
| `Valarrays.SumOf` | 3rdParty/include/boost/math/octonion.hpp:1207 | The sum of the elements |
| `Magnitudes.Sup` | 3rdParty/include/boost/math/quaternion.hpp:895-900 | The greatest absolute value of a component, which is attained; zero only for zero |
| `Magnitudes.AbsQuaternion` | 3rdParty/include/boost/math/quaternion.hpp:911-941 | Scaling, squaring, summing and scaling back gives the square root of the norm |
| `Magnitudes.AbsOctonion` | 3rdParty/include/boost/math/octonion.hpp:3938-3967 | The same for octonions |
| `Magnitudes.MagnitudeOfMul` | 3rdParty/include/boost/math/octonion.hpp:3938-3967 | A number is abs(xy) exactly if it is abs(x) abs(y) |
| `Magnitudes.CauchySchwarz` | 3rdParty/include/boost/math/octonion.hpp:3938-3967 | re(x conj(y)) <= abs(x) abs(y) |
| `Magnitudes.TriangleInequality` | 3rdParty/include/boost/math/octonion.hpp:3938-3967 | abs(x + y) <= abs(x) + abs(y) |
| `Lexemes.LexemeStream.GetComplex` | 3rdParty/include/boost/math/quaternion.hpp:638-641 | Extracting a complex number accepts u, (u) and (u,v) and reports what was left and whether the end was reached |
| `Lexemes.ComplexIsShape` | 3rdParty/include/boost/math/quaternion.hpp:638-641 | What was taken is one of the three ways of writing the result |
| `Lexemes.ShapeIsComplex` | 3rdParty/include/boost/math/quaternion.hpp:638-641 | Each of them is taken, whatever follows |
| `Lexemes.ParseListTail` | 3rdParty/include/boost/math/quaternion.hpp:638-641 | Numbers with commas before them are taken one by one, up to the limit |
| `Lexemes.ParseListShape` | 3rdParty/include/boost/math/quaternion.hpp:638-641 | What was taken is a list of numbers with commas before them, within the limit; an inner parenthesis is only met while it is allowed |
| `QuaternionIO.Read` | 3rdParty/include/boost/math/quaternion.hpp:642-858 | The reader, with all its putback steps: value, remaining input and flags are those of the grammar function; without success the target is untouched |
| `QuaternionIO.ReadComplexes` | 3rdParty/include/boost/math/quaternion.hpp:673-719 | The branch that has seen "((" |
| `QuaternionIO.ReadReals` | 3rdParty/include/boost/math/quaternion.hpp:721-842 | The branch that has read "(a" |
| `QuaternionIO.DocumentedReals` | 3rdParty/include/boost/math/quaternion.hpp:638-641 | The formats a, (a), (a,b), (a,b,c) and (a,b,c,d), written out |
| `QuaternionIO.DocumentedNested` | 3rdParty/include/boost/math/quaternion.hpp:638-641 | The formats (a,(c)), (a,(c,d)) and ((a)) |
| `QuaternionIO.DocumentedSingles` | 3rdParty/include/boost/math/quaternion.hpp:638-641 | The formats ((a),c), ((a),(c)) and ((a),(c,d)) |
| `QuaternionIO.DocumentedPairs` | 3rdParty/include/boost/math/quaternion.hpp:638-641 | The formats ((a,b)), ((a,b),c) and ((a,b),(c)) |
| `QuaternionIO.DocumentedTwoPairs` | 3rdParty/include/boost/math/quaternion.hpp:638-641 | The format ((a,b),(c,d)) |
| `QuaternionIO.MeaningIsFlat` | 3rdParty/include/boost/math/quaternion.hpp:638-641 | The components of what a format means are the numbers in it, each complex number with both its parts, and then zeros |
| `QuaternionIO.AcceptsShape` | 3rdParty/include/boost/math/quaternion.hpp:638-641 | Every documented format is accepted with its meaning, whatever follows; after a bare number something has to |
| `QuaternionIO.AcceptsExactlyTheShapes` | 3rdParty/include/boost/math/quaternion.hpp:638-641 | An input is accepted with a value and a rest exactly if it is a documented format with that meaning followed by that rest |
| `QuaternionIO.EndsExactlyAfterNumbers` | 3rdParty/include/boost/math/quaternion.hpp:642-858 | The extraction neither stores nor fails exactly if the input stops after a number, outside inner parentheses, in one of the formats |
| `QuaternionIO.PrintedShape` | 3rdParty/include/boost/math/quaternion.hpp:861-877 | What is printed is the format (a,b,c,d) of the quaternion |
| `QuaternionIO.ReadUndoesPrint` | 3rdParty/include/boost/math/quaternion.hpp:861-877 | Reading what was printed gives the quaternion back and leaves what follows |
| `QuaternionIO.ReadMany` | 3rdParty/include/boost/math/quaternion.hpp:861-877 | Calling the reader n times on n quaternions printed back to back gives them all back and leaves exactly what follows |
| `OctonionIO.Read` | 3rdParty/include/boost/math/octonion.hpp:1709-3851 | The reader on any input, with all its putback steps, double ones too: value, remaining input and flags are those of the grammar function; the target is untouched without success, but for the one case of a failure that stores |
| `OctonionIO.ReadFirst` | 3rdParty/include/boost/math/octonion.hpp:1760-3109 | The branch that has seen "((" |
| `OctonionIO.ReadList` | 3rdParty/include/boost/math/octonion.hpp:3110-3837 | The branch that has read "(a" |
| `OctonionIO.ReadSecond` | 3rdParty/include/boost/math/octonion.hpp:3144-3534 | The branch that has seen "(a,(", which the source repeats after "((a),(" and "((a,b),(" |
| `OctonionIO.ReadSecondNested` | 3rdParty/include/boost/math/octonion.hpp:2104-2151 | The end of "((a),(e,y)": without a test of the stream between the two parentheses, the last one is found twice when the input ends |
| `OctonionFormats.MeaningIsFlat` | 3rdParty/include/boost/math/octonion.hpp:1709-3851 | The components of what a format means are the numbers in it, each complex number with both parts and each quaternion with all four, and then zeros |
| `OctonionGrammar.AcceptsShape` | 3rdParty/include/boost/math/octonion.hpp:1709-3851 | Numbers, complex numbers, one quaternion, a complex number and a quaternion, two quaternions: each format is accepted with its meaning, whatever follows |
| `OctonionGrammar.AcceptsExactlyTheShapes` | 3rdParty/include/boost/math/octonion.hpp:1709-3851 | Any input is accepted with a value and a rest exactly if it is one of these formats with that meaning followed by that rest |
| `OctonionGrammar.StopsExactlyAfterNumbers` | 3rdParty/include/boost/math/octonion.hpp:1709-3851 | The extraction neither stores nor fails exactly if the input stops after a number, before any closing parenthesis that is due, in one of the formats |
| `OctonionGrammar.StoresAndFailsExactlyUnfinished` | 3rdParty/include/boost/math/octonion.hpp:2104-2151 | A failure gives the target a value exactly if the input is "((a),(e,y)" with y in parentheses |
| `OctonionGrammar.FailureCanStore` | 3rdParty/include/boost/math/octonion.hpp:2104-2151 | The input "((1),(2,(3))" is one |
| `OctonionGrammar.PlainAfterPairFails` | 3rdParty/include/boost/math/octonion.hpp:2543-2820 | "((a,b),c" fails, whatever follows |
| `OctonionGrammar.ComplexIsQuaternion` | 3rdParty/include/boost/math/octonion.hpp:1912-2440 | What is read as a complex number in parentheses would have been read as the same quaternion |
| `OctonionIO.PrintedShape` | 3rdParty/include/boost/math/octonion.hpp:3855-3878 | What is printed is the format of eight numbers |
| `OctonionIO.ReadUndoesPrint` | 3rdParty/include/boost/math/octonion.hpp:3855-3878 | Reading what was printed gives the octonion back and leaves what follows |
| `OctonionIO.ReadMany` | 3rdParty/include/boost/math/octonion.hpp:3855-3878 | Calling the reader n times on n octonions printed back to back gives them all back and leaves exactly what follows |

## Left out

- Floating point: components are exact reals, so rounding, overflow, infinities and NaN are not modelled, nor is the point of scaling, only that it changes no result. `-n` of the smallest `int` in `pow` is not modelled either.
- Division by zero: divisors, and bases of negative powers, are nonzero. Only the faulty `/=` by a quaternion divides by zero on some nonzero divisors (`DenominatorVanishes`); there the model has no quotient and leaves the object as it was, where the source would store NaN or infinities.
- `sqrt` is a parameter that yields the nonnegative root. `exp`, `cos`, `sin`, `spherical` and their kin need real analysis; `l1` and the comparisons would only add easy members.
- The operators of class `octonion` on complex numbers and scalars other than those in the table, and the specialised `*=` by a quaternion and `/=` by a complex number, whose faults are those of the generic ones.
- The sums inside the octonion and quaternion operators are pure functions of the values that the methods read first; a method then assigns all components, as the source does from its local variables.
- Characters within a number, white space and locales: input is a sequence of lexemes. Extraction of a complex number is taken from the C++ standard; a failing extraction from a stream leaves unspecified what it had consumed.
- Lexemes.LexemeStream.Putback: always succeeds.
- `AllocateAlignedFallback`, new blocks, `Reset`, `Free` and `CleanupList` have no bodies in the headers: an arena is one block.
- SerialArenas.SerialArena.AllocateAligned: returns null where the source falls back to a new block, whose code is not part of this model; zero bytes get an address but no region.
- SerialArenas.SerialArena.AllocateAlignedWithCleanup: reports failure where the source falls back to a new block; requires that n + 16 fits a size_t, as sizes of objects do (`SpaceTestIsRight` says what the source's test does beyond that); the node is filled by `FillNode`.
- SerialArenas.SerialArena.AddCleanup: reports failure where the source falls back to a new block.
- SerialArenas.SerialArena.AllocateObject: alignments above eight bytes, which add to the size, are not modelled.
- SerialArenas.SerialArena.ReturnArrayMemory: requires at least 16 bytes, as the source asserts on 64-bit platforms; the early return of 32-bit platforms is not modelled.
- `TaggedAllocationPolicyPtr`, address poisoning, sampling and metrics.
- Memory orderings: loads and stores in `ThreadCaches` are atomic and in program order.
- How lifecycle ids are handed out in batches: each arena, and each reset, simply gets one that was not used before. The low bit of `tag_and_id_`, which marks message-owned arenas, is part of the id, as in the comparison at line 587.
- The list of serial arenas that `GetSerialArenaFallback` searches is a set; it returns the caller's own entry or adds one.
