/**
 * `SerialArena`, restricted to its current block. The ghost field s is the abstract state; every
 * method is proved to take it where `ArenaSpec` says, and to leave live memory alone.
 */
module SerialArenas {

  import opened ArenaSpec
  import opened ArenaMemory
  import opened ArenaOutcomes

  const KCLEANUP_SIZE := 16

  datatype AllocationClient = Default | Array

  class SerialArena {
    const mem: array<int>       // the block, as words of eight bytes
    var ptr: nat                // byte offsets into the block
    var limit: nat
    var cachedBlocks: nat
    var cachedBlockLength: nat
    ghost var s: State

    ghost predicate Valid()
      reads this, mem
    {
      && Stored(mem[..], s)
      && ptr == 8 * s.ptr
      && limit == 8 * s.limit
      && cachedBlocks == 8 * s.dir
      && cachedBlockLength == |s.stacks|
    }

    constructor (words: nat, header: nat)
      requires 1 <= header <= words && 8 * words < SIZE_LIMIT
      ensures Valid() && fresh(mem) && s == Initial(header, words)
      ensures ptr == 8 * header && limit == 8 * words == 8 * mem.Length && cachedBlockLength == 0
      ensures s.live == map[] && s.cached == map[] && s.nodes == []
    {
      mem := new int[words];
      ptr, limit := 8 * header, 8 * words;
      cachedBlocks, cachedBlockLength := 0, 0;
      s := Initial(header, words);
      InitialInv(header, words);
    }

    predicate HasSpace(n: nat)
      requires ptr <= limit
      reads this
    {
      n <= limit - ptr
    }

    method TryAllocateFromCachedBlock(size: nat) returns (ret: nat)
      requires Valid() && size % 8 == 0
      modifies this, mem
      ensures Valid() && LiveKept(old(mem[..]), old(s), mem[..], s)
      ensures if CacheHit(old(s), size)
              then s == Pop(old(s), size) && ret == 8 * Top(old(s).stacks[RequestClass(size)]) && ret > 0
              else s == old(s) && ret == 0
      ensures if Served(old(s), size) then ret % 8 == 0 && TakenFromCache(old(s), size, s, ret / 8)
              else s == old(s) && ret == 0 && mem[..] == old(mem[..])
      ensures ptr == old(ptr) && limit == old(limit)
    {
      hide Inv, Stored, LiveKept, Pop, RequestClass, Served, TakenFromCache;
      CacheHitIsServed(s, size);
      StoredInv(mem[..], s);
      NothingMoved(mem[..], s);
      if size < 16 { return 0; }
      var index := RequestClass(size);
      if index >= cachedBlockLength { return 0; }
      var entry := cachedBlocks / 8 + index;
      HeadOfList(mem[..], s, index);
      if mem[entry] == 0 {
        return 0;
      }
      PopStored(mem[..], s, size);
      PopFields(s, size);
      PopIsTaken(s, size);
      ret := mem[entry];
      mem[entry] := mem[ret / 8];
      s := Pop(s, size);
    }

    method AllocateFromExisting(n: nat) returns (ret: nat)
      requires Valid() && n % 8 == 0 && HasSpace(n)
      modifies this
      ensures Valid() && LiveKept(old(mem[..]), old(s), mem[..], s)
      ensures s == Bump(old(s), n / 8) && ret == 8 * old(s).ptr
      ensures ret == old(ptr) && ptr == old(ptr) + n && limit == old(limit)
      ensures TakenFromBlock(old(s), n / 8, s, ret / 8)
    {
      BumpIsTaken(s, n / 8);
      hide TakenFromBlock;
      hide EndsOwned, LiveOwned, CachedOwned, DirectoryOwned, Stacked, HeadsStored, LinksStored, NodesStored;
      BumpStored(mem[..], s, n / 8);
      ret := ptr;
      ptr := ptr + n;
      s := Bump(s, n / 8);
    }

    /** Returns the address of n bytes; 0 where the source falls back to another block. */
    method AllocateAligned(client: AllocationClient, n: nat) returns (ret: nat)
      requires Valid() && n % 8 == 0
      modifies this, mem
      ensures Valid() && LiveKept(old(mem[..]), old(s), mem[..], s)
      ensures s == Allocate(old(s), client == Array, n).0 && ret == 8 * Allocate(old(s), client == Array, n).1
      ensures Allocated(old(s), client == Array, n, s, ret / 8)
      ensures if client == Array && Served(old(s), n) then ret > 0 && ptr == old(ptr)
              else if n <= old(limit) - old(ptr) then ret == old(ptr) && ptr == old(ptr) + n
              else ret == 0 && ptr == old(ptr)
      ensures limit == old(limit)
    {
      hide Inv, Stored, LiveKept, Pop, Bump, CacheHit, Allocated, Served, TakenFromCache, TakenFromBlock;
      StoredInv(mem[..], s);
      NothingMoved(mem[..], s);
      AllocateIsAllocated(s, client == Array, n);
      CacheHitIsServed(s, n);
      if client == Array {
        ret := TryAllocateFromCachedBlock(n);
        if ret != 0 { return; }
      }
      if !HasSpace(n) {
        return 0;
      }
      ret := AllocateFromExisting(n);
    }

    /** Takes back the first size bytes of a live region, which the client must not use again. */
    method ReturnArrayMemory(p: nat, size: nat)
      requires Valid() && p % 8 == 0 && CanReturn(s, p / 8, size)
      modifies this, mem
      ensures Valid() && LiveKept(old(mem[..]), old(s), mem[..], s)
      ensures s == Return(old(s), p / 8, size)
      ensures Returned(old(s), p / 8, size, s)
      ensures ptr == old(ptr) && limit == old(limit)
    {
      hide Inv, Stored, LiveKept, Push, Grow, ReturnClass, Returned;
      StoredInv(mem[..], s);
      ReturnIsReturned(s, p / 8, size);
      var index := ReturnClass(size);
      if index >= cachedBlockLength {
        MakeDirectory(p, size);
        return;
      }
      ReturnPlaces(s, p / 8, size);
      PushStored(mem[..], s, p / 8, size);
      PushFields(s, p / 8, size);
      var entry := cachedBlocks / 8 + index;
      mem[p / 8] := mem[entry];
      mem[entry] := p;
      s := Push(s, p / 8, size);
    }

    /** The branch of ReturnArrayMemory that turns the returned block into the directory. */
    method MakeDirectory(p: nat, size: nat)
      requires Valid() && p % 8 == 0 && CanReturn(s, p / 8, size) && Grows(s, size)
      modifies this, mem
      ensures Valid() && LiveKept(old(mem[..]), old(s), mem[..], s)
      ensures s == Grow(old(s), p / 8, size)
      ensures ptr == old(ptr) && limit == old(limit)
    {
      hide Inv, Stored, LiveKept, Grow, Grows, CanReturn, Copied;
      ghost var m, q := mem[..], p / 8;
      var newList, newSize := p / 8, size / 8;
      StoredInv(m, s);
      GrowPlaces(m, s, q, size);
      CopyAndFill(mem, cachedBlocks / 8, cachedBlockLength, newList, newSize);
      GrowStored(m, s, q, size, mem[..]);
      GrowFields(s, q, size);
      cachedBlocks := p;
      cachedBlockLength := if newSize < MAX_DIRECTORY then newSize else MAX_DIRECTORY;
      s := Grow(s, q, size);
    }

    method MaybeAllocateAligned(n: nat) returns (ok: bool, out: nat)
      requires Valid() && n % 8 == 0
      modifies this
      ensures Valid() && LiveKept(old(mem[..]), old(s), mem[..], s)
      ensures ok == ArenaSpec.HasSpace(old(s), n / 8)
      ensures if ok then s == Bump(old(s), n / 8) && out == 8 * old(s).ptr else s == old(s)
      ensures ok <==> n <= old(limit) - old(ptr)
      ensures ok ==> out == old(ptr) && TakenFromBlock(old(s), n / 8, s, out / 8)
      ensures ptr == (if ok then old(ptr) + n else old(ptr)) && limit == old(limit)
    {
      if !HasSpace(n) {
        return false, 0;
      }
      out := AllocateFromExisting(n);
      ok := true;
    }

    /** Also returns the address of a cleanup node, which still holds whatever was there before. */
    method AllocateAlignedWithCleanup(n: nat) returns (ok: bool, ret: nat, node: nat)
      requires Valid() && n % 8 == 0 && n + KCLEANUP_SIZE < SIZE_LIMIT
      modifies this
      ensures Valid() && LiveKept(old(mem[..]), old(s), mem[..], s)
      ensures ok == ArenaSpec.HasSpace(old(s), n / 8 + 2)
      ensures if ok
              then ret == 8 * old(s).ptr && node == 8 * (old(s).limit - 2)
                && s == BumpWithNode(old(s), n / 8, Node(mem[old(s).limit - 2], mem[old(s).limit - 1]))
              else s == old(s)
      ensures ok <==> n + 16 <= old(limit) - old(ptr)
      ensures if ok
              then ret == old(ptr) && ptr == old(ptr) + n && node == limit == old(limit) - 16
                && TakenWithNode(old(s), n / 8, Node(mem[node / 8], mem[node / 8 + 1]), s)
              else ptr == old(ptr) && limit == old(limit)
    {
      hide Inv, Stored, LiveKept, BumpWithNode, TakenWithNode;
      StoredInv(mem[..], s);
      NothingMoved(mem[..], s);
      if !HasSpace(AddSizes(n, KCLEANUP_SIZE)) {
        return false, 0, 0;
      }
      ghost var found := Node(mem[s.limit - 2], mem[s.limit - 1]);
      BumpWithNodeStored(mem[..], s, n / 8, found);
      BumpWithNodeFields(s, n / 8, found);
      BumpWithNodeIsTaken(s, n / 8, found);
      assert NodeMemory(mem[..], s, found) == mem[..];
      ret := ptr;
      ptr := ptr + n;
      limit := limit - KCLEANUP_SIZE;
      node := limit;
      ok := true;
      s := BumpWithNode(s, n / 8, found);
    }

    /** The caller of AllocateAlignedWithCleanup writes to a node, here the k-th since the arena was new. */
    method FillNode(node: nat, ghost k: nat, elem: int, cleanup: int)
      requires Valid() && k < |s.nodes| && node == 8 * (mem.Length - 2 * k - 2)
      modifies this, mem
      ensures Valid() && LiveKept(old(mem[..]), old(s), mem[..], s)
      ensures s == Refilled(old(s), k, Node(elem, cleanup)) && ptr == old(ptr) && limit == old(limit)
      ensures s.nodes[k] == Node(elem, cleanup) && 0 <= node / 8 < mem.Length - 1
      ensures mem[..] == old(mem[..])[node / 8 := elem][node / 8 + 1 := cleanup]
    {
      hide Inv, Stored, LiveKept;
      RefilledStored(mem[..], s, k, Node(elem, cleanup));
      StoredInv(mem[..], s);
      mem[node / 8] := elem;
      mem[node / 8 + 1] := cleanup;
      s := Refilled(s, k, Node(elem, cleanup));
    }

    /** Memory for an object that has a destructor, as `Arena` asks for it when eight-byte alignment is enough. */
    method AllocateObject(size: nat, destructor: int) returns (ok: bool, ret: nat)
      requires Valid() && size + 7 + KCLEANUP_SIZE < SIZE_LIMIT
      modifies this, mem
      ensures Valid() && LiveKept(old(mem[..]), old(s), mem[..], s)
      ensures ok == ArenaSpec.HasSpace(old(s), AlignUpTo8(size) / 8 + 2)
      ensures if ok
              then ret == 8 * old(s).ptr && s == BumpWithNode(old(s), AlignUpTo8(size) / 8, Node(ret, destructor))
              else s == old(s)
      ensures ok <==> (size + 7) / 8 * 8 + 16 <= old(limit) - old(ptr)
      ensures if ok
              then ret == old(ptr) && ptr == old(ptr) + (size + 7) / 8 * 8 && limit == old(limit) - 16
                && mem[limit / 8] == ret && mem[limit / 8 + 1] == destructor
                && TakenWithNode(old(s), (size + 7) / 8, Node(ret, destructor), s)
              else ptr == old(ptr) && limit == old(limit)
    {
      hide Inv, Stored, LiveKept, BumpWithNode, TakenWithNode, AlignUpTo8;
      AlignUpTo8Rounds(size);
      StoredInv(mem[..], s);
      ghost var s0, m0 := s, mem[..];
      var node;
      ok, ret, node := AllocateAlignedWithCleanup(AlignUpTo8(size));
      ghost var t := s;
      if ok {
        NewestNode(m0, s0, AlignUpTo8(size) / 8, Node(m0[s0.limit - 2], m0[s0.limit - 1]), Node(ret, destructor));
        BumpWithNodeIsTaken(s0, AlignUpTo8(size) / 8, Node(ret, destructor));
        FillNode(node, |s0.nodes|, ret, destructor);
        LiveKeptTwice(m0, s0, t, mem[..], s);
      }
    }

    method AddCleanup(elem: int, cleanup: int) returns (ok: bool)
      requires Valid()
      modifies this, mem
      ensures Valid() && LiveKept(old(mem[..]), old(s), mem[..], s)
      ensures ok == ArenaSpec.HasSpace(old(s), 2)
      ensures s == if ok then BumpWithNode(old(s), 0, Node(elem, cleanup)) else old(s)
      ensures ok <==> 16 <= old(limit) - old(ptr)
      ensures ptr == old(ptr)
      ensures if ok
              then limit == old(limit) - 16 && mem[limit / 8] == elem && mem[limit / 8 + 1] == cleanup
                && TakenWithNode(old(s), 0, Node(elem, cleanup), s)
              else limit == old(limit) && mem[..] == old(mem[..])
    {
      hide Inv, Stored, LiveKept, BumpWithNode, TakenWithNode;
      StoredInv(mem[..], s);
      ghost var s0, m0 := s, mem[..];
      var ret, node;
      ok, ret, node := AllocateAlignedWithCleanup(0);
      ghost var t := s;
      if ok {
        NewestNode(m0, s0, 0, Node(m0[s0.limit - 2], m0[s0.limit - 1]), Node(elem, cleanup));
        BumpWithNodeIsTaken(s0, 0, Node(elem, cleanup));
        FillNode(node, |s0.nodes|, elem, cleanup);
        LiveKeptTwice(m0, s0, t, mem[..], s);
      }
    }

    /** A client writes to memory it was given. */
    method ClientWrite(w: nat, v: int)
      requires Valid() && w < mem.Length && s.own[w].Live?
      modifies mem
      ensures Valid() && mem[..] == old(mem[..])[w := v]
    {
      WriteElsewhere(mem[..], s, mem[..][w := v]);
      mem[w] := v;
    }
  }

  /** `std::copy` of length words to another place, and `std::fill` with null up to size words there. */
  method CopyAndFill(mem: array<int>, from: nat, length: nat, to: nat, size: nat)
    requires length <= size && to + size <= mem.Length && from + length <= mem.Length
    requires length == 0 || from + length <= to || to + size <= from
    modifies mem
    ensures Copied(old(mem[..]), from, length, to, size, mem[..])
  {
    var k := 0;
    while k < length
      invariant 0 <= k <= length
      invariant forall w :: to <= w < to + k ==> mem[w] == old(mem[from + (w - to)])
      invariant forall w :: 0 <= w < mem.Length && !(to <= w < to + k) ==> mem[w] == old(mem[w])
    {
      mem[to + k] := mem[from + k];
      k := k + 1;
    }
    while k < size
      invariant length <= k <= size
      invariant forall w :: to <= w < to + k ==>
                  mem[w] == if w < to + length then old(mem[from + (w - to)]) else 0
      invariant forall w :: 0 <= w < mem.Length && !(to <= w < to + k) ==> mem[w] == old(mem[w])
    {
      mem[to + k] := 0;
      k := k + 1;
    }
  }

  lemma StoredInv(m: seq<int>, s: State)
    requires Stored(m, s)
    ensures Inv(s) && |m| == |s.own| && s.ptr <= s.limit <= |m|
  {
  }

  /** Where the newest node is, and what the state is once it is filled. */
  lemma NewestNode(m: seq<int>, s: State, words: nat, found: Node, node: Node)
    requires Inv(s) && HasSpace(s, words + 2) && |m| == |s.own|
    ensures 8 * (s.limit - 2) == 8 * (|m| - 2 * |s.nodes| - 2)
    ensures |BumpWithNode(s, words, found).nodes| == |s.nodes| + 1
    ensures Refilled(BumpWithNode(s, words, found), |s.nodes|, node) == BumpWithNode(s, words, node)
  {
    hide EndsOwned, LiveOwned, CachedOwned, DirectoryOwned, Stacked, BumpWithNode, Refilled;
    RefilledNewest(s, words, found, node);
  }

  /** Memory that is kept by a step that writes nothing, and then by one that moves nothing. */
  lemma LiveKeptTwice(m: seq<int>, s: State, t: State, m': seq<int>, s': State)
    requires LiveKept(m, s, m, t) && LiveKept(m, t, m', s') && s'.own == t.own
    ensures LiveKept(m, s, m', s')
  {
  }

  lemma NothingMoved(m: seq<int>, s: State)
    requires Stored(m, s)
    ensures LiveKept(m, s, m, s)
  {
  }

  lemma ReturnPlaces(s: State, p: nat, size: nat)
    requires Inv(s) && CanReturn(s, p, size) && !Grows(s, size)
    ensures p < |s.own| && s.dir + ReturnClass(size) < |s.own|
  {
    EntryOwner(s, ReturnClass(size));
    LiveStart(s, p);
  }

  /** The first entry of a free list is null exactly if the list is empty. */
  lemma HeadOfList(m: seq<int>, s: State, i: nat)
    requires Stored(m, s) && i < |s.stacks|
    ensures s.dir + i < |m|
    ensures if s.stacks[i] == [] then m[s.dir + i] == 0
            else m[s.dir + i] == 8 * Top(s.stacks[i]) && 0 < Top(s.stacks[i]) < |m|
  {
    assert PointsTo(m, s.dir + i, s.stacks[i]);
    if s.stacks[i] != [] {
      BlockOwner(s, i, |s.stacks[i]| - 1);
      assert s.own[0] == Header;
    }
  }

  /** A block that makes the directory grow lies elsewhere, and it is big enough. */
  lemma GrowPlaces(m: seq<int>, s: State, p: nat, size: nat)
    requires Stored(m, s) && CanReturn(s, p, size) && Grows(s, size)
    ensures |s.stacks| <= size / 8 && p + size / 8 <= |m| && s.dir + |s.stacks| <= |m|
    ensures |s.stacks| == 0 || s.dir + |s.stacks| <= p || p + size / 8 <= s.dir
  {
    LiveStart(s, p);
    GrowthFits(s, size);
    DirectoryIsElsewhere(s, p);
    DirectoryIsInside(s);
  }

  lemma DirectoryIsElsewhere(s: State, p: nat)
    requires Inv(s) && p in s.live
    ensures |s.stacks| == 0 || s.dir + |s.stacks| <= p || p + s.live[p] <= s.dir
  {
    if |s.stacks| > 0 && s.dir + |s.stacks| > p && p + s.live[p] > s.dir {
      var w := if p < s.dir then s.dir else p;
      EntryOwner(s, w - s.dir);
      LiveWords(s, p, w);
    }
  }

  lemma DirectoryIsInside(s: State)
    requires Inv(s)
    ensures s.dir + |s.stacks| <= |s.own|
  {
  }
}
