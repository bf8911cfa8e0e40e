/**
 * What each operation of an arena is to do, said of the state before and the state after without
 * the functions that compute it, and proved of those.
 */
module ArenaOutcomes {

  import opened ArenaSpec

  /** The cache has a block for a request of n bytes. */
  ghost predicate Served(s: State, n: nat) {
    exists c: nat :: Serves(c, n) && c < |s.stacks| && s.stacks[c] != []
  }

  ghost predicate SameDirectory(s: State, t: State) {
    t.dir == s.dir && t.dirWords == s.dirWords
  }

  /** n bytes have come from the cache: the block on top of the stack of the request's class, word p on. */
  ghost predicate TakenFromCache(s: State, n: nat, t: State, p: nat) {
    && SameDirectory(s, t) && t.ptr == s.ptr && t.limit == s.limit && t.nodes == s.nodes
    && p != 0 && p !in s.live && t.live == s.live[p := n / 8]
    && p in s.cached && t.cached == s.cached - {p}
    && forall c: nat :: Serves(c, n) ==>
         c < |s.stacks| && s.stacks[c] != [] && p == s.stacks[c][|s.stacks[c]| - 1]
         && t.stacks == s.stacks[c := s.stacks[c][..|s.stacks[c]| - 1]]
  }

  /** Words have come from the end of the used part of the block. */
  ghost predicate TakenFromBlock(s: State, words: nat, t: State, p: nat) {
    && SameDirectory(s, t) && t.stacks == s.stacks && t.cached == s.cached
    && p == s.ptr && p != 0 && t.ptr == s.ptr + words
    && t.live == (if words == 0 then s.live else s.live[p := words])
    && (words > 0 ==> p !in s.live)
  }

  ghost predicate Allocated(s: State, forArray: bool, n: nat, t: State, p: nat) {
    if forArray && Served(s, n) then TakenFromCache(s, n, t, p)
    else if n / 8 <= s.limit - s.ptr then
      TakenFromBlock(s, n / 8, t, p) && t.limit == s.limit && t.nodes == s.nodes
    else t == s && p == 0
  }

  lemma CacheHitIsServed(s: State, n: nat)
    ensures CacheHit(s, n) <==> Served(s, n)
  {
    hide RequestClass, Serves;
    if n >= 16 {
      RequestClassIsLeast(n, RequestClass(n));
    } else {
      SmallIsNotServed(n);
    }
    forall c: nat | Serves(c, n) && n >= 16
      ensures c == RequestClass(n)
    {
      RequestClassIsLeast(n, c);
    }
  }

  lemma SmallIsNotServed(n: nat)
    requires n < 16
    ensures forall c: nat :: !Serves(c, n)
  {
  }

  lemma BlockIsNotLive(s: State, b: nat)
    requires Inv(s) && b in s.cached
    ensures b != 0 && b !in s.live
  {
    CachedWords(s, b, 0);
    if b in s.live {
      LiveIsOutsideCached(s, b);
    }
  }

  lemma PopIsTaken(s: State, n: nat)
    requires Inv(s) && CacheHit(s, n)
    ensures TakenFromCache(s, n, Pop(s, n), Top(s.stacks[RequestClass(n)]))
  {
    hide Serves, EndsOwned, LiveOwned, CachedOwned, DirectoryOwned, RequestClass;
    var stack := s.stacks[RequestClass(n)];
    TopIsCached(s, n);
    BlockIsNotLive(s, Top(stack));
    forall c: nat | Serves(c, n)
      ensures c == RequestClass(n)
    {
      RequestClassIsLeast(n, c);
    }
  }

  lemma UnusedIsNotLive(s: State)
    requires Inv(s) && s.ptr < s.limit
    ensures s.ptr !in s.live
  {
    if s.ptr in s.live {
      LiveStart(s, s.ptr);
    }
  }

  lemma BumpIsTaken(s: State, words: nat)
    requires Inv(s) && HasSpace(s, words)
    ensures TakenFromBlock(s, words, Bump(s, words), s.ptr)
    ensures Bump(s, words).limit == s.limit && Bump(s, words).nodes == s.nodes
  {
    hide EndsOwned, LiveOwned, CachedOwned, DirectoryOwned, Stacked;
    if words > 0 {
      UnusedIsNotLive(s);
    }
  }

  lemma AllocateIsAllocated(s: State, forArray: bool, n: nat)
    requires Inv(s)
    ensures Allocated(s, forArray, n, Allocate(s, forArray, n).0, Allocate(s, forArray, n).1)
  {
    hide Served, TakenFromCache, TakenFromBlock, RequestClass, Inv;
    CacheHitIsServed(s, n);
    if forArray && CacheHit(s, n) {
      PopIsTaken(s, n);
    } else if HasSpace(s, n / 8) {
      BumpIsTaken(s, n / 8);
    }
  }

  /** What a client may give back of memory it was given, and that it may give it back at all. */
  lemma AllocatedCanBeReturned(s: State, forArray: bool, n: nat, size: nat)
    requires Inv(s) && Allocate(s, forArray, n).1 != 0 && n % 8 == 0 && n > 0
    ensures CanReturn(Allocate(s, forArray, n).0, Allocate(s, forArray, n).1, size) <==> 16 <= size <= n
  {
    hide Served, Allocate, Inv;
    AllocateIsAllocated(s, forArray, n);
  }

  // ----- returns -----

  /** A block goes to its class if there is a list for that class, and becomes the directory otherwise. */
  ghost predicate Returned(s: State, p: nat, size: nat, t: State) {
    && t.ptr == s.ptr && t.limit == s.limit && t.nodes == s.nodes
    && t.live == s.live - {p}
    && forall c: nat :: InClass(size, c) ==>
         if c < |s.stacks| then Listed(s, p, size, c, t) else NewDirectory(s, p, size, t)
  }

  ghost predicate Listed(s: State, p: nat, size: nat, c: nat, t: State)
    requires c < |s.stacks|
  {
    && SameDirectory(s, t)
    && t.stacks == s.stacks[c := s.stacks[c] + [p]]
    && t.cached == s.cached[p := Block(size / 8, c)]
  }

  ghost predicate NewDirectory(s: State, p: nat, size: nat, t: State) {
    && t.dir == p != s.dir && t.dirWords == size / 8
    && t.cached == s.cached
    && |s.stacks| < |t.stacks| == (if size / 8 < 64 then size / 8 else 64)
    && (forall i :: 0 <= i < |t.stacks| ==> t.stacks[i] == if i < |s.stacks| then s.stacks[i] else [])
    && |t.own| == |s.own|
    && (forall w :: s.dir <= w < s.dir + s.dirWords && w < |s.own| ==> t.own[w] == Abandoned)
  }

  lemma PushIsListed(s: State, p: nat, size: nat, c: nat)
    requires Inv(s) && CanReturn(s, p, size) && InClass(size, c) && c < |s.stacks|
    ensures Listed(s, p, size, c, Return(s, p, size))
  {
    hide Inv, InClass, ReturnClass;
    ReturnClassIsRange(size, c);
  }

  lemma DirectoryIsNotLive(s: State, p: nat)
    requires Inv(s) && p in s.live
    ensures p != s.dir
  {
    LiveStart(s, p);
  }

  lemma GrowIsNewDirectory(s: State, p: nat, size: nat, c: nat)
    requires Inv(s) && CanReturn(s, p, size) && InClass(size, c) && c >= |s.stacks|
    ensures NewDirectory(s, p, size, Return(s, p, size))
  {
    hide EndsOwned, LiveOwned, CachedOwned, Stacked, InClass, ReturnClass, Grow;
    ReturnClassIsRange(size, c);
    var t := Grow(s, p, size);
    LiveStart(s, p);
    GrowFields(s, p, size);
    GrowthFits(s, size);
    DirectoryIsNotLive(s, p);
    forall i: nat | i < |t.stacks|
      ensures t.stacks[i] == if i < |s.stacks| then s.stacks[i] else []
    {
      GrowStack(s, p, size, i);
    }
    GrowOwn(s, p, size, 0);
    forall w: nat | s.dir <= w < s.dir + s.dirWords && w < |s.own|
      ensures t.own[w] == Abandoned
    {
      GrowOwn(s, p, size, w);
      LiveWords(s, p, w);
    }
  }

  lemma ReturnIsReturned(s: State, p: nat, size: nat)
    requires Inv(s) && CanReturn(s, p, size)
    ensures Returned(s, p, size, Return(s, p, size))
  {
    hide Inv, InClass, ReturnClass, Listed, NewDirectory;
    forall c: nat | InClass(size, c)
      ensures if c < |s.stacks| then Listed(s, p, size, c, Return(s, p, size))
              else NewDirectory(s, p, size, Return(s, p, size))
    {
      if c < |s.stacks| {
        PushIsListed(s, p, size, c);
      } else {
        GrowIsNewDirectory(s, p, size, c);
      }
    }
  }

  // ----- cleanup nodes -----

  /** Words have come from one end of the block and a node from the other. */
  ghost predicate TakenWithNode(s: State, words: nat, node: Node, t: State) {
    && TakenFromBlock(s, words, t, s.ptr)
    && t.limit == s.limit - 2 && t.nodes == s.nodes + [node]
  }

  lemma BumpWithNodeIsTaken(s: State, words: nat, node: Node)
    requires Inv(s) && HasSpace(s, words + 2)
    ensures TakenWithNode(s, words, node, BumpWithNode(s, words, node))
  {
    hide Inv;
    BumpIsTaken(s, words);
  }
}
