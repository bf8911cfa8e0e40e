/**
 * What a `SerialArena` does with one memory block, as a pure state machine.
 *
 * Memory is counted in words of eight bytes. Every word of the block has exactly one owner at any
 * time, so regions with different owners cannot overlap; the invariant ties the owners to the
 * regions that the allocator and its clients know of.
 */
module ArenaSpec {

  import opened Log2

  datatype Owner =
    | Header              // block header, before the first allocation
    | Unused              // between ptr and limit
    | Live(start: nat)    // handed to a client, who may write to it
    | Cached(start: nat)  // in a free list
    | Directory           // holds the heads of the free lists
    | Abandoned           // held them before the directory grew
    | Waste               // the end of a region that was reused for less
    | Cleanup             // holds cleanup nodes

  datatype Block = Block(words: nat, cls: nat)

  datatype Node = Node(elem: int, cleanup: int)

  /**
   * stacks[i] is the free list of size class i, the block returned last at its end, and nodes
   * are the cleanup nodes, the one registered last at the end. The block's first word has number
   * 0, which is never given away, so that 0 can stand for the null pointer.
   */
  datatype State = State(
    base: nat,
    ptr: nat,
    limit: nat,
    own: seq<Owner>,
    live: map<nat, nat>,
    cached: map<nat, Block>,
    stacks: seq<seq<nat>>,
    dir: nat,
    dirWords: nat,
    nodes: seq<Node>)

  const MAX_DIRECTORY := 64

  const SIZE_LIMIT := 0x1_0000_0000_0000_0000

  // ----- alignment -----

  /** m + n for a size_t */
  function AddSizes(m: nat, n: nat): nat {
    (m + n) % SIZE_LIMIT
  }

  /** (n + 7) & -8 for a size_t n */
  function AlignUpTo8(n: nat): nat {
    AddSizes(n, 7) / 8 * 8
  }

  /** A multiple of eight that is at least n, exactly if a size_t can hold one. */
  lemma AlignUpTo8RoundsUp(n: nat)
    requires n < SIZE_LIMIT
    ensures AlignUpTo8(n) % 8 == 0
    ensures AlignUpTo8(n) >= n <==> n <= SIZE_LIMIT - 8
    ensures AlignUpTo8(n) == n <==> n % 8 == 0
  {
  }

  lemma AlignUpTo8IsLeast(n: nat, m: nat)
    requires n <= m < SIZE_LIMIT && m % 8 == 0
    ensures AlignUpTo8(n) <= m
  {
  }

  lemma AlignUpTo8Rounds(n: nat)
    requires n + 7 < SIZE_LIMIT
    ensures AlignUpTo8(n) == (n + 7) / 8 * 8 && AlignUpTo8(n) / 8 == (n + 7) / 8 && AlignUpTo8(n) <= n + 7
  {
  }

  // ----- size classes -----

  /** The class a returned block of this many bytes goes to: rounded down. */
  function ReturnClass(size: nat): nat
    requires size >= 16
  {
    Log2AtLeast(size, 4);
    Log2Floor(size) - 4
  }

  /** The class an array allocation of n bytes is served from: rounded up. */
  function RequestClass(n: nat): nat
    requires n >= 16
  {
    Log2AtLeast(n - 1, 3);
    Log2Floor(n - 1) - 3
  }

  /** Blocks of class c have this many bytes. */
  ghost predicate InClass(size: nat, c: nat) {
    Pow2(c + 4) <= size < Pow2(c + 5)
  }

  /** Class c is the least of which every block has n bytes. */
  ghost predicate Serves(c: nat, n: nat) {
    n >= 16 && Pow2(c + 3) < n <= Pow2(c + 4)
  }

  ghost predicate FitsClass(block: Block) {
    InClass(8 * block.words, block.cls)
  }

  lemma ReturnClassIsRange(size: nat, c: nat)
    requires size >= 16
    ensures ReturnClass(size) == c <==> InClass(size, c)
  {
    hide Pow2, Log2Floor;
    Log2AtLeast(size, c + 4);
    Log2AtLeast(size, c + 5);
  }

  /** A request looks into a class exactly if all blocks of that class are big enough, and of no smaller class. */
  lemma RequestClassIsLeast(n: nat, c: nat)
    requires n >= 16
    ensures n <= Pow2(c + 4) <==> RequestClass(n) <= c
    ensures RequestClass(n) == c <==> Serves(c, n)
  {
    hide Pow2, Log2Floor;
    Log2AtLeast(n - 1, c + 4);
    Log2AtLeast(n - 1, c + 3);
  }

  /** A block of exactly a power of two is found again by a request for as many bytes. */
  lemma PowerIsFoundAgain(c: nat)
    ensures Pow2(c + 4) >= 16
    ensures ReturnClass(Pow2(c + 4)) == c == RequestClass(Pow2(c + 4))
  {
    hide Pow2;
    Pow2Unrolls(c);
    Pow2Unrolls(c + 1);
    ReturnClassIsRange(Pow2(c + 4), c);
    RequestClassIsLeast(Pow2(c + 4), c);
  }

  lemma ReturnedFitsClass(size: nat)
    requires size >= 16
    ensures FitsClass(Block(size / 8, ReturnClass(size)))
  {
    hide Pow2, Log2Floor;
    Log2Bounds(size);
    var i := ReturnClass(size);
    Pow2Unrolls(i + 1);
    EighthOf(size, Pow2(i + 1));
  }

  /** A block has more words than its class and is of class 59 or less. */
  lemma ClassOfReturned(size: nat)
    requires 16 <= size < SIZE_LIMIT
    ensures ReturnClass(size) < 60 && ReturnClass(size) < size / 8
  {
    hide Pow2, Log2Floor;
    var c := ReturnClass(size);
    Log2Bounds(size);
    Pow2Unrolls(c);
    Pow2Exceeds(c);
    Pow2OfSixtyFour();
    if c >= 60 {
      Pow2Monotone(64, c + 4);
    }
  }

  lemma EighthOf(size: nat, x: nat)
    requires 8 * x <= size < 16 * x
    ensures 8 * x <= 8 * (size / 8) < 16 * x
  {
  }

  /** A block is big enough for every request served from its class, but less than four times as big. */
  lemma RequestFitsBlock(n: nat, block: Block)
    requires n >= 16 && FitsClass(block) && block.cls == RequestClass(n)
    ensures n <= 8 * block.words < 4 * n
  {
    Log2Bounds(n - 1);
  }

  // ----- the invariant -----

  ghost predicate Bounds(s: State) {
    && 1 <= s.base <= s.ptr <= s.limit <= |s.own|
    && s.limit + 2 * |s.nodes| == |s.own|
    && 8 * |s.own| < SIZE_LIMIT
  }

  ghost predicate EndsOwned(s: State) {
    forall w :: 0 <= w < |s.own| ==>
      && (s.own[w] == Header <==> w < s.base)
      && (s.own[w] == Unused <==> s.ptr <= w < s.limit)
      && (s.own[w] == Cleanup <==> s.limit <= w)
  }

  /** live[r] words from r on are a live region, and these are all the words so owned. */
  ghost predicate LiveOwned(s: State) {
    && (forall r :: r in s.live ==> 1 <= s.live[r] && r + s.live[r] <= |s.own|)
    && (forall r, w :: r in s.live && r <= w < r + s.live[r] && w < |s.own| ==> s.own[w] == Live(r))
    && (forall w :: 0 <= w < |s.own| && s.own[w].Live? ==>
          s.own[w].start in s.live && s.own[w].start <= w < s.own[w].start + s.live[s.own[w].start])
  }

  ghost predicate CachedOwned(s: State) {
    && (forall b :: b in s.cached ==> 1 <= s.cached[b].words && b + s.cached[b].words <= |s.own|)
    && (forall b, w :: b in s.cached && b <= w < b + s.cached[b].words && w < |s.own| ==> s.own[w] == Cached(b))
    && (forall w :: 0 <= w < |s.own| && s.own[w].Cached? ==>
          s.own[w].start in s.cached && s.own[w].start <= w < s.own[w].start + s.cached[s.own[w].start].words)
  }

  ghost predicate DirectoryOwned(s: State) {
    && |s.stacks| <= MAX_DIRECTORY && |s.stacks| != 1
    && (|s.stacks| == 0 <==> s.dirWords == 0) && (s.dirWords == 0 ==> s.dir == 0)
    && |s.stacks| <= s.dirWords
    && (|s.stacks| == s.dirWords || |s.stacks| == MAX_DIRECTORY)
    && s.dir + s.dirWords <= |s.own|
    && (forall w :: 0 <= w < |s.own| ==> (s.own[w] == Directory <==> s.dir <= w < s.dir + s.dirWords))
  }

  /** Every cached block is in exactly one free list, the one of its class, and once. */
  ghost predicate Stacked(s: State) {
    && (forall i, j :: 0 <= i < |s.stacks| && 0 <= j < |s.stacks[i]| ==>
          s.stacks[i][j] in s.cached && s.cached[s.stacks[i][j]].cls == i)
    && (forall i, j, k :: 0 <= i < |s.stacks| && 0 <= j < k < |s.stacks[i]| ==> s.stacks[i][j] != s.stacks[i][k])
    && (forall b :: b in s.cached ==>
          s.cached[b].cls < |s.stacks| && b in s.stacks[s.cached[b].cls] && FitsClass(s.cached[b]))
  }

  ghost predicate Inv(s: State) {
    Bounds(s) && EndsOwned(s) && LiveOwned(s) && CachedOwned(s) && DirectoryOwned(s) && Stacked(s)
  }

  // ----- operations -----

  function Paint(own: seq<Owner>, lo: nat, hi: nat, o: Owner): (r: seq<Owner>)
    requires lo <= hi <= |own|
    ensures |r| == |own|
    ensures forall w :: 0 <= w < |own| ==> r[w] == if lo <= w < hi then o else own[w]
  {
    own[..lo] + seq(hi - lo, _ => o) + own[hi..]
  }

  function Initial(base: nat, words: nat): State
    requires 1 <= base <= words
  {
    State(base, base, words, seq(words, w => if w < base then Header else Unused), map[], map[], [], 0, 0, [])
  }

  predicate HasSpace(s: State, words: nat) {
    s.ptr + words <= s.limit
  }

  /** Takes the words after ptr. An empty request gets an address but no memory. */
  function Bump(s: State, words: nat): State
    requires HasSpace(s, words) && s.limit <= |s.own|
  {
    if words == 0 then s
    else s.(ptr := s.ptr + words,
            own := Paint(s.own, s.ptr, s.ptr + words, Live(s.ptr)),
            live := s.live[s.ptr := words])
  }

  predicate CacheHit(s: State, n: nat) {
    n >= 16 && RequestClass(n) < |s.stacks| && s.stacks[RequestClass(n)] != []
  }

  function Top(stack: seq<nat>): nat
    requires stack != []
  {
    stack[|stack| - 1]
  }

  /** Takes the block on top of the stack of the request's class; what n bytes do not need is waste. */
  function Pop(s: State, n: nat): State
    requires Inv(s) && CacheHit(s, n)
  {
    var i := RequestClass(n);
    var b := Top(s.stacks[i]);
    RequestFitsBlock(n, s.cached[b]);
    s.(own := Paint(Paint(s.own, b, b + s.cached[b].words, Waste), b, b + n / 8, Live(b)),
       live := s.live[b := n / 8],
       cached := s.cached - {b},
       stacks := s.stacks[i := s.stacks[i][..|s.stacks[i]| - 1]])
  }

  /** An aligned allocation of n bytes: the new state and the word it starts at, 0 where there is no space. */
  function Allocate(s: State, forArray: bool, n: nat): (State, nat)
    requires Inv(s)
  {
    if forArray && CacheHit(s, n) then (Pop(s, n), Top(s.stacks[RequestClass(n)]))
    else if HasSpace(s, n / 8) then (Bump(s, n / 8), s.ptr)
    else (s, 0)
  }

  /** The client returns size bytes of the live region that starts at p. */
  predicate CanReturn(s: State, p: nat, size: nat) {
    p in s.live && 16 <= size <= 8 * s.live[p]
  }

  predicate Grows(s: State, size: nat) {
    size >= 16 && ReturnClass(size) >= |s.stacks|
  }

  function Push(s: State, p: nat, size: nat): State
    requires Inv(s) && CanReturn(s, p, size) && !Grows(s, size)
  {
    var i := ReturnClass(size);
    s.(own := Paint(Paint(s.own, p, p + s.live[p], Waste), p, p + size / 8, Cached(p)),
       live := s.live - {p},
       cached := s.cached[p := Block(size / 8, i)],
       stacks := s.stacks[i := s.stacks[i] + [p]])
  }

  function Min(a: nat, b: nat): nat {
    if a < b then a else b
  }

  /** The returned block becomes the directory, with room for more classes. */
  function Grow(s: State, p: nat, size: nat): State
    requires Inv(s) && CanReturn(s, p, size) && Grows(s, size)
  {
    GrowthFits(s, size);
    var own := Paint(s.own, s.dir, s.dir + s.dirWords, Abandoned);
    s.(own := Paint(Paint(own, p, p + s.live[p], Waste), p, p + size / 8, Directory),
       live := s.live - {p},
       stacks := s.stacks + seq(Min(MAX_DIRECTORY, size / 8) - |s.stacks|, _ => []),
       dir := p,
       dirWords := size / 8)
  }

  /**
   * A block that makes the directory grow has room for more than the whole old directory, a
   * strictly larger number of classes is counted afterwards, and another block of its size will
   * find its class among them.
   */
  lemma GrowthFits(s: State, size: nat)
    requires Inv(s) && Grows(s, size) && size < SIZE_LIMIT
    ensures |s.stacks| < Min(MAX_DIRECTORY, size / 8) <= MAX_DIRECTORY
    ensures ReturnClass(size) < Min(MAX_DIRECTORY, size / 8)
    ensures s.dirWords == |s.stacks|
  {
    hide EndsOwned, LiveOwned, CachedOwned, Stacked, ReturnClass;
    ClassOfReturned(size);
  }

  function Return(s: State, p: nat, size: nat): State
    requires Inv(s) && CanReturn(s, p, size)
  {
    if Grows(s, size) then Grow(s, p, size) else Push(s, p, size)
  }

  /**
   * The test for room for n bytes and a node adds sizes before it compares. On aligned sizes it is
   * right exactly if the sum does not wrap around, or wraps to more than the nothing that is left.
   */
  lemma SpaceTestIsRight(s: State, n: nat)
    requires Inv(s) && n < SIZE_LIMIT && n % 8 == 0
    ensures (AddSizes(n, 16) <= 8 * s.limit - 8 * s.ptr <==> HasSpace(s, n / 8 + 2))
       <==> n + 16 < SIZE_LIMIT || (n == SIZE_LIMIT - 8 && s.ptr == s.limit)
  {
    hide EndsOwned, LiveOwned, CachedOwned, DirectoryOwned, Stacked;
  }

  lemma SpaceTestCanFail(s: State)
    requires Inv(s)
    ensures AddSizes(SIZE_LIMIT - 16, 16) <= 8 * s.limit - 8 * s.ptr && !HasSpace(s, (SIZE_LIMIT - 16) / 8 + 2)
  {
    hide EndsOwned, LiveOwned, CachedOwned, DirectoryOwned, Stacked;
  }

  /** Takes words at one end and room for a cleanup node at the other. */
  function BumpWithNode(s: State, words: nat, node: Node): State
    requires Inv(s) && HasSpace(s, words + 2)
  {
    var t := Bump(s, words);
    t.(limit := t.limit - 2,
       own := Paint(t.own, t.limit - 2, t.limit, Cleanup),
       nodes := t.nodes + [node])
  }

  // ----- every operation keeps the invariant -----

  lemma InitialInv(base: nat, words: nat)
    requires 1 <= base <= words && 8 * words < SIZE_LIMIT
    ensures Inv(Initial(base, words))
  {
  }

  lemma BumpOwn(s: State, words: nat, w: nat)
    requires Inv(s) && HasSpace(s, words) && w < |s.own|
    ensures |Bump(s, words).own| == |s.own|
    ensures Bump(s, words).own[w] == if s.ptr <= w < s.ptr + words then Live(s.ptr) else s.own[w]
  {
  }

  lemma PopOwn(s: State, n: nat, w: nat)
    requires Inv(s) && CacheHit(s, n) && w < |s.own|
    ensures |Pop(s, n).own| == |s.own|
    ensures var b := Top(s.stacks[RequestClass(n)]);
            Pop(s, n).own[w] == if b <= w < b + n / 8 then Live(b)
                                else if b <= w < b + s.cached[b].words then Waste
                                else s.own[w]
  {
    var b := Top(s.stacks[RequestClass(n)]);
    RequestFitsBlock(n, s.cached[b]);
  }

  lemma PushOwn(s: State, p: nat, size: nat, w: nat)
    requires Inv(s) && CanReturn(s, p, size) && !Grows(s, size) && w < |s.own|
    ensures |Push(s, p, size).own| == |s.own|
    ensures Push(s, p, size).own[w] == if p <= w < p + size / 8 then Cached(p)
                                       else if p <= w < p + s.live[p] then Waste
                                       else s.own[w]
  {
  }

  lemma GrowOwn(s: State, p: nat, size: nat, w: nat)
    requires Inv(s) && CanReturn(s, p, size) && Grows(s, size) && w < |s.own|
    ensures |Grow(s, p, size).own| == |s.own|
    ensures Grow(s, p, size).own[w] == if p <= w < p + size / 8 then Directory
                                       else if p <= w < p + s.live[p] then Waste
                                       else if s.own[w] == Directory then Abandoned
                                       else s.own[w]
  {
  }

  lemma GrowFields(s: State, p: nat, size: nat)
    requires Inv(s) && CanReturn(s, p, size) && Grows(s, size)
    ensures var t := Grow(s, p, size);
            && t.ptr == s.ptr && t.limit == s.limit && t.nodes == s.nodes
            && t.cached == s.cached && t.live == s.live - {p}
            && t.dir == p && t.dirWords == size / 8 && |t.stacks| == Min(MAX_DIRECTORY, size / 8)
  {
    GrowthFits(s, size);
  }

  lemma GrowStack(s: State, p: nat, size: nat, i: nat)
    requires Inv(s) && CanReturn(s, p, size) && Grows(s, size) && i < |Grow(s, p, size).stacks|
    ensures Grow(s, p, size).stacks[i] == if i < |s.stacks| then s.stacks[i] else []
  {
    GrowthFits(s, size);
    var added: seq<seq<nat>> := seq(Min(MAX_DIRECTORY, size / 8) - |s.stacks|, _ => []);
    assert Grow(s, p, size).stacks == s.stacks + added;
  }

  lemma BumpWithNodeFields(s: State, words: nat, node: Node)
    requires Inv(s) && HasSpace(s, words + 2)
    ensures var t := BumpWithNode(s, words, node);
            t.ptr == s.ptr + words && t.limit == s.limit - 2 && t.dir == s.dir && |t.stacks| == |s.stacks|
  {
  }

  lemma PopFields(s: State, n: nat)
    requires Inv(s) && CacheHit(s, n)
    ensures var t := Pop(s, n);
            t.ptr == s.ptr && t.limit == s.limit && t.dir == s.dir && |t.stacks| == |s.stacks|
  {
  }

  lemma PushFields(s: State, p: nat, size: nat)
    requires Inv(s) && CanReturn(s, p, size) && !Grows(s, size)
    ensures var t := Push(s, p, size);
            t.ptr == s.ptr && t.limit == s.limit && t.dir == s.dir && |t.stacks| == |s.stacks|
  {
  }

  lemma LiveWords(s: State, r: nat, w: nat)
    requires LiveOwned(s) && r in s.live && w < |s.own|
    ensures r < |s.own| && s.own[r] == Live(r)
    ensures r <= w < r + s.live[r] ==> s.own[w] == Live(r)
  {
  }

  lemma LiveStart(s: State, r: nat)
    requires LiveOwned(s) && r in s.live
    ensures 1 <= s.live[r] && r + s.live[r] <= |s.own| && s.own[r] == Live(r)
  {
  }

  lemma CachedWords(s: State, b: nat, w: nat)
    requires CachedOwned(s) && b in s.cached && w < |s.own|
    ensures b < |s.own| && s.own[b] == Cached(b)
    ensures b <= w < b + s.cached[b].words ==> s.own[w] == Cached(b)
  {
  }

  /** The block that a cache hit takes. */
  lemma TopIsCached(s: State, n: nat)
    requires Inv(s) && CacheHit(s, n)
    ensures var b := Top(s.stacks[RequestClass(n)]);
            && b in s.cached && b + s.cached[b].words <= |s.own|
            && s.cached[b].cls == RequestClass(n)
            && n <= 8 * s.cached[b].words < 4 * n
  {
    RequestFitsBlock(n, s.cached[Top(s.stacks[RequestClass(n)])]);
  }

  lemma BumpKeepsEnds(s: State, words: nat)
    requires Inv(s) && HasSpace(s, words)
    ensures EndsOwned(Bump(s, words))
  {
    hide LiveOwned, CachedOwned, DirectoryOwned, Stacked;
    var t := Bump(s, words);
    forall w: nat | w < |t.own|
      ensures && (t.own[w] == Header <==> w < t.base)
              && (t.own[w] == Unused <==> t.ptr <= w < t.limit)
              && (t.own[w] == Cleanup <==> t.limit <= w)
    {
      BumpOwn(s, words, w);
    }
  }

  lemma BumpKeepsLive(s: State, words: nat)
    requires Inv(s) && HasSpace(s, words)
    ensures LiveOwned(Bump(s, words))
  {
    hide CachedOwned, DirectoryOwned, Stacked;
    var t := Bump(s, words);
    if words > 0 {
      assert s.own[s.ptr] == Unused;
      forall r: nat, w: nat | r in t.live && r <= w < r + t.live[r] && w < |t.own|
        ensures t.own[w] == Live(r)
      {
        BumpOwn(s, words, w);
        assert r != s.ptr ==> s.own[w] == Live(r);
      }
      forall w: nat | w < |t.own| && t.own[w].Live?
        ensures t.own[w].start in t.live && t.own[w].start <= w < t.own[w].start + t.live[t.own[w].start]
      {
        BumpOwn(s, words, w);
        if !(s.ptr <= w < s.ptr + words) {
          assert s.own[s.own[w].start] == s.own[w];
        }
      }
    }
  }

  lemma BumpKeepsCached(s: State, words: nat)
    requires Inv(s) && HasSpace(s, words)
    ensures CachedOwned(Bump(s, words))
  {
    hide LiveOwned, DirectoryOwned, Stacked;
    var t := Bump(s, words);
    assert t.cached == s.cached;
    forall b: nat, w: nat | b in s.cached && b <= w < b + s.cached[b].words && w < |s.own|
      ensures t.own[w] == Cached(b)
    {
      BumpOwn(s, words, w);
      assert s.own[w] == Cached(b);
    }
    forall w: nat | w < |s.own| && t.own[w].Cached?
      ensures t.own[w] == s.own[w]
    {
      BumpOwn(s, words, w);
    }
  }

  lemma BumpKeepsDirectory(s: State, words: nat)
    requires Inv(s) && HasSpace(s, words)
    ensures DirectoryOwned(Bump(s, words))
  {
    hide LiveOwned, CachedOwned, Stacked;
    var t := Bump(s, words);
    forall w: nat | w < |s.own|
      ensures t.own[w] == Directory <==> s.own[w] == Directory
    {
      BumpOwn(s, words, w);
    }
  }

  lemma BumpKeepsInv(s: State, words: nat)
    requires Inv(s) && HasSpace(s, words)
    ensures Inv(Bump(s, words))
  {
    hide EndsOwned, LiveOwned, CachedOwned, DirectoryOwned;
    BumpKeepsEnds(s, words);
    BumpKeepsLive(s, words);
    BumpKeepsCached(s, words);
    BumpKeepsDirectory(s, words);
  }

  lemma PopKeepsEnds(s: State, n: nat)
    requires Inv(s) && CacheHit(s, n)
    ensures EndsOwned(Pop(s, n))
  {
    hide LiveOwned, CachedOwned, DirectoryOwned, Stacked;
    var t, b := Pop(s, n), Top(s.stacks[RequestClass(n)]);
    TopIsCached(s, n);
    forall w: nat | w < |t.own|
      ensures && (t.own[w] == Header <==> w < t.base)
              && (t.own[w] == Unused <==> t.ptr <= w < t.limit)
              && (t.own[w] == Cleanup <==> t.limit <= w)
    {
      PopOwn(s, n, w);
      CachedWords(s, b, w);
    }
  }

  lemma PopKeepsLive(s: State, n: nat)
    requires Inv(s) && CacheHit(s, n)
    ensures LiveOwned(Pop(s, n))
  {
    hide EndsOwned, CachedOwned, DirectoryOwned, Stacked;
    var t, b := Pop(s, n), Top(s.stacks[RequestClass(n)]);
    TopIsCached(s, n);
    forall r: nat, w: nat | r in t.live && r <= w < r + t.live[r] && w < |t.own|
      ensures t.own[w] == Live(r)
    {
      PopOwn(s, n, w);
      CachedWords(s, b, w);
      if r != b {
        LiveWords(s, r, w);
      }
    }
    forall w: nat | w < |t.own| && t.own[w].Live?
      ensures t.own[w].start in t.live && t.own[w].start <= w < t.own[w].start + t.live[t.own[w].start]
    {
      PopOwn(s, n, w);
      CachedWords(s, b, w);
      if t.own[w] != Live(b) {
        LiveWords(s, s.own[w].start, w);
      } else {
        LiveIsNotCached(s, b, w);
      }
    }
  }

  lemma LiveIsNotCached(s: State, b: nat, w: nat)
    requires LiveOwned(s) && CachedOwned(s) && b in s.cached && w < |s.own|
    ensures s.own[w] != Live(b)
  {
    CachedWords(s, b, w);
    if s.own[w] == Live(b) {
      LiveWords(s, b, w);
    }
  }

  lemma PopKeepsCached(s: State, n: nat)
    requires Inv(s) && CacheHit(s, n)
    ensures CachedOwned(Pop(s, n))
  {
    hide EndsOwned, LiveOwned, DirectoryOwned, Stacked;
    var t, b := Pop(s, n), Top(s.stacks[RequestClass(n)]);
    TopIsCached(s, n);
    forall c: nat, w: nat | c in t.cached && c <= w < c + t.cached[c].words && w < |t.own|
      ensures t.own[w] == Cached(c)
    {
      PopOwn(s, n, w);
      CachedWords(s, c, w);
      CachedWords(s, b, w);
    }
    forall w: nat | w < |t.own| && t.own[w].Cached?
      ensures t.own[w].start in t.cached && t.own[w].start <= w < t.own[w].start + t.cached[t.own[w].start].words
    {
      PopOwn(s, n, w);
      CachedWords(s, b, w);
    }
  }

  lemma PopKeepsDirectory(s: State, n: nat)
    requires Inv(s) && CacheHit(s, n)
    ensures DirectoryOwned(Pop(s, n))
  {
    hide EndsOwned, LiveOwned, CachedOwned, Stacked;
    var t, b := Pop(s, n), Top(s.stacks[RequestClass(n)]);
    TopIsCached(s, n);
    forall w: nat | w < |s.own|
      ensures t.own[w] == Directory <==> s.own[w] == Directory
    {
      PopOwn(s, n, w);
      CachedWords(s, b, w);
    }
  }

  lemma PopKeepsStacked(s: State, n: nat)
    requires Inv(s) && CacheHit(s, n)
    ensures Stacked(Pop(s, n))
  {
    hide EndsOwned, LiveOwned, CachedOwned;
  }

  lemma PopKeepsInv(s: State, n: nat)
    requires Inv(s) && CacheHit(s, n)
    ensures Inv(Pop(s, n))
  {
    hide EndsOwned, LiveOwned, CachedOwned, DirectoryOwned, Stacked;
    PopKeepsEnds(s, n);
    PopKeepsLive(s, n);
    PopKeepsCached(s, n);
    PopKeepsDirectory(s, n);
    PopKeepsStacked(s, n);
  }

  lemma PushKeepsEnds(s: State, p: nat, size: nat)
    requires Inv(s) && CanReturn(s, p, size) && !Grows(s, size)
    ensures EndsOwned(Push(s, p, size))
  {
    hide CachedOwned, DirectoryOwned, Stacked;
    var t := Push(s, p, size);
    forall w: nat | w < |t.own|
      ensures && (t.own[w] == Header <==> w < t.base)
              && (t.own[w] == Unused <==> t.ptr <= w < t.limit)
              && (t.own[w] == Cleanup <==> t.limit <= w)
    {
      PushOwn(s, p, size, w);
      LiveWords(s, p, w);
    }
  }

  lemma PushKeepsLive(s: State, p: nat, size: nat)
    requires Inv(s) && CanReturn(s, p, size) && !Grows(s, size)
    ensures LiveOwned(Push(s, p, size))
  {
    hide EndsOwned, CachedOwned, DirectoryOwned, Stacked;
    var t := Push(s, p, size);
    forall r: nat, w: nat | r in t.live && r <= w < r + t.live[r] && w < |t.own|
      ensures t.own[w] == Live(r)
    {
      PushOwn(s, p, size, w);
      LiveWords(s, r, w);
      LiveWords(s, p, w);
    }
    forall w: nat | w < |t.own| && t.own[w].Live?
      ensures t.own[w].start in t.live && t.own[w].start <= w < t.own[w].start + t.live[t.own[w].start]
    {
      PushOwn(s, p, size, w);
      assert t.own[w] == s.own[w];
    }
  }

  lemma PushKeepsCached(s: State, p: nat, size: nat)
    requires Inv(s) && CanReturn(s, p, size) && !Grows(s, size)
    ensures CachedOwned(Push(s, p, size))
  {
    hide EndsOwned, LiveOwned, DirectoryOwned, Stacked;
    var t := Push(s, p, size);
    LiveIsOutsideCached(s, p);
    forall c: nat, w: nat | c in t.cached && c <= w < c + t.cached[c].words && w < |t.own|
      ensures t.own[w] == Cached(c)
    {
      PushOwn(s, p, size, w);
      LiveWords(s, p, w);
      if c != p {
        CachedWords(s, c, w);
      }
    }
    forall w: nat | w < |t.own| && t.own[w].Cached?
      ensures t.own[w].start in t.cached && t.own[w].start <= w < t.own[w].start + t.cached[t.own[w].start].words
    {
      PushOwn(s, p, size, w);
    }
  }

  lemma LiveIsOutsideCached(s: State, p: nat)
    requires LiveOwned(s) && CachedOwned(s) && p in s.live
    ensures p + s.live[p] <= |s.own| && p !in s.cached
    ensures forall w :: 0 <= w < |s.own| ==> s.own[w] != Cached(p)
  {
    LiveWords(s, p, p);
  }

  lemma PushKeepsDirectory(s: State, p: nat, size: nat)
    requires Inv(s) && CanReturn(s, p, size) && !Grows(s, size)
    ensures DirectoryOwned(Push(s, p, size))
  {
    hide EndsOwned, CachedOwned, Stacked;
    var t := Push(s, p, size);
    forall w: nat | w < |s.own|
      ensures t.own[w] == Directory <==> s.own[w] == Directory
    {
      PushOwn(s, p, size, w);
      LiveWords(s, p, w);
    }
  }

  lemma PushKeepsStacked(s: State, p: nat, size: nat)
    requires Inv(s) && CanReturn(s, p, size) && !Grows(s, size)
    ensures Stacked(Push(s, p, size))
  {
    hide EndsOwned, LiveOwned, CachedOwned, DirectoryOwned, FitsClass, ReturnClass;
    LiveIsOutsideCached(s, p);
    ReturnedFitsClass(size);
    var t, c := Push(s, p, size), ReturnClass(size);
    forall b: nat | b in t.cached
      ensures t.cached[b].cls < |t.stacks| && b in t.stacks[t.cached[b].cls] && FitsClass(t.cached[b])
    {
      if b == p {
        assert t.stacks[c][|s.stacks[c]|] == p;
      }
    }
  }

  lemma PushKeepsInv(s: State, p: nat, size: nat)
    requires Inv(s) && CanReturn(s, p, size) && !Grows(s, size)
    ensures Inv(Push(s, p, size))
  {
    hide EndsOwned, LiveOwned, CachedOwned, DirectoryOwned, Stacked;
    PushKeepsEnds(s, p, size);
    PushKeepsLive(s, p, size);
    PushKeepsCached(s, p, size);
    PushKeepsDirectory(s, p, size);
    PushKeepsStacked(s, p, size);
  }

  lemma GrowKeepsEnds(s: State, p: nat, size: nat)
    requires Inv(s) && CanReturn(s, p, size) && Grows(s, size)
    ensures EndsOwned(Grow(s, p, size))
  {
    hide CachedOwned, DirectoryOwned, Stacked;
    var t := Grow(s, p, size);
    forall w: nat | w < |t.own|
      ensures && (t.own[w] == Header <==> w < t.base)
              && (t.own[w] == Unused <==> t.ptr <= w < t.limit)
              && (t.own[w] == Cleanup <==> t.limit <= w)
    {
      GrowOwn(s, p, size, w);
      LiveWords(s, p, w);
    }
  }

  lemma GrowKeepsLive(s: State, p: nat, size: nat)
    requires Inv(s) && CanReturn(s, p, size) && Grows(s, size)
    ensures LiveOwned(Grow(s, p, size))
  {
    hide EndsOwned, CachedOwned, DirectoryOwned, Stacked;
    var t := Grow(s, p, size);
    forall r: nat, w: nat | r in t.live && r <= w < r + t.live[r] && w < |t.own|
      ensures t.own[w] == Live(r)
    {
      GrowOwn(s, p, size, w);
      LiveWords(s, r, w);
      LiveWords(s, p, w);
    }
    forall w: nat | w < |t.own| && t.own[w].Live?
      ensures t.own[w].start in t.live && t.own[w].start <= w < t.own[w].start + t.live[t.own[w].start]
    {
      GrowOwn(s, p, size, w);
      assert t.own[w] == s.own[w];
    }
  }

  lemma GrowKeepsCached(s: State, p: nat, size: nat)
    requires Inv(s) && CanReturn(s, p, size) && Grows(s, size)
    ensures CachedOwned(Grow(s, p, size))
  {
    hide EndsOwned, DirectoryOwned, Stacked;
    var t := Grow(s, p, size);
    assert t.cached == s.cached;
    forall c: nat, w: nat | c in s.cached && c <= w < c + s.cached[c].words && w < |s.own|
      ensures t.own[w] == Cached(c)
    {
      GrowOwn(s, p, size, w);
      assert s.own[w] == Cached(c);
      LiveWords(s, p, w);
    }
    forall w: nat | w < |s.own| && t.own[w].Cached?
      ensures t.own[w] == s.own[w]
    {
      GrowOwn(s, p, size, w);
    }
  }

  lemma GrowKeepsDirectory(s: State, p: nat, size: nat)
    requires Inv(s) && CanReturn(s, p, size) && Grows(s, size)
    ensures DirectoryOwned(Grow(s, p, size))
  {
    hide EndsOwned, CachedOwned, Stacked;
    var t := Grow(s, p, size);
    GrowthFits(s, size);
    forall w: nat | w < |s.own|
      ensures t.own[w] == Directory <==> p <= w < p + size / 8
    {
      GrowOwn(s, p, size, w);
    }
  }

  lemma GrowKeepsStacked(s: State, p: nat, size: nat)
    requires Inv(s) && CanReturn(s, p, size) && Grows(s, size)
    ensures Stacked(Grow(s, p, size))
  {
    hide EndsOwned, LiveOwned, CachedOwned;
    var t := Grow(s, p, size);
    GrowthFits(s, size);
    assert forall i :: 0 <= i < |t.stacks| ==> t.stacks[i] == if i < |s.stacks| then s.stacks[i] else [];
  }

  lemma GrowKeepsInv(s: State, p: nat, size: nat)
    requires Inv(s) && CanReturn(s, p, size) && Grows(s, size)
    ensures Inv(Grow(s, p, size))
  {
    hide EndsOwned, LiveOwned, CachedOwned, DirectoryOwned, Stacked;
    GrowKeepsEnds(s, p, size);
    GrowKeepsLive(s, p, size);
    GrowKeepsCached(s, p, size);
    GrowKeepsDirectory(s, p, size);
    GrowKeepsStacked(s, p, size);
  }

  lemma BumpWithNodeKeepsInv(s: State, words: nat, node: Node)
    requires Inv(s) && HasSpace(s, words + 2)
    ensures Inv(BumpWithNode(s, words, node))
  {
    hide EndsOwned, LiveOwned, CachedOwned, DirectoryOwned, Stacked;
    BumpKeepsInv(s, words);
    NodeKeepsInv(Bump(s, words), node);
  }

  lemma NodeOwn(s: State, node: Node, w: nat)
    requires Inv(s) && HasSpace(s, 2) && w < |s.own|
    ensures |BumpWithNode(s, 0, node).own| == |s.own|
    ensures BumpWithNode(s, 0, node).own[w] == if s.limit - 2 <= w < s.limit then Cleanup else s.own[w]
    ensures s.limit - 2 <= w < s.limit ==> s.own[w] == Unused
  {
  }

  /** The node's half of BumpWithNode. */
  lemma NodeKeepsInv(s: State, node: Node)
    requires Inv(s) && HasSpace(s, 2)
    ensures Inv(BumpWithNode(s, 0, node))
  {
    hide EndsOwned, LiveOwned, CachedOwned, DirectoryOwned, Stacked;
    NodeKeepsEnds(s, node);
    NodeKeepsLive(s, node);
    NodeKeepsCached(s, node);
    NodeKeepsDirectory(s, node);
    NodeKeepsStacked(s, node);
  }

  lemma NodeKeepsEnds(s: State, node: Node)
    requires Inv(s) && HasSpace(s, 2)
    ensures EndsOwned(BumpWithNode(s, 0, node))
  {
    hide LiveOwned, CachedOwned, DirectoryOwned, Stacked;
    var t := BumpWithNode(s, 0, node);
    forall w: nat | w < |t.own|
      ensures && (t.own[w] == Header <==> w < t.base)
              && (t.own[w] == Unused <==> t.ptr <= w < t.limit)
              && (t.own[w] == Cleanup <==> t.limit <= w)
    {
      NodeOwn(s, node, w);
    }
  }

  lemma NodeKeepsLive(s: State, node: Node)
    requires Inv(s) && HasSpace(s, 2)
    ensures LiveOwned(BumpWithNode(s, 0, node))
  {
    hide EndsOwned, CachedOwned, DirectoryOwned, Stacked;
    var t := BumpWithNode(s, 0, node);
    assert t.live == s.live;
    forall r: nat, w: nat | r in s.live && r <= w < r + s.live[r] && w < |s.own|
      ensures t.own[w] == Live(r)
    {
      NodeOwn(s, node, w);
      LiveWords(s, r, w);
    }
    forall w: nat | w < |s.own| && t.own[w].Live?
      ensures t.own[w] == s.own[w]
    {
      NodeOwn(s, node, w);
    }
  }

  lemma NodeKeepsCached(s: State, node: Node)
    requires Inv(s) && HasSpace(s, 2)
    ensures CachedOwned(BumpWithNode(s, 0, node))
  {
    hide EndsOwned, LiveOwned, DirectoryOwned, Stacked;
    var t := BumpWithNode(s, 0, node);
    assert t.cached == s.cached;
    forall b: nat, w: nat | b in s.cached && b <= w < b + s.cached[b].words && w < |s.own|
      ensures t.own[w] == Cached(b)
    {
      NodeOwn(s, node, w);
      CachedWords(s, b, w);
    }
    forall w: nat | w < |s.own| && t.own[w].Cached?
      ensures t.own[w] == s.own[w]
    {
      NodeOwn(s, node, w);
    }
  }

  lemma NodeKeepsDirectory(s: State, node: Node)
    requires Inv(s) && HasSpace(s, 2)
    ensures DirectoryOwned(BumpWithNode(s, 0, node))
  {
    hide EndsOwned, LiveOwned, CachedOwned, Stacked;
    var t := BumpWithNode(s, 0, node);
    forall w: nat | w < |s.own|
      ensures t.own[w] == Directory <==> s.own[w] == Directory
    {
      NodeOwn(s, node, w);
    }
  }

  lemma NodeKeepsStacked(s: State, node: Node)
    requires Inv(s) && HasSpace(s, 2)
    ensures Stacked(BumpWithNode(s, 0, node))
  {
    hide EndsOwned, LiveOwned, CachedOwned, DirectoryOwned;
    var t := BumpWithNode(s, 0, node);
    assert t.cached == s.cached && t.stacks == s.stacks;
  }
}
