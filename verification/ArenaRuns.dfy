/** What holds of a `SerialArena` after any sequence of operations on one block. */
module ArenaRuns {

  import opened ArenaSpec
  import opened ArenaOutcomes
  import opened Log2

  datatype Op =
    | Take(forArray: bool, n: nat)
    | GiveBack(p: nat, size: nat)
    | TakeWithNode(n: nat, node: Node)

  /** Sizes are aligned, and with a node's size they fit a size_t; clients return only memory they hold. */
  predicate Legal(s: State, op: Op) {
    match op
    case Take(_, n) => n % 8 == 0
    case GiveBack(p, size) => CanReturn(s, p, size)
    case TakeWithNode(n, _) => n % 8 == 0 && n + 16 < SIZE_LIMIT
  }

  function Step(s: State, op: Op): State
    requires Inv(s) && Legal(s, op)
  {
    match op
    case Take(forArray, n) => Allocate(s, forArray, n).0
    case GiveBack(p, size) => Return(s, p, size)
    case TakeWithNode(n, node) => if HasSpace(s, n / 8 + 2) then BumpWithNode(s, n / 8, node) else s
  }

  lemma StepKeepsInv(s: State, op: Op)
    requires Inv(s) && Legal(s, op)
    ensures Inv(Step(s, op))
  {
    hide Inv;
    match op
    case Take(forArray, n) =>
      if forArray && CacheHit(s, n) {
        PopKeepsInv(s, n);
      } else if HasSpace(s, n / 8) {
        BumpKeepsInv(s, n / 8);
      }
    case GiveBack(p, size) =>
      if Grows(s, size) {
        GrowKeepsInv(s, p, size);
      } else {
        PushKeepsInv(s, p, size);
      }
    case TakeWithNode(n, node) =>
      if HasSpace(s, n / 8 + 2) {
        BumpWithNodeKeepsInv(s, n / 8, node);
      }
  }

  /** A step has the outcome its operation is to have. */
  lemma StepOutcome(s: State, op: Op)
    requires Inv(s) && Legal(s, op)
    ensures var t := Step(s, op);
            match op
            case Take(forArray, n) => exists p :: Allocated(s, forArray, n, t, p)
            case GiveBack(p, size) => Returned(s, p, size, t)
            case TakeWithNode(n, node) =>
              if n / 8 + 2 <= s.limit - s.ptr then TakenWithNode(s, n / 8, node, t) else t == s
  {
    hide Inv, Allocate, Return, Allocated, Returned, TakenWithNode, BumpWithNode;
    match op
    case Take(forArray, n) =>
      AllocateIsAllocated(s, forArray, n);
      assert Allocated(s, forArray, n, Step(s, op), Allocate(s, forArray, n).1);
    case GiveBack(p, size) => ReturnIsReturned(s, p, size);
    case TakeWithNode(n, node) =>
      if n / 8 + 2 <= s.limit - s.ptr {
        BumpWithNodeIsTaken(s, n / 8, node);
      }
  }

  /** ops can be carried out one after the other from s, and lead to t. */
  ghost predicate Runs(s: State, ops: seq<Op>, t: State)
    decreases |ops|
  {
    if ops == [] then s == t
    else Inv(s) && Legal(s, ops[0]) && Runs(Step(s, ops[0]), ops[1..], t)
  }

  lemma {:induction false} RunKeepsInv(s: State, ops: seq<Op>, t: State)
    requires Inv(s) && Runs(s, ops, t)
    ensures Inv(t)
    decreases |ops|
  {
    hide Inv;
    if ops != [] {
      StepKeepsInv(s, ops[0]);
      RunKeepsInv(Step(s, ops[0]), ops[1..], t);
    }
  }

  // ----- separation and conservation -----

  datatype Region = LiveRegion(start: nat) | CachedBlock(start: nat) | CurrentDirectory | CleanupNodes

  ghost predicate Covers(s: State, g: Region, w: nat) {
    match g
    case LiveRegion(r) => r in s.live && r <= w < r + s.live[r]
    case CachedBlock(b) => b in s.cached && b <= w < b + s.cached[b].words
    case CurrentDirectory => s.dir <= w < s.dir + s.dirWords
    case CleanupNodes => s.limit <= w < |s.own|
  }

  /** Whatever was done, regions do not overlap and stay inside the block, above its header. */
  lemma RegionsAreSeparate(base: nat, words: nat, ops: seq<Op>, s: State, g: Region, h: Region, w: nat)
    requires 1 <= base <= words && 8 * words < SIZE_LIMIT && Runs(Initial(base, words), ops, s)
    requires Covers(s, g, w) && Covers(s, h, w)
    ensures g == h
    ensures base <= w < words
    ensures g != CleanupNodes ==> w < s.ptr
  {
    InitialInv(base, words);
    RunKeepsInv(Initial(base, words), ops, s);
    RunKeepsBlock(Initial(base, words), ops, s);
    CoveredOwner(s, g, w);
    CoveredOwner(s, h, w);
  }

  /** The owner of a covered word names the region. */
  lemma CoveredOwner(s: State, g: Region, w: nat)
    requires Inv(s) && Covers(s, g, w)
    ensures w < |s.own|
    ensures match g
            case LiveRegion(r) => s.own[w] == Live(r)
            case CachedBlock(b) => s.own[w] == Cached(b)
            case CurrentDirectory => s.own[w] == Directory
            case CleanupNodes => s.own[w] == Cleanup
    ensures s.base <= w && (g != CleanupNodes ==> w < s.ptr)
  {
    match g
    case LiveRegion(r) =>
      LiveStart(s, r);
      LiveWords(s, r, w);
    case CachedBlock(b) =>
      CachedWords(s, b, w);
    case CurrentDirectory =>
    case CleanupNodes =>
  }

  lemma StepKeepsBlock(s: State, op: Op)
    requires Inv(s) && Legal(s, op)
    ensures Step(s, op).base == s.base && |Step(s, op).own| == |s.own|
  {
  }

  lemma {:induction false} RunKeepsBlock(s: State, ops: seq<Op>, t: State)
    requires Inv(s) && Runs(s, ops, t)
    ensures t.base == s.base && |t.own| == |s.own|
    decreases |ops|
  {
    hide Inv;
    if ops != [] {
      StepKeepsInv(s, ops[0]);
      StepKeepsBlock(s, ops[0]);
      RunKeepsBlock(Step(s, ops[0]), ops[1..], t);
    }
  }

  /** Every word that was ever taken is live, cached, in the directory, or given up for good. */
  lemma WordsAreAccountedFor(base: nat, words: nat, ops: seq<Op>, s: State, w: nat)
    requires 1 <= base <= words && 8 * words < SIZE_LIMIT && Runs(Initial(base, words), ops, s)
    requires base <= w < s.ptr
    ensures w < |s.own|
    ensures s.own[w] == Abandoned || s.own[w] == Waste || exists g :: Covers(s, g, w)
    ensures s.own[w] == Abandoned || s.own[w] == Waste ==> !exists g :: Covers(s, g, w)
  {
    InitialInv(base, words);
    RunKeepsInv(Initial(base, words), ops, s);
    RunKeepsBlock(Initial(base, words), ops, s);
    match s.own[w]
    case Live(r) => assert Covers(s, LiveRegion(r), w);
    case Cached(b) => assert Covers(s, CachedBlock(b), w);
    case Directory => assert Covers(s, CurrentDirectory, w);
    case Abandoned | Waste =>
      forall g | Covers(s, g, w)
        ensures false
      {
        CoveredOwner(s, g, w);
      }
    case _ =>
  }

  // ----- the two ends -----

  /** Only allocations that the cache does not serve move ptr, only cleanup nodes move limit. */
  lemma StepMoves(s: State, op: Op)
    requires Inv(s) && Legal(s, op)
    ensures var t := Step(s, op);
            match op
            case Take(forArray, n) =>
              && t.limit == s.limit && t.nodes == s.nodes
              && t.ptr == s.ptr + if !(forArray && CacheHit(s, n)) && HasSpace(s, n / 8) then n / 8 else 0
            case GiveBack(_, _) => t.ptr == s.ptr && t.limit == s.limit && t.nodes == s.nodes
            case TakeWithNode(n, node) =>
              if HasSpace(s, n / 8 + 2)
              then t.ptr == s.ptr + n / 8 && t.limit == s.limit - 2 && t.nodes == s.nodes + [node]
              else t == s
  {
  }

  /** ptr never goes down, limit never up, and registered cleanup nodes stay as they were. */
  lemma {:induction false} RunMovesInward(s: State, ops: seq<Op>, t: State)
    requires Inv(s) && Runs(s, ops, t)
    ensures s.ptr <= t.ptr <= t.limit <= s.limit
    ensures s.nodes <= t.nodes
    decreases |ops|
  {
    hide Inv, Step, Legal;
    if ops != [] {
      StepKeepsInv(s, ops[0]);
      StepMoves(s, ops[0]);
      RunMovesInward(Step(s, ops[0]), ops[1..], t);
    } else {
      PtrBelowLimit(s);
    }
  }

  lemma PtrBelowLimit(s: State)
    requires Inv(s)
    ensures s.ptr <= s.limit
  {
  }

  // ----- the directory grows at most three times -----

  /** How often a directory of this length can still grow. */
  function GrowthsLeft(length: nat): nat {
    if length == 0 then 3 else if length < 8 then 2 else if length < MAX_DIRECTORY then 1 else 0
  }

  lemma GrowthUsesOneUp(s: State, p: nat, size: nat)
    requires Inv(s) && CanReturn(s, p, size) && Grows(s, size)
    ensures GrowthsLeft(|Grow(s, p, size).stacks|) < GrowthsLeft(|s.stacks|)
  {
    GrowthFits(s, size);
    GrowFields(s, p, size);
    GrowthRoom(|s.stacks|, size);
  }

  /** A block of class c or more has at least 2, 8 or 64 words if c is at least 0, 2 or 8. */
  lemma GrowthRoom(length: nat, size: nat)
    requires size >= 16 && ReturnClass(size) >= length
    ensures size / 8 >= 2
    ensures length >= 2 ==> size / 8 >= 8
    ensures length >= 8 ==> size / 8 >= 64
  {
    Log2AtLeast(size, 6);
    Log2AtLeast(size, 12);
    PowersUsed();
  }

  lemma PowersUsed()
    ensures Pow2(6) == 64 && Pow2(12) == 4096
  {
    Pow2Unrolls(0);
    Pow2Unrolls(3);
    Pow2Unrolls(6);
    Pow2Unrolls(9);
  }

  /** How often the directory moves. */
  ghost function Growths(s: State, ops: seq<Op>): nat
    requires Inv(s)
    decreases |ops|
  {
    if ops == [] || !Legal(s, ops[0]) then 0
    else
      StepKeepsInv(s, ops[0]);
      (if Step(s, ops[0]).dir != s.dir then 1 else 0) + Growths(Step(s, ops[0]), ops[1..])
  }

  lemma StepKeepsDirectory(s: State, op: Op)
    requires Inv(s) && Legal(s, op) && !(op.GiveBack? && Grows(s, op.size))
    ensures |Step(s, op).stacks| == |s.stacks| && Step(s, op).dir == s.dir
  {
  }

  lemma {:induction false} GrowthsAreLimited(s: State, ops: seq<Op>, t: State)
    requires Inv(s) && Runs(s, ops, t)
    ensures Growths(s, ops) + GrowthsLeft(|t.stacks|) <= GrowthsLeft(|s.stacks|)
    decreases |ops|
  {
    hide Inv, GrowthsLeft;
    if ops != [] {
      var op := ops[0];
      StepKeepsInv(s, op);
      if op.GiveBack? && Grows(s, op.size) {
        GrowthUsesOneUp(s, op.p, op.size);
      } else {
        StepKeepsDirectory(s, op);
      }
      GrowthsAreLimited(Step(s, op), ops[1..], t);
    }
  }

  lemma AtMostThreeGrowths(base: nat, words: nat, ops: seq<Op>, t: State)
    requires 1 <= base <= words && 8 * words < SIZE_LIMIT && Runs(Initial(base, words), ops, t)
    ensures Inv(Initial(base, words)) && Growths(Initial(base, words), ops) <= 3
  {
    InitialInv(base, words);
    GrowthsAreLimited(Initial(base, words), ops, t);
  }

  // ----- how much memory directories can cost -----

  ghost function AbandonedWords(s: State): set<nat> {
    set w: nat | w < |s.own| && s.own[w] == Abandoned
  }

  /** At most this many words are still to be abandoned by a directory of this length. */
  function LossLeft(length: nat): nat {
    if length < 8 then 70 else if length < MAX_DIRECTORY then 63 else 0
  }

  function Interval(lo: nat, n: nat): (r: set<nat>)
    ensures forall w :: w in r <==> lo <= w < lo + n
    ensures |r| == n
  {
    if n == 0 then {} else Interval(lo, n - 1) + {lo + n - 1}
  }

  lemma SubsetIsSmaller(a: set<nat>, b: set<nat>)
    requires a <= b
    ensures |a| <= |b|
  {
    assert b == a + (b - a);
  }

  lemma StepAbandonsNothing(s: State, op: Op)
    requires Inv(s) && Legal(s, op) && !(op.GiveBack? && Grows(s, op.size))
    ensures AbandonedWords(Step(s, op)) == AbandonedWords(s)
  {
    var t := Step(s, op);
    StepKeepsBlock(s, op);
    forall w: nat | w < |s.own|
      ensures t.own[w] == Abandoned <==> s.own[w] == Abandoned
    {
      KeepsAbandoned(s, op, w);
    }
  }

  lemma KeepsAbandoned(s: State, op: Op, w: nat)
    requires Inv(s) && Legal(s, op) && !(op.GiveBack? && Grows(s, op.size)) && w < |s.own|
    ensures w < |Step(s, op).own|
    ensures Step(s, op).own[w] == Abandoned <==> s.own[w] == Abandoned
  {
    match op
    case Take(forArray, n) =>
      if forArray && CacheHit(s, n) {
        TopIsCached(s, n);
        PopOwn(s, n, w);
        CachedWords(s, Top(s.stacks[RequestClass(n)]), w);
      } else if HasSpace(s, n / 8) {
        BumpOwn(s, n / 8, w);
      }
    case GiveBack(p, size) =>
      PushOwn(s, p, size, w);
      LiveWords(s, p, w);
    case TakeWithNode(n, node) =>
      if HasSpace(s, n / 8 + 2) {
        BumpOwn(s, n / 8, w);
      }
  }

  lemma GrowthAbandonsDirectory(s: State, p: nat, size: nat)
    requires Inv(s) && CanReturn(s, p, size) && Grows(s, size)
    ensures |AbandonedWords(Grow(s, p, size))| <= |AbandonedWords(s)| + |s.stacks|
  {
    var t, before := Grow(s, p, size), Interval(s.dir, |s.stacks|);
    GrowthFits(s, size);
    forall w | w in AbandonedWords(t)
      ensures w in AbandonedWords(s) + before
    {
      GrowOwn(s, p, size, 0);
      GrowOwn(s, p, size, w);
    }
    SubsetIsSmaller(AbandonedWords(t), AbandonedWords(s) + before);
  }

  lemma GrowthUsesLoss(s: State, p: nat, size: nat)
    requires Inv(s) && CanReturn(s, p, size) && Grows(s, size)
    ensures |s.stacks| + LossLeft(|Grow(s, p, size).stacks|) <= LossLeft(|s.stacks|)
  {
    GrowthFits(s, size);
    GrowFields(s, p, size);
    GrowthRoom(|s.stacks|, size);
  }

  lemma {:induction false} LossIsLimited(s: State, ops: seq<Op>, t: State)
    requires Inv(s) && Runs(s, ops, t)
    ensures |AbandonedWords(t)| + LossLeft(|t.stacks|) <= |AbandonedWords(s)| + LossLeft(|s.stacks|)
    decreases |ops|
  {
    hide Inv, LossLeft, AbandonedWords;
    if ops != [] {
      var op := ops[0];
      StepKeepsInv(s, op);
      if op.GiveBack? && Grows(s, op.size) {
        GrowthAbandonsDirectory(s, op.p, op.size);
        GrowthUsesLoss(s, op.p, op.size);
      } else {
        StepKeepsDirectory(s, op);
        StepAbandonsNothing(s, op);
      }
      LossIsLimited(Step(s, op), ops[1..], t);
    }
  }

  /** However long the run, at most 70 words of a block are lost to abandoned directories. */
  lemma AtMostSeventyWordsAbandoned(base: nat, words: nat, ops: seq<Op>, t: State)
    requires 1 <= base <= words && 8 * words < SIZE_LIMIT && Runs(Initial(base, words), ops, t)
    ensures |AbandonedWords(t)| <= 70
  {
    InitialInv(base, words);
    LossIsLimited(Initial(base, words), ops, t);
    assert AbandonedWords(Initial(base, words)) == {};
  }
}
