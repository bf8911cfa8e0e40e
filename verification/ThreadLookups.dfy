/**
 * What lookups in a `ThreadSafeArena` find: every lookup makes progress, a cached serial arena is
 * found again, the hint decides where the cache does not, and the fallback leaves both up to date.
 */
module ThreadLookups {

  import opened ThreadCaches

  lemma ReachableInv(before: seq<Action>, s: State)
    requires Runs(INITIAL, before, s)
    ensures Inv(s)
  {
    RunKeepsInv(INITIAL, before, s);
  }

  predicate ByThread(act: Action, t: Thread) {
    match act
    case NewThread(u) => u == t
    case NewArena(_) => false
    case Reset(_) => false
    case Begin(u, _) => u == t
    case Advance(u, _) => u == t
    case GiveUp(u) => u == t
    case Finish(u) => u == t
  }

  /** acts lead from s to s', and t takes none of them. */
  ghost predicate OthersRun(s: State, acts: seq<Action>, s': State, t: Thread) {
    Runs(s, acts, s') && forall i :: 0 <= i < |acts| ==> !ByThread(acts[i], t)
  }

  /** t has begun a lookup in a and is where it was, and so is what it relies on. */
  ghost predicate LeftAlone(s: State, s': State, t: Thread, a: Arena) {
    && t in s.pcs && t in s'.pcs && s'.pcs[t] == s.pcs[t]
    && t in s.caches && t in s'.caches && s'.caches[t] == s.caches[t]
    && a in s.ids && a in s'.ids && s'.ids[a] == s.ids[a]
    && forall x :: x in s.serials && s.serials[x].arena == a ==> x in s'.serials && s'.serials[x] == s.serials[x]
  }

  lemma StepLeavesAlone(s: State, act: Action, t: Thread, a: Arena)
    requires Inv(s) && Enabled(s, act) && !ByThread(act, t) && t in s.pcs && Busy(s.pcs[t], a)
    ensures LeftAlone(s, Next(s, act), t, a)
  {
    hide SerialsListed, HintsListed, CacheTrue;
    BusyArena(s, t, a);
    hide Inv, IdsDiffer, ThreadsTrue;
    if act.Advance? {
      AdvanceLeavesAlone(s, act.t, act.free, t, a);
    }
  }

  lemma BusyArena(s: State, t: Thread, a: Arena)
    requires Inv(s) && t in s.pcs && Busy(s.pcs[t], a)
    ensures t in s.caches && a in s.ids
    ensures forall b :: b in s.ids ==> s.ids[b] < s.nextId
  {
    hide SerialsListed, HintsListed, CacheTrue;
    assert PcTrue(s, t);
  }

  lemma AdvanceLeavesAlone(s: State, u: Thread, free: Serial, t: Thread, a: Arena)
    requires Enabled(s, Advance(u, free)) && u != t && t in s.pcs && t in s.caches && a in s.ids
    requires !s.pcs[u].Fallback? || free !in s.serials || s.serials[free] == Info(u, s.pcs[u].arena)
    ensures LeftAlone(s, Advanced(s, u, free), t, a)
  {
  }

  lemma {:induction false} RunLeavesAlone(s: State, acts: seq<Action>, s': State, t: Thread, a: Arena)
    requires Inv(s) && OthersRun(s, acts, s', t) && t in s.pcs && Busy(s.pcs[t], a)
    ensures Inv(s') && LeftAlone(s, s', t, a)
    decreases |acts|
  {
    hide Inv, Enabled, Next;
    if acts == [] {
      BusyArena(s, t, a);
    } else {
      StepLeavesAlone(s, acts[0], t, a);
      NextKeepsInv(s, acts[0]);
      RunLeavesAlone(Next(s, acts[0]), acts[1..], s', t, a);
    }
  }

  // ----- no lookup is stuck -----

  lemma {:induction false} FreeAddress(used: set<Serial>) returns (x: Serial)
    ensures x != NULL && forall y :: y in used ==> y < x
    decreases used
  {
    if used == {} {
      x := 1;
    } else {
      var y :| y in used;
      var z := FreeAddress(used - {y});
      x := if y < z then z else y + 1;
      forall w | w in used
        ensures w < x
      {
        assert w == y || w in used - {y};
      }
    }
  }

  /** Whatever has happened, a thread that is looking for its serial arena can go on. */
  lemma LookupsAreNeverStuck(before: seq<Action>, s: State, t: Thread) returns (free: Serial)
    requires Runs(INITIAL, before, s)
    requires t in s.pcs && !s.pcs[t].Idle? && !s.pcs[t].Holds?
    ensures Enabled(s, Advance(t, free))
  {
    hide SerialsListed, HintsListed;
    ReachableInv(before, s);
    assert CacheTrue(s, t) && PcTrue(s, t);
    free := FreeAddress(s.serials.Keys);
    assert free !in s.serials;
    if !OwnsNone(s, t, s.pcs[t].arena) {
      free :| free in s.serials && s.serials[free] == Info(t, s.pcs[t].arena);
      OwnedIsNotNull(s, free);
    }
  }

  lemma OwnedIsNotNull(s: State, x: Serial)
    requires Inv(s) && x in s.serials
    ensures x != NULL
  {
  }

  // ----- what the fallback leaves -----

  /** t's next step; its choice of an address matters in the fallback only. */
  ghost predicate Steps(s: State, t: Thread, s': State) {
    exists free :: Enabled(s, Advance(t, free)) && s' == Next(s, Advance(t, free))
  }

  /** One step of t, and then steps of others. */
  ghost predicate StepsThenOthers(s: State, t: Thread, s': State, acts: seq<Action>, s'': State) {
    Steps(s, t, s') && OthersRun(s', acts, s'', t)
  }

  lemma StepKeepsInv(s: State, t: Thread, s': State)
    requires Inv(s) && Steps(s, t, s')
    ensures Inv(s')
  {
    hide Inv, Enabled, Next;
    var free :| Enabled(s, Advance(t, free)) && s' == Next(s, Advance(t, free));
    NextKeepsInv(s, Advance(t, free));
  }

  /** The fallback of t in a has given it x. */
  ghost predicate Given(s: State, t: Thread, a: Arena, x: Serial) {
    t in s.pcs && s.pcs[t] == StoreSerial(a, x)
  }

  /**
   * The thread has its own serial arena x from the fallback. Three steps later, whatever others do
   * meanwhile, it holds x, and its cache and the arena's hint name x.
   */
  lemma FallbackIsCached(before: seq<Action>, s0: State, t: Thread, a: Arena, x: Serial,
                         acts0: seq<Action>, s1: State, t1: State, acts1: seq<Action>, s2: State,
                         t2: State, acts2: seq<Action>, s3: State, s': State)
    requires Runs(INITIAL, before, s0) && Given(s0, t, a, x)
    requires OthersRun(s0, acts0, s1, t)
    requires StepsThenOthers(s1, t, t1, acts1, s2) && StepsThenOthers(s2, t, t2, acts2, s3) && Steps(s3, t, s')
    ensures t in s'.pcs && s'.pcs[t] == Holds(a, x)
    ensures a in s'.ids && t in s'.caches && s'.caches[t] == Cache(s'.ids[a], x)
    ensures a in s'.hints && s'.hints[a] == x
  {
    hide Inv, Enabled, Next, Runs, Steps;
    ReachableInv(before, s0);
    RunLeavesAlone(s0, acts0, s1, t, a);
    StoreSerialStep(s1, t, a, x, t1);
    StepKeepsInv(s1, t, t1);
    RunLeavesAlone(t1, acts1, s2, t, a);
    StoreIdStep(s2, t, a, x, t2);
    StepKeepsInv(s2, t, t2);
    RunLeavesAlone(t2, acts2, s3, t, a);
    StoreHintStep(s3, t, a, x, s');
  }

  lemma StoreSerialStep(s: State, t: Thread, a: Arena, x: Serial, s': State)
    requires Inv(s) && Steps(s, t, s') && t in s.pcs && s.pcs[t] == StoreSerial(a, x)
    ensures t in s'.pcs && s'.pcs[t] == StoreId(a, x)
  {
    hide Inv;
  }

  lemma StoreIdStep(s: State, t: Thread, a: Arena, x: Serial, s': State)
    requires Inv(s) && Steps(s, t, s') && t in s.pcs && s.pcs[t] == StoreId(a, x)
    ensures t in s'.pcs && s'.pcs[t] == StoreHint(a, x)
  {
    hide Inv;
  }

  lemma StoreHintStep(s: State, t: Thread, a: Arena, x: Serial, s': State)
    requires Inv(s) && Steps(s, t, s') && t in s.pcs && s.pcs[t] == StoreHint(a, x)
    ensures t in s'.pcs && s'.pcs[t] == Holds(a, x)
    ensures a in s'.ids && t in s'.caches && s'.caches[t] == Cache(s'.ids[a], x)
    ensures a in s'.hints && s'.hints[a] == x
  {
    hide IdsDiffer, SerialsListed, HintsListed;
    assert PcTrue(s, t);
  }

  /** The fallback gives a thread the serial arena it has in this arena, if it has one, and its own in any case. */
  lemma FallbackGivesOwn(before: seq<Action>, s: State, t: Thread, a: Arena, s': State)
    requires Runs(INITIAL, before, s) && t in s.pcs && s.pcs[t] == Fallback(a) && Steps(s, t, s')
    ensures exists x :: Given(s', t, a, x) && Owns(s', t, a, x)
    ensures forall x, y :: Given(s', t, a, x) && Owns(s, t, a, y) ==> x == y
  {
    hide Inv, Runs;
    ReachableInv(before, s);
    var free :| Enabled(s, Advance(t, free)) && s' == Next(s, Advance(t, free));
    OneOwned(s);
    assert Given(s', t, a, free);
  }

  lemma OneOwned(s: State)
    requires Inv(s)
    ensures forall x :: x in s.serials ==> x != NULL
    ensures forall x, y :: x in s.serials && y in s.serials && s.serials[x] == s.serials[y] ==> x == y
  {
  }

  // ----- what the thread cache finds -----

  /** act changes the cache of t. */
  predicate Caches(s: State, act: Action, t: Thread) {
    act == NewThread(t)
    || (act.Advance? && act.t == t && t in s.pcs && (s.pcs[t].StoreSerial? || s.pcs[t].StoreId?))
  }

  /** In none of these steps does t cache anything. */
  ghost predicate CachesNothing(s: State, acts: seq<Action>, t: Thread)
    decreases |acts|
  {
    acts == [] || (Enabled(s, acts[0]) && !Caches(s, acts[0], t) && CachesNothing(Next(s, acts[0]), acts[1..], t))
  }

  lemma StepKeepsCache(s: State, act: Action, t: Thread)
    requires Enabled(s, act) && !Caches(s, act, t) && t in s.caches
    ensures t in Next(s, act).caches && Next(s, act).caches[t] == s.caches[t]
  {
  }

  lemma {:induction false} RunKeepsCache(s: State, acts: seq<Action>, s': State, t: Thread)
    requires Runs(s, acts, s') && CachesNothing(s, acts, t) && t in s.caches
    ensures t in s'.caches && s'.caches[t] == s.caches[t]
    decreases |acts|
  {
    hide Enabled, Next, Caches;
    if acts != [] {
      StepKeepsCache(s, acts[0], t);
      RunKeepsCache(Next(s, acts[0]), acts[1..], s', t);
    }
  }

  /**
   * A thread that has cached x for the present lifecycle of a finds it with the first step of its
   * next lookup there, however long ago that was and whatever others did, as long as it cached
   * nothing else and a was not reset.
   */
  lemma CachedIsFound(before: seq<Action>, s: State, t: Thread, a: Arena, x: Serial,
                      acts: seq<Action>, s1: State, others: seq<Action>, s2: State, s': State)
    requires Runs(INITIAL, before, s)
    requires a in s.ids && t in s.caches && s.caches[t] == Cache(s.ids[a], x)
    requires Runs(s, acts, s1) && CachesNothing(s, acts, t)
    requires a in s1.ids && s1.ids[a] == s.ids[a]
    requires Enabled(s1, Begin(t, a)) && OthersRun(Next(s1, Begin(t, a)), others, s2, t)
    requires Steps(s2, t, s')
    ensures t in s'.pcs && s'.pcs[t] == Holds(a, x)
  {
    hide Inv, Runs, Enabled, Next, CachesNothing, Steps;
    ReachableInv(before, s);
    RunKeepsInv(s, acts, s1);
    RunKeepsCache(s, acts, s1, t);
    var s1' := Next(s1, Begin(t, a));
    NextKeepsInv(s1, Begin(t, a));
    BeginStep(s1, t, a);
    RunLeavesAlone(s1', others, s2, t, a);
    HitStep(s2, t, a, s');
  }

  lemma BeginStep(s: State, t: Thread, a: Arena)
    requires Enabled(s, Begin(t, a))
    ensures var s' := Next(s, Begin(t, a));
            t in s'.pcs && s'.pcs[t] == CompareId(a) && s'.caches == s.caches && s'.ids == s.ids
  {
  }

  lemma HitStep(s: State, t: Thread, a: Arena, s': State)
    requires Steps(s, t, s') && t in s.pcs && s.pcs[t] == CompareId(a)
    requires t in s.caches && a in s.ids && s.caches[t].lastLifecycleIdSeen == s.ids[a]
    ensures t in s'.pcs && s'.pcs[t] == Holds(a, s.caches[t].lastSerialArena)
  {
  }

  // ----- what the hint finds -----

  /**
   * Where the thread cache is of no use, the hint that the thread loads decides: it gets the hinted
   * serial arena if that is its own, and takes the fallback otherwise.
   */
  lemma HintDecides(before: seq<Action>, s: State, t: Thread, a: Arena,
                    t1: State, acts1: seq<Action>, s1: State, t2: State, acts2: seq<Action>, s2: State, s': State)
    requires Runs(INITIAL, before, s)
    requires t in s.pcs && s.pcs[t] == CompareId(a)
    requires t in s.caches && a in s.ids && s.caches[t].lastLifecycleIdSeen != s.ids[a]
    requires StepsThenOthers(s, t, t1, acts1, s1) && StepsThenOthers(s1, t, t2, acts2, s2)
    requires t in s2.pcs && (s2.pcs[t].Fallback? || Steps(s2, t, s'))
    ensures a in s1.hints
    ensures s2.pcs[t].Fallback? <==> s1.hints[a] == NULL
    ensures s2.pcs[t].Fallback? ==> s2.pcs[t] == Fallback(a)
    ensures s1.hints[a] != NULL ==>
              t in s'.pcs && s'.pcs[t] == if Owns(s1, t, a, s1.hints[a]) then Holds(a, s1.hints[a]) else Fallback(a)
  {
    hide Inv, Runs;
    ReachableInv(before, s);
    CompareStep(s, t, a, t1);
    StepKeepsInv(s, t, t1);
    RunLeavesAlone(t1, acts1, s1, t, a);
    LoadStep(s1, t, a, t2);
    StepKeepsInv(s1, t, t2);
    RunLeavesAlone(t2, acts2, s2, t, a);
    if s1.hints[a] != NULL {
      CheckStep(s2, t, a, s1.hints[a], s');
    }
  }

  lemma CompareStep(s: State, t: Thread, a: Arena, s': State)
    requires Steps(s, t, s') && t in s.pcs && s.pcs[t] == CompareId(a)
    requires t in s.caches && a in s.ids && s.caches[t].lastLifecycleIdSeen != s.ids[a]
    ensures t in s'.pcs && s'.pcs[t] == LoadHint(a)
  {
  }

  lemma LoadStep(s: State, t: Thread, a: Arena, s': State)
    requires Inv(s) && Steps(s, t, s') && t in s.pcs && s.pcs[t] == LoadHint(a)
    ensures a in s.hints && t in s'.pcs && s'.serials == s.serials
    ensures s'.pcs[t] == if s.hints[a] == NULL then Fallback(a) else CheckOwner(a, s.hints[a])
    ensures s.hints[a] != NULL ==> s.hints[a] in s.serials && s.serials[s.hints[a]].arena == a
  {
    hide IdsDiffer, SerialsListed, ThreadsTrue;
  }

  lemma CheckStep(s: State, t: Thread, a: Arena, x: Serial, s': State)
    requires Inv(s) && Steps(s, t, s') && t in s.pcs && s.pcs[t] == CheckOwner(a, x)
    requires x in s.serials && s.serials[x].arena == a
    ensures t in s'.pcs && s'.pcs[t] == if Owns(s, t, a, x) then Holds(a, x) else Fallback(a)
  {
    hide IdsDiffer, SerialsListed, HintsListed;
    assert PcTrue(s, t);
  }

  // ----- new lifecycles -----

  /** A reset leaves an arena without serial arenas and hint, and with an id that no thread can have seen. */
  lemma ResetForgets(before: seq<Action>, s: State, a: Arena)
    requires Runs(INITIAL, before, s)
    requires a in s.ids && forall t :: t in s.pcs ==> !Busy(s.pcs[t], a)
    ensures Enabled(s, Reset(a))
    ensures var s' := Next(s, Reset(a));
            && a in s'.ids && a in s'.hints && s'.hints[a] == NULL
            && (forall x :: x in s'.serials ==> s'.serials[x].arena != a)
            && (forall t :: t in s'.caches ==> s'.caches[t].lastLifecycleIdSeen != s'.ids[a])
            && (forall b :: b in s.ids ==> s.ids[b] < s'.ids[a] && b in s'.ids && (b != a ==> s'.ids[b] == s.ids[b]))
            && (forall x :: x in s.serials && s.serials[x].arena != a ==>
                  x in s'.serials && s'.serials[x] == s.serials[x])
  {
    ReachableInv(before, s);
    forall t | t in s.caches
      ensures s.caches[t].lastLifecycleIdSeen < s.nextId
    {
      assert CacheTrue(s, t);
    }
  }

  /** A new arena has an id that no thread can have seen, and no hint. */
  lemma NewArenaStartsAfresh(before: seq<Action>, s: State, a: Arena)
    requires Runs(INITIAL, before, s) && a !in s.ids
    ensures Enabled(s, NewArena(a))
    ensures var s' := Next(s, NewArena(a));
            && a in s'.ids && a in s'.hints && s'.hints[a] == NULL
            && (forall t :: t in s'.caches ==> s'.caches[t].lastLifecycleIdSeen != s'.ids[a])
            && (forall b :: b in s.ids ==> b in s'.ids && s.ids[b] == s'.ids[b] < s'.ids[a])
  {
    ReachableInv(before, s);
    forall t | t in s.caches
      ensures s.caches[t].lastLifecycleIdSeen < s.nextId
    {
      assert CacheTrue(s, t);
    }
  }

  /** The cache of a new thread matches no arena. */
  lemma NewThreadStartsAfresh(before: seq<Action>, s: State, t: Thread)
    requires Runs(INITIAL, before, s) && (t in s.pcs ==> s.pcs[t].Idle?)
    ensures Enabled(s, NewThread(t))
    ensures var s' := Next(s, NewThread(t));
            && t in s'.pcs && s'.pcs[t].Idle? && t in s'.caches && s'.caches[t].lastSerialArena == NULL
            && (forall a :: a in s'.ids ==> s'.ids[a] != s'.caches[t].lastLifecycleIdSeen)
  {
    ReachableInv(before, s);
  }

  predicate CanEnd(s: State, act: Action, t: Thread) {
    t in s.pcs
    && ((act == Finish(t) && s.pcs[t].Holds?)
        || (act == GiveUp(t) && (s.pcs[t].LoadHint? || s.pcs[t].Fallback?)))
  }

  /** A thread that holds a serial arena, or gives up, can begin its next lookup, in any arena there is. */
  lemma LookupsBeginAgain(before: seq<Action>, s: State, act: Action, t: Thread, a: Arena)
    requires Runs(INITIAL, before, s) && CanEnd(s, act, t) && a in s.ids
    ensures Enabled(s, act)
    ensures var s' := Next(s, act);
            Enabled(s', Begin(t, a)) && s'.caches == s.caches && s'.hints == s.hints && s'.serials == s.serials
    ensures var s' := Next(s, act);
            t in Next(s', Begin(t, a)).pcs && Next(s', Begin(t, a)).pcs[t] == CompareId(a)
  {
    hide Inv;
    ReachableInv(before, s);
  }
}
