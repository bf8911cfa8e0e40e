/**
 * How threads find their `SerialArena` in a `ThreadSafeArena`, as a state machine with one step
 * per load or store. Threads, arenas and serial arenas are known by their addresses; the address
 * of a destroyed serial arena may be used again for another one.
 */
module ThreadCaches {

  type Thread = nat
  type Arena = nat
  type Serial = nat

  const NULL: Serial := 0

  /** The thread-local `ThreadCache`. */
  datatype Cache = Cache(lastLifecycleIdSeen: int, lastSerialArena: Serial)

  const FRESH_CACHE := Cache(-1, NULL)

  /** A serial arena that exists: whose it is, and which arena's list it is in. */
  datatype Info = Info(owner: Thread, arena: Arena)

  /** What a thread is about to do. */
  datatype Pc =
    | Idle
    | CompareId(arena: Arena)
    | LoadHint(arena: Arena)
    | CheckOwner(arena: Arena, serial: Serial)
    | Fallback(arena: Arena)
    | StoreSerial(arena: Arena, serial: Serial)
    | StoreId(arena: Arena, serial: Serial)
    | StoreHint(arena: Arena, serial: Serial)
    | Holds(arena: Arena, serial: Serial)

  datatype State = State(
    ids: map<Arena, int>,       // tag_and_id_
    hints: map<Arena, Serial>,  // hint_
    serials: map<Serial, Info>,
    nextId: int,
    caches: map<Thread, Cache>,
    pcs: map<Thread, Pc>)

  datatype Action =
    | NewThread(t: Thread)      // also one whose cache lies where a finished thread's was
    | NewArena(a: Arena)
    | Reset(a: Arena)
    | Begin(t: Thread, a: Arena)
    | Advance(t: Thread, free: Serial)
    | GiveUp(t: Thread)
    | Finish(t: Thread)

  predicate Busy(pc: Pc, a: Arena) {
    !pc.Idle? && pc.arena == a
  }

  /** x exists, belongs to t, and is in the list of the present lifecycle of a. */
  predicate Owns(s: State, t: Thread, a: Arena, x: Serial) {
    x != NULL && x in s.serials && s.serials[x] == Info(t, a)
  }

  ghost predicate OwnsNone(s: State, t: Thread, a: Arena) {
    forall x :: x in s.serials ==> s.serials[x] != Info(t, a)
  }

  /**
   * Resetting an arena must not overlap with other uses of it, as the source demands of its
   * callers. The fallback finds the thread's own serial arena in the list, or else makes one at a
   * free address. Callers that can do without a serial arena may give up instead of going on to
   * the hint or the fallback.
   */
  ghost predicate Enabled(s: State, act: Action) {
    match act
    case NewThread(t) => t in s.pcs ==> s.pcs[t].Idle?
    case NewArena(a) => a !in s.ids
    case Reset(a) => a in s.ids && forall t :: t in s.pcs ==> !Busy(s.pcs[t], a)
    case Begin(t, a) => t in s.pcs && s.pcs[t].Idle? && a in s.ids
    case Advance(t, free) =>
      && t in s.pcs && t in s.caches && !s.pcs[t].Idle? && !s.pcs[t].Holds?
      && s.pcs[t].arena in s.ids && s.pcs[t].arena in s.hints
      && (s.pcs[t].CheckOwner? ==> s.pcs[t].serial in s.serials)
      && (s.pcs[t].Fallback? ==>
            || Owns(s, t, s.pcs[t].arena, free)
            || (free != NULL && free !in s.serials && OwnsNone(s, t, s.pcs[t].arena)))
    case GiveUp(t) => t in s.pcs && (s.pcs[t].LoadHint? || s.pcs[t].Fallback?)
    case Finish(t) => t in s.pcs && s.pcs[t].Holds?
  }

  ghost function Next(s: State, act: Action): State
    requires Enabled(s, act)
  {
    match act
    case NewThread(t) => s.(caches := s.caches[t := FRESH_CACHE], pcs := s.pcs[t := Idle])
    case NewArena(a) => s.(ids := s.ids[a := s.nextId], hints := s.hints[a := NULL], nextId := s.nextId + 1)
    case Reset(a) =>
      s.(ids := s.ids[a := s.nextId], hints := s.hints[a := NULL], nextId := s.nextId + 1,
         serials := map x | x in s.serials && s.serials[x].arena != a :: s.serials[x])
    case Begin(t, a) => s.(pcs := s.pcs[t := CompareId(a)])
    case Advance(t, free) => Advanced(s, t, free)
    case GiveUp(t) => s.(pcs := s.pcs[t := Idle])
    case Finish(t) => s.(pcs := s.pcs[t := Idle])
  }

  /** One load or store of GetSerialArenaFast, of its fallback, or of CacheSerialArena. */
  ghost function Advanced(s: State, t: Thread, free: Serial): State
    requires Enabled(s, Advance(t, free))
  {
    var cache := s.caches[t];
    match s.pcs[t]
    case CompareId(a) =>
      s.(pcs := s.pcs[t := if cache.lastLifecycleIdSeen == s.ids[a]
                           then Holds(a, cache.lastSerialArena) else LoadHint(a)])
    case LoadHint(a) =>
      s.(pcs := s.pcs[t := if s.hints[a] != NULL then CheckOwner(a, s.hints[a]) else Fallback(a)])
    case CheckOwner(a, x) =>
      s.(pcs := s.pcs[t := if s.serials[x].owner == t then Holds(a, x) else Fallback(a)])
    case Fallback(a) =>
      s.(serials := s.serials[free := Info(t, a)], pcs := s.pcs[t := StoreSerial(a, free)])
    case StoreSerial(a, x) =>
      s.(caches := s.caches[t := cache.(lastSerialArena := x)], pcs := s.pcs[t := StoreId(a, x)])
    case StoreId(a, x) =>
      s.(caches := s.caches[t := cache.(lastLifecycleIdSeen := s.ids[a])], pcs := s.pcs[t := StoreHint(a, x)])
    case StoreHint(a, x) =>
      s.(hints := s.hints[a := x], pcs := s.pcs[t := Holds(a, x)])
    case _ => s
  }

  const INITIAL := State(map[], map[], map[], 0, map[], map[])

  // ----- the invariant -----

  /** Lifecycle ids in use are different from each other and from those yet to come. */
  ghost predicate IdsDiffer(s: State) {
    && s.nextId >= 0 && s.hints.Keys == s.ids.Keys
    && (forall a :: a in s.ids ==> 0 <= s.ids[a] < s.nextId)
    && (forall a, b :: a in s.ids && b in s.ids && a != b ==> s.ids[a] != s.ids[b])
  }

  /** No thread has two serial arenas in one arena. */
  ghost predicate SerialsListed(s: State) {
    && (forall x :: x in s.serials ==> x != NULL && s.serials[x].arena in s.ids)
    && (forall x, y :: x in s.serials && y in s.serials && s.serials[x] == s.serials[y] ==> x == y)
  }

  ghost predicate HintsListed(s: State) {
    forall a :: a in s.hints && s.hints[a] != NULL ==>
      s.hints[a] in s.serials && s.serials[s.hints[a]].arena == a
  }

  /** A cache with the id of an arena holds the thread's own serial arena there, except between the two stores. */
  ghost predicate CacheTrue(s: State, t: Thread)
    requires t in s.caches && t in s.pcs
  {
    && s.caches[t].lastLifecycleIdSeen < s.nextId
    && (!s.pcs[t].StoreId? ==>
          forall a :: a in s.ids && s.ids[a] == s.caches[t].lastLifecycleIdSeen ==>
            Owns(s, t, a, s.caches[t].lastSerialArena))
  }

  ghost predicate PcTrue(s: State, t: Thread)
    requires t in s.caches && t in s.pcs
  {
    var pc := s.pcs[t];
    && (!pc.Idle? ==> pc.arena in s.ids)
    && (pc.CheckOwner? ==> pc.serial != NULL && pc.serial in s.serials && s.serials[pc.serial].arena == pc.arena)
    && (pc.StoreSerial? || pc.StoreId? || pc.StoreHint? || pc.Holds? ==> Owns(s, t, pc.arena, pc.serial))
    && (pc.StoreId? ==> s.caches[t].lastSerialArena == pc.serial)
    && (pc.StoreHint? ==> s.caches[t] == Cache(s.ids[pc.arena], pc.serial))
  }

  ghost predicate ThreadsTrue(s: State) {
    && s.caches.Keys == s.pcs.Keys
    && forall t {:trigger s.pcs[t]} {:trigger s.caches[t]} :: t in s.pcs ==> CacheTrue(s, t) && PcTrue(s, t)
  }

  ghost predicate Inv(s: State) {
    IdsDiffer(s) && SerialsListed(s) && HintsListed(s) && ThreadsTrue(s)
  }

  // ----- every step keeps it -----

  /** A thread that does not move keeps its part, as long as serial arenas are at most added. */
  lemma OthersKeep(s: State, s': State, u: Thread)
    requires u in s.caches && u in s.pcs && CacheTrue(s, u) && PcTrue(s, u)
    requires u in s'.caches && u in s'.pcs && s'.caches[u] == s.caches[u] && s'.pcs[u] == s.pcs[u]
    requires s'.ids == s.ids && s'.nextId == s.nextId
    requires forall x :: x in s.serials ==> x in s'.serials && s'.serials[x] == s.serials[x]
    ensures CacheTrue(s', u) && PcTrue(s', u)
  {
  }

  lemma NewThreadKeepsInv(s: State, t: Thread)
    requires Inv(s) && Enabled(s, NewThread(t))
    ensures Inv(Next(s, NewThread(t)))
  {
    var s' := Next(s, NewThread(t));
    hide Enabled, IdsDiffer, SerialsListed, HintsListed;
    SameLists(s, s');
    SameHints(s, s');
    FreshCacheIsTrue(s', t);
    forall u {:trigger s'.pcs[u]} {:trigger s'.caches[u]} | u in s'.pcs
      ensures CacheTrue(s', u) && PcTrue(s', u)
    {
      if u != t {
        OthersKeep(s, s', u);
      }
    }
  }

  lemma FreshCacheIsTrue(s: State, t: Thread)
    requires IdsDiffer(s) && t in s.caches && t in s.pcs && s.caches[t] == FRESH_CACHE && s.pcs[t].Idle?
    ensures CacheTrue(s, t) && PcTrue(s, t)
  {
  }

  lemma SameHints(s: State, s': State)
    requires HintsListed(s) && s'.hints == s.hints && s'.serials == s.serials
    ensures HintsListed(s')
  {
  }

  lemma NewArenaKeepsLists(s: State, a: Arena)
    requires Inv(s) && Enabled(s, NewArena(a))
    ensures var s' := Next(s, NewArena(a)); IdsDiffer(s') && SerialsListed(s') && HintsListed(s')
  {
    hide ThreadsTrue;
  }

  lemma NewArenaKeepsThreads(s: State, a: Arena)
    requires Inv(s) && Enabled(s, NewArena(a))
    ensures ThreadsTrue(Next(s, NewArena(a)))
  {
    hide SerialsListed, HintsListed;
    var s' := Next(s, NewArena(a));
    forall u {:trigger s'.pcs[u]} {:trigger s'.caches[u]} | u in s'.pcs
      ensures CacheTrue(s', u) && PcTrue(s', u)
    {
      assert CacheTrue(s, u) && PcTrue(s, u);
    }
  }

  lemma ResetKeepsLists(s: State, a: Arena)
    requires Inv(s) && Enabled(s, Reset(a))
    ensures var s' := Next(s, Reset(a)); IdsDiffer(s') && SerialsListed(s') && HintsListed(s')
  {
    hide ThreadsTrue;
  }

  /** Nobody's id matches the fresh one, and the serial arenas of other arenas stay. */
  lemma ResetKeepsThreads(s: State, a: Arena)
    requires Inv(s) && Enabled(s, Reset(a))
    ensures ThreadsTrue(Next(s, Reset(a)))
  {
    hide SerialsListed, HintsListed;
    var s' := Next(s, Reset(a));
    forall u {:trigger s'.pcs[u]} {:trigger s'.caches[u]} | u in s'.pcs
      ensures CacheTrue(s', u) && PcTrue(s', u)
    {
      assert CacheTrue(s, u) && PcTrue(s, u) && !Busy(s.pcs[u], a);
    }
  }

  /** A step that changes only the moving thread's program counter. */
  lemma PcStepKeepsInv(s: State, t: Thread, pc: Pc)
    requires Inv(s) && t in s.pcs && !s.pcs[t].StoreId?
    requires var s' := s.(pcs := s.pcs[t := pc]); t in s'.caches && PcTrue(s', t)
    requires !pc.StoreId?
    ensures Inv(s.(pcs := s.pcs[t := pc]))
  {
    hide IdsDiffer, SerialsListed, HintsListed;
    var s' := s.(pcs := s.pcs[t := pc]);
    SameLists(s, s');
    SameHints(s, s');
    assert CacheTrue(s, t);
    CacheKept(s, s', t);
    forall u {:trigger s'.pcs[u]} {:trigger s'.caches[u]} | u in s'.pcs
      ensures CacheTrue(s', u) && PcTrue(s', u)
    {
      if u != t {
        OthersKeep(s, s', u);
      }
    }
  }

  lemma CacheKept(s: State, s': State, t: Thread)
    requires t in s.caches && t in s.pcs && CacheTrue(s, t) && !s.pcs[t].StoreId?
    requires t in s'.pcs && s'.caches == s.caches && s'.ids == s.ids && s'.nextId == s.nextId
    requires s'.serials == s.serials
    ensures CacheTrue(s', t)
  {
  }

  lemma FallbackKeepsLists(s: State, t: Thread, free: Serial)
    requires Inv(s) && Enabled(s, Advance(t, free)) && s.pcs[t].Fallback?
    ensures var s' := Advanced(s, t, free); IdsDiffer(s') && SerialsListed(s') && HintsListed(s')
  {
    hide ThreadsTrue;
  }

  lemma FallbackKeepsThreads(s: State, t: Thread, free: Serial)
    requires Inv(s) && Enabled(s, Advance(t, free)) && s.pcs[t].Fallback?
    ensures ThreadsTrue(Advanced(s, t, free))
  {
    hide IdsDiffer, SerialsListed, HintsListed;
    var s' := Advanced(s, t, free);
    assert CacheTrue(s, t) && PcTrue(s, t);
    forall u {:trigger s'.pcs[u]} {:trigger s'.caches[u]} | u in s'.pcs
      ensures CacheTrue(s', u) && PcTrue(s', u)
    {
      if u != t {
        OthersKeep(s, s', u);
      }
    }
  }

  /** The three stores of CacheSerialArena. */
  lemma StoreKeepsLists(s: State, t: Thread, free: Serial)
    requires Inv(s) && Enabled(s, Advance(t, free))
    requires s.pcs[t].StoreSerial? || s.pcs[t].StoreId? || s.pcs[t].StoreHint?
    ensures var s' := Advanced(s, t, free); IdsDiffer(s') && SerialsListed(s') && HintsListed(s')
  {
    hide ThreadsTrue, Advanced, IdsDiffer, SerialsListed;
    var s' := Advanced(s, t, free);
    StoresChange(s, t, free);
    if s.pcs[t].StoreHint? {
      OwnsWhatItStores(s, t);
    }
    SameLists(s, s');
  }

  /** Of what all threads can see, the stores change at most the hint of one arena. */
  lemma StoresChange(s: State, t: Thread, free: Serial)
    requires Enabled(s, Advance(t, free))
    requires s.pcs[t].StoreSerial? || s.pcs[t].StoreId? || s.pcs[t].StoreHint?
    ensures var s' := Advanced(s, t, free);
            && s'.ids == s.ids && s'.serials == s.serials && s'.nextId == s.nextId
            && t in s.pcs && s.pcs[t].arena in s.hints
            && s'.hints == if s.pcs[t].StoreHint? then s.hints[s.pcs[t].arena := s.pcs[t].serial] else s.hints
  {
  }

  lemma SameLists(s: State, s': State)
    requires IdsDiffer(s) && SerialsListed(s)
    requires s'.ids == s.ids && s'.serials == s.serials && s'.nextId == s.nextId && s'.hints.Keys == s.hints.Keys
    ensures IdsDiffer(s') && SerialsListed(s')
  {
  }

  lemma HasCache(s: State, t: Thread)
    requires Inv(s) && t in s.pcs
    ensures t in s.caches
  {
  }

  lemma OwnsWhatItStores(s: State, t: Thread)
    requires Inv(s) && t in s.pcs && s.pcs[t].StoreHint?
    ensures Owns(s, t, s.pcs[t].arena, s.pcs[t].serial)
  {
    assert PcTrue(s, t);
  }

  lemma StoreKeepsThreads(s: State, t: Thread, free: Serial)
    requires Inv(s) && Enabled(s, Advance(t, free))
    requires s.pcs[t].StoreSerial? || s.pcs[t].StoreId? || s.pcs[t].StoreHint?
    ensures ThreadsTrue(Advanced(s, t, free))
  {
    hide SerialsListed, HintsListed;
    var s' := Advanced(s, t, free);
    assert CacheTrue(s, t) && PcTrue(s, t);
    forall u {:trigger s'.pcs[u]} {:trigger s'.caches[u]} | u in s'.pcs
      ensures CacheTrue(s', u) && PcTrue(s', u)
    {
      if u != t {
        OthersKeep(s, s', u);
      }
    }
  }

  lemma AdvanceKeepsInv(s: State, t: Thread, free: Serial)
    requires Inv(s) && Enabled(s, Advance(t, free))
    ensures Inv(Advanced(s, t, free))
  {
    assert CacheTrue(s, t) && PcTrue(s, t);
    match s.pcs[t]
    case CompareId(_) | LoadHint(_) | CheckOwner(_, _) =>
      PcStepKeepsInv(s, t, Advanced(s, t, free).pcs[t]);
    case Fallback(_) =>
      hide IdsDiffer, SerialsListed, HintsListed, ThreadsTrue;
      FallbackKeepsLists(s, t, free);
      FallbackKeepsThreads(s, t, free);
    case _ =>
      hide IdsDiffer, SerialsListed, HintsListed, ThreadsTrue;
      StoreKeepsLists(s, t, free);
      StoreKeepsThreads(s, t, free);
  }

  /** Starting a lookup, or being done with one. */
  lemma OutsideStepKeepsInv(s: State, act: Action)
    requires Inv(s) && Enabled(s, act) && (act.Begin? || act.GiveUp? || act.Finish?)
    ensures Inv(Next(s, act))
  {
    hide Inv;
    var t, pc := act.t, if act.Begin? then CompareId(act.a) else Idle;
    HasCache(s, t);
    PcStepKeepsInv(s, t, pc);
  }

  lemma NextKeepsInv(s: State, act: Action)
    requires Inv(s) && Enabled(s, act)
    ensures Inv(Next(s, act))
  {
    hide IdsDiffer, SerialsListed, HintsListed, ThreadsTrue, Enabled;
    match act
    case NewThread(t) => NewThreadKeepsInv(s, t);
    case NewArena(a) =>
      NewArenaKeepsLists(s, a);
      NewArenaKeepsThreads(s, a);
    case Reset(a) =>
      ResetKeepsLists(s, a);
      ResetKeepsThreads(s, a);
    case Advance(t, free) => AdvanceKeepsInv(s, t, free);
    case _ => OutsideStepKeepsInv(s, act);
  }

  // ----- every interleaving -----

  ghost predicate Runs(s: State, acts: seq<Action>, t: State)
    decreases |acts|
  {
    if acts == [] then s == t
    else Enabled(s, acts[0]) && Runs(Next(s, acts[0]), acts[1..], t)
  }

  lemma {:induction false} RunKeepsInv(s: State, acts: seq<Action>, t: State)
    requires Inv(s) && Runs(s, acts, t)
    ensures Inv(t)
    decreases |acts|
  {
    hide Inv, Enabled, Next;
    if acts != [] {
      NextKeepsInv(s, acts[0]);
      RunKeepsInv(Next(s, acts[0]), acts[1..], t);
    }
  }

  /** A thread that was given a serial arena was given its own, in the present lifecycle of the arena it asked for. */
  lemma LookupGivesOwnSerial(acts: seq<Action>, s: State, t: Thread)
    requires Runs(INITIAL, acts, s) && t in s.pcs && s.pcs[t].Holds?
    ensures Owns(s, t, s.pcs[t].arena, s.pcs[t].serial)
  {
    RunKeepsInv(INITIAL, acts, s);
    assert PcTrue(s, t);
  }

  /** The owner check never reads a serial arena that no longer exists. */
  lemma OwnerCheckIsSafe(acts: seq<Action>, s: State, t: Thread)
    requires Runs(INITIAL, acts, s) && t in s.pcs && s.pcs[t].CheckOwner?
    ensures s.pcs[t].serial in s.serials
  {
    RunKeepsInv(INITIAL, acts, s);
    assert PcTrue(s, t);
  }

  // ----- lookups agree as long as the lifecycle lasts -----

  lemma StepKeepsOwner(s: State, act: Action, t: Thread, a: Arena, x: Serial)
    requires Inv(s) && Enabled(s, act) && Owns(s, t, a, x)
    ensures a in s.ids && a in Next(s, act).ids && s.ids[a] <= Next(s, act).ids[a]
    ensures Next(s, act).ids[a] == s.ids[a] ==> Owns(Next(s, act), t, a, x)
  {
    hide ThreadsTrue, HintsListed;
  }

  lemma {:induction false} RunRaisesIds(s: State, acts: seq<Action>, s': State, a: Arena)
    requires Inv(s) && Runs(s, acts, s') && a in s.ids
    ensures a in s'.ids && s.ids[a] <= s'.ids[a]
    decreases |acts|
  {
    hide Inv, Enabled;
    if acts != [] {
      StepRaisesId(s, acts[0], a);
      NextKeepsInv(s, acts[0]);
      RunRaisesIds(Next(s, acts[0]), acts[1..], s', a);
    }
  }

  lemma StepRaisesId(s: State, act: Action, a: Arena)
    requires Inv(s) && Enabled(s, act) && a in s.ids
    ensures a in Next(s, act).ids && s.ids[a] <= Next(s, act).ids[a]
  {
    hide ThreadsTrue, HintsListed, SerialsListed;
  }

  lemma {:induction false} RunKeepsOwner(s: State, acts: seq<Action>, s': State, t: Thread, a: Arena, x: Serial)
    requires Inv(s) && Runs(s, acts, s') && Owns(s, t, a, x)
    requires a in s.ids && a in s'.ids && s'.ids[a] == s.ids[a]
    ensures Owns(s', t, a, x)
    decreases |acts|
  {
    hide Inv, Enabled, Owns, Next;
    if acts != [] {
      StepKeepsOwner(s, acts[0], t, a, x);
      NextKeepsInv(s, acts[0]);
      RunRaisesIds(Next(s, acts[0]), acts[1..], s', a);
      RunKeepsOwner(Next(s, acts[0]), acts[1..], s', t, a, x);
    }
  }

  /** Two lookups of one thread in one arena give the same serial arena, unless the arena was reset in between. */
  lemma LookupsAgree(before: seq<Action>, s: State, acts: seq<Action>, s': State, t: Thread)
    requires Runs(INITIAL, before, s) && Runs(s, acts, s')
    requires t in s.pcs && s.pcs[t].Holds? && t in s'.pcs && s'.pcs[t].Holds?
    requires s.pcs[t].arena == s'.pcs[t].arena
    ensures s.pcs[t].arena in s.ids && s.pcs[t].arena in s'.ids
    ensures s.ids[s.pcs[t].arena] == s'.ids[s.pcs[t].arena] ==> s.pcs[t].serial == s'.pcs[t].serial
  {
    RunKeepsInv(INITIAL, before, s);
    RunKeepsInv(s, acts, s');
    assert PcTrue(s, t) && PcTrue(s', t);
    var a, x := s.pcs[t].arena, s.pcs[t].serial;
    if s.ids[a] == s'.ids[a] {
      RunKeepsOwner(s, acts, s', t, a, x);
    }
  }

  /**
   * Within one lifecycle of an arena no two threads are ever given the same serial arena of it,
   * neither at the same time nor, whatever happens in between, one after the other.
   */
  lemma NoSharedSerial(before: seq<Action>, s: State, acts: seq<Action>, s': State, t: Thread, u: Thread)
    requires Runs(INITIAL, before, s) && Runs(s, acts, s')
    requires t in s.pcs && s.pcs[t].Holds? && u in s'.pcs && s'.pcs[u].Holds?
    requires s.pcs[t].arena in s.ids && s.pcs[t].arena in s'.ids
    requires s.ids[s.pcs[t].arena] == s'.ids[s.pcs[t].arena]
    requires s.pcs[t].serial == s'.pcs[u].serial
    ensures t == u
  {
    RunKeepsInv(INITIAL, before, s);
    RunKeepsInv(s, acts, s');
    assert PcTrue(s, t) && PcTrue(s', u);
    RunKeepsOwner(s, acts, s', t, s.pcs[t].arena, s.pcs[t].serial);
  }
}
