/** Memory that was returned is handed out again, last returned first, without touching the rest of the block. */
module ArenaReuse {

  import opened ArenaSpec
  import Log2

  predicate CanGiveBackAll(s: State, ps: seq<nat>, size: nat) {
    && 16 <= size && ReturnClass(size) < |s.stacks|
    && (forall i :: 0 <= i < |ps| ==> CanReturn(s, ps[i], size))
    && (forall i, j :: 0 <= i < j < |ps| ==> ps[i] != ps[j])
  }

  /** Returns the regions ps, one after the other, as blocks of the same size. */
  ghost function GiveBackAll(s: State, ps: seq<nat>, size: nat): (t: State)
    requires Inv(s) && CanGiveBackAll(s, ps, size)
    ensures Inv(t)
    decreases |ps|
  {
    if ps == [] then s
    else
      PushKeepsInv(s, ps[0], size);
      OthersStayLive(s, ps, size);
      GiveBackAll(Push(s, ps[0], size), ps[1..], size)
  }

  lemma OthersStayLive(s: State, ps: seq<nat>, size: nat)
    requires Inv(s) && CanGiveBackAll(s, ps, size) && ps != []
    ensures CanGiveBackAll(Push(s, ps[0], size), ps[1..], size)
  {
    var t := Push(s, ps[0], size);
    forall i | 0 <= i < |ps| - 1
      ensures CanReturn(t, ps[1..][i], size)
    {
      assert ps[1..][i] == ps[i + 1] && CanReturn(s, ps[i + 1], size);
    }
  }

  lemma {:induction false} GiveBackAllPushes(s: State, ps: seq<nat>, size: nat)
    requires Inv(s) && CanGiveBackAll(s, ps, size)
    ensures var t, i := GiveBackAll(s, ps, size), ReturnClass(size);
            t.stacks == s.stacks[i := s.stacks[i] + ps] && t.ptr == s.ptr && t.limit == s.limit
    decreases |ps|
  {
    hide Inv, ReturnClass;
    var i := ReturnClass(size);
    if ps == [] {
      assert s.stacks[i] + [] == s.stacks[i];
    } else {
      PushKeepsInv(s, ps[0], size);
      OthersStayLive(s, ps, size);
      GiveBackAllPushes(Push(s, ps[0], size), ps[1..], size);
      assert s.stacks[i] + [ps[0]] + ps[1..] == s.stacks[i] + ps;
    }
  }

  /** Makes count array allocations of n bytes; the addresses are given in order. */
  ghost function TakeMany(s: State, n: nat, count: nat): (r: (State, seq<nat>))
    requires Inv(s)
    ensures Inv(r.0) && |r.1| == count
    decreases count
  {
    if count == 0 then (s, [])
    else
      AllocateKeepsInv(s, n);
      var (t, p) := Allocate(s, true, n);
      var (u, ps) := TakeMany(t, n, count - 1);
      (u, [p] + ps)
  }

  lemma AllocateKeepsInv(s: State, n: nat)
    requires Inv(s)
    ensures Inv(Allocate(s, true, n).0)
  {
    hide Inv;
    if CacheHit(s, n) {
      PopKeepsInv(s, n);
    } else if HasSpace(s, n / 8) {
      BumpKeepsInv(s, n / 8);
    }
  }

  lemma {:induction false} TakeManyPops(s: State, n: nat, count: nat)
    requires Inv(s) && n >= 16 && RequestClass(n) < |s.stacks| && count <= |s.stacks[RequestClass(n)]|
    ensures var (t, ps) := TakeMany(s, n, count);
            var i := RequestClass(n);
            var stack := s.stacks[i];
            && t.stacks == s.stacks[i := stack[..|stack| - count]] && t.ptr == s.ptr && t.limit == s.limit
            && forall j :: 0 <= j < count ==> ps[j] == stack[|stack| - 1 - j]
    decreases count
  {
    hide Inv, RequestClass;
    var i := RequestClass(n);
    var stack := s.stacks[i];
    if count == 0 {
      assert stack[..|stack|] == stack;
    } else {
      AllocateKeepsInv(s, n);
      var t := Allocate(s, true, n).0;
      TakeManyPops(t, n, count - 1);
      assert stack[..|stack| - 1][..|stack| - count] == stack[..|stack| - count];
    }
  }

  /**
   * Return any number of regions as blocks of one class that has a list: as many array allocations,
   * of any size for which that is the least class with big enough blocks, give them back in reverse
   * order and leave the free lists and both ends of the block as they were.
   */
  lemma LastReturnedFirstReused(s: State, ps: seq<nat>, size: nat, n: nat, c: nat)
    requires Inv(s) && InClass(size, c) && Serves(c, n) && c < |s.stacks|
    requires forall i :: 0 <= i < |ps| ==> CanReturn(s, ps[i], size)
    requires forall i, j :: 0 <= i < j < |ps| ==> ps[i] != ps[j]
    ensures CanGiveBackAll(s, ps, size)
    ensures var (t, qs) := TakeMany(GiveBackAll(s, ps, size), n, |ps|);
            && (forall j :: 0 <= j < |ps| ==> qs[j] == ps[|ps| - 1 - j])
            && t.stacks == s.stacks && t.ptr == s.ptr && t.limit == s.limit
  {
    hide Inv, RequestClass, ReturnClass, GiveBackAll, TakeMany, InClass, Serves;
    ClassHolds(size, c);
    ReturnClassIsRange(size, c);
    ClassServes(n, c);
    RequestClassIsLeast(n, c);
    GiveBackAllPushes(s, ps, size);
    var u := GiveBackAll(s, ps, size);
    var before := s.stacks[c];
    assert u.stacks[c] == before + ps;
    TakeManyPops(u, n, |ps|);
    var (t, qs) := TakeMany(u, n, |ps|);
    assert (before + ps)[..|before|] == before;
    assert t.stacks == u.stacks[c := before];
    assert t.stacks == s.stacks;
  }

  lemma ClassHolds(size: nat, c: nat)
    requires InClass(size, c)
    ensures size >= 16
  {
    Log2.Pow2Unrolls(c);
  }

  lemma ClassServes(n: nat, c: nat)
    requires Serves(c, n)
    ensures n >= 16
  {
  }
}
