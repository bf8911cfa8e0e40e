/**
 * How the allocator keeps its free lists and cleanup nodes inside the block: as machine words
 * holding byte offsets, with 0 for the null pointer.
 */
module ArenaMemory {

  import opened ArenaSpec

  /** The pointer to the first node of a free list. */
  function Head(stack: seq<nat>): int {
    if stack == [] then 0 else 8 * Top(stack)
  }

  /** Word w holds the pointer to the first node of a free list. */
  ghost predicate PointsTo(m: seq<int>, w: int, stack: seq<nat>) {
    0 <= w < |m| && m[w] == Head(stack)
  }

  /** Directory entry i points to the free list of class i. */
  ghost predicate HeadsStored(m: seq<int>, s: State) {
    forall i :: 0 <= i < |s.stacks| ==> PointsTo(m, s.dir + i, s.stacks[i])
  }

  /** The first word of a cached block points to the block that was returned before it. */
  ghost predicate LinksStored(m: seq<int>, s: State) {
    forall i, j :: 0 <= i < |s.stacks| && 0 <= j < |s.stacks[i]| ==>
      PointsTo(m, s.stacks[i][j], s.stacks[i][..j])
  }

  /** From limit to the end of the block: the cleanup nodes, newest first. */
  ghost predicate NodesStored(m: seq<int>, s: State) {
    forall k {:trigger s.nodes[k]} :: 0 <= k < |s.nodes| ==> NodeAt(m, |m| - 2 * k - 2, s.nodes[k])
  }

  ghost predicate NodeAt(m: seq<int>, w: int, node: Node) {
    0 <= w < |m| - 1 && m[w] == node.elem && m[w + 1] == node.cleanup
  }

  ghost predicate Stored(m: seq<int>, s: State) {
    Inv(s) && |m| == |s.own| && HeadsStored(m, s) && LinksStored(m, s) && NodesStored(m, s)
  }

  /** Words that stay with the same client keep their contents. */
  ghost predicate LiveKept(m: seq<int>, s: State, m': seq<int>, s': State) {
    && |m| == |s.own| == |m'| == |s'.own|
    && forall w :: 0 <= w < |m| && s.own[w].Live? && s'.own[w] == s.own[w] ==> m'[w] == m[w]
  }

  /** Words that the lists and nodes of s are stored in. */
  predicate Structural(s: State, w: nat)
    requires w < |s.own|
  {
    s.own[w] == Directory || s.own[w] == Cached(w) || s.own[w] == Cleanup
  }

  // ----- who owns the words that lists and nodes are stored in -----

  lemma EntryOwner(s: State, i: nat)
    requires Inv(s) && i < |s.stacks|
    ensures s.dir + i < |s.own| && s.own[s.dir + i] == Directory
  {
  }

  lemma BlockOwner(s: State, i: nat, j: nat)
    requires Inv(s) && i < |s.stacks| && j < |s.stacks[i]|
    ensures s.stacks[i][j] < |s.own| && s.own[s.stacks[i][j]] == Cached(s.stacks[i][j])
  {
    CachedWords(s, s.stacks[i][j], s.stacks[i][j]);
  }

  lemma NodeOwner(s: State, k: nat)
    requires Inv(s) && k < |s.nodes|
    ensures s.limit <= |s.own| - 2 * k - 2
    ensures s.own[|s.own| - 2 * k - 2] == Cleanup && s.own[|s.own| - 2 * k - 1] == Cleanup
  {
  }

  // ----- following the links -----

  /** The pointer reached from p by following n links. */
  function Follow(m: seq<int>, p: int, n: nat): int
    decreases n
  {
    if n == 0 then p
    else if 0 < p < 8 * |m| then Follow(m, m[p / 8], n - 1)
    else 0
  }

  lemma {:induction false} FollowFrom(m: seq<int>, s: State, i: nat, j: nat, n: nat)
    requires Stored(m, s) && i < |s.stacks| && n <= j <= |s.stacks[i]|
    ensures Follow(m, Head(s.stacks[i][..j]), n) == Head(s.stacks[i][..j - n])
    decreases n
  {
    hide Inv, HeadsStored, NodesStored;
    if n > 0 {
      BlockPlace(s, i, j - 1);
      assert PointsTo(m, s.stacks[i][j - 1], s.stacks[i][..j - 1]);
      FollowFrom(m, s, i, j - 1, n - 1);
    }
  }

  lemma BlockPlace(s: State, i: nat, j: nat)
    requires Inv(s) && i < |s.stacks| && j < |s.stacks[i]|
    ensures 0 < s.stacks[i][j] < |s.own|
  {
    BlockOwner(s, i, j);
  }

  /** From its directory entry, a free list leads through its blocks, newest first, and then to null. */
  lemma FreeListEnds(m: seq<int>, s: State, i: nat, n: nat)
    requires Stored(m, s) && i < |s.stacks| && n <= |s.stacks[i]|
    ensures s.dir + i < |m|
    ensures Follow(m, m[s.dir + i], n)
         == if n == |s.stacks[i]| then 0 else 8 * s.stacks[i][|s.stacks[i]| - 1 - n]
  {
    hide Inv, LinksStored, NodesStored;
    var stack := s.stacks[i];
    assert PointsTo(m, s.dir + i, stack);
    assert stack[..|stack|] == stack;
    FollowFrom(m, s, i, |stack|, n);
  }

  /** It never comes back to where it has been, although it is stored in memory that clients once held. */
  lemma FreeListIsAcyclic(m: seq<int>, s: State, i: nat, j: nat, k: nat)
    requires Stored(m, s) && i < |s.stacks| && j < k <= |s.stacks[i]|
    ensures s.dir + i < |m| && Follow(m, m[s.dir + i], j) != Follow(m, m[s.dir + i], k)
  {
    hide EndsOwned, LiveOwned, CachedOwned, DirectoryOwned, HeadsStored, LinksStored, NodesStored, Follow;
    var stack := s.stacks[i];
    FreeListEnds(m, s, i, j);
    FreeListEnds(m, s, i, k);
    BlockPlace(s, i, |stack| - 1 - j);
  }

  /** m' agrees with m on the words that lists and nodes are stored in. */
  ghost predicate SameStructure(m: seq<int>, s: State, m': seq<int>) {
    && |m| == |s.own| == |m'|
    && forall w :: 0 <= w < |m| && Structural(s, w) ==> m'[w] == m[w]
  }

  lemma ElsewhereLists(m: seq<int>, s: State, m': seq<int>)
    requires Stored(m, s) && SameStructure(m, s, m')
    ensures HeadsStored(m', s) && LinksStored(m', s)
  {
    hide EndsOwned, LiveOwned, CachedOwned, DirectoryOwned, Stacked, NodesStored, Head;
    forall i: nat | i < |s.stacks|
      ensures PointsTo(m', s.dir + i, s.stacks[i])
    {
      EntryOwner(s, i);
      assert Structural(s, s.dir + i);
    }
    forall i: nat, j: nat | i < |s.stacks| && j < |s.stacks[i]|
      ensures PointsTo(m', s.stacks[i][j], s.stacks[i][..j])
    {
      BlockOwner(s, i, j);
      assert Structural(s, s.stacks[i][j]);
    }
  }

  /** Writing anywhere else leaves them alone, in particular a client's writing to live memory. */
  lemma WriteElsewhere(m: seq<int>, s: State, m': seq<int>)
    requires Stored(m, s) && SameStructure(m, s, m')
    ensures Stored(m', s)
  {
    hide EndsOwned, LiveOwned, CachedOwned, DirectoryOwned, Stacked, HeadsStored, LinksStored;
    ElsewhereLists(m, s, m');
    forall k: nat {:trigger s.nodes[k]} | k < |s.nodes|
      ensures NodeAt(m', |m'| - 2 * k - 2, s.nodes[k])
    {
      NodeOwner(s, k);
      assert Structural(s, |m| - 2 * k - 2) && Structural(s, |m| - 2 * k - 1);
      assert NodeAt(m, |m| - 2 * k - 2, s.nodes[k]);
    }
  }

  lemma BumpStored(m: seq<int>, s: State, words: nat)
    requires Stored(m, s) && HasSpace(s, words)
    ensures Stored(m, Bump(s, words)) && LiveKept(m, s, m, Bump(s, words))
  {
    BumpKeepsInv(s, words);
    var t := Bump(s, words);
    assert t.stacks == s.stacks && t.dir == s.dir && t.nodes == s.nodes;
  }

  // ----- popping -----

  function PopMemory(m: seq<int>, s: State, n: nat): (m': seq<int>)
    requires Inv(s) && |m| == |s.own| && CacheHit(s, n)
    ensures |m'| == |m|
  {
    var i := RequestClass(n);
    EntryOwner(s, i);
    BlockOwner(s, i, |s.stacks[i]| - 1);
    m[s.dir + i := m[Top(s.stacks[i])]]
  }

  lemma PopHeads(m: seq<int>, s: State, n: nat)
    requires Stored(m, s) && CacheHit(s, n) && Inv(Pop(s, n))
    ensures HeadsStored(PopMemory(m, s, n), Pop(s, n))
  {
    hide EndsOwned, LiveOwned, CachedOwned, DirectoryOwned, Stacked, NodesStored;
    var i, t, m' := RequestClass(n), Pop(s, n), PopMemory(m, s, n);
    assert PointsTo(m, s.stacks[i][|s.stacks[i]| - 1], s.stacks[i][..|s.stacks[i]| - 1]);
    assert t.stacks == s.stacks[i := s.stacks[i][..|s.stacks[i]| - 1]] && t.dir == s.dir;
    forall j: nat | j < |t.stacks|
      ensures PointsTo(m', t.dir + j, t.stacks[j])
    {
      EntryOwner(s, j);
      assert PointsTo(m, s.dir + j, s.stacks[j]);
    }
  }

  lemma PopLinks(m: seq<int>, s: State, n: nat)
    requires Stored(m, s) && CacheHit(s, n) && Inv(Pop(s, n))
    ensures LinksStored(PopMemory(m, s, n), Pop(s, n))
  {
    hide EndsOwned, LiveOwned, CachedOwned, DirectoryOwned, Stacked, HeadsStored, NodesStored, Head;
    var i, t, m' := RequestClass(n), Pop(s, n), PopMemory(m, s, n);
    EntryOwner(s, i);
    forall j: nat, k: nat | j < |t.stacks| && k < |t.stacks[j]|
      ensures PointsTo(m', t.stacks[j][k], t.stacks[j][..k])
    {
      assert t.stacks[j][k] == s.stacks[j][k] && t.stacks[j][..k] == s.stacks[j][..k];
      BlockOwner(s, j, k);
    }
  }

  lemma PopNodes(m: seq<int>, s: State, n: nat)
    requires Stored(m, s) && CacheHit(s, n) && Inv(Pop(s, n))
    ensures NodesStored(PopMemory(m, s, n), Pop(s, n))
  {
    hide EndsOwned, LiveOwned, CachedOwned, DirectoryOwned, Stacked, HeadsStored, LinksStored;
    var t, m' := Pop(s, n), PopMemory(m, s, n);
    EntryOwner(s, RequestClass(n));
    forall k: nat {:trigger t.nodes[k]} | k < |t.nodes|
      ensures NodeAt(m', |m| - 2 * k - 2, t.nodes[k])
    {
      NodeOwner(s, k);
      assert t.nodes[k] == s.nodes[k];
    }
  }

  lemma PopLive(m: seq<int>, s: State, n: nat)
    requires Stored(m, s) && CacheHit(s, n)
    ensures LiveKept(m, s, PopMemory(m, s, n), Pop(s, n))
  {
    hide EndsOwned, LiveOwned, CachedOwned, DirectoryOwned, Stacked, HeadsStored, LinksStored, NodesStored;
    EntryOwner(s, RequestClass(n));
    PopOwn(s, n, 0);
  }

  lemma PopStored(m: seq<int>, s: State, n: nat)
    requires Stored(m, s) && CacheHit(s, n)
    ensures Stored(PopMemory(m, s, n), Pop(s, n)) && LiveKept(m, s, PopMemory(m, s, n), Pop(s, n))
  {
    hide EndsOwned, LiveOwned, CachedOwned, DirectoryOwned, Stacked, HeadsStored, LinksStored, NodesStored, LiveKept;
    PopKeepsInv(s, n);
    PopOwn(s, n, 0);
    PopHeads(m, s, n);
    PopLinks(m, s, n);
    PopNodes(m, s, n);
    PopLive(m, s, n);
  }

  // ----- pushing -----

  function PushMemory(m: seq<int>, s: State, p: nat, size: nat): (m': seq<int>)
    requires Inv(s) && |m| == |s.own| && CanReturn(s, p, size) && !Grows(s, size)
    ensures |m'| == |m|
  {
    var e := s.dir + ReturnClass(size);
    EntryOwner(s, ReturnClass(size));
    m[p := m[e]][e := 8 * p]
  }

  lemma PushStacks(s: State, p: nat, size: nat)
    requires Inv(s) && CanReturn(s, p, size) && !Grows(s, size)
    ensures Push(s, p, size).dir == s.dir
    ensures var i := ReturnClass(size); Push(s, p, size).stacks == s.stacks[i := s.stacks[i] + [p]]
  {
  }

  lemma PushHeads(m: seq<int>, s: State, p: nat, size: nat)
    requires Stored(m, s) && CanReturn(s, p, size) && !Grows(s, size) && Inv(Push(s, p, size))
    ensures HeadsStored(PushMemory(m, s, p, size), Push(s, p, size))
  {
    hide EndsOwned, LiveOwned, CachedOwned, DirectoryOwned, Stacked, LinksStored, NodesStored;
    var i, t, m' := ReturnClass(size), Push(s, p, size), PushMemory(m, s, p, size);
    PushStacks(s, p, size);
    hide Push, ReturnClass;
    EntryOwner(s, i);
    LiveStart(s, p);
    forall j: nat | j < |t.stacks|
      ensures PointsTo(m', t.dir + j, t.stacks[j])
    {
      EntryOwner(s, j);
      assert t.stacks[j] == if j == i then s.stacks[j] + [p] else s.stacks[j];
    }
  }

  lemma PushLinks(m: seq<int>, s: State, p: nat, size: nat)
    requires Stored(m, s) && CanReturn(s, p, size) && !Grows(s, size) && Inv(Push(s, p, size))
    ensures LinksStored(PushMemory(m, s, p, size), Push(s, p, size))
  {
    hide EndsOwned, LiveOwned, CachedOwned, DirectoryOwned, Stacked, NodesStored, Head;
    var i, t, m' := ReturnClass(size), Push(s, p, size), PushMemory(m, s, p, size);
    EntryOwner(s, i);
    LiveStart(s, p);
    forall j: nat, k: nat | j < |t.stacks| && k < |t.stacks[j]|
      ensures PointsTo(m', t.stacks[j][k], t.stacks[j][..k])
    {
      if j == i && k == |s.stacks[i]| {
        assert t.stacks[j][k] == p && t.stacks[j][..k] == s.stacks[j];
      } else {
        assert t.stacks[j][k] == s.stacks[j][k] && t.stacks[j][..k] == s.stacks[j][..k];
        BlockOwner(s, j, k);
      }
    }
  }

  lemma PushNodes(m: seq<int>, s: State, p: nat, size: nat)
    requires Stored(m, s) && CanReturn(s, p, size) && !Grows(s, size) && Inv(Push(s, p, size))
    ensures NodesStored(PushMemory(m, s, p, size), Push(s, p, size))
  {
    hide EndsOwned, LiveOwned, CachedOwned, DirectoryOwned, Stacked, HeadsStored, LinksStored, ReturnClass;
    var t, m' := Push(s, p, size), PushMemory(m, s, p, size);
    EntryOwner(s, ReturnClass(size));
    LiveStart(s, p);
    forall k: nat {:trigger t.nodes[k]} | k < |t.nodes|
      ensures NodeAt(m', |m| - 2 * k - 2, t.nodes[k])
    {
      NodeOwner(s, k);
      assert t.nodes[k] == s.nodes[k];
    }
  }

  lemma PushLive(m: seq<int>, s: State, p: nat, size: nat)
    requires Stored(m, s) && CanReturn(s, p, size) && !Grows(s, size)
    ensures LiveKept(m, s, PushMemory(m, s, p, size), Push(s, p, size))
  {
    hide EndsOwned, LiveOwned, CachedOwned, DirectoryOwned, Stacked, HeadsStored, LinksStored, NodesStored, ReturnClass;
    EntryOwner(s, ReturnClass(size));
    LiveStart(s, p);
    PushOwn(s, p, size, p);
  }

  lemma PushStored(m: seq<int>, s: State, p: nat, size: nat)
    requires Stored(m, s) && CanReturn(s, p, size) && !Grows(s, size)
    ensures var m', t := PushMemory(m, s, p, size), Push(s, p, size);
            Stored(m', t) && LiveKept(m, s, m', t)
  {
    hide EndsOwned, LiveOwned, CachedOwned, DirectoryOwned, Stacked, HeadsStored, LinksStored, NodesStored, LiveKept;
    PushKeepsInv(s, p, size);
    PushOwn(s, p, size, 0);
    PushHeads(m, s, p, size);
    PushLinks(m, s, p, size);
    PushNodes(m, s, p, size);
    PushLive(m, s, p, size);
  }

  // ----- growing the directory -----

  /** The words from p on are a copy of others, then null pointers. */
  ghost predicate Copied(m: seq<int>, from: nat, length: nat, p: nat, words: nat, m': seq<int>) {
    && |m| == |m'| && p + words <= |m| && from + length <= |m|
    && (forall w :: p <= w < p + words ==> m'[w] == if w < p + length then m[from + (w - p)] else 0)
    && (forall w :: 0 <= w < |m| && !(p <= w < p + words) ==> m'[w] == m[w])
  }

  lemma GrowHeads(m: seq<int>, s: State, p: nat, size: nat, m': seq<int>)
    requires Stored(m, s) && CanReturn(s, p, size) && Grows(s, size) && Inv(Grow(s, p, size))
    requires Copied(m, s.dir, |s.stacks|, p, size / 8, m')
    ensures HeadsStored(m', Grow(s, p, size))
  {
    hide EndsOwned, LiveOwned, CachedOwned, Stacked, LinksStored, NodesStored;
    var t := Grow(s, p, size);
    GrowthFits(s, size);
    forall j: nat | j < |t.stacks|
      ensures PointsTo(m', t.dir + j, t.stacks[j])
    {
      assert j < |s.stacks| ==> t.stacks[j] == s.stacks[j];
    }
  }

  lemma GrowLinks(m: seq<int>, s: State, p: nat, size: nat, m': seq<int>)
    requires Stored(m, s) && CanReturn(s, p, size) && Grows(s, size) && Inv(Grow(s, p, size))
    requires Copied(m, s.dir, |s.stacks|, p, size / 8, m')
    ensures LinksStored(m', Grow(s, p, size))
  {
    hide EndsOwned, LiveOwned, CachedOwned, DirectoryOwned, Stacked, HeadsStored, NodesStored, Head;
    var t := Grow(s, p, size);
    forall j: nat, k: nat | j < |t.stacks| && k < |t.stacks[j]|
      ensures PointsTo(m', t.stacks[j][k], t.stacks[j][..k])
    {
      GrowStack(s, p, size, j);
      BlockOwner(s, j, k);
      LiveWords(s, p, s.stacks[j][k]);
    }
  }

  lemma GrowNodes(m: seq<int>, s: State, p: nat, size: nat, m': seq<int>)
    requires Stored(m, s) && CanReturn(s, p, size) && Grows(s, size) && Inv(Grow(s, p, size))
    requires Copied(m, s.dir, |s.stacks|, p, size / 8, m')
    ensures NodesStored(m', Grow(s, p, size))
  {
    hide EndsOwned, LiveOwned, CachedOwned, DirectoryOwned, Stacked, HeadsStored, LinksStored, Grow;
    var t := Grow(s, p, size);
    GrowFields(s, p, size);
    LiveStart(s, p);
    forall k: nat {:trigger t.nodes[k]} | k < |t.nodes|
      ensures NodeAt(m', |m| - 2 * k - 2, t.nodes[k])
    {
      NodeOwner(s, k);
      LiveWords(s, p, |m| - 2 * k - 2);
      LiveWords(s, p, |m| - 2 * k - 1);
      assert t.nodes[k] == s.nodes[k];
    }
  }

  lemma GrowLive(m: seq<int>, s: State, p: nat, size: nat, m': seq<int>)
    requires Stored(m, s) && CanReturn(s, p, size) && Grows(s, size)
    requires Copied(m, s.dir, |s.stacks|, p, size / 8, m')
    ensures LiveKept(m, s, m', Grow(s, p, size))
  {
    hide EndsOwned, LiveOwned, CachedOwned, DirectoryOwned, Stacked, HeadsStored, LinksStored, NodesStored, Grow;
    var t := Grow(s, p, size);
    GrowOwn(s, p, size, 0);
    forall w: nat | w < |m| && s.own[w].Live? && t.own[w] == s.own[w]
      ensures m'[w] == m[w]
    {
      GrowOwn(s, p, size, w);
    }
  }

  lemma GrowStored(m: seq<int>, s: State, p: nat, size: nat, m': seq<int>)
    requires Stored(m, s) && CanReturn(s, p, size) && Grows(s, size)
    requires Copied(m, s.dir, |s.stacks|, p, size / 8, m')
    ensures Stored(m', Grow(s, p, size)) && LiveKept(m, s, m', Grow(s, p, size))
  {
    hide EndsOwned, LiveOwned, CachedOwned, DirectoryOwned, Stacked, HeadsStored, LinksStored, NodesStored, LiveKept;
    GrowKeepsInv(s, p, size);
    GrowOwn(s, p, size, 0);
    GrowHeads(m, s, p, size, m');
    GrowLinks(m, s, p, size, m');
    GrowNodes(m, s, p, size, m');
    GrowLive(m, s, p, size, m');
  }

  // ----- adding a cleanup node -----

  function NodeMemory(m: seq<int>, s: State, node: Node): seq<int>
    requires 2 <= s.limit <= |m|
  {
    m[s.limit - 2 := node.elem][s.limit - 1 := node.cleanup]
  }

  lemma NodeLists(m: seq<int>, s: State, node: Node)
    requires Stored(m, s) && HasSpace(s, 2) && Inv(BumpWithNode(s, 0, node))
    ensures HeadsStored(NodeMemory(m, s, node), BumpWithNode(s, 0, node))
    ensures LinksStored(NodeMemory(m, s, node), BumpWithNode(s, 0, node))
  {
    hide EndsOwned, LiveOwned, CachedOwned, DirectoryOwned, Stacked, NodesStored, Head;
    var t, m' := BumpWithNode(s, 0, node), NodeMemory(m, s, node);
    NodeOwn(s, node, s.limit - 2);
    NodeOwn(s, node, s.limit - 1);
    assert t.stacks == s.stacks && t.dir == s.dir;
    forall j: nat | j < |t.stacks|
      ensures PointsTo(m', t.dir + j, t.stacks[j])
    {
      EntryOwner(s, j);
      assert PointsTo(m, s.dir + j, s.stacks[j]);
    }
    forall j: nat, k: nat | j < |t.stacks| && k < |t.stacks[j]|
      ensures PointsTo(m', t.stacks[j][k], t.stacks[j][..k])
    {
      BlockOwner(s, j, k);
      assert PointsTo(m, s.stacks[j][k], s.stacks[j][..k]);
    }
  }

  lemma NodeNodes(m: seq<int>, s: State, node: Node)
    requires Stored(m, s) && HasSpace(s, 2) && Inv(BumpWithNode(s, 0, node))
    ensures NodesStored(NodeMemory(m, s, node), BumpWithNode(s, 0, node))
  {
    hide EndsOwned, LiveOwned, CachedOwned, DirectoryOwned, Stacked, HeadsStored, LinksStored;
    var t, m' := BumpWithNode(s, 0, node), NodeMemory(m, s, node);
    NodeOwn(s, node, s.limit - 2);
    NodeOwn(s, node, s.limit - 1);
    forall k: nat {:trigger t.nodes[k]} | k < |t.nodes|
      ensures NodeAt(m', |m| - 2 * k - 2, t.nodes[k])
    {
      if k < |s.nodes| {
        assert t.nodes[k] == s.nodes[k];
        NodeOwner(s, k);
      } else {
        assert |m| - 2 * k - 2 == s.limit - 2;
      }
    }
  }

  lemma NodeLive(m: seq<int>, s: State, node: Node)
    requires Stored(m, s) && HasSpace(s, 2)
    ensures LiveKept(m, s, NodeMemory(m, s, node), BumpWithNode(s, 0, node))
  {
    hide EndsOwned, LiveOwned, CachedOwned, DirectoryOwned, Stacked, HeadsStored, LinksStored, NodesStored;
    NodeOwn(s, node, s.limit - 2);
    NodeOwn(s, node, s.limit - 1);
  }

  lemma NodeStored(m: seq<int>, s: State, node: Node)
    requires Stored(m, s) && HasSpace(s, 2)
    ensures var m', t := NodeMemory(m, s, node), BumpWithNode(s, 0, node);
            Stored(m', t) && LiveKept(m, s, m', t)
  {
    hide EndsOwned, LiveOwned, CachedOwned, DirectoryOwned, Stacked, HeadsStored, LinksStored, NodesStored, LiveKept;
    NodeKeepsInv(s, node);
    NodeOwn(s, node, 0);
    NodeLists(m, s, node);
    NodeNodes(m, s, node);
    NodeLive(m, s, node);
  }

  lemma BumpWithNodeStored(m: seq<int>, s: State, words: nat, node: Node)
    requires Stored(m, s) && HasSpace(s, words + 2)
    ensures var m', t := NodeMemory(m, s, node), BumpWithNode(s, words, node);
            Stored(m', t) && LiveKept(m, s, m', t)
  {
    hide EndsOwned, LiveOwned, CachedOwned, DirectoryOwned, Stacked, HeadsStored, LinksStored, NodesStored;
    var b, t := Bump(s, words), BumpWithNode(s, words, node);
    BumpStored(m, s, words);
    NodeStored(m, b, node);
    assert t == BumpWithNode(b, 0, node) && b.limit == s.limit;
    forall w: nat | w < |m| && s.own[w].Live?
      ensures b.own[w] == s.own[w]
    {
      BumpOwn(s, words, w);
      UnusedAfterPtr(s, w);
    }
  }

  // ----- filling in a cleanup node -----

  /** The k-th node, counted from the one registered first, gets new contents. */
  function Refilled(s: State, k: nat, node: Node): State
    requires k < |s.nodes|
  {
    s.(nodes := s.nodes[k := node])
  }

  lemma RefilledInv(s: State, k: nat, node: Node)
    requires Inv(s) && k < |s.nodes|
    ensures Inv(Refilled(s, k, node))
  {
    hide LiveOwned, CachedOwned, DirectoryOwned, Stacked;
    LiveRefilled(s, k, node);
  }

  lemma LiveRefilled(s: State, k: nat, node: Node)
    requires Inv(s) && k < |s.nodes|
    ensures var t := Refilled(s, k, node);
            LiveOwned(t) && CachedOwned(t) && DirectoryOwned(t) && Stacked(t)
  {
  }

  lemma RefilledStored(m: seq<int>, s: State, k: nat, node: Node)
    requires Stored(m, s) && k < |s.nodes|
    ensures 0 <= |m| - 2 * k - 2
    ensures var m', t := m[|m| - 2 * k - 2 := node.elem][|m| - 2 * k - 1 := node.cleanup], Refilled(s, k, node);
            Stored(m', t) && LiveKept(m, s, m', t)
  {
    hide EndsOwned, LiveOwned, CachedOwned, DirectoryOwned, Stacked, HeadsStored, LinksStored;
    NodeOwner(s, k);
    RefilledInv(s, k, node);
    var w, t := |m| - 2 * k - 2, Refilled(s, k, node);
    var m' := m[w := node.elem][w + 1 := node.cleanup];
    RefilledLists(m, s, k, node, m');
    forall j: nat {:trigger t.nodes[j]} | j < |t.nodes|
      ensures NodeAt(m', |m| - 2 * j - 2, t.nodes[j])
    {
      NodeOwner(s, j);
      assert j != k ==> t.nodes[j] == s.nodes[j];
    }
  }

  lemma RefilledLists(m: seq<int>, s: State, k: nat, node: Node, m': seq<int>)
    requires Stored(m, s) && k < |s.nodes| && 0 <= |m| - 2 * k - 2
    requires m' == m[|m| - 2 * k - 2 := node.elem][|m| - 2 * k - 1 := node.cleanup]
    ensures HeadsStored(m', Refilled(s, k, node)) && LinksStored(m', Refilled(s, k, node))
  {
    hide EndsOwned, LiveOwned, CachedOwned, DirectoryOwned, Stacked, NodesStored, Head;
    NodeOwner(s, k);
    forall i: nat | i < |s.stacks|
      ensures PointsTo(m', s.dir + i, s.stacks[i])
    {
      EntryOwner(s, i);
      assert PointsTo(m, s.dir + i, s.stacks[i]);
    }
    forall i: nat, j: nat | i < |s.stacks| && j < |s.stacks[i]|
      ensures PointsTo(m', s.stacks[i][j], s.stacks[i][..j])
    {
      BlockOwner(s, i, j);
      assert PointsTo(m, s.stacks[i][j], s.stacks[i][..j]);
    }
  }

  /** Filling the node that was just taken is the same as taking it filled. */
  lemma RefilledNewest(s: State, words: nat, found: Node, node: Node)
    requires Inv(s) && HasSpace(s, words + 2)
    ensures |BumpWithNode(s, words, found).nodes| == |s.nodes| + 1
    ensures Refilled(BumpWithNode(s, words, found), |s.nodes|, node) == BumpWithNode(s, words, node)
  {
    hide EndsOwned, LiveOwned, CachedOwned, DirectoryOwned, Stacked;
    assert (s.nodes + [found])[|s.nodes| := node] == s.nodes + [node];
  }

  lemma UnusedAfterPtr(s: State, w: nat)
    requires Inv(s) && w < |s.own| && s.own[w].Live?
    ensures s.base <= w < s.ptr
  {
  }
}
