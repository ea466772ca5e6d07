/**
 The pool allocator: a free list under a tagged head, popped by `allocate`, pushed by `deallocate`, and extended a
 block at a time. Every access to the head or to a chunk's next field is a step of its own. A chunk in use holds the
 user's bytes where its next field was, so a step may leave anything there.
 */
module PoolAllocator {

  type Tid = nat
  type Chunk = nat

  datatype Ptr = Null | To(chunk: Chunk)

  /** `block_ptr`, with an unbounded tag. */
  datatype Head = Head(ptr: Ptr, tag: nat)

  datatype Pc =
    | AllocLoad                              // about to load the head
    | AllocTest(h: Head)                     // about to see whether the head is null
    | AllocRead(h: Head)                     // about to read the next field of the head chunk
    | AllocCas(h: Head, next: Ptr)           // about to exchange the head
    | BlockFlag                              // about to claim the right to allocate a block
    | BlockLoad(block: seq<Chunk>)           // block made and linked, about to load the head
    | BlockLink(block: seq<Chunk>, h: Head)  // about to link its last chunk to the head
    | BlockCas(block: seq<Chunk>, h: Head)
    | BlockUnflag
    | FreeLoad(c: Chunk)
    | FreeLink(c: Chunk, h: Head)
    | FreeCas(c: Chunk, h: Head)

  /**
   `owners` counts the live owners of each chunk; `free` records the chain, and `carrier` the thread that has a
   chunk on its way to the free list.
   */
  datatype State = State(
    head: Head, next: map<Chunk, Ptr>, allocating: bool, pc: map<Tid, Pc>,
    owners: multiset<Chunk>, free: seq<Chunk>, carrier: map<Chunk, Tid>)

  ghost predicate Init(s: State) { s == State(Head(Null, 0), map[], false, map[], multiset{}, [], map[]) }

  // ---------------------------------------------------------------------------------------
  // Steps
  // ---------------------------------------------------------------------------------------

  ghost predicate At(s: State, t: Tid, p: Pc) { t in s.pc && s.pc[t] == p }

  ghost predicate BeginAllocate(s: State, s': State, t: Tid) {
    t !in s.pc && s' == s.(pc := s.pc[t := AllocLoad])
  }

  ghost predicate AllocateLoad(s: State, s': State, t: Tid) {
    At(s, t, AllocLoad) && s' == s.(pc := s.pc[t := AllocTest(s.head)])
  }

  ghost predicate AllocateTest(s: State, s': State, t: Tid) {
    && t in s.pc && s.pc[t].AllocTest?
    && s' == s.(pc := s.pc[t := if s.pc[t].h.ptr == Null then BlockFlag else AllocRead(s.pc[t].h)])
  }

  /** The chunk may be in use by now; what is read is then thrown away. */
  ghost predicate AllocateRead(s: State, s': State, t: Tid) {
    && t in s.pc && s.pc[t].AllocRead? && s.pc[t].h.ptr.To? && s.pc[t].h.ptr.chunk in s.next
    && s' == s.(pc := s.pc[t := AllocCas(s.pc[t].h, s.next[s.pc[t].h.ptr.chunk])])
  }

  ghost predicate AllocateCas(s: State, s': State, t: Tid) {
    && t in s.pc && s.pc[t].AllocCas? && s.pc[t].h.ptr.To?
    && var h := s.pc[t].h;
       if s.head == h
       then s' == s.(head := Head(s.pc[t].next, h.tag + 1), pc := s.pc - {t},
                     owners := s.owners + multiset{h.ptr.chunk}, free := if s.free == [] then [] else s.free[1..])
       else s' == s.(pc := s.pc[t := AllocTest(s.head)])
  }

  ghost predicate LinkedBlock(next: map<Chunk, Ptr>, block: seq<Chunk>) {
    forall i :: 0 <= i < |block| - 1 ==> LinkAt(next, block, i)
  }

  ghost predicate LinkAt(next: map<Chunk, Ptr>, l: seq<Chunk>, i: nat)
    requires i < |l| - 1
  {
    l[i] in next && next[l[i]] == To(l[i + 1])
  }

  ghost predicate Distinct(l: seq<Chunk>) { forall i, j :: 0 <= i < j < |l| ==> l[i] != l[j] }

  /** `allocate_block`: one thread at a time makes a block of new chunks; the others go back to load the head. */
  ghost predicate BlockClaim(s: State, s': State, t: Tid, block: seq<Chunk>, next: map<Chunk, Ptr>) {
    && At(s, t, BlockFlag)
    && if s.allocating then s' == s.(pc := s.pc[t := AllocLoad])
       else && block != [] && Distinct(block) && (forall c :: c in block ==> c !in s.next)
            && next.Keys == s.next.Keys + (set c | c in block) && (forall c :: c in s.next ==> next[c] == s.next[c])
            && LinkedBlock(next, block)
            && s' == s.(allocating := true, next := next, pc := s.pc[t := BlockLoad(block)],
                         carrier := s.carrier + map c | c in block :: t)
  }

  ghost predicate BlockReadHead(s: State, s': State, t: Tid) {
    && t in s.pc && s.pc[t].BlockLoad? && s' == s.(pc := s.pc[t := BlockLink(s.pc[t].block, s.head)])
  }

  ghost predicate BlockWriteLink(s: State, s': State, t: Tid) {
    && t in s.pc && s.pc[t].BlockLink? && s.pc[t].block != []
    && var b, h := s.pc[t].block, s.pc[t].h;
       s' == s.(next := s.next[b[|b| - 1] := h.ptr], pc := s.pc[t := BlockCas(b, h)])
  }

  ghost predicate BlockExchange(s: State, s': State, t: Tid) {
    && t in s.pc && s.pc[t].BlockCas? && s.pc[t].block != []
    && var b, h := s.pc[t].block, s.pc[t].h;
       if s.head == h
       then s' == s.(head := Head(To(b[0]), h.tag + 1), pc := s.pc[t := BlockUnflag], free := b + s.free,
                     carrier := s.carrier - set c | c in b)
       else s' == s.(pc := s.pc[t := BlockLink(b, s.head)])
  }

  ghost predicate BlockDone(s: State, s': State, t: Tid) {
    At(s, t, BlockUnflag) && s' == s.(allocating := false, pc := s.pc[t := AllocLoad])
  }

  /** Any thread may give back a chunk that has an owner. */
  ghost predicate BeginDeallocate(s: State, s': State, t: Tid, c: Chunk) {
    && t !in s.pc && c in s.owners
    && s' == s.(pc := s.pc[t := FreeLoad(c)], owners := s.owners - multiset{c}, carrier := s.carrier[c := t])
  }

  ghost predicate DeallocateLoad(s: State, s': State, t: Tid) {
    t in s.pc && s.pc[t].FreeLoad? && s' == s.(pc := s.pc[t := FreeLink(s.pc[t].c, s.head)])
  }

  ghost predicate DeallocateLink(s: State, s': State, t: Tid) {
    && t in s.pc && s.pc[t].FreeLink?
    && s' == s.(next := s.next[s.pc[t].c := s.pc[t].h.ptr], pc := s.pc[t := FreeCas(s.pc[t].c, s.pc[t].h)])
  }

  ghost predicate DeallocateCas(s: State, s': State, t: Tid) {
    && t in s.pc && s.pc[t].FreeCas?
    && var c, h := s.pc[t].c, s.pc[t].h;
       if s.head == h
       then s' == s.(head := Head(To(c), h.tag + 1), pc := s.pc - {t}, free := [c] + s.free, carrier := s.carrier - {c})
       else s' == s.(pc := s.pc[t := FreeLink(c, s.head)])
  }

  /** An owner writes to its chunk, over the next field. */
  ghost predicate UserWrite(s: State, s': State, c: Chunk, garbage: Ptr) {
    c in s.owners && s' == s.(next := s.next[c := garbage])
  }

  datatype Action =
    | DoBeginAllocate | DoAllocateLoad | DoAllocateTest | DoAllocateRead | DoAllocateCas
    | DoBlockClaim(block: seq<Chunk>, next: map<Chunk, Ptr>) | DoBlockReadHead | DoBlockWriteLink | DoBlockExchange | DoBlockDone
    | DoBeginDeallocate(c: Chunk) | DoDeallocateLoad | DoDeallocateLink | DoDeallocateCas
    | DoUserWrite(c: Chunk, garbage: Ptr)

  ghost predicate NextStep(s: State, s': State, t: Tid, a: Action) {
    match a
    case DoBeginAllocate => BeginAllocate(s, s', t)
    case DoAllocateLoad => AllocateLoad(s, s', t)
    case DoAllocateTest => AllocateTest(s, s', t)
    case DoAllocateRead => AllocateRead(s, s', t)
    case DoAllocateCas => AllocateCas(s, s', t)
    case DoBlockClaim(block, next) => BlockClaim(s, s', t, block, next)
    case DoBlockReadHead => BlockReadHead(s, s', t)
    case DoBlockWriteLink => BlockWriteLink(s, s', t)
    case DoBlockExchange => BlockExchange(s, s', t)
    case DoBlockDone => BlockDone(s, s', t)
    case DoBeginDeallocate(c) => BeginDeallocate(s, s', t, c)
    case DoDeallocateLoad => DeallocateLoad(s, s', t)
    case DoDeallocateLink => DeallocateLink(s, s', t)
    case DoDeallocateCas => DeallocateCas(s, s', t)
    case DoUserWrite(c, garbage) => UserWrite(s, s', c, garbage)
  }

  ghost predicate Next(s: State, s': State) { exists t, a :: NextStep(s, s', t, a) }

  ghost predicate IsRun(run: seq<State>) {
    && |run| > 0 && Init(run[0])
    && forall i :: 0 <= i < |run| - 1 ==> Next(run[i], run[i + 1])
  }

  // ---------------------------------------------------------------------------------------
  // Invariant
  // ---------------------------------------------------------------------------------------

  predicate HasBlock(p: Pc) { p.BlockLoad? || p.BlockLink? || p.BlockCas? }

  predicate Frees(p: Pc) { p.FreeLoad? || p.FreeLink? || p.FreeCas? }

  predicate HasHead(p: Pc) { p.AllocTest? || p.AllocRead? || p.AllocCas? || p.BlockLink? || p.BlockCas? || p.FreeLink? || p.FreeCas? }

  /** Thread `t` has chunk `c` on its way to the free list. */
  ghost predicate Carries(s: State, t: Tid, c: Chunk) {
    t in s.pc && ((HasBlock(s.pc[t]) && c in s.pc[t].block) || (Frees(s.pc[t]) && s.pc[t].c == c))
  }

  function First(l: seq<Chunk>): Ptr { if l == [] then Null else To(l[0]) }

  /** The free list hangs together from the head to null. */
  ghost predicate Chained(s: State) {
    && Distinct(s.free) && s.head.ptr == First(s.free) && LinkedBlock(s.next, s.free)
    && (forall c :: c in s.free ==> c in s.next)
    && (s.free != [] ==> s.next[s.free[|s.free| - 1]] == Null)
  }

  /** Free chunks, owned chunks and chunks carried by each thread are apart, and are all chunks there are. */
  ghost predicate Parted(s: State) {
    && (forall c :: c in s.owners ==> s.owners[c] == 1 && c in s.next && c !in s.free && c !in s.carrier)
    && (forall c :: c in s.carrier ==> c in s.next && c !in s.free && Carries(s, s.carrier[c], c))
    && (forall t, c :: Carries(s, t, c) ==> c in s.carrier && s.carrier[c] == t)
    && (forall c :: c in s.next ==> c in s.free || c in s.owners || c in s.carrier)
  }

  /** A head seen earlier with the present tag is the present head. */
  ghost predicate Seen(s: State, h: Head) {
    && h.tag <= s.head.tag && (h.tag == s.head.tag ==> h == s.head) && (h.ptr.To? ==> h.ptr.chunk in s.next)
  }

  ghost predicate ThreadOk(s: State, t: Tid)
    requires t in s.pc
  {
    var p := s.pc[t];
    && (HasHead(p) ==> Seen(s, p.h))
    && (p.AllocRead? || p.AllocCas? ==> p.h.ptr.To?)
    && (p.AllocCas? && p.h == s.head ==> p.next == s.next[p.h.ptr.chunk])
    && (HasBlock(p) ==>
          p.block != [] && Distinct(p.block) && LinkedBlock(s.next, p.block) && forall c :: c in p.block ==> c in s.next)
    && (p.BlockCas? ==> s.next[p.block[|p.block| - 1]] == p.h.ptr)
    && (p.FreeCas? ==> p.c in s.next && s.next[p.c] == p.h.ptr)
  }

  /** At most one thread is making a block, and while it is the flag is up. */
  ghost predicate OneBlock(s: State) {
    && (forall t, u :: t in s.pc && u in s.pc && MakesBlock(s.pc[t]) && MakesBlock(s.pc[u]) ==> t == u)
    && (forall t :: t in s.pc && MakesBlock(s.pc[t]) ==> s.allocating)
  }

  predicate MakesBlock(p: Pc) { HasBlock(p) || p.BlockUnflag? }

  ghost predicate Inv(s: State) {
    Chained(s) && Parted(s) && OneBlock(s) && forall t :: t in s.pc ==> ThreadOk(s, t)
  }

  // ---------------------------------------------------------------------------------------
  // Every step keeps it
  // ---------------------------------------------------------------------------------------

  /** A step that leaves chunks, chain and owners alone, and carries what was carried. */
  ghost predicate SameParts(s: State, s': State) {
    && s'.owners == s.owners && s'.free == s.free && s'.carrier == s.carrier && s'.next.Keys == s.next.Keys
    && s'.head == s.head && forall u, c :: Carries(s', u, c) <==> Carries(s, u, c)
  }

  lemma SameParted(s: State, s': State)
    requires Parted(s) && SameParts(s, s')
    ensures Parted(s')
  {
    forall c | c in s'.carrier ensures Carries(s', s'.carrier[c], c) {}
    forall u, c | Carries(s', u, c) ensures c in s'.carrier && s'.carrier[c] == u { assert Carries(s, u, c); }
  }

  lemma HeadSeen(s: State)
    requires Chained(s)
    ensures Seen(s, s.head)
  {
  }

  lemma SameChained(s: State, s': State)
    requires Chained(s) && s'.free == s.free && s'.head == s.head && s'.next == s.next
    ensures Chained(s')
  {
  }

  /** Only thread `t` has moved, and it brings what it brought. */
  lemma MovedParts(s: State, s': State, t: Tid)
    requires s'.pc.Keys + {t} == s.pc.Keys + {t} && forall u :: u in s.pc && u != t ==> u in s'.pc && s'.pc[u] == s.pc[u]
    requires forall c :: Carries(s', t, c) <==> Carries(s, t, c)
    ensures forall u, c :: Carries(s', u, c) <==> Carries(s, u, c)
  {
  }

  /** A thread that has not moved is as it was while head and next fields are. */
  lemma OthersOk(s: State, s': State, t: Tid)
    requires (forall u :: u in s.pc ==> ThreadOk(s, u)) && s'.head == s.head && s'.next == s.next
    requires forall u :: u in s'.pc && u != t ==> u in s.pc && s'.pc[u] == s.pc[u]
    requires t in s'.pc ==> ThreadOk(s', t)
    ensures forall u :: u in s'.pc ==> ThreadOk(s', u)
  {
    forall u | u in s'.pc ensures ThreadOk(s', u) { assert u != t ==> ThreadOk(s, u); }
  }

  lemma BeginAllocateKeeps(s: State, s': State, t: Tid)
    requires Inv(s) && BeginAllocate(s, s', t)
    ensures Inv(s')
  {
    hide Parted, Chained;
    forall c ensures Carries(s', t, c) <==> Carries(s, t, c) {}
    MovedParts(s, s', t);
    SameParted(s, s');
    SameChained(s, s');
    HeadSeen(s);
    OthersOk(s, s', t);
  }

  lemma AllocateLoadKeeps(s: State, s': State, t: Tid)
    requires Inv(s) && AllocateLoad(s, s', t)
    ensures Inv(s')
  {
    hide Parted, Chained;
    forall c ensures Carries(s', t, c) <==> Carries(s, t, c) {}
    MovedParts(s, s', t);
    SameParted(s, s');
    SameChained(s, s');
    HeadSeen(s);
    assert ThreadOk(s, t);
    OthersOk(s, s', t);
  }

  lemma AllocateTestKeeps(s: State, s': State, t: Tid)
    requires Inv(s) && AllocateTest(s, s', t)
    ensures Inv(s')
  {
    hide Parted, Chained;
    forall c ensures Carries(s', t, c) <==> Carries(s, t, c) {}
    MovedParts(s, s', t);
    SameParted(s, s');
    SameChained(s, s');
    HeadSeen(s);
    assert ThreadOk(s, t);
    OthersOk(s, s', t);
  }

  lemma AllocateReadKeeps(s: State, s': State, t: Tid)
    requires Inv(s) && AllocateRead(s, s', t)
    ensures Inv(s')
  {
    hide Parted, Chained;
    forall c ensures Carries(s', t, c) <==> Carries(s, t, c) {}
    MovedParts(s, s', t);
    SameParted(s, s');
    SameChained(s, s');
    HeadSeen(s);
    assert ThreadOk(s, t);
    OthersOk(s, s', t);
  }

  lemma BlockReadHeadKeeps(s: State, s': State, t: Tid)
    requires Inv(s) && BlockReadHead(s, s', t)
    ensures Inv(s')
  {
    hide Parted, Chained;
    forall c ensures Carries(s', t, c) <==> Carries(s, t, c) {}
    MovedParts(s, s', t);
    SameParted(s, s');
    SameChained(s, s');
    HeadSeen(s);
    assert ThreadOk(s, t);
    OthersOk(s, s', t);
  }

  lemma BlockDoneKeeps(s: State, s': State, t: Tid)
    requires Inv(s) && BlockDone(s, s', t)
    ensures Inv(s')
  {
    hide Parted, Chained;
    forall c ensures Carries(s', t, c) <==> Carries(s, t, c) {}
    MovedParts(s, s', t);
    SameParted(s, s');
    SameChained(s, s');
    HeadSeen(s);
    assert ThreadOk(s, t);
    OthersOk(s, s', t);
  }

  lemma DeallocateLoadKeeps(s: State, s': State, t: Tid)
    requires Inv(s) && DeallocateLoad(s, s', t)
    ensures Inv(s')
  {
    hide Parted, Chained;
    forall c ensures Carries(s', t, c) <==> Carries(s, t, c) {}
    MovedParts(s, s', t);
    SameParted(s, s');
    SameChained(s, s');
    HeadSeen(s);
    assert ThreadOk(s, t);
    OthersOk(s, s', t);
  }

  lemma AllocateRetryKeeps(s: State, s': State, t: Tid)
    requires Inv(s) && s.head != (if t in s.pc && s.pc[t].AllocCas? then s.pc[t].h else s.head) && AllocateCas(s, s', t)
    ensures Inv(s')
  {
    hide Parted, Chained;
    forall c ensures Carries(s', t, c) <==> Carries(s, t, c) {}
    MovedParts(s, s', t);
    SameParted(s, s');
    SameChained(s, s');
    HeadSeen(s);
    assert ThreadOk(s, t);
    OthersOk(s, s', t);
  }

  lemma BlockRetryKeeps(s: State, s': State, t: Tid)
    requires Inv(s) && s.head != (if t in s.pc && s.pc[t].BlockCas? then s.pc[t].h else s.head) && BlockExchange(s, s', t)
    ensures Inv(s')
  {
    hide Parted, Chained;
    forall c ensures Carries(s', t, c) <==> Carries(s, t, c) {}
    MovedParts(s, s', t);
    SameParted(s, s');
    SameChained(s, s');
    HeadSeen(s);
    assert ThreadOk(s, t);
    OthersOk(s, s', t);
  }

  lemma DeallocateRetryKeeps(s: State, s': State, t: Tid)
    requires Inv(s) && s.head != (if t in s.pc && s.pc[t].FreeCas? then s.pc[t].h else s.head) && DeallocateCas(s, s', t)
    ensures Inv(s')
  {
    hide Parted, Chained;
    forall c ensures Carries(s', t, c) <==> Carries(s, t, c) {}
    MovedParts(s, s', t);
    SameParted(s, s');
    SameChained(s, s');
    HeadSeen(s);
    assert ThreadOk(s, t);
    OthersOk(s, s', t);
  }

  lemma BlockBusyKeeps(s: State, s': State, t: Tid)
    requires Inv(s) && s.allocating && At(s, t, BlockFlag) && s' == s.(pc := s.pc[t := AllocLoad])
    ensures Inv(s')
  {
    hide Parted, Chained;
    forall c ensures Carries(s', t, c) <==> Carries(s, t, c) {}
    MovedParts(s, s', t);
    SameParted(s, s');
    SameChained(s, s');
    HeadSeen(s);
    assert ThreadOk(s, t);
    OthersOk(s, s', t);
  }

  /** Writing the next field of a chunk that is not free leaves the chain alone. */
  lemma WriteOutside(s: State, s': State, x: Chunk)
    requires Chained(s) && x !in s.free && x in s.next && s'.free == s.free && s'.head == s.head
    requires s'.next.Keys == s.next.Keys && forall c :: c in s.next && c != x ==> s'.next[c] == s.next[c]
    ensures Chained(s')
  {
    forall i | 0 <= i < |s.free| - 1 ensures LinkAt(s'.next, s.free, i) { assert LinkAt(s.next, s.free, i); }
  }

  /** Writing the next field of a chunk that is neither free nor the thread's own leaves the thread alone. */
  lemma WriteElsewhere(s: State, s': State, u: Tid, x: Chunk)
    requires Chained(s) && u in s.pc && ThreadOk(s, u) && x !in s.free && !Carries(s, u, x)
    requires u in s'.pc && s'.pc[u] == s.pc[u] && s'.head == s.head && s'.next.Keys == s.next.Keys
    requires forall c :: c in s.next && c != x ==> s'.next[c] == s.next[c]
    ensures ThreadOk(s', u)
  {
    var p := s.pc[u];
    if HasBlock(p) {
      assert x !in p.block;
      forall i | 0 <= i < |p.block| - 1 ensures LinkAt(s'.next, p.block, i) { assert LinkAt(s.next, p.block, i); }
    }
  }

  lemma BlockWriteLinkKeeps(s: State, s': State, t: Tid)
    requires Inv(s) && BlockWriteLink(s, s', t)
    ensures Inv(s')
  {
    BlockWriteLinkParts(s, s', t);
    SameParted(s, s');
    var x := s.pc[t].block[|s.pc[t].block| - 1];
    assert Carries(s, t, x);
    WriteOutside(s, s', x);
    forall u | u in s'.pc ensures ThreadOk(s', u) {
      if u == t {
        assert ThreadOk(s, t);
        forall i | 0 <= i < |s.pc[t].block| - 1 ensures LinkAt(s'.next, s.pc[t].block, i) { assert LinkAt(s.next, s.pc[t].block, i); }
      } else {
        assert ThreadOk(s, u) && !Carries(s, u, x);
        WriteElsewhere(s, s', u, x);
      }
    }
  }

  lemma BlockWriteLinkParts(s: State, s': State, t: Tid)
    requires Inv(s) && BlockWriteLink(s, s', t)
    ensures SameParts(s, s')
  {
    forall c ensures Carries(s', t, c) <==> Carries(s, t, c) {}
    MovedParts(s, s', t);
    assert Carries(s, t, s.pc[t].block[|s.pc[t].block| - 1]);
  }

  lemma DeallocateLinkKeeps(s: State, s': State, t: Tid)
    requires Inv(s) && DeallocateLink(s, s', t)
    ensures Inv(s')
  {
    DeallocateLinkParts(s, s', t);
    SameParted(s, s');
    var x := s.pc[t].c;
    assert Carries(s, t, x);
    WriteOutside(s, s', x);
    forall u | u in s'.pc ensures ThreadOk(s', u) {
      if u == t {
        assert ThreadOk(s, t);
      } else {
        assert ThreadOk(s, u) && !Carries(s, u, x);
        WriteElsewhere(s, s', u, x);
      }
    }
  }

  lemma DeallocateLinkParts(s: State, s': State, t: Tid)
    requires Inv(s) && DeallocateLink(s, s', t)
    ensures SameParts(s, s')
  {
    forall c ensures Carries(s', t, c) <==> Carries(s, t, c) {}
    MovedParts(s, s', t);
    assert Carries(s, t, s.pc[t].c);
  }

  lemma UserWriteKeeps(s: State, s': State, c: Chunk, garbage: Ptr)
    requires Inv(s) && UserWrite(s, s', c, garbage)
    ensures Inv(s')
  {
    UserWriteParts(s, s', c, garbage);
    SameParted(s, s');
    WriteOutside(s, s', c);
    forall u | u in s'.pc ensures ThreadOk(s', u) {
      assert ThreadOk(s, u) && !Carries(s, u, c);
      WriteElsewhere(s, s', u, c);
    }
  }

  lemma UserWriteParts(s: State, s': State, c: Chunk, garbage: Ptr)
    requires Inv(s) && UserWrite(s, s', c, garbage)
    ensures SameParts(s, s')
  {
    forall u, x ensures Carries(s', u, x) <==> Carries(s, u, x) {}
  }

  lemma TakeParts(s: State, s': State, t: Tid)
    requires Inv(s) && AllocateCas(s, s', t) && s.head == s.pc[t].h
    ensures s.free != [] && s.head.ptr == To(s.free[0]) && s'.free == s.free[1..] && Parted(s') && Chained(s')
  {
    assert ThreadOk(s, t) && s.free != [];
    ChainTail(s.next, s.free);
    forall c ensures Carries(s', t, c) <==> Carries(s, t, c) {}
    MovedParts(s, s', t);
    TakeParted(s, s', s.free[0]);
  }

  lemma TakeParted(s: State, s': State, x: Chunk)
    requires Parted(s) && Distinct(s.free) && (forall c :: c in s.free ==> c in s.next) && s.free != [] && x == s.free[0]
    requires s'.free == s.free[1..] && s'.owners == s.owners + multiset{x} && s'.carrier == s.carrier && s'.next == s.next
    requires forall u, c :: Carries(s', u, c) <==> Carries(s, u, c)
    ensures Parted(s')
  {
    assert x in s.free && x !in s'.free && x !in s.owners;
    assert forall c :: c in s.free <==> c == x || c in s'.free;
    forall u, c | Carries(s', u, c) ensures c in s'.carrier && s'.carrier[c] == u { assert Carries(s, u, c); }
  }

  /** The chunk handed out was the first free one. */
  lemma AllocateTakeKeeps(s: State, s': State, t: Tid)
    requires Inv(s) && AllocateCas(s, s', t) && s.head == s.pc[t].h
    ensures Inv(s')
    ensures s.free != [] && s'.owners == s.owners + multiset{s.free[0]}
  {
    TakeParts(s, s', t);
    hide Parted;
    forall u | u in s'.pc ensures ThreadOk(s', u) { assert ThreadOk(s, u); }
  }

  /** The rest of a chain is a chain. */
  lemma ChainTail(next: map<Chunk, Ptr>, l: seq<Chunk>)
    requires l != [] && Distinct(l) && LinkedBlock(next, l) && (forall c :: c in l ==> c in next) && next[l[|l| - 1]] == Null
    ensures var r := l[1..];
      Distinct(r) && LinkedBlock(next, r) && next[l[0]] == First(r) && (r != [] ==> next[r[|r| - 1]] == Null)
  {
    var r := l[1..];
    forall i | 0 <= i < |r| - 1 ensures LinkAt(next, r, i) { assert LinkAt(next, l, i + 1); }
    if r != [] { assert LinkAt(next, l, 0); }
  }

  /** Two chains, the last of one linked to the first of the other. */
  lemma ChainJoin(next: map<Chunk, Ptr>, l: seq<Chunk>, r: seq<Chunk>)
    requires l != [] && Distinct(l) && Distinct(r) && LinkedBlock(next, l) && LinkedBlock(next, r)
    requires (forall c :: c in l ==> c in next && c !in r) && next[l[|l| - 1]] == First(r)
    ensures Distinct(l + r) && LinkedBlock(next, l + r)
  {
    var j := l + r;
    forall i | 0 <= i < |j| - 1 ensures LinkAt(next, j, i) {
      if i < |l| - 1 { assert LinkAt(next, l, i); }
      else if i >= |l| { assert LinkAt(next, r, i - |l|); }
    }
    forall i, k | 0 <= i < k < |j| ensures j[i] != j[k] {
      if i < |l| <= k { assert j[i] in l && j[k] in r; }
    }
  }

  lemma BlockMadeKeeps(s: State, s': State, t: Tid, block: seq<Chunk>, next: map<Chunk, Ptr>)
    requires Inv(s) && BlockClaim(s, s', t, block, next) && !s.allocating
    ensures Inv(s')
  {
    hide Parted, Chained;
    assert ThreadOk(s, t);
    MadeParts(s, s', t, block, next);
    MadeChain(s, s', t, block, next);
    forall u | u in s'.pc ensures ThreadOk(s', u) {
      if u != t {
        assert ThreadOk(s, u);
        SameLinks(s, s', u);
      }
    }
  }

  lemma MadeParts(s: State, s': State, t: Tid, block: seq<Chunk>, next: map<Chunk, Ptr>)
    requires Parted(s) && Chained(s) && BlockClaim(s, s', t, block, next) && !s.allocating
    ensures Parted(s')
  {
    forall u, c ensures Carries(s', u, c) <==> (if u == t then c in block else Carries(s, u, c)) {}
  }

  lemma MadeChain(s: State, s': State, t: Tid, block: seq<Chunk>, next: map<Chunk, Ptr>)
    requires Chained(s) && BlockClaim(s, s', t, block, next) && !s.allocating
    ensures Chained(s')
  {
    forall i | 0 <= i < |s.free| - 1 ensures LinkAt(next, s.free, i) { assert LinkAt(s.next, s.free, i); }
  }

  /** New chunks change nothing for a thread that stays where it is. */
  lemma SameLinks(s: State, s': State, u: Tid)
    requires Chained(s) && u in s.pc && ThreadOk(s, u) && u in s'.pc && s'.pc[u] == s.pc[u] && s'.head == s.head
    requires forall c :: c in s.next ==> c in s'.next && s'.next[c] == s.next[c]
    ensures ThreadOk(s', u)
  {
    var p := s.pc[u];
    if HasBlock(p) {
      forall i | 0 <= i < |p.block| - 1 ensures LinkAt(s'.next, p.block, i) { assert LinkAt(s.next, p.block, i); }
    }
  }

  lemma BlockPublishedKeeps(s: State, s': State, t: Tid)
    requires Inv(s) && BlockExchange(s, s', t) && s.head == s.pc[t].h
    ensures Inv(s')
  {
    forall u, c ensures Carries(s', u, c) <==> (u != t && Carries(s, u, c)) {}
    PublishedParts(s, s', t);
    PublishedChain(s, s', t);
    hide Parted, Chained;
    forall u | u in s'.pc ensures ThreadOk(s', u) { assert ThreadOk(s, u); }
  }

  lemma PublishedChain(s: State, s': State, t: Tid)
    requires Inv(s) && BlockExchange(s, s', t) && s.head == s.pc[t].h
    ensures Chained(s')
  {
    var b := s.pc[t].block;
    assert ThreadOk(s, t);
    forall c | c in b ensures c !in s.free { assert Carries(s, t, c); }
    ChainJoin(s.next, b, s.free);
  }

  lemma PublishedParts(s: State, s': State, t: Tid)
    requires Inv(s) && BlockExchange(s, s', t) && s.head == s.pc[t].h
    requires forall u, c :: Carries(s', u, c) <==> (u != t && Carries(s, u, c))
    ensures Parted(s')
  {
    var b := s.pc[t].block;
    forall c | c in b ensures c in s.carrier && s.carrier[c] == t { assert Carries(s, t, c); }
    forall c | c in s.carrier && s.carrier[c] == t ensures c in b { assert Carries(s, t, c); }
  }

  lemma BeginDeallocateKeeps(s: State, s': State, t: Tid, c: Chunk)
    requires Inv(s) && BeginDeallocate(s, s', t, c)
    ensures Inv(s')
  {
    ReturnedParts(s, s', t, c);
    hide Parted;
    forall u | u in s'.pc ensures ThreadOk(s', u) { assert u != t ==> ThreadOk(s, u); }
  }

  lemma ReturnedParts(s: State, s': State, t: Tid, c: Chunk)
    requires Parted(s) && BeginDeallocate(s, s', t, c)
    ensures Parted(s')
  {
    forall u, x ensures Carries(s', u, x) <==> (if u == t then x == c else Carries(s, u, x)) {}
    assert s'.owners[c] == 0;
  }

  lemma DeallocateDoneKeeps(s: State, s': State, t: Tid)
    requires Inv(s) && DeallocateCas(s, s', t) && s.head == s.pc[t].h
    ensures Inv(s')
  {
    var c := s.pc[t].c;
    assert ThreadOk(s, t) && Carries(s, t, c);
    ChainJoin(s.next, [c], s.free);
    forall u, x ensures Carries(s', u, x) <==> (u != t && Carries(s, u, x)) {}
    forall x | x in s.carrier && s.carrier[x] == t ensures x == c { assert Carries(s, t, x); }
    forall u | u in s'.pc ensures ThreadOk(s', u) { assert ThreadOk(s, u); }
  }

  lemma StepKeeps(s: State, s': State, t: Tid, a: Action)
    requires Inv(s) && NextStep(s, s', t, a)
    ensures Inv(s')
  {
    hide Inv;
    match a
    case DoBeginAllocate => BeginAllocateKeeps(s, s', t);
    case DoAllocateLoad => AllocateLoadKeeps(s, s', t);
    case DoAllocateTest => AllocateTestKeeps(s, s', t);
    case DoAllocateRead => AllocateReadKeeps(s, s', t);
    case DoAllocateCas => if s.head == s.pc[t].h { AllocateTakeKeeps(s, s', t); } else { AllocateRetryKeeps(s, s', t); }
    case DoBlockClaim(block, next) =>
      if s.allocating { BlockBusyKeeps(s, s', t); } else { BlockMadeKeeps(s, s', t, block, next); }
    case DoBlockReadHead => BlockReadHeadKeeps(s, s', t);
    case DoBlockWriteLink => BlockWriteLinkKeeps(s, s', t);
    case DoBlockExchange => if s.head == s.pc[t].h { BlockPublishedKeeps(s, s', t); } else { BlockRetryKeeps(s, s', t); }
    case DoBlockDone => BlockDoneKeeps(s, s', t);
    case DoBeginDeallocate(c) => BeginDeallocateKeeps(s, s', t, c);
    case DoDeallocateLoad => DeallocateLoadKeeps(s, s', t);
    case DoDeallocateLink => DeallocateLinkKeeps(s, s', t);
    case DoDeallocateCas => if s.head == s.pc[t].h { DeallocateDoneKeeps(s, s', t); } else { DeallocateRetryKeeps(s, s', t); }
    case DoUserWrite(c, garbage) => UserWriteKeeps(s, s', c, garbage);
  }

  lemma {:induction false} RunInv(run: seq<State>)
    requires IsRun(run)
    ensures Inv(run[|run| - 1])
  {
    if |run| > 1 {
      var m := |run| - 1;
      RunInv(run[..m]);
      assert Next(run[m - 1], run[m]);
      var t, a :| NextStep(run[m - 1], run[m], t, a);
      StepKeeps(run[m - 1], run[m], t, a);
    }
  }

  // ---------------------------------------------------------------------------------------
  // Theorems
  // ---------------------------------------------------------------------------------------

  /** No chunk ever has two live owners. */
  lemma OneOwner(run: seq<State>, c: Chunk)
    requires IsRun(run)
    ensures run[|run| - 1].owners[c] <= 1
  {
    RunInv(run);
    var s := run[|run| - 1];
    assert c in s.owners ==> s.owners[c] == 1;
  }

  /** How many times chunk `c` is about: in the free list, with an owner, with a thread on its way. */
  ghost function Places(s: State, c: Chunk): nat {
    multiset(s.free)[c] + s.owners[c] + if c in s.carrier then 1 else 0
  }

  lemma {:induction false} DistinctCount(l: seq<Chunk>, c: Chunk)
    requires Distinct(l)
    ensures multiset(l)[c] == if c in l then 1 else 0
  {
    if l != [] {
      var m := |l| - 1;
      assert l == l[..m] + [l[m]];
      DistinctCount(l[..m], c);
    }
  }

  /** Every chunk of every block is in exactly one place; the thread that is recorded to carry it is the only one that does. */
  lemma NoneLostOrShared(run: seq<State>, c: Chunk)
    requires IsRun(run)
    ensures var s := run[|run| - 1];
      && Places(s, c) == (if c in s.next then 1 else 0)
      && (forall t :: Carries(s, t, c) ==> c in s.carrier && s.carrier[c] == t)
      && (c in s.carrier ==> Carries(s, s.carrier[c], c))
  {
    RunInv(run);
    var s := run[|run| - 1];
    DistinctCount(s.free, c);
  }

  /** The chain from the head is the free list, link by link, down to null. */
  lemma HeadReachesAll(run: seq<State>, i: nat)
    requires IsRun(run) && i < |run[|run| - 1].free|
    ensures var s := run[|run| - 1];
      && s.head.ptr == To(s.free[0]) && s.free[i] in s.next
      && s.next[s.free[i]] == if i + 1 < |s.free| then To(s.free[i + 1]) else Null
  {
    RunInv(run);
    var s := run[|run| - 1];
    if i + 1 < |s.free| { assert LinkAt(s.next, s.free, i); }
  }

  /** At most one thread makes a block at a time, and the flag is up exactly while one does. */
  lemma OneBlockMaker(run: seq<State>)
    requires IsRun(run)
    ensures var s := run[|run| - 1];
      && (forall t, u :: t in s.pc && u in s.pc && MakesBlock(s.pc[t]) && MakesBlock(s.pc[u]) ==> t == u)
      && (s.allocating <==> exists t :: t in s.pc && MakesBlock(s.pc[t]))
  {
    RunInv(run);
    RunFlag(run);
  }

  ghost predicate FlagUp(s: State) { s.allocating ==> exists t :: t in s.pc && MakesBlock(s.pc[t]) }

  lemma StepFlag(s: State, s': State, t: Tid, a: Action)
    requires FlagUp(s) && NextStep(s, s', t, a)
    ensures FlagUp(s')
  {
    hide LinkedBlock, Distinct;
    if s.allocating && s'.allocating {
      var u :| u in s.pc && MakesBlock(s.pc[u]);
      assert u in s'.pc && MakesBlock(s'.pc[u]);
    } else if s'.allocating {
      assert t in s'.pc && MakesBlock(s'.pc[t]);
    }
  }

  lemma {:induction false} RunFlag(run: seq<State>)
    requires IsRun(run)
    ensures FlagUp(run[|run| - 1])
  {
    if |run| > 1 {
      var m := |run| - 1;
      RunFlag(run[..m]);
      assert Next(run[m - 1], run[m]);
      var t, a :| NextStep(run[m - 1], run[m], t, a);
      StepFlag(run[m - 1], run[m], t, a);
    }
  }

  /** The next field that `allocate` reads is of a chunk of some block, whoever uses the chunk by then. */
  lemma ReadIsInBlocks(run: seq<State>, t: Tid)
    requires IsRun(run)
    requires var pc := run[|run| - 1].pc; t in pc && pc[t].AllocRead?
    ensures var s := run[|run| - 1]; s.pc[t].h.ptr.To? && s.pc[t].h.ptr.chunk in s.next
  {
    RunInv(run);
    var s := run[|run| - 1];
    assert ThreadOk(s, t);
  }

  // ---------------------------------------------------------------------------------------
  // Calls come to an end
  // ---------------------------------------------------------------------------------------

  /** How many of its own accesses a call still needs if nobody disturbs it; a head that has moved costs it another round. */
  ghost function Rank(s: State, p: Pc): nat {
    var empty := s.free == [];
    match p
    case AllocLoad => if empty then 11 else 4
    case AllocTest(h) => if h == s.head then if empty then 10 else 3 else if h.ptr == Null then 10 else 13
    case AllocRead(h) => if h == s.head then 2 else 12
    case AllocCas(h, _) => if h == s.head then 1 else 11
    case BlockFlag => 9
    case BlockLoad(_) => 8
    case BlockLink(_, h) => if h == s.head then 7 else 9
    case BlockCas(_, h) => if h == s.head then 6 else 8
    case BlockUnflag => if empty then 12 else 5
    case FreeLoad(_) => 3
    case FreeLink(_, h) => if h == s.head then 2 else 4
    case FreeCas(_, h) => if h == s.head then 1 else 3
  }

  /** Thread `t` has returned: `allocate` with the first free chunk, `deallocate` with its chunk put before the free list. */
  ghost predicate Returns(s: State, s': State, t: Tid)
    requires t in s.pc
  {
    && t !in s'.pc
    && if Frees(s.pc[t]) then s'.free == [s.pc[t].c] + s.free && s'.owners == s.owners
       else s.free != [] && s'.free == s.free[1..] && s'.owners == s.owners + multiset{s.free[0]}
  }

  /** Thread `t` finds that another thread makes a block. */
  ghost predicate FindsBusy(s: State, t: Tid)
    requires t in s.pc
  {
    s.pc[t] == BlockFlag && exists u :: u != t && u in s.pc && MakesBlock(s.pc[u])
  }

  /** Every access of a call ends it, or brings it nearer to its end, unless another thread is making a block. */
  lemma OwnStep(run: seq<State>, s': State, t: Tid, a: Action)
    requires IsRun(run) && t in run[|run| - 1].pc && NextStep(run[|run| - 1], s', t, a) && !a.DoUserWrite?
    ensures var s := run[|run| - 1];
      Nearer(s, s', t)
  {
    hide NextStep, FlagUp, Init;
    RunInv(run);
    RunFlag(run);
    HeadFirst(run[|run| - 1], t);
    StepRank(run[|run| - 1], s', t, a);
  }

  ghost predicate Nearer(s: State, s': State, t: Tid)
    requires t in s.pc
  {
    Returns(s, s', t) || FindsBusy(s, t) || (t in s'.pc && Rank(s', s'.pc[t]) < Rank(s, s.pc[t]))
  }

  lemma HeadFirst(s: State, t: Tid)
    requires Inv(s) && t in s.pc
    ensures s.head.ptr == First(s.free) && ThreadOk(s, t)
  {
  }

  lemma StepRank(s: State, s': State, t: Tid, a: Action)
    requires t in s.pc && NextStep(s, s', t, a) && !a.DoUserWrite? && ThreadOk(s, t) && FlagUp(s) && s.head.ptr == First(s.free)
    ensures Nearer(s, s', t)
  {
    hide FlagUp, ThreadOk, Nearer;
    match a
    case DoAllocateLoad => LoadRank(s, s', t);
    case DoAllocateTest => TestRank(s, s', t);
    case DoAllocateRead => ReadRank(s, s', t);
    case DoAllocateCas => TakeRank(s, s', t);
    case DoBlockClaim(block, next) => ClaimRank(s, s', t, block, next);
    case DoBlockReadHead => BlockRank(s, s', t);
    case DoBlockWriteLink => BlockRank(s, s', t);
    case DoBlockExchange => PublishRank(s, s', t);
    case DoBlockDone => BlockRank(s, s', t);
    case DoDeallocateLoad => FreeRank(s, s', t);
    case DoDeallocateLink => FreeRank(s, s', t);
    case DoDeallocateCas => FreeRank(s, s', t);
    case _ =>
  }

  lemma LoadRank(s: State, s': State, t: Tid)
    requires AllocateLoad(s, s', t)
    ensures Nearer(s, s', t)
  {
  }

  lemma TestRank(s: State, s': State, t: Tid)
    requires AllocateTest(s, s', t) && s.head.ptr == First(s.free)
    ensures Nearer(s, s', t)
  {
  }

  lemma ReadRank(s: State, s': State, t: Tid)
    requires AllocateRead(s, s', t)
    ensures Nearer(s, s', t)
  {
  }

  lemma TakeRank(s: State, s': State, t: Tid)
    requires AllocateCas(s, s', t) && s.head.ptr == First(s.free)
    ensures Nearer(s, s', t)
  {
  }

  lemma ClaimRank(s: State, s': State, t: Tid, block: seq<Chunk>, next: map<Chunk, Ptr>)
    requires BlockClaim(s, s', t, block, next) && FlagUp(s)
    ensures Nearer(s, s', t)
  {
  }

  lemma BlockRank(s: State, s': State, t: Tid)
    requires BlockReadHead(s, s', t) || BlockWriteLink(s, s', t) || BlockDone(s, s', t)
    ensures Nearer(s, s', t)
  {
  }

  lemma PublishRank(s: State, s': State, t: Tid)
    requires BlockExchange(s, s', t)
    ensures Nearer(s, s', t)
  {
  }

  lemma FreeRank(s: State, s': State, t: Tid)
    requires DeallocateLoad(s, s', t) || DeallocateLink(s, s', t) || DeallocateCas(s, s', t)
    ensures Nearer(s, s', t)
  {
  }

  lemma FreshChunk(next: map<Chunk, Ptr>) returns (c: Chunk)
    ensures c !in next
  {
    c := AboveAll(next.Keys);
  }

  lemma {:induction false} AboveAll(cs: set<Chunk>) returns (c: Chunk)
    ensures forall x :: x in cs ==> x < c
    decreases |cs|
  {
    if cs == {} {
      c := 0;
    } else {
      var x :| x in cs;
      var d := AboveAll(cs - {x});
      c := if x < d then d else x + 1;
      assert forall y :: y in cs ==> y == x || y in cs - {x};
    }
  }

  /** A thread inside a call always has an access to make. */
  lemma CanStep(run: seq<State>, t: Tid) returns (s': State, a: Action)
    requires IsRun(run) && t in run[|run| - 1].pc
    ensures NextStep(run[|run| - 1], s', t, a) && !a.DoUserWrite?
  {
    RunInv(run);
    var s := run[|run| - 1];
    assert ThreadOk(s, t);
    hide Parted, Chained;
    s', a := StepOf(s, t);
  }

  lemma StepOf(s: State, t: Tid) returns (s': State, a: Action)
    requires t in s.pc && ThreadOk(s, t)
    ensures NextStep(s, s', t, a) && !a.DoUserWrite?
  {
    var p := s.pc[t];
    match p
    case AllocLoad => s', a := s.(pc := s.pc[t := AllocTest(s.head)]), DoAllocateLoad;
    case AllocTest(h) => s', a := s.(pc := s.pc[t := if h.ptr == Null then BlockFlag else AllocRead(h)]), DoAllocateTest;
    case AllocRead(h) => s', a := s.(pc := s.pc[t := AllocCas(h, s.next[h.ptr.chunk])]), DoAllocateRead;
    case AllocCas(h, n) =>
      a := DoAllocateCas;
      s' := if s.head == h then s.(head := Head(n, h.tag + 1), pc := s.pc - {t}, owners := s.owners + multiset{h.ptr.chunk},
                                   free := if s.free == [] then [] else s.free[1..])
            else s.(pc := s.pc[t := AllocTest(s.head)]);
    case BlockFlag => s', a := ClaimOf(s, t);
    case BlockLoad(b) => s', a := s.(pc := s.pc[t := BlockLink(b, s.head)]), DoBlockReadHead;
    case BlockLink(b, h) => s', a := s.(next := s.next[b[|b| - 1] := h.ptr], pc := s.pc[t := BlockCas(b, h)]), DoBlockWriteLink;
    case BlockCas(b, h) =>
      a := DoBlockExchange;
      s' := if s.head == h then s.(head := Head(To(b[0]), h.tag + 1), pc := s.pc[t := BlockUnflag], free := b + s.free,
                                   carrier := s.carrier - set c | c in b)
            else s.(pc := s.pc[t := BlockLink(b, s.head)]);
    case BlockUnflag => s', a := s.(allocating := false, pc := s.pc[t := AllocLoad]), DoBlockDone;
    case FreeLoad(c) => s', a := s.(pc := s.pc[t := FreeLink(c, s.head)]), DoDeallocateLoad;
    case FreeLink(c, h) => s', a := s.(next := s.next[c := h.ptr], pc := s.pc[t := FreeCas(c, h)]), DoDeallocateLink;
    case FreeCas(c, h) =>
      a := DoDeallocateCas;
      s' := if s.head == h then s.(head := Head(To(c), h.tag + 1), pc := s.pc - {t}, free := [c] + s.free, carrier := s.carrier - {c})
            else s.(pc := s.pc[t := FreeLink(c, s.head)]);
  }

  lemma ClaimOf(s: State, t: Tid) returns (s': State, a: Action)
    requires At(s, t, BlockFlag)
    ensures NextStep(s, s', t, a) && !a.DoUserWrite?
  {
    var c := FreshChunk(s.next);
    var block, next := [c], s.next[c := Null];
    a := DoBlockClaim(block, next);
    s' := if s.allocating then s.(pc := s.pc[t := AllocLoad])
          else s.(allocating := true, next := next, pc := s.pc[t := BlockLoad(block)], carrier := s.carrier + map x | x in block :: t);
    assert next.Keys == s.next.Keys + (set x | x in block);
  }
}
