/**
  The locking protocol is safe: its invariant, kept by every step of every interleaving.
*/
module LockingInvariant {
  import opened Wrappers
  import opened LinkedLists
  import opened LockingModel

  ghost predicate Stands(sh: Shared, a: nat, i: nat, z: nat) {
    a < |sh.arenas| && i < |sh.arenas[a].list| && sh.arenas[a].list[i] == z
  }

  ghost predicate LotOf(list: seq<nat>, i: nat, lot: Option<nat>) {
    i <= |list| && lot == if i == 0 then None else Some(list[i - 1])
  }

  /** A zone nobody else can reach: without chunks, unlocked, and its subarena locked by the thread that knows it. */
  ghost predicate Empty(sh: Shared, a: nat, z: nat) {
    z in sh.zones && sh.zones[z] == Zone(None, a, {})
  }

  ghost predicate Private(sh: Shared, a: nat, z: nat) {
    a < |sh.arenas| && !sh.arenas[a].large && Empty(sh, a, z) && z !in sh.arenas[a].list
  }

  /** What a thread knows where it stands. */
  ghost predicate PcOk(sh: Shared, pc: Pc) {
    match pc
    case TryArena(cands, _, _) => GoodArenas(sh, cands)
    case WantArena(a, _) => a < |sh.arenas|
    case ReadHead(a, _) => a < |sh.arenas| && !sh.arenas[a].large
    case TryZone(a, i, z, _) => Stands(sh, a, i, z)
    case Allocate(a, i, z, _) => Stands(sh, a, i, z)
    case UnlockZone(a, i, z, got, m) => Stands(sh, a, i, z) && ForMalloc(m) !! Opt(got)
    case ReadNext(a, i, z, _) => Stands(sh, a, i, z)
    case MapZone(a, _) => a < |sh.arenas| && !sh.arenas[a].large
    case InitZone(a, z, _) => Private(sh, a, z)
    case PushZone(a, z, _) => Private(sh, a, z)
    case AllocateFresh(a, z, _) => Stands(sh, a, 0, z) && Empty(sh, a, z)
    case AllocateLarge(a, _) => a < |sh.arenas| && sh.arenas[a].large
    case UnlockArena(_, got, m) => ForMalloc(m) !! Opt(got)
    case WantZone(z, c, shrink, f) => f != Giving(InZone(z, c)) && (shrink ==> f.Done?)
    case FreeChunk(z, c, shrink, f) => f != Giving(InZone(z, c)) && (shrink ==> f.Done?)
    case WantLarge(a, c, f) => f != Giving(InLarge(a, c))
    case FreeLarge(a, c, f) => a < |sh.arenas| && sh.arenas[a].large && f != Giving(InLarge(a, c))
    case LargeUnlock(a, _) => a < |sh.arenas| && sh.arenas[a].large
    case RWantArena(a) => a < |sh.arenas| && !sh.arenas[a].large
    case RReadLot(a, i, lot) => a < |sh.arenas| && LotOf(sh.arenas[a].list, i, lot)
    case RWantZone(a, i, lot, z) => Stands(sh, a, i, z) && LotOf(sh.arenas[a].list, i, lot)
    case RTest(a, i, lot, z) => Stands(sh, a, i, z) && LotOf(sh.arenas[a].list, i, lot)
    case RUnlockZone(a, i, lot, z, releasable) =>
      Stands(sh, a, i, z) && LotOf(sh.arenas[a].list, i, lot) &&
        (releasable ==> z in sh.zones && sh.zones[z].live == {})
    case RUnlink(a, i, lot, z) => Stands(sh, a, i, z) && LotOf(sh.arenas[a].list, i, lot) && Empty(sh, a, z)
    case RUnmap(a, i, lot, z) => Private(sh, a, z) && LotOf(sh.arenas[a].list, i, lot)
    case WantBook(stage) => stage.First? ==> GoodArenas(sh, stage.cands)
    case UseBook(stage) => stage.First? ==> GoodArenas(sh, stage.cands)
    case BookUnlock(leave) => leave.Grow? ==> GoodArenas(sh, leave.cands)
    case _ => true
  }

  ghost predicate HasLocks(sh: Shared, t: nat, pc: Pc) {
    && (HoldsArena(pc).Some? ==> HoldsArena(pc).value < |sh.arenas| && sh.arenas[HoldsArena(pc).value].owner == Some(t))
    && (HoldsZone(pc).Some? ==> HoldsZone(pc).value in sh.zones && sh.zones[HoldsZone(pc).value].owner == Some(t))
    && (HoldsBook(pc) ==> sh.bookOwner == Some(t))
  }

  ghost predicate ThreadOk(sh: Shared, t: nat, pc: Pc) {
    HasLocks(sh, t, pc) && PcOk(sh, pc) && forall h :: h in Mentions(pc) ==> IsLive(sh, h)
  }

  ghost predicate ArenaOwners(threads: seq<Pc>, sh: Shared) {
    forall a :: 0 <= a < |sh.arenas| && sh.arenas[a].owner.Some? ==>
      sh.arenas[a].owner.value < |threads| && HoldsArena(threads[sh.arenas[a].owner.value]) == Some(a)
  }

  ghost predicate ZoneOwners(threads: seq<Pc>, sh: Shared) {
    forall z :: z in sh.zones && sh.zones[z].owner.Some? ==>
      sh.zones[z].owner.value < |threads| && HoldsZone(threads[sh.zones[z].owner.value]) == Some(z)
  }

  /** A lock is held only by a thread whose position says so. */
  ghost predicate Owners(threads: seq<Pc>, sh: Shared) {
    && ArenaOwners(threads, sh) && ZoneOwners(threads, sh)
    && (sh.bookOwner.Some? ==> sh.bookOwner.value < |threads| && HoldsBook(threads[sh.bookOwner.value]))
  }

  /** The zone lists hold mapped zones of their own subarena, each once. */
  ghost predicate Lists(sh: Shared) {
    && (forall a :: 0 <= a < |sh.arenas| ==>
         Distinct(sh.arenas[a].list) && (sh.arenas[a].large ==> sh.arenas[a].list == []))
    && (forall a, i :: 0 <= a < |sh.arenas| && 0 <= i < |sh.arenas[a].list| ==>
          sh.arenas[a].list[i] in sh.zones && sh.zones[sh.arenas[a].list[i]].arena == a)
    && (forall z :: z in sh.zones ==> sh.zones[z].arena < |sh.arenas| && !sh.arenas[sh.zones[z].arena].large)
  }

  /** No chunk is in two hands. */
  ghost predicate Apart(s: System) {
    && (forall t, u, h :: 0 <= t < u < |s.threads| && h in Mentions(s.threads[t]) ==> h !in Mentions(s.threads[u]))
    && (s.sh.bookChunk.Some? ==>
          IsLive(s.sh, s.sh.bookChunk.value) && forall t :: 0 <= t < |s.threads| ==>
            s.sh.bookChunk.value !in Mentions(s.threads[t]))
  }

  ghost predicate Inv(s: System) {
    && (forall t {:trigger s.threads[t]} :: 0 <= t < |s.threads| ==> ThreadOk(s.sh, t, s.threads[t]))
    && Owners(s.threads, s.sh) && Lists(s.sh) && Apart(s)
  }

  // ---------------------------------------------------------------- what a step may do to the others

  /** A zone `t` has no way to: its subarena is not locked by `t`, and it has no chunk to free. */
  ghost predicate Untouchable(sh: Shared, t: nat, z: nat)
    requires z in sh.zones
  {
    && sh.zones[z].arena < |sh.arenas| && sh.arenas[sh.zones[z].arena].owner != Some(t)
    && sh.zones[z].owner.None? && sh.zones[z].live == {}
  }

  /** Thread `t`, answerable for `hands`, changes nothing that another thread relies on. */
  ghost predicate Respects(sh: Shared, sh': Shared, t: nat, hands: set<Handle>) {
    && |sh'.arenas| == |sh.arenas|
    && (forall a :: 0 <= a < |sh.arenas| ==> sh'.arenas[a].large == sh.arenas[a].large)
    && (forall a :: 0 <= a < |sh.arenas| && sh.arenas[a].owner.Some? && sh.arenas[a].owner != Some(t) ==>
         sh'.arenas[a] == sh.arenas[a])
    && (forall z :: z in sh.zones && sh.zones[z].owner.Some? && sh.zones[z].owner != Some(t) ==>
         z in sh'.zones && sh'.zones[z] == sh.zones[z])
    && (forall z :: z in sh.zones && Untouchable(sh, t, z) ==> z in sh'.zones && sh'.zones[z] == sh.zones[z])
    && (forall h :: IsLive(sh, h) && h !in hands ==> IsLive(sh', h))
    && (sh.bookOwner.Some? && sh.bookOwner != Some(t) ==> sh'.bookOwner == sh.bookOwner)
  }

  lemma OtherStaysOk(s: System, sh': Shared, t: nat, k: nat)
    requires Inv(s) && t < |s.threads| && k < |s.threads| && k != t && Respects(s.sh, sh', t, Mentions(s.threads[t]))
    ensures ThreadOk(sh', k, s.threads[k])
  {
    var pc := s.threads[k];
    assert ThreadOk(s.sh, k, pc);
    forall h | h in Mentions(pc) ensures IsLive(sh', h) {
      assert h !in Mentions(s.threads[t]);
    }
    OtherPcStays(s.sh, sh', t, k, pc, Mentions(s.threads[t]));
    hide HasLocks, PcOk, Respects;
  }

  lemma OtherPcStays(sh: Shared, sh': Shared, t: nat, k: nat, pc: Pc, hands: set<Handle>)
    requires HasLocks(sh, k, pc) && PcOk(sh, pc) && Lists(sh) && k != t && Respects(sh, sh', t, hands)
    ensures HasLocks(sh', k, pc) && PcOk(sh', pc)
  {
    OtherLocksStay(sh, sh', t, k, pc, hands);
    assert HoldsArena(pc).Some? ==> sh'.arenas[HoldsArena(pc).value] == sh.arenas[HoldsArena(pc).value];
    assert HoldsZone(pc).Some? ==>
             HoldsZone(pc).value in sh'.zones && sh'.zones[HoldsZone(pc).value] == sh.zones[HoldsZone(pc).value];
    assert HoldsArena(pc).Some? ==> EmptiesStay(sh, sh', HoldsArena(pc).value);
    hide Lists, Respects, HasLocks, EmptiesStay;
    PcReads(sh, sh', pc);
  }

  /** The empty zones of a subarena are as they were. */
  ghost predicate EmptiesStay(sh: Shared, sh': Shared, a: nat) {
    forall z :: Empty(sh, a, z) ==> Empty(sh', a, z)
  }

  lemma OtherLocksStay(sh: Shared, sh': Shared, t: nat, k: nat, pc: Pc, hands: set<Handle>)
    requires HasLocks(sh, k, pc) && k != t && Respects(sh, sh', t, hands)
    ensures HasLocks(sh', k, pc) && |sh'.arenas| == |sh.arenas|
    ensures forall a :: 0 <= a < |sh.arenas| ==> sh'.arenas[a].large == sh.arenas[a].large
    ensures HoldsArena(pc).Some? ==> sh'.arenas[HoldsArena(pc).value] == sh.arenas[HoldsArena(pc).value]
    ensures HoldsZone(pc).Some? ==>
              HoldsZone(pc).value in sh'.zones && sh'.zones[HoldsZone(pc).value] == sh.zones[HoldsZone(pc).value]
    ensures HoldsArena(pc).Some? ==> EmptiesStay(sh, sh', HoldsArena(pc).value)
  {
    hide HoldsArena, HoldsZone, HoldsBook;
    if HoldsArena(pc).Some? {
      forall z | Empty(sh, HoldsArena(pc).value, z) ensures Empty(sh', HoldsArena(pc).value, z) {
        assert Untouchable(sh, t, z);
      }
    }
  }

  /** What a thread knows where it stands is about the subarena and the zone it has locked, and about empty zones. */
  lemma PcReads(sh: Shared, sh': Shared, pc: Pc)
    requires PcOk(sh, pc) && |sh'.arenas| == |sh.arenas|
    requires forall a :: 0 <= a < |sh.arenas| ==> sh'.arenas[a].large == sh.arenas[a].large
    requires HoldsArena(pc).Some? && HoldsArena(pc).value < |sh.arenas| ==>
      sh'.arenas[HoldsArena(pc).value] == sh.arenas[HoldsArena(pc).value] && EmptiesStay(sh, sh', HoldsArena(pc).value)
    requires HoldsZone(pc).Some? && HoldsZone(pc).value in sh.zones ==>
      HoldsZone(pc).value in sh'.zones && sh'.zones[HoldsZone(pc).value] == sh.zones[HoldsZone(pc).value]
    ensures PcOk(sh', pc)
  {
    hide Empty, LotOf;
  }

  /** The locks after the step are the locks before it, but for what `t` now holds or holds no more. */
  ghost predicate LocksFollow(sh: Shared, sh': Shared, t: nat, pc: Pc)
    requires |sh'.arenas| == |sh.arenas|
  {
    && (forall a :: 0 <= a < |sh'.arenas| ==>
          sh'.arenas[a].owner == if HoldsArena(pc) == Some(a) then Some(t)
                                 else if sh.arenas[a].owner == Some(t) then None else sh.arenas[a].owner)
    && (forall z :: z in sh'.zones ==>
          sh'.zones[z].owner == if HoldsZone(pc) == Some(z) then Some(t)
                                else if z !in sh.zones || sh.zones[z].owner == Some(t) then None else sh.zones[z].owner)
    && (HoldsArena(pc).Some? ==> HoldsArena(pc).value < |sh'.arenas|)
    && (HoldsZone(pc).Some? ==> HoldsZone(pc).value in sh'.zones)
    && sh'.bookOwner == if HoldsBook(pc) then Some(t) else if sh.bookOwner == Some(t) then None else sh.bookOwner
  }

  lemma ArenaOwnersFollow(threads: seq<Pc>, sh: Shared, sh': Shared, t: nat, pc: Pc)
    requires ArenaOwners(threads, sh) && t < |threads| && |sh'.arenas| == |sh.arenas| && LocksFollow(sh, sh', t, pc)
    ensures ArenaOwners(threads[t := pc], sh')
  {
    hide HoldsArena, HoldsZone, HoldsBook;
  }

  lemma ZoneOwnersFollow(threads: seq<Pc>, sh: Shared, sh': Shared, t: nat, pc: Pc)
    requires ZoneOwners(threads, sh) && t < |threads| && |sh'.arenas| == |sh.arenas| && LocksFollow(sh, sh', t, pc)
    ensures ZoneOwners(threads[t := pc], sh')
  {
    hide HoldsArena, HoldsZone, HoldsBook;
  }

  lemma OwnersFollow(threads: seq<Pc>, sh: Shared, sh': Shared, t: nat, pc: Pc)
    requires Owners(threads, sh) && t < |threads| && |sh'.arenas| == |sh.arenas| && LocksFollow(sh, sh', t, pc)
    ensures Owners(threads[t := pc], sh') && HasLocks(sh', t, pc)
  {
    ArenaOwnersFollow(threads, sh, sh', t, pc);
    ZoneOwnersFollow(threads, sh, sh', t, pc);
    hide HoldsArena, HoldsZone, HoldsBook, ArenaOwners, ZoneOwners;
  }

  /**
    The chunks in the hands of `t` after the step: its own, new ones, the application's, or the old array of the
    book.
  */
  ghost predicate HandsFollow(s: System, sh': Shared, t: nat, pc: Pc)
    requires t < |s.threads|
  {
    && (forall h :: h in Mentions(pc) ==>
          IsLive(sh', h) && (h in Mentions(s.threads[t]) || Free(s, h) || !IsLive(s.sh, h) ||
            s.sh.bookChunk == Some(h)))
    && (sh'.bookChunk.Some? ==> IsLive(sh', sh'.bookChunk.value) && sh'.bookChunk.value !in Mentions(pc))
    && (sh'.bookChunk == s.sh.bookChunk || (sh'.bookChunk.Some? && sh'.bookChunk.value in Mentions(s.threads[t])))
  }

  lemma ApartFollows(s: System, sh': Shared, t: nat, pc: Pc)
    requires Inv(s) && t < |s.threads| && HandsFollow(s, sh', t, pc)
    ensures Apart(To(s, t, sh', pc))
  {
    var u := To(s, t, sh', pc);
    forall k, h | 0 <= k < |s.threads| && k != t && h in Mentions(pc) ensures h !in Mentions(u.threads[k]) {
      assert ThreadOk(s.sh, k, s.threads[k]);
    }
    forall k | 0 <= k < |u.threads| && sh'.bookChunk.Some? ensures sh'.bookChunk.value !in Mentions(u.threads[k]) {
      if k != t { assert u.threads[k] == s.threads[k]; }
    }
    hide Mentions;
  }

  /** The things to show of a step. */
  lemma Keeps(s: System, t: nat, sh': Shared, pc: Pc)
    requires Inv(s) && t < |s.threads| && Respects(s.sh, sh', t, Mentions(s.threads[t])) &&
             LocksFollow(s.sh, sh', t, pc)
    requires HandsFollow(s, sh', t, pc) && PcOk(sh', pc) && Lists(sh')
    ensures Inv(To(s, t, sh', pc))
  {
    OwnersFollow(s.threads, s.sh, sh', t, pc);
    ApartFollows(s, sh', t, pc);
    var u := To(s, t, sh', pc);
    forall k | 0 <= k < |u.threads| ensures ThreadOk(sh', k, u.threads[k]) {
      if k != t { OtherStaysOk(s, sh', t, k); }
    }
    hide Mentions, PcOk, HasLocks, Lists, Owners, Apart, Respects;
  }

  // ---------------------------------------------------------------- kinds of steps

  lemma InvParts(s: System, t: nat)
    requires Inv(s) && t < |s.threads|
    ensures ThreadOk(s.sh, t, s.threads[t]) && Lists(s.sh) && Apart(s)
  {
    hide ThreadOk, Owners, Lists, Apart;
  }

  ghost predicate SameLocks(p: Pc, q: Pc) {
    HoldsArena(p) == HoldsArena(q) && HoldsZone(p) == HoldsZone(q) && HoldsBook(p) == HoldsBook(q)
  }

  /** The chunks of the new position were the thread's own, or the application's. */
  ghost predicate TakesOver(s: System, t: nat, q: Pc)
    requires t < |s.threads|
  {
    forall h :: h in Mentions(q) ==> h in Mentions(s.threads[t]) || Free(s, h)
  }

  /** Thread `t` owns exactly the locks that its position says. */
  ghost predicate OwnsExactly(sh: Shared, t: nat, pc: Pc) {
    && (forall a :: 0 <= a < |sh.arenas| ==> (sh.arenas[a].owner == Some(t) <==> HoldsArena(pc) == Some(a)))
    && (forall z :: z in sh.zones ==> (sh.zones[z].owner == Some(t) <==> HoldsZone(pc) == Some(z)))
    && (sh.bookOwner == Some(t) <==> HoldsBook(pc))
    && (HoldsArena(pc).Some? ==> HoldsArena(pc).value < |sh.arenas|)
    && (HoldsZone(pc).Some? ==> HoldsZone(pc).value in sh.zones)
  }

  lemma LocksAreHeld(s: System, t: nat)
    requires Inv(s) && t < |s.threads|
    ensures OwnsExactly(s.sh, t, s.threads[t])
  {
    assert ThreadOk(s.sh, t, s.threads[t]);
    hide PcOk, Mentions, Lists, Apart, HoldsArena, HoldsZone, HoldsBook;
  }

  lemma Unchanged(s: System, t: nat, q: Pc)
    requires Inv(s) && t < |s.threads| && SameLocks(s.threads[t], q)
    ensures LocksFollow(s.sh, s.sh, t, q)
  {
    hide Inv, HoldsArena, HoldsZone, HoldsBook;
    LocksAreHeld(s, t);
  }

  lemma HandsStay(s: System, t: nat, q: Pc)
    requires Inv(s) && t < |s.threads| && TakesOver(s, t, q)
    ensures HandsFollow(s, s.sh, t, q)
  {
    assert ThreadOk(s.sh, t, s.threads[t]);
    hide Mentions, PcOk, HasLocks, Lists, Owners;
  }

  /** Only the position of the thread changes. */
  lemma MoveKeeps(s: System, t: nat, q: Pc)
    requires Inv(s) && t < |s.threads| && SameLocks(s.threads[t], q) && PcOk(s.sh, q) && TakesOver(s, t, q)
    ensures Inv(To(s, t, s.sh, q))
  {
    Unchanged(s, t, q);
    HandsStay(s, t, q);
    hide Mentions, PcOk, TakesOver, SameLocks, HandsFollow, LocksFollow;
    Keeps(s, t, s.sh, q);
  }
}
