/**
  Every step of every thread keeps the invariant of the locking protocol, one kind of step at a time.
*/
module LockingSteps {
  import opened Wrappers
  import opened LinkedLists
  import opened LockingModel
  import opened LockingInvariant

  // ---------------------------------------------------------------- subarena locks

  /** The lock of subarena `a` changes hands, and nothing else. */
  lemma ArenaLockRespects(sh: Shared, t: nat, a: nat, o: Option<nat>, hands: set<Handle>)
    requires a < |sh.arenas| && (sh.arenas[a].owner == None || sh.arenas[a].owner == Some(t))
    ensures Respects(sh, LockArena(sh, a, o), t, hands)
    ensures forall h :: IsLive(LockArena(sh, a, o), h) <==> IsLive(sh, h)
  {
  }

  lemma ArenaLockLists(sh: Shared, a: nat, o: Option<nat>)
    requires a < |sh.arenas| && Lists(sh)
    ensures Lists(LockArena(sh, a, o))
  {
    var sh' := LockArena(sh, a, o);
    assert forall b :: 0 <= b < |sh.arenas| ==>
           sh'.arenas[b].list == sh.arenas[b].list && sh'.arenas[b].large == sh.arenas[b].large;
    hide Distinct;
  }

  /** Hands that only take over from the application follow any change that leaves live chunks live. */
  lemma HandsTaken(s: System, t: nat, sh': Shared, q: Pc)
    requires Inv(s) && t < |s.threads| && TakesOver(s, t, q) && sh'.bookChunk == s.sh.bookChunk
    requires forall h :: IsLive(s.sh, h) ==> IsLive(sh', h)
    ensures HandsFollow(s, sh', t, q)
  {
    assert ThreadOk(s.sh, t, s.threads[t]);
    hide Mentions, PcOk, HasLocks, Lists, Owners;
  }

  ghost predicate SameButArena(p: Pc, q: Pc) {
    HoldsZone(p) == HoldsZone(q) && HoldsBook(p) == HoldsBook(q)
  }

  lemma ArenaTaken(s: System, t: nat, a: nat, q: Pc)
    requires Inv(s) && t < |s.threads| && a < |s.sh.arenas| && s.sh.arenas[a].owner == None
    requires HoldsArena(s.threads[t]) == None && HoldsArena(q) == Some(a) && SameButArena(s.threads[t], q)
    ensures LocksFollow(s.sh, LockArena(s.sh, a, Some(t)), t, q)
  {
    hide Inv, HoldsArena, HoldsZone, HoldsBook;
    LocksAreHeld(s, t);
  }

  lemma ArenaDropped(s: System, t: nat, a: nat, q: Pc)
    requires Inv(s) && t < |s.threads| && a < |s.sh.arenas|
    requires HoldsArena(s.threads[t]) == Some(a) && HoldsArena(q) == None && SameButArena(s.threads[t], q)
    ensures LocksFollow(s.sh, LockArena(s.sh, a, None), t, q) && s.sh.arenas[a].owner == Some(t)
  {
    hide Inv, HoldsArena, HoldsZone, HoldsBook;
    LocksAreHeld(s, t);
  }

  lemma ArenaLocks(s: System, t: nat, a: nat, q: Pc)
    requires Inv(s) && t < |s.threads| && a < |s.sh.arenas| && s.sh.arenas[a].owner == None
    requires HoldsArena(s.threads[t]) == None && HoldsArena(q) == Some(a) && SameButArena(s.threads[t], q)
    requires TakesOver(s, t, q) && PcOk(LockArena(s.sh, a, Some(t)), q)
    ensures Inv(To(s, t, LockArena(s.sh, a, Some(t)), q))
  {
    var sh' := LockArena(s.sh, a, Some(t));
    ArenaTaken(s, t, a, q);
    ArenaLockRespects(s.sh, t, a, Some(t), Mentions(s.threads[t]));
    ArenaLockLists(s.sh, a, Some(t));
    HandsTaken(s, t, sh', q);
    hide Mentions, PcOk, TakesOver, HandsFollow, LocksFollow, Lists, Respects;
    Keeps(s, t, sh', q);
  }

  lemma ArenaUnlocks(s: System, t: nat, a: nat, q: Pc)
    requires Inv(s) && t < |s.threads| && a < |s.sh.arenas|
    requires HoldsArena(s.threads[t]) == Some(a) && HoldsArena(q) == None && SameButArena(s.threads[t], q)
    requires TakesOver(s, t, q) && PcOk(LockArena(s.sh, a, None), q)
    ensures Inv(To(s, t, LockArena(s.sh, a, None), q))
  {
    var sh' := LockArena(s.sh, a, None);
    ArenaDropped(s, t, a, q);
    ArenaLockRespects(s.sh, t, a, None, Mentions(s.threads[t]));
    ArenaLockLists(s.sh, a, None);
    HandsTaken(s, t, sh', q);
    hide Mentions, PcOk, TakesOver, HandsFollow, LocksFollow, Lists, Respects;
    Keeps(s, t, sh', q);
  }

  // ---------------------------------------------------------------- zone locks

  lemma ZoneLockRespects(sh: Shared, t: nat, z: nat, o: Option<nat>, hands: set<Handle>)
    requires z in sh.zones && !Untouchable(sh, t, z) && (sh.zones[z].owner == None || sh.zones[z].owner == Some(t))
    ensures Respects(sh, LockZone(sh, z, o), t, hands)
    ensures forall h :: IsLive(LockZone(sh, z, o), h) <==> IsLive(sh, h)
  {
  }

  lemma ZoneLockLists(sh: Shared, z: nat, o: Option<nat>)
    requires z in sh.zones && Lists(sh)
    ensures Lists(LockZone(sh, z, o))
  {
    hide Distinct;
  }

  ghost predicate SameButZone(p: Pc, q: Pc) {
    HoldsArena(p) == HoldsArena(q) && HoldsBook(p) == HoldsBook(q)
  }

  lemma ZoneTaken(s: System, t: nat, z: nat, q: Pc)
    requires Inv(s) && t < |s.threads| && z in s.sh.zones && s.sh.zones[z].owner == None
    requires HoldsZone(s.threads[t]) == None && HoldsZone(q) == Some(z) && SameButZone(s.threads[t], q)
    ensures LocksFollow(s.sh, LockZone(s.sh, z, Some(t)), t, q)
  {
    hide Inv, HoldsArena, HoldsZone, HoldsBook;
    LocksAreHeld(s, t);
  }

  lemma ZoneDropped(s: System, t: nat, z: nat, q: Pc)
    requires Inv(s) && t < |s.threads| && z in s.sh.zones
    requires HoldsZone(s.threads[t]) == Some(z) && HoldsZone(q) == None && SameButZone(s.threads[t], q)
    ensures LocksFollow(s.sh, LockZone(s.sh, z, None), t, q) && s.sh.zones[z].owner == Some(t)
  {
    hide Inv, HoldsArena, HoldsZone, HoldsBook;
    LocksAreHeld(s, t);
  }

  lemma ZoneLocks(s: System, t: nat, z: nat, q: Pc)
    requires Inv(s) && t < |s.threads| && z in s.sh.zones && s.sh.zones[z].owner == None && !Untouchable(s.sh, t, z)
    requires HoldsZone(s.threads[t]) == None && HoldsZone(q) == Some(z) && SameButZone(s.threads[t], q)
    requires TakesOver(s, t, q) && PcOk(LockZone(s.sh, z, Some(t)), q)
    ensures Inv(To(s, t, LockZone(s.sh, z, Some(t)), q))
  {
    var sh' := LockZone(s.sh, z, Some(t));
    ZoneTaken(s, t, z, q);
    ZoneLockRespects(s.sh, t, z, Some(t), Mentions(s.threads[t]));
    ZoneLockLists(s.sh, z, Some(t));
    HandsTaken(s, t, sh', q);
    hide Mentions, PcOk, TakesOver, HandsFollow, LocksFollow, Lists, Respects, Untouchable;
    Keeps(s, t, sh', q);
  }

  lemma ZoneUnlocks(s: System, t: nat, z: nat, q: Pc)
    requires Inv(s) && t < |s.threads| && z in s.sh.zones
    requires HoldsZone(s.threads[t]) == Some(z) && HoldsZone(q) == None && SameButZone(s.threads[t], q)
    requires TakesOver(s, t, q) && PcOk(LockZone(s.sh, z, None), q)
    ensures Inv(To(s, t, LockZone(s.sh, z, None), q))
  {
    var sh' := LockZone(s.sh, z, None);
    ZoneDropped(s, t, z, q);
    ZoneLockRespects(s.sh, t, z, None, Mentions(s.threads[t]));
    ZoneLockLists(s.sh, z, None);
    HandsTaken(s, t, sh', q);
    hide Mentions, PcOk, TakesOver, HandsFollow, LocksFollow, Lists, Respects, Untouchable;
    Keeps(s, t, sh', q);
  }

  // ---------------------------------------------------------------- chunks made and freed

  /** A change of what is live and what is listed: no lock changes hands. */
  ghost predicate SameOwners(sh: Shared, sh': Shared)
  {
    && |sh'.arenas| == |sh.arenas|
    && (forall a :: 0 <= a < |sh.arenas| ==> sh'.arenas[a].owner == sh.arenas[a].owner)
    && (forall z :: z in sh'.zones ==> sh'.zones[z].owner == if z in sh.zones then sh.zones[z].owner else None)
    && (forall z :: z in sh.zones && z !in sh'.zones ==> sh.zones[z].owner == None)
    && sh'.bookOwner == sh.bookOwner
  }

  lemma LocksStay(s: System, t: nat, sh': Shared, q: Pc)
    requires Inv(s) && t < |s.threads| && SameOwners(s.sh, sh') && SameLocks(s.threads[t], q)
    ensures LocksFollow(s.sh, sh', t, q)
  {
    hide Inv, HoldsArena, HoldsZone, HoldsBook;
    LocksAreHeld(s, t);
  }

  /** The thread goes on with one more chunk, which it has just made. */
  lemma HandsGain(s: System, t: nat, sh': Shared, q: Pc, h: Handle)
    requires Inv(s) && t < |s.threads| && sh'.bookChunk == s.sh.bookChunk && !IsLive(s.sh, h) && IsLive(sh', h)
    requires forall k :: IsLive(s.sh, k) ==> IsLive(sh', k)
    requires forall k :: k in Mentions(q) ==> k == h || k in Mentions(s.threads[t])
    ensures HandsFollow(s, sh', t, q)
  {
    assert ThreadOk(s.sh, t, s.threads[t]);
    hide Mentions, PcOk, HasLocks, Lists, Owners;
  }

  /** The thread has freed one of the chunks in its hands. */
  lemma HandsLose(s: System, t: nat, sh': Shared, q: Pc, h: Handle)
    requires Inv(s) && t < |s.threads| && sh'.bookChunk == s.sh.bookChunk && h !in Mentions(q)
    requires Mentions(s.threads[t]) == Mentions(q) + {h}
    requires forall k :: IsLive(s.sh, k) && k != h ==> IsLive(sh', k)
    ensures HandsFollow(s, sh', t, q)
  {
    hide Mentions, HasLocks, PcOk, Lists, Owners;
    assert ThreadOk(s.sh, t, s.threads[t]);
  }

  function Live(sh: Shared, z: nat, live: set<nat>): Shared
    requires z in sh.zones
  {
    SetZone(sh, z, sh.zones[z].(live := live))
  }

  lemma LiveChanges(sh: Shared, t: nat, z: nat, live: set<nat>, hands: set<Handle>)
    requires z in sh.zones && !Untouchable(sh, t, z) && (sh.zones[z].owner == None || sh.zones[z].owner == Some(t)) &&
             Lists(sh)
    requires forall c :: c in sh.zones[z].live && c !in live ==> InZone(z, c) in hands
    ensures Respects(sh, Live(sh, z, live), t, hands) && SameOwners(sh, Live(sh, z, live)) && Lists(Live(sh, z, live))
    ensures forall h :: IsLive(sh, h) && h !in hands ==> IsLive(Live(sh, z, live), h)
    ensures Live(sh, z, live).bookChunk == sh.bookChunk
  {
    hide Lists;
    LiveLists(sh, z, live);
  }

  lemma LiveLists(sh: Shared, z: nat, live: set<nat>)
    requires z in sh.zones && Lists(sh)
    ensures Lists(Live(sh, z, live))
  {
    hide Distinct;
  }

  lemma LiveGains(sh: Shared, z: nat, c: nat)
    requires z in sh.zones && c !in sh.zones[z].live
    ensures !IsLive(sh, InZone(z, c)) && IsLive(Live(sh, z, sh.zones[z].live + {c}), InZone(z, c))
  {
  }

  /** A search of a locked zone, or of a zone nobody else can reach, makes chunk `c`. */
  lemma ChunkMade(s: System, t: nat, z: nat, c: nat, q: Pc)
    requires Inv(s) && t < |s.threads| && z in s.sh.zones && !Untouchable(s.sh, t, z) && c !in s.sh.zones[z].live
    requires s.sh.zones[z].owner == None || s.sh.zones[z].owner == Some(t)
    requires SameLocks(s.threads[t], q) && Mentions(q) == Mentions(s.threads[t]) + {InZone(z, c)}
    requires PcOk(Live(s.sh, z, s.sh.zones[z].live + {c}), q)
    ensures Inv(To(s, t, Live(s.sh, z, s.sh.zones[z].live + {c}), q))
  {
    hide *;
    var sh' := Live(s.sh, z, s.sh.zones[z].live + {c});
    InvParts(s, t);
    LiveChanges(s.sh, t, z, s.sh.zones[z].live + {c}, {});
    LiveChanges(s.sh, t, z, s.sh.zones[z].live + {c}, Mentions(s.threads[t]));
    LiveGains(s.sh, z, c);
    LocksStay(s, t, sh', q);
    HandsGain(s, t, sh', q, InZone(z, c));
    Keeps(s, t, sh', q);
  }

  lemma FreeMoves(s: System, t: nat, z: nat, c: nat, shrink: bool, f: AfterFree)
    requires Inv(s) && t < |s.threads| && s.threads[t] == FreeChunk(z, c, shrink, f)
    ensures z in s.sh.zones && s.sh.zones[z].owner == Some(t) && !Untouchable(s.sh, t, z)
    ensures InZone(z, c) !in Mentions(FreeUnlock(z, f))
  {
    hide Inv, Lists, Apart, IsLive;
    InvParts(s, t);
  }

  lemma FreeMentions(z: nat, c: nat, shrink: bool, f: AfterFree)
    ensures var p, q := FreeChunk(z, c, shrink, f), FreeUnlock(z, f);
            SameLocks(p, q) && Mentions(p) == Mentions(q) + {InZone(z, c)} && forall sh :: PcOk(sh, q)
  {
  }

  lemma ChunkFreed(s: System, t: nat, z: nat, c: nat, shrink: bool, f: AfterFree)
    requires Inv(s) && t < |s.threads| && s.threads[t] == FreeChunk(z, c, shrink, f) && z in s.sh.zones
    ensures Inv(To(s, t, Live(s.sh, z, s.sh.zones[z].live - {c}), FreeUnlock(z, f)))
  {
    hide *;
    var q := FreeUnlock(z, f);
    var sh' := Live(s.sh, z, s.sh.zones[z].live - {c});
    InvParts(s, t);
    FreeMoves(s, t, z, c, shrink, f);
    FreeMentions(z, c, shrink, f);
    LiveChanges(s.sh, t, z, s.sh.zones[z].live - {c}, {InZone(z, c)});
    LiveChanges(s.sh, t, z, s.sh.zones[z].live - {c}, Mentions(s.threads[t]));
    LocksStay(s, t, sh', q);
    HandsLose(s, t, sh', q, InZone(z, c));
    Keeps(s, t, sh', q);
  }

  function Bigs(sh: Shared, a: nat, bigs: set<nat>): Shared
    requires a < |sh.arenas|
  {
    SetArena(sh, a, sh.arenas[a].(bigs := bigs))
  }

  lemma BigsChange(sh: Shared, t: nat, a: nat, bigs: set<nat>, hands: set<Handle>)
    requires a < |sh.arenas| && sh.arenas[a].owner == Some(t) && Lists(sh)
    requires forall c :: c in sh.arenas[a].bigs && c !in bigs ==> InLarge(a, c) in hands
    ensures Respects(sh, Bigs(sh, a, bigs), t, hands) && SameOwners(sh, Bigs(sh, a, bigs)) && Lists(Bigs(sh, a, bigs))
    ensures forall h :: IsLive(sh, h) && h !in hands ==> IsLive(Bigs(sh, a, bigs), h)
    ensures Bigs(sh, a, bigs).bookChunk == sh.bookChunk
  {
    var sh' := Bigs(sh, a, bigs);
    assert forall b :: 0 <= b < |sh.arenas| ==>
           sh'.arenas[b].list == sh.arenas[b].list && sh'.arenas[b].large == sh.arenas[b].large;
    hide Distinct;
  }

  /** What a thread at the LARGE subarena knows, and what it goes on with. */
  lemma BigMoves(s: System, t: nat, a: nat, pc: Pc, bigs: set<nat>)
    requires Inv(s) && t < |s.threads| && s.threads[t] == pc && (pc.AllocateLarge? || pc.FreeLarge?) && pc.a == a
    ensures a < |s.sh.arenas| && s.sh.arenas[a].owner == Some(t) && s.sh.arenas[a].large
    ensures pc.AllocateLarge? ==> forall c :: c !in s.sh.arenas[a].bigs ==>
      var q := UnlockArena(a, Some(InLarge(a, c)), pc.m);
      SameLocks(pc, q) && Mentions(q) == Mentions(pc) + {InLarge(a, c)} && PcOk(Bigs(s.sh, a, bigs), q)
    ensures pc.FreeLarge? ==>
      var q := LargeUnlock(a, pc.f);
      && InLarge(a, pc.c) !in Mentions(q) && Mentions(pc) == Mentions(q) + {InLarge(a, pc.c)}
      && SameLocks(pc, q) && PcOk(Bigs(s.sh, a, bigs), q)
  {
    hide Inv, Lists, Apart;
    InvParts(s, t);
  }

  lemma BigGains(sh: Shared, a: nat, c: nat)
    requires a < |sh.arenas| && sh.arenas[a].large && c !in sh.arenas[a].bigs
    ensures !IsLive(sh, InLarge(a, c)) && IsLive(Bigs(sh, a, sh.arenas[a].bigs + {c}), InLarge(a, c))
  {
  }

  lemma BigMade(s: System, t: nat, a: nat, m: AfterMalloc, c: nat)
    requires Inv(s) && t < |s.threads| && s.threads[t] == AllocateLarge(a, m) && a < |s.sh.arenas| &&
             c !in s.sh.arenas[a].bigs
    ensures Inv(To(s, t, Bigs(s.sh, a, s.sh.arenas[a].bigs + {c}), UnlockArena(a, Some(InLarge(a, c)), m)))
  {
    hide *;
    var q := UnlockArena(a, Some(InLarge(a, c)), m);
    var bigs := s.sh.arenas[a].bigs + {c};
    var sh' := Bigs(s.sh, a, bigs);
    InvParts(s, t);
    BigMoves(s, t, a, s.threads[t], bigs);
    BigsChange(s.sh, t, a, bigs, {});
    BigsChange(s.sh, t, a, bigs, Mentions(s.threads[t]));
    BigGains(s.sh, a, c);
    LocksStay(s, t, sh', q);
    HandsGain(s, t, sh', q, InLarge(a, c));
    Keeps(s, t, sh', q);
  }

  lemma BigFreed(s: System, t: nat, a: nat, c: nat, f: AfterFree)
    requires Inv(s) && t < |s.threads| && s.threads[t] == FreeLarge(a, c, f) && a < |s.sh.arenas|
    ensures Inv(To(s, t, Bigs(s.sh, a, s.sh.arenas[a].bigs - {c}), LargeUnlock(a, f)))
  {
    hide *;
    var q := LargeUnlock(a, f);
    var bigs := s.sh.arenas[a].bigs - {c};
    var sh' := Bigs(s.sh, a, bigs);
    InvParts(s, t);
    BigMoves(s, t, a, s.threads[t], bigs);
    BigsChange(s.sh, t, a, bigs, {InLarge(a, c)});
    BigsChange(s.sh, t, a, bigs, Mentions(s.threads[t]));
    LocksStay(s, t, sh', q);
    HandsLose(s, t, sh', q, InLarge(a, c));
    Keeps(s, t, sh', q);
  }

  // ---------------------------------------------------------------- zones listed, unlisted, mapped and unmapped

  function Listed(sh: Shared, a: nat, list: seq<nat>): Shared
    requires a < |sh.arenas|
  {
    SetArena(sh, a, sh.arenas[a].(list := list))
  }

  lemma ListChanges(sh: Shared, t: nat, a: nat, list: seq<nat>, hands: set<Handle>)
    requires a < |sh.arenas| && sh.arenas[a].owner == Some(t) && Lists(sh) && !sh.arenas[a].large && Distinct(list)
    requires forall i :: 0 <= i < |list| ==> list[i] in sh.zones && sh.zones[list[i]].arena == a
    ensures Respects(sh, Listed(sh, a, list), t, hands) && SameOwners(sh, Listed(sh, a, list)) &&
            Lists(Listed(sh, a, list))
    ensures forall h :: IsLive(sh, h) <==> IsLive(Listed(sh, a, list), h)
  {
    hide Distinct;
  }

  /** A thread with its subarena locked changes the list of zones. */
  lemma Relisted(s: System, t: nat, a: nat, list: seq<nat>, q: Pc)
    requires Inv(s) && t < |s.threads| && a < |s.sh.arenas| && s.sh.arenas[a].owner == Some(t) &&
             !s.sh.arenas[a].large && Distinct(list)
    requires forall i :: 0 <= i < |list| ==> list[i] in s.sh.zones && s.sh.zones[list[i]].arena == a
    requires SameLocks(s.threads[t], q) && TakesOver(s, t, q) && PcOk(Listed(s.sh, a, list), q)
    ensures Inv(To(s, t, Listed(s.sh, a, list), q))
  {
    var sh' := Listed(s.sh, a, list);
    ListChanges(s.sh, t, a, list, Mentions(s.threads[t]));
    LocksStay(s, t, sh', q);
    HandsTaken(s, t, sh', q);
    hide Mentions, PcOk, TakesOver, HandsFollow, LocksFollow, Lists, Respects, SameLocks, SameOwners, Distinct;
    Keeps(s, t, sh', q);
  }

  lemma Pushed(s: System, t: nat, a: nat, z: nat, m: AfterMalloc)
    requires Inv(s) && t < |s.threads| && s.threads[t] == PushZone(a, z, m) && a < |s.sh.arenas|
    ensures Inv(To(s, t, Listed(s.sh, a, [z] + s.sh.arenas[a].list), AllocateFresh(a, z, m)))
  {
    assert ThreadOk(s.sh, t, s.threads[t]);
    Relisted(s, t, a, [z] + s.sh.arenas[a].list, AllocateFresh(a, z, m));
  }

  lemma DropAt(list: seq<nat>, i: nat, list': seq<nat>)
    requires i < |list| && Distinct(list) && list' == Without(list, i)
    ensures Distinct(list') && list[i] !in list'
    ensures forall k :: 0 <= k < |list'| ==> list'[k] == list[if k < i then k else k + 1]
  {
  }

  /** The list without its zone `i`, where a releasing thread leaves it. */
  lemma UnlinkWell(sh: Shared, a: nat, i: nat, lot: Option<nat>, z: nat)
    requires Lists(sh) && PcOk(sh, RUnlink(a, i, lot, z))
    ensures var list := sh.arenas[a].list;
            var list' := Without(list, i);
            !sh.arenas[a].large && Distinct(list') &&
              (forall k :: 0 <= k < |list'| ==> list'[k] in sh.zones && sh.zones[list'[k]].arena == a)
            && PcOk(Listed(sh, a, list'), RUnmap(a, i, lot, z))
  {
    var list := sh.arenas[a].list;
    var list' := Without(list, i);
    DropAt(list, i, list');
    assert LotOf(list', i, lot);
  }

  lemma Unlinked(s: System, t: nat, a: nat, i: nat, lot: Option<nat>, z: nat)
    requires Inv(s) && t < |s.threads| && s.threads[t] == RUnlink(a, i, lot, z) && a < |s.sh.arenas| &&
             i < |s.sh.arenas[a].list|
    ensures Inv(To(s, t, Listed(s.sh, a, Without(s.sh.arenas[a].list, i)), RUnmap(a, i, lot, z)))
  {
    var q := RUnmap(a, i, lot, z);
    assert TakesOver(s, t, q) && SameLocks(s.threads[t], q) by { hide Inv; }
    hide Inv, Mentions, Lists, Apart, Distinct, TakesOver, SameLocks, Without, LotOf;
    InvParts(s, t);
    UnlinkWell(s.sh, a, i, lot, z);
    hide PcOk;
    Relisted(s, t, a, Without(s.sh.arenas[a].list, i), q);
  }

  lemma MapMoves(s: System, t: nat, a: nat, z: nat, m: AfterMalloc)
    requires Inv(s) && t < |s.threads| && s.threads[t] == MapZone(a, m) && z !in s.sh.zones
    ensures a < |s.sh.arenas| && !s.sh.arenas[a].large && Lists(s.sh) && TakesOver(s, t, InitZone(a, z, m))
    ensures SameLocks(s.threads[t], InitZone(a, z, m)) && PcOk(SetZone(s.sh, z, Zone(None, a, {})), InitZone(a, z, m))
  {
    assert ThreadOk(s.sh, t, s.threads[t]);
    assert Lists(s.sh);
    hide Apart, Owners, Distinct, HasLocks;
  }

  lemma Mapped(s: System, t: nat, a: nat, z: nat, m: AfterMalloc)
    requires Inv(s) && t < |s.threads| && s.threads[t] == MapZone(a, m) && z !in s.sh.zones
    ensures Inv(To(s, t, SetZone(s.sh, z, Zone(None, a, {})), InitZone(a, z, m)))
  {
    hide *;
    var q := InitZone(a, z, m);
    var sh' := SetZone(s.sh, z, Zone(None, a, {}));
    MapMoves(s, t, a, z, m);
    MappedShared(s.sh, t, a, z, Mentions(s.threads[t]));
    LocksStay(s, t, sh', q);
    HandsTaken(s, t, sh', q);
    Keeps(s, t, sh', q);
  }

  lemma MappedShared(sh: Shared, t: nat, a: nat, z: nat, hands: set<Handle>)
    requires z !in sh.zones && a < |sh.arenas| && !sh.arenas[a].large && Lists(sh)
    ensures Respects(sh, SetZone(sh, z, Zone(None, a, {})), t, hands) &&
            SameOwners(sh, SetZone(sh, z, Zone(None, a, {})))
    ensures Lists(SetZone(sh, z, Zone(None, a, {}))) && SetZone(sh, z, Zone(None, a, {})).bookChunk == sh.bookChunk
    ensures forall h :: IsLive(sh, h) ==> IsLive(SetZone(sh, z, Zone(None, a, {})), h)
  {
    hide Lists;
    MappedLists(sh, a, z);
  }

  lemma MappedLists(sh: Shared, a: nat, z: nat)
    requires z !in sh.zones && a < |sh.arenas| && !sh.arenas[a].large && Lists(sh)
    ensures Lists(SetZone(sh, z, Zone(None, a, {})))
  {
    hide Distinct;
  }

  lemma UnmapMoves(s: System, t: nat, a: nat, i: nat, lot: Option<nat>, z: nat)
    requires Inv(s) && t < |s.threads| && s.threads[t] == RUnmap(a, i, lot, z)
    ensures Private(s.sh, a, z) && s.sh.arenas[a].owner == Some(t)
    ensures PcOk(s.sh.(zones := s.sh.zones - {z}), RReadLot(a, i, lot))
  {
    hide Inv, Mentions, Lists, Apart, LotOf;
    InvParts(s, t);
  }

  lemma UnmapMentions(s: System, t: nat, a: nat, i: nat, lot: Option<nat>, z: nat)
    requires t < |s.threads| && s.threads[t] == RUnmap(a, i, lot, z)
    ensures TakesOver(s, t, RReadLot(a, i, lot)) && SameLocks(s.threads[t], RReadLot(a, i, lot))
  {
  }

  lemma Unmapped(s: System, t: nat, a: nat, i: nat, lot: Option<nat>, z: nat)
    requires Inv(s) && t < |s.threads| && s.threads[t] == RUnmap(a, i, lot, z)
    ensures Inv(To(s, t, s.sh.(zones := s.sh.zones - {z}), RReadLot(a, i, lot)))
  {
    hide *;
    var q := RReadLot(a, i, lot);
    var sh' := s.sh.(zones := s.sh.zones - {z});
    InvParts(s, t);
    UnmapMoves(s, t, a, i, lot, z);
    UnmapMentions(s, t, a, i, lot, z);
    UnmappedShared(s.sh, t, a, z, Mentions(s.threads[t]));
    LocksStay(s, t, sh', q);
    HandsTaken(s, t, sh', q);
    Keeps(s, t, sh', q);
  }

  lemma UnmappedShared(sh: Shared, t: nat, a: nat, z: nat, hands: set<Handle>)
    requires Lists(sh) && Private(sh, a, z) && sh.arenas[a].owner == Some(t)
    ensures Respects(sh, sh.(zones := sh.zones - {z}), t, hands) && SameOwners(sh, sh.(zones := sh.zones - {z}))
    ensures Lists(sh.(zones := sh.zones - {z}))
    ensures forall h :: IsLive(sh, h) ==> IsLive(sh.(zones := sh.zones - {z}), h)
  {
    hide Distinct;
  }

  // ---------------------------------------------------------------- the book

  lemma BookShared(sh: Shared, sh': Shared, t: nat, hands: set<Handle>)
    requires sh'.arenas == sh.arenas && sh'.zones == sh.zones && Lists(sh)
    requires sh.bookOwner == None || sh.bookOwner == Some(t)
    ensures Respects(sh, sh', t, hands) && Lists(sh')
  {
    hide Distinct;
  }

  lemma BookFollows(s: System, t: nat, sh': Shared, q: Pc)
    requires Inv(s) && t < |s.threads| && (s.sh.bookOwner == None || HoldsBook(s.threads[t]))
    requires sh' == s.sh.(bookOwner := if HoldsBook(q) then Some(t) else None)
    requires HoldsArena(q) == HoldsArena(s.threads[t]) && HoldsZone(q) == HoldsZone(s.threads[t])
    ensures LocksFollow(s.sh, sh', t, q) && (s.sh.bookOwner == None || s.sh.bookOwner == Some(t))
  {
    hide Inv, HoldsArena, HoldsZone, HoldsBook;
    LocksAreHeld(s, t);
  }

  /** The lock of the book changes hands. */
  lemma BookLock(s: System, t: nat, o: Option<nat>, q: Pc)
    requires Inv(s) && t < |s.threads| && (s.sh.bookOwner == None || HoldsBook(s.threads[t])) &&
             o == (if HoldsBook(q) then Some(t) else None)
    requires HoldsArena(q) == HoldsArena(s.threads[t]) && HoldsZone(q) == HoldsZone(s.threads[t]) && PcOk(s.sh, q) &&
             TakesOver(s, t, q)
    ensures Inv(To(s, t, s.sh.(bookOwner := o), q))
  {
    var sh' := s.sh.(bookOwner := o);
    BookFollows(s, t, sh', q);
    BookShared(s.sh, sh', t, Mentions(s.threads[t]));
    HandsTaken(s, t, sh', q);
    PcAlsoOk(s.sh, sh', q);
    hide Mentions, PcOk, HandsFollow, LocksFollow, Lists, Respects, TakesOver;
    Keeps(s, t, sh', q);
  }

  lemma PcAlsoOk(sh: Shared, sh': Shared, q: Pc)
    requires PcOk(sh, q) && sh'.arenas == sh.arenas && sh'.zones == sh.zones
    ensures PcOk(sh', q)
  {
  }

  lemma HandsSwap(s: System, t: nat, h: Handle)
    requires Inv(s) && t < |s.threads| && s.threads[t] == UseBook(Install(h))
    ensures HandsFollow(s, s.sh.(bookChunk := Some(h)), t, BookUnlock(FreeItems(s.sh.bookChunk)))
  {
    hide *;
    InvParts(s, t);
    InstallHands(s, t, h);
    HandsSwapped(s, t, s.sh.(bookChunk := Some(h)), BookUnlock(FreeItems(s.sh.bookChunk)), h);
  }

  lemma InstallHands(s: System, t: nat, h: Handle)
    requires t < |s.threads| && s.threads[t] == UseBook(Install(h)) && ThreadOk(s.sh, t, s.threads[t])
    ensures Mentions(s.threads[t]) == {h} && Mentions(BookUnlock(FreeItems(s.sh.bookChunk))) == Opt(s.sh.bookChunk) &&
            IsLive(s.sh, h)
  {
    hide IsLive, HasLocks, PcOk;
  }

  /** The thread puts its chunk into the book and goes on with the one that was there. */
  lemma HandsSwapped(s: System, t: nat, sh': Shared, q: Pc, h: Handle)
    requires Apart(s) && t < |s.threads| && Mentions(s.threads[t]) == {h} && Mentions(q) == Opt(s.sh.bookChunk) &&
             IsLive(s.sh, h)
    requires sh' == s.sh.(bookChunk := Some(h))
    ensures HandsFollow(s, sh', t, q)
  {
    assert forall k :: IsLive(sh', k) <==> IsLive(s.sh, k);
    hide Mentions, IsLive, Free;
  }

  lemma InstallLocks(s: System, t: nat, h: Handle)
    requires Inv(s) && t < |s.threads| && s.threads[t] == UseBook(Install(h))
    ensures LocksFollow(s.sh, s.sh.(bookChunk := Some(h)), t, BookUnlock(FreeItems(s.sh.bookChunk)))
  {
    var q, sh' := BookUnlock(FreeItems(s.sh.bookChunk)), s.sh.(bookChunk := Some(h));
    OnlyBookChunk(s.sh, sh');
    assert SameLocks(s.threads[t], q);
    hide Inv, SameLocks, SameOwners;
    LocksStay(s, t, sh', q);
  }

  lemma BookHeld(s: System, t: nat)
    requires Inv(s) && t < |s.threads| && HoldsBook(s.threads[t])
    ensures s.sh.bookOwner == Some(t) && Lists(s.sh)
  {
    assert ThreadOk(s.sh, t, s.threads[t]);
    hide Apart, Owners, Lists, PcOk, Mentions;
  }

  /** The new array is put in place; the old one passes into the hands of the thread, for it to free. */
  lemma Installed(s: System, t: nat, h: Handle)
    requires Inv(s) && t < |s.threads| && s.threads[t] == UseBook(Install(h))
    ensures Inv(To(s, t, s.sh.(bookChunk := Some(h)), BookUnlock(FreeItems(s.sh.bookChunk))))
  {
    var q, sh' := BookUnlock(FreeItems(s.sh.bookChunk)), s.sh.(bookChunk := Some(h));
    assert HoldsBook(s.threads[t]) && PcOk(sh', q) by { hide Inv; }
    hide *;
    HandsSwap(s, t, h);
    InstallLocks(s, t, h);
    BookHeld(s, t);
    BookShared(s.sh, sh', t, Mentions(s.threads[t]));
    Keeps(s, t, sh', q);
  }

  lemma OnlyBookChunk(sh: Shared, sh': Shared)
    requires sh'.arenas == sh.arenas && sh'.zones == sh.zones && sh'.bookOwner == sh.bookOwner
    ensures SameOwners(sh, sh')
  {
  }
}
