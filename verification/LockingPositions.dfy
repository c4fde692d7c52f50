/**
  Each position a thread can stand at: its step keeps the invariant of the locking protocol.
*/
module LockingPositions {
  import opened Wrappers
  import opened LinkedLists
  import opened LockingModel
  import opened LockingInvariant
  import opened LockingSteps

  lemma BeginKeeps(s: System, t: nat, call: Call)
    requires Inv(s) && t < |s.threads| && s.threads[t] == Idle
    ensures Inv(Begin(s, t, call))
  {
    var s' := Begin(s, t, call);
    if s' != s {
      var q := s'.threads[t];
      BeginsWell(s, t, call);
      hide Inv, Begin, PcOk, TakesOver, Mentions, SameLocks;
      MoveKeeps(s, t, q);
    }
  }

  lemma BeginsWell(s: System, t: nat, call: Call)
    requires t < |s.threads| && s.threads[t] == Idle && Begin(s, t, call) != s
    ensures var q := Begin(s, t, call).threads[t];
            Begin(s, t, call) == To(s, t, s.sh, q) && SameLocks(Idle, q) && PcOk(s.sh, q) && TakesOver(s, t, q)
  {
  }

  lemma EnterKeeps(s: System, t: nat, a: nat, m: AfterMalloc)
    requires Inv(s) && t < |s.threads| && a < |s.sh.arenas| && s.sh.arenas[a].owner == None
    requires s.threads[t].TryArena? || s.threads[t].WantArena?
    requires s.threads[t].m == m
    ensures Inv(EnterArena(s, t, a, m))
  {
    var q := EnterArena(s, t, a, m).threads[t];
    ArenaLocks(s, t, a, q);
  }

  ghost predicate Ready(s: System, t: nat) {
    t < |s.threads| && Positioned(s.sh, s.threads[t]) && Enabled(s, t)
  }

  /**
    What a thread may use of the invariant: what it knows, and that the zones it meets on a list are of that
    subarena.
  */
  lemma Knows(s: System, t: nat)
    requires Inv(s) && t < |s.threads|
    ensures ThreadOk(s.sh, t, s.threads[t])
    ensures forall a, i {:trigger s.sh.arenas[a].list[i]} ::
              0 <= a < |s.sh.arenas| && 0 <= i < |s.sh.arenas[a].list| ==>
                s.sh.arenas[a].list[i] in s.sh.zones && s.sh.zones[s.sh.arenas[a].list[i]].arena == a &&
                !s.sh.arenas[a].large
  {
    hide PcOk, HasLocks, Mentions, Owners, Apart, Distinct;
  }

  lemma ChoosingKeeps(s: System, t: nat, ok: bool, name: nat)
    requires Inv(s) && Ready(s, t) && (s.threads[t].TryArena? || s.threads[t].WantArena?)
    ensures Inv(MallocStep(s, t, s.threads[t], ok, name))
  {
    hide Inv;
    var pc := s.threads[t];
    var q := MallocStep(s, t, s.threads[t], ok, name).threads[t];
    Knows(s, t);
    if q.TryArena? || q.WantArena? {
      MoveKeeps(s, t, q);
    } else {
      EnterKeeps(s, t, if pc.TryArena? then pc.cands[pc.i] else pc.a, pc.m);
    }
  }

  lemma ReadHeadKeeps(s: System, t: nat, ok: bool, name: nat)
    requires Inv(s) && Ready(s, t) && s.threads[t].ReadHead?
    ensures Inv(MallocStep(s, t, s.threads[t], ok, name))
  {
    hide Inv;
    var pc := s.threads[t];
    var q := MallocStep(s, t, s.threads[t], ok, name).threads[t];
    Knows(s, t);
    assert PcOk(s.sh, q) && TakesOver(s, t, q) by { hide HasLocks; }
    hide ThreadOk, PcOk, Mentions, TakesOver;
    MoveKeeps(s, t, q);
  }

  lemma InitZoneKeeps(s: System, t: nat, ok: bool, name: nat)
    requires Inv(s) && Ready(s, t) && s.threads[t].InitZone?
    ensures Inv(MallocStep(s, t, s.threads[t], ok, name))
  {
    hide Inv;
    var pc := s.threads[t];
    var q := PushZone(pc.a, pc.z, pc.m);
    Knows(s, t);
    assert PcOk(s.sh, q) && TakesOver(s, t, q) by { hide HasLocks; }
    hide ThreadOk, PcOk, Mentions, TakesOver;
    MoveKeeps(s, t, q);
  }

  lemma ReadNextKeeps(s: System, t: nat, ok: bool, name: nat)
    requires Inv(s) && Ready(s, t) && s.threads[t].ReadNext?
    ensures Inv(MallocStep(s, t, s.threads[t], ok, name))
  {
    hide Inv;
    var pc := s.threads[t];
    var q := MallocStep(s, t, s.threads[t], ok, name).threads[t];
    Knows(s, t);
    assert PcOk(s.sh, q) && TakesOver(s, t, q);
    hide PcOk, Mentions, TakesOver;
    MoveKeeps(s, t, q);
  }

  lemma TryZoneKeeps(s: System, t: nat, ok: bool, name: nat)
    requires Inv(s) && Ready(s, t) && s.threads[t].TryZone?
    ensures Inv(MallocStep(s, t, s.threads[t], ok, name))
  {
    hide Inv;
    var pc := s.threads[t];
    var q := MallocStep(s, t, s.threads[t], ok, name).threads[t];
    Knows(s, t);
    if q.Allocate? {
      ZoneLocks(s, t, pc.z, q);
    } else {
      MoveKeeps(s, t, q);
    }
  }

  lemma AllocateKeeps(s: System, t: nat, ok: bool, name: nat)
    requires Inv(s) && Ready(s, t) && s.threads[t].Allocate?
    ensures Inv(MallocStep(s, t, s.threads[t], ok, name))
  {
    hide Inv;
    var pc := s.threads[t];
    var q := MallocStep(s, t, s.threads[t], ok, name).threads[t];
    Knows(s, t);
    if q.got.Some? {
      ChunkMade(s, t, pc.z, name, q);
    } else {
      MoveKeeps(s, t, q);
    }
  }

  lemma UnlockZoneKeeps(s: System, t: nat, ok: bool, name: nat)
    requires Inv(s) && Ready(s, t) && s.threads[t].UnlockZone?
    ensures Inv(MallocStep(s, t, s.threads[t], ok, name))
  {
    hide Inv;
    var pc := s.threads[t];
    var q := MallocStep(s, t, s.threads[t], ok, name).threads[t];
    Knows(s, t);
    assert PcOk(LockZone(s.sh, pc.z, None), q) && TakesOver(s, t, q);
    hide PcOk, Mentions, TakesOver;
    ZoneUnlocks(s, t, pc.z, q);
  }

  lemma GrowingKeeps(s: System, t: nat, ok: bool, name: nat)
    requires Inv(s) && Ready(s, t) && (s.threads[t].MapZone? || s.threads[t].PushZone?)
    ensures Inv(MallocStep(s, t, s.threads[t], ok, name))
  {
    hide Inv;
    var pc := s.threads[t];
    var q := MallocStep(s, t, s.threads[t], ok, name).threads[t];
    Knows(s, t);
    if pc.PushZone? {
      Pushed(s, t, pc.a, pc.z, pc.m);
    } else if q.InitZone? {
      Mapped(s, t, pc.a, name, pc.m);
    } else {
      MoveKeeps(s, t, q);
    }
  }

  lemma AllocateFreshKeeps(s: System, t: nat, ok: bool, name: nat)
    requires Inv(s) && Ready(s, t) && s.threads[t].AllocateFresh?
    ensures Inv(MallocStep(s, t, s.threads[t], ok, name))
  {
    hide Inv;
    var pc := s.threads[t];
    var q := MallocStep(s, t, s.threads[t], ok, name).threads[t];
    Knows(s, t);
    ChunkMade(s, t, pc.z, name, q);
  }

  lemma AllocateLargeKeeps(s: System, t: nat, ok: bool, name: nat)
    requires Inv(s) && Ready(s, t) && s.threads[t].AllocateLarge?
    ensures Inv(MallocStep(s, t, s.threads[t], ok, name))
  {
    hide Inv;
    var pc := s.threads[t];
    var q := MallocStep(s, t, s.threads[t], ok, name).threads[t];
    Knows(s, t);
    if q.got.Some? {
      BigMade(s, t, pc.a, pc.m, name);
    } else {
      MoveKeeps(s, t, q);
    }
  }

  lemma UnlockArenaKeeps(s: System, t: nat, ok: bool, name: nat)
    requires Inv(s) && Ready(s, t) && s.threads[t].UnlockArena?
    ensures Inv(MallocStep(s, t, s.threads[t], ok, name))
  {
    hide Inv;
    var pc := s.threads[t];
    var q := MallocStep(s, t, s.threads[t], ok, name).threads[t];
    Knows(s, t);
    ArenaUnlocks(s, t, pc.a, q);
  }

  lemma MallocKeeps(s: System, t: nat, ok: bool, name: nat)
    requires Inv(s) && Ready(s, t) && PartOf(s.threads[t]) == MallocPart
    ensures Inv(MallocStep(s, t, s.threads[t], ok, name))
  {
    hide Inv, MallocStep;
    match s.threads[t]
    case TryArena(_, _, _) => ChoosingKeeps(s, t, ok, name);
    case WantArena(_, _) => ChoosingKeeps(s, t, ok, name);
    case ReadHead(_, _) => ReadHeadKeeps(s, t, ok, name);
    case TryZone(_, _, _, _) => TryZoneKeeps(s, t, ok, name);
    case Allocate(_, _, _, _) => AllocateKeeps(s, t, ok, name);
    case UnlockZone(_, _, _, _, _) => UnlockZoneKeeps(s, t, ok, name);
    case ReadNext(_, _, _, _) => ReadNextKeeps(s, t, ok, name);
    case MapZone(_, _) => GrowingKeeps(s, t, ok, name);
    case InitZone(_, _, _) => InitZoneKeeps(s, t, ok, name);
    case PushZone(_, _, _) => GrowingKeeps(s, t, ok, name);
    case AllocateFresh(_, _, _) => AllocateFreshKeeps(s, t, ok, name);
    case AllocateLarge(_, _) => AllocateLargeKeeps(s, t, ok, name);
    case UnlockArena(_, _, _) => UnlockArenaKeeps(s, t, ok, name);
  }

  lemma FreeWantsKeeps(s: System, t: nat)
    requires Inv(s) && Ready(s, t) && s.threads[t].WantZone?
    ensures Inv(FreeStep(s, t, s.threads[t]))
  {
    hide Inv;
    var pc := s.threads[t];
    var q := FreeStep(s, t, s.threads[t]).threads[t];
    Knows(s, t);
    assert IsLive(s.sh, InZone(pc.z, pc.c));
    ZoneLocks(s, t, pc.z, q);
  }

  lemma FreeChunkKeeps(s: System, t: nat)
    requires Inv(s) && Ready(s, t) && s.threads[t].FreeChunk?
    ensures Inv(FreeStep(s, t, s.threads[t]))
  {
    hide Inv;
    var pc := s.threads[t];
    var q := FreeStep(s, t, s.threads[t]).threads[t];
    Knows(s, t);
    if pc.shrink {
      MoveKeeps(s, t, q);
    } else {
      ChunkFreed(s, t, pc.z, pc.c, pc.shrink, pc.f);
    }
  }

  lemma FreeUnlocksKeeps(s: System, t: nat)
    requires Inv(s) && Ready(s, t) && s.threads[t].FreeUnlock?
    ensures Inv(FreeStep(s, t, s.threads[t]))
  {
    hide Inv;
    var pc := s.threads[t];
    var q := FreeReturns(pc.f);
    assert FreeStep(s, t, pc) == To(s, t, LockZone(s.sh, pc.z, None), q) by { hide LockZone, To, FreeReturns; }
    hide FreeStep, LockZone, To;
    assert TakesOver(s, t, q) && PcOk(LockZone(s.sh, pc.z, None), q);
    ZoneUnlocks(s, t, pc.z, q);
  }

  lemma LargeWantsKeeps(s: System, t: nat)
    requires Inv(s) && Ready(s, t) && s.threads[t].WantLarge?
    ensures Inv(FreeStep(s, t, s.threads[t]))
  {
    hide Inv;
    var pc := s.threads[t];
    var q := FreeStep(s, t, s.threads[t]).threads[t];
    Knows(s, t);
    assert IsLive(s.sh, InLarge(pc.a, pc.c));
    ArenaLocks(s, t, pc.a, q);
  }

  lemma LargeFreesKeeps(s: System, t: nat)
    requires Inv(s) && Ready(s, t) && s.threads[t].FreeLarge?
    ensures Inv(FreeStep(s, t, s.threads[t]))
  {
    hide Inv;
    var pc := s.threads[t];
    var q := FreeStep(s, t, s.threads[t]).threads[t];
    Knows(s, t);
    BigFreed(s, t, pc.a, pc.c, pc.f);
  }

  lemma LargeUnlocksKeeps(s: System, t: nat)
    requires Inv(s) && Ready(s, t) && s.threads[t].LargeUnlock?
    ensures Inv(FreeStep(s, t, s.threads[t]))
  {
    hide Inv;
    var pc := s.threads[t];
    var q := FreeStep(s, t, s.threads[t]).threads[t];
    Knows(s, t);
    ArenaUnlocks(s, t, pc.a, q);
  }

  lemma FreeKeeps(s: System, t: nat)
    requires Inv(s) && Ready(s, t) && PartOf(s.threads[t]) == FreePart
    ensures Inv(FreeStep(s, t, s.threads[t]))
  {
    hide Inv, FreeStep;
    match s.threads[t]
    case WantZone(_, _, _, _) => FreeWantsKeeps(s, t);
    case FreeChunk(_, _, _, _) => FreeChunkKeeps(s, t);
    case FreeUnlock(_, _) => FreeUnlocksKeeps(s, t);
    case WantLarge(_, _, _) => LargeWantsKeeps(s, t);
    case FreeLarge(_, _, _) => LargeFreesKeeps(s, t);
    case LargeUnlock(_, _) => LargeUnlocksKeeps(s, t);
  }

  lemma ReleaseStartsKeeps(s: System, t: nat)
    requires Inv(s) && Ready(s, t) && s.threads[t].RWantArena?
    ensures Inv(ReleaseStep(s, t, s.threads[t]))
  {
    hide Inv;
    var pc := s.threads[t];
    var q := ReleaseStep(s, t, s.threads[t]).threads[t];
    Knows(s, t);
    ArenaLocks(s, t, pc.a, q);
  }

  lemma ReleaseReadsKeeps(s: System, t: nat)
    requires Inv(s) && Ready(s, t) && s.threads[t].RReadLot?
    ensures Inv(ReleaseStep(s, t, s.threads[t]))
  {
    hide Inv;
    var pc := s.threads[t];
    var q := ReleaseStep(s, t, s.threads[t]).threads[t];
    Knows(s, t);
    assert PcOk(s.sh, q) && TakesOver(s, t, q);
    hide PcOk, Mentions, TakesOver;
    MoveKeeps(s, t, q);
  }

  lemma ReleaseLocksKeeps(s: System, t: nat)
    requires Inv(s) && Ready(s, t) && s.threads[t].RWantZone?
    ensures Inv(ReleaseStep(s, t, s.threads[t]))
  {
    hide Inv;
    var pc := s.threads[t];
    var q := ReleaseStep(s, t, s.threads[t]).threads[t];
    Knows(s, t);
    ZoneLocks(s, t, pc.z, q);
  }

  lemma ReleaseTestsKeeps(s: System, t: nat)
    requires Inv(s) && Ready(s, t) && s.threads[t].RTest?
    ensures Inv(ReleaseStep(s, t, s.threads[t]))
  {
    hide Inv;
    var pc := s.threads[t];
    var q := ReleaseStep(s, t, s.threads[t]).threads[t];
    Knows(s, t);
    assert PcOk(s.sh, q) && TakesOver(s, t, q);
    hide PcOk, Mentions, TakesOver;
    MoveKeeps(s, t, q);
  }

  lemma ReleaseUnlocksKeeps(s: System, t: nat)
    requires Inv(s) && Ready(s, t) && s.threads[t].RUnlockZone?
    ensures Inv(ReleaseStep(s, t, s.threads[t]))
  {
    hide Inv;
    var pc := s.threads[t];
    var q := if pc.releasable then RUnlink(pc.a, pc.i, pc.lot, pc.z) else RReadLot(pc.a, pc.i + 1, Some(pc.z));
    assert ReleaseStep(s, t, pc) == To(s, t, LockZone(s.sh, pc.z, None), q) by { hide LockZone, To; }
    hide ReleaseStep, Positioned, Enabled;
    ZoneIsLeft(s, t, pc, q);
  }

  lemma ZoneIsLeft(s: System, t: nat, pc: Pc, q: Pc)
    requires Inv(s) && t < |s.threads| && s.threads[t] == pc && pc.RUnlockZone? && pc.z in s.sh.zones
    requires q == if pc.releasable then RUnlink(pc.a, pc.i, pc.lot, pc.z) else RReadLot(pc.a, pc.i + 1, Some(pc.z))
    ensures Inv(To(s, t, LockZone(s.sh, pc.z, None), q))
  {
    Knows(s, t);
    UnlockedZoneIsEmpty(s.sh, t, pc, q);
    assert TakesOver(s, t, q);
    assert HoldsZone(q) == None && HoldsZone(pc) == Some(pc.z) && SameButZone(pc, q);
    hide Inv, ThreadOk, PcOk, Mentions, TakesOver, HoldsZone, SameButZone, LockZone;
    ZoneUnlocks(s, t, pc.z, q);
  }

  lemma UnlockedZoneIsEmpty(sh: Shared, t: nat, pc: Pc, q: Pc)
    requires PcOk(sh, pc) && pc.RUnlockZone? && pc.z in sh.zones && sh.zones[pc.z].arena == pc.a
    requires q == if pc.releasable then RUnlink(pc.a, pc.i, pc.lot, pc.z) else RReadLot(pc.a, pc.i + 1, Some(pc.z))
    ensures PcOk(LockZone(sh, pc.z, None), q)
  {
  }

  lemma ReleaseUnlinksKeeps(s: System, t: nat)
    requires Inv(s) && Ready(s, t) && s.threads[t].RUnlink?
    ensures Inv(ReleaseStep(s, t, s.threads[t]))
  {
    hide Inv;
    var pc := s.threads[t];
    var q := ReleaseStep(s, t, s.threads[t]).threads[t];
    Knows(s, t);
    hide PcOk, HasLocks, Mentions, Without;
    Unlinked(s, t, pc.a, pc.i, pc.lot, pc.z);
  }

  lemma ReleaseUnmapsKeeps(s: System, t: nat)
    requires Inv(s) && Ready(s, t) && s.threads[t].RUnmap?
    ensures Inv(ReleaseStep(s, t, s.threads[t]))
  {
    hide Inv;
    var pc := s.threads[t];
    var q := ReleaseStep(s, t, s.threads[t]).threads[t];
    Knows(s, t);
    Unmapped(s, t, pc.a, pc.i, pc.lot, pc.z);
  }

  lemma ReleaseEndsKeeps(s: System, t: nat)
    requires Inv(s) && Ready(s, t) && s.threads[t].RUnlockArena?
    ensures Inv(ReleaseStep(s, t, s.threads[t]))
  {
    hide Inv;
    var pc := s.threads[t];
    var q := ReleaseStep(s, t, s.threads[t]).threads[t];
    Knows(s, t);
    ArenaUnlocks(s, t, pc.a, q);
  }

  lemma ReleaseKeeps(s: System, t: nat)
    requires Inv(s) && Ready(s, t) && PartOf(s.threads[t]) == ReleasePart
    ensures Inv(ReleaseStep(s, t, s.threads[t]))
  {
    hide Inv, ReleaseStep;
    match s.threads[t]
    case RWantArena(_) => ReleaseStartsKeeps(s, t);
    case RReadLot(_, _, _) => ReleaseReadsKeeps(s, t);
    case RWantZone(_, _, _, _) => ReleaseLocksKeeps(s, t);
    case RTest(_, _, _, _) => ReleaseTestsKeeps(s, t);
    case RUnlockZone(_, _, _, _, _) => ReleaseUnlocksKeeps(s, t);
    case RUnlink(_, _, _, _) => ReleaseUnlinksKeeps(s, t);
    case RUnmap(_, _, _, _) => ReleaseUnmapsKeeps(s, t);
    case RUnlockArena(_) => ReleaseEndsKeeps(s, t);
  }

  lemma BookLocksKeeps(s: System, t: nat, ok: bool)
    requires Inv(s) && Ready(s, t) && s.threads[t].WantBook?
    ensures Inv(BookStep(s, t, s.threads[t], ok))
  {
    hide Inv;
    var pc := s.threads[t];
    var q := BookStep(s, t, s.threads[t], ok).threads[t];
    Knows(s, t);
    BookLock(s, t, Some(t), q);
  }

  lemma BookUsesKeeps(s: System, t: nat, ok: bool)
    requires Inv(s) && Ready(s, t) && s.threads[t].UseBook?
    ensures Inv(BookStep(s, t, s.threads[t], ok))
  {
    hide Inv;
    var pc := s.threads[t];
    var q := BookStep(s, t, s.threads[t], ok).threads[t];
    Knows(s, t);
    if pc.stage.Install? {
      Installed(s, t, pc.stage.name);
    } else {
      MoveKeeps(s, t, q);
    }
  }

  lemma BookUnlocksKeeps(s: System, t: nat, ok: bool)
    requires Inv(s) && Ready(s, t) && s.threads[t].BookUnlock?
    ensures Inv(BookStep(s, t, s.threads[t], ok))
  {
    hide Inv;
    var pc := s.threads[t];
    var q := BookStep(s, t, s.threads[t], ok).threads[t];
    Knows(s, t);
    BookLock(s, t, None, q);
  }
}
