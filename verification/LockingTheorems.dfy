/**
  What the locks are for: in every interleaving no two threads touch the same thing, no unmapped zone is touched,
  no zone with a live chunk is unmapped, and there is no deadlock.
*/
module LockingTheorems {
  import opened Wrappers
  import opened LinkedLists
  import opened LockingModel
  import opened LockingInvariant
  import opened LockingSteps
  import opened LockingPositions

  /** One step of any thread keeps the invariant, whatever the outcome of searches and mappings. */
  lemma StepKeepsInv(s: System, a: Action)
    requires Inv(s)
    ensures Inv(Step(s, a))
  {
    hide Inv, MallocStep, FreeStep, ReleaseStep, BookStep, Begin;
    if Ready(s, a.t) {
      var pc := s.threads[a.t];
      if PartOf(pc) == NoPart {
        BeginKeeps(s, a.t, a.call);
      } else if PartOf(pc) == MallocPart {
        MallocKeeps(s, a.t, a.ok, a.name);
      } else if PartOf(pc) == FreePart {
        FreeKeeps(s, a.t);
      } else if PartOf(pc) == ReleasePart {
        ReleaseKeeps(s, a.t);
      } else if pc.WantBook? {
        BookLocksKeeps(s, a.t, a.ok);
      } else if pc.UseBook? {
        BookUsesKeeps(s, a.t, a.ok);
      } else {
        BookUnlocksKeeps(s, a.t, a.ok);
      }
    }
  }

  /** Every interleaving keeps the invariant. */
  lemma {:induction false} RunKeepsInv(s: System, actions: seq<Action>)
    requires Inv(s)
    ensures Inv(Run(s, actions))
    decreases |actions|
  {
    if actions != [] {
      StepKeepsInv(s, actions[0]);
      RunKeepsInv(Step(s, actions[0]), actions[1..]);
    }
  }

  /** Before the first call: no zones, no chunks, no locks taken, nobody inside the allocator. */
  ghost predicate Initial(s: System) {
    && (forall t :: 0 <= t < |s.threads| ==> s.threads[t] == Idle)
    && (forall a :: 0 <= a < |s.sh.arenas| ==> s.sh.arenas[a] == Arena(None, s.sh.arenas[a].large, [], {}))
    && s.sh.zones == map[] && s.sh.bookOwner == None && s.sh.bookChunk == None
  }

  lemma InitialInv(s: System)
    requires Initial(s)
    ensures Inv(s)
  {
  }

  // ---------------------------------------------------------------- nothing is touched without its lock

  /** What can be read or written: counters, bitmaps, free list and free headers of a zone; list links; the book. */
  datatype Resource = ZoneData(z: nat) | ZoneLink(z: nat) | ArenaHead(a: nat) | LargeLinks(a: nat) | Book

  function Lot(a: nat, lot: Option<nat>): Resource {
    if lot.None? then ArenaHead(a) else ZoneLink(lot.value)
  }

  /** What the next step of a thread reads or writes, besides mutexes and the chunks in its own hands. */
  function Touches(pc: Pc): set<Resource> {
    match pc
    case ReadHead(a, _) => {ArenaHead(a)}
    case Allocate(_, _, z, _) => {ZoneData(z)}
    case ReadNext(_, _, z, _) => {ZoneLink(z)}
    case InitZone(_, z, _) => {ZoneData(z), ZoneLink(z)}
    case PushZone(a, z, _) => {ArenaHead(a), ZoneLink(z)}
    case AllocateFresh(_, z, _) => {ZoneData(z)}
    case AllocateLarge(a, _) => {LargeLinks(a)}
    case FreeChunk(z, _, _, _) => {ZoneData(z)}
    case FreeLarge(a, _, _) => {LargeLinks(a)}
    case RReadLot(a, _, lot) => {Lot(a, lot)}
    case RTest(_, _, _, z) => {ZoneData(z)}
    case RUnlink(a, _, lot, z) => {Lot(a, lot), ZoneLink(z)}
    case RUnmap(a, _, lot, z) => {Lot(a, lot), ZoneData(z), ZoneLink(z)}
    case UseBook(_) => {Book}
    case _ => {}
  }

  /** Thread `t` has the lock that guards `r`, or `r` belongs to an empty zone only it can reach. */
  ghost predicate Guarded(sh: Shared, t: nat, r: Resource) {
    match r
    case ZoneData(z) =>
      z in sh.zones && sh.zones[z].arena < |sh.arenas|
      && (sh.zones[z].owner == Some(t)
          || (sh.zones[z].owner == None && sh.zones[z].live == {} && sh.arenas[sh.zones[z].arena].owner == Some(t)))
    case ZoneLink(z) => z in sh.zones && sh.zones[z].arena < |sh.arenas| &&
      sh.arenas[sh.zones[z].arena].owner == Some(t)
    case ArenaHead(a) => a < |sh.arenas| && sh.arenas[a].owner == Some(t)
    case LargeLinks(a) => a < |sh.arenas| && sh.arenas[a].owner == Some(t)
    case Book => sh.bookOwner == Some(t)
  }

  lemma MallocTouches(s: System, t: nat, r: Resource)
    requires Inv(s) && t < |s.threads| && PartOf(s.threads[t]) == MallocPart && r in Touches(s.threads[t])
    ensures Guarded(s.sh, t, r)
  {
    Knows(s, t);
    hide Inv, Mentions;
  }

  lemma ReleaseTouches(s: System, t: nat, r: Resource)
    requires Inv(s) && t < |s.threads| && PartOf(s.threads[t]) == ReleasePart && r in Touches(s.threads[t])
    ensures Guarded(s.sh, t, r)
  {
    hide Inv, Mentions, HoldsBook;
    Knows(s, t);
    assert HasLocks(s.sh, t, s.threads[t]) && PcOk(s.sh, s.threads[t]);
    hide ThreadOk;
  }

  lemma OtherTouches(s: System, t: nat, r: Resource)
    requires Inv(s) && t < |s.threads| && PartOf(s.threads[t]) != MallocPart && PartOf(s.threads[t]) != ReleasePart
    requires r in Touches(s.threads[t])
    ensures Guarded(s.sh, t, r)
  {
    Knows(s, t);
    assert Lists(s.sh);
    hide Inv, Mentions, PcOk;
  }

  /**
    Whatever a thread touches is mapped and guarded: the fields of a zone by the zone lock, or by the subarena lock
    while the zone is fresh or about to go; the links between zones by the subarena lock alone.
  */
  lemma TouchesOnlyGuarded(s: System, t: nat, r: Resource)
    requires Inv(s) && t < |s.threads| && r in Touches(s.threads[t])
    ensures Guarded(s.sh, t, r)
  {
    hide Inv, Touches, Guarded;
    if PartOf(s.threads[t]) == MallocPart {
      MallocTouches(s, t, r);
    } else if PartOf(s.threads[t]) == ReleasePart {
      ReleaseTouches(s, t, r);
    } else {
      OtherTouches(s, t, r);
    }
  }

  /** No two threads ever touch the same thing, not even to read it. */
  lemma NoRace(s: System, t: nat, u: nat)
    requires Inv(s) && t < |s.threads| && u < |s.threads| && t != u
    ensures Touches(s.threads[t]) !! Touches(s.threads[u])
  {
    hide Inv, Touches;
    forall r | r in Touches(s.threads[t]) && r in Touches(s.threads[u]) ensures false {
      TouchesOnlyGuarded(s, t, r);
      TouchesOnlyGuarded(s, u, r);
    }
  }

  /** Every pointer a thread is about to follow, to lock a zone or a subarena, is good. */
  lemma NoDanglingLock(s: System, t: nat)
    requires Inv(s) && t < |s.threads|
    ensures Positioned(s.sh, s.threads[t])
  {
    Knows(s, t);
    assert s.threads[t].WantZone? ==> InZone(s.threads[t].z, s.threads[t].c) in Mentions(s.threads[t]);
    assert s.threads[t].WantLarge? ==> InLarge(s.threads[t].a, s.threads[t].c) in Mentions(s.threads[t]);
    hide Inv;
  }

  /** The zone that follows the one at position `i` of a list: what its `next` field holds. */
  function After(list: seq<nat>, i: nat): Option<nat> {
    if i + 1 < |list| then Some(list[i + 1]) else None
  }

  function First(list: seq<nat>): Option<nat> {
    if list == [] then None else Some(list[0])
  }

  /** Of the head and the links of a list, only those in `touched` change. */
  ghost predicate RelinksOnly(list: seq<nat>, list': seq<nat>, a: nat, touched: set<Resource>) {
    && (First(list) != First(list') ==> ArenaHead(a) in touched)
    && (forall i, j {:trigger list[i], list'[j]} ::
          0 <= i < |list| && 0 <= j < |list'| && list[i] == list'[j] && After(list, i) != After(list', j) ==>
            ZoneLink(list[i]) in touched)
  }

  /** What a step changes is among what it touches. */
  ghost predicate ChangesOnly(sh: Shared, sh': Shared, touched: set<Resource>) {
    && (forall z :: z in sh.zones && (z !in sh'.zones || sh'.zones[z].live != sh.zones[z].live) ==>
         ZoneData(z) in touched)
    && |sh'.arenas| == |sh.arenas|
    && (forall a :: 0 <= a < |sh.arenas| ==> RelinksOnly(sh.arenas[a].list, sh'.arenas[a].list, a, touched))
    && (forall a :: 0 <= a < |sh.arenas| && sh.arenas[a].bigs != sh'.arenas[a].bigs ==> LargeLinks(a) in touched)
    && (sh.bookChunk != sh'.bookChunk ==> Book in touched)
  }

  lemma NothingSet(sh: Shared, sh': Shared, touched: set<Resource>)
    requires Lists(sh) && sh'.arenas == sh.arenas && sh'.zones == sh.zones &&
             (sh'.bookChunk != sh.bookChunk ==> Book in touched)
    ensures ChangesOnly(sh, sh', touched)
  {
  }

  lemma ZoneSet(sh: Shared, z: nat, x: Zone, touched: set<Resource>)
    requires Lists(sh) && (z in sh.zones && x.live != sh.zones[z].live ==> ZoneData(z) in touched)
    ensures ChangesOnly(sh, SetZone(sh, z, x), touched)
  {
    NothingSet(sh, sh, touched);
    hide Lists, RelinksOnly;
  }

  lemma ArenaSet(sh: Shared, a: nat, x: Arena, touched: set<Resource>)
    requires Lists(sh) && a < |sh.arenas| &&
             (x.list == sh.arenas[a].list || RelinksOnly(sh.arenas[a].list, x.list, a, touched))
    requires x.bigs != sh.arenas[a].bigs ==> LargeLinks(a) in touched
    ensures ChangesOnly(sh, SetArena(sh, a, x), touched)
  {
    NothingSet(sh, sh, touched);
    hide Lists, RelinksOnly;
  }

  lemma ZoneUnset(sh: Shared, z: nat, touched: set<Resource>)
    requires Lists(sh) && ZoneData(z) in touched
    ensures ChangesOnly(sh, sh.(zones := sh.zones - {z}), touched)
  {
    NothingSet(sh, sh, touched);
    hide Lists, RelinksOnly;
  }

  lemma PushRelinks(list: seq<nat>, z: nat, a: nat, touched: set<Resource>)
    requires Distinct(list) && z !in list && ArenaHead(a) in touched
    ensures RelinksOnly(list, [z] + list, a, touched)
  {
  }

  lemma DropRelinks(list: seq<nat>, i: nat, lot: Option<nat>, a: nat, touched: set<Resource>)
    requires Distinct(list) && i < |list| && LotOf(list, i, lot) && Lot(a, lot) in touched
    ensures RelinksOnly(list, Without(list, i), a, touched)
  {
    var list' := Without(list, i);
    DropAt(list, i, list');
    forall k, j | 0 <= k < |list| && 0 <= j < |list'| && list[k] == list'[j] && After(list, k) != After(list', j)
      ensures ZoneLink(list[k]) in touched
    {
      assert k == if j < i then j else j + 1;
    }
  }

  /** What a step inside malloc does to the shared state: it sets one subarena, one zone, or nothing. */
  lemma MallocSets(s: System, t: nat, ok: bool, name: nat)
    requires Ready(s, t) && PartOf(s.threads[t]) == MallocPart
    ensures var sh, sh' := s.sh, MallocStep(s, t, s.threads[t], ok, name).sh;
            sh' == sh ||
            match s.threads[t]
            case TryArena(cands, i, _) =>
              i < |cands| && cands[i] < |sh.arenas| &&
                sh' == SetArena(sh, cands[i], sh.arenas[cands[i]].(owner := Some(t)))
            case WantArena(a, _) => a < |sh.arenas| && sh' == SetArena(sh, a, sh.arenas[a].(owner := Some(t)))
            case TryZone(_, _, z, _) => z in sh.zones && sh' == SetZone(sh, z, sh.zones[z].(owner := Some(t)))
            case Allocate(_, _, z, _) => z in sh.zones &&
              sh' == SetZone(sh, z, sh.zones[z].(live := sh.zones[z].live + {name}))
            case UnlockZone(_, _, z, _, _) => z in sh.zones && sh' == SetZone(sh, z, sh.zones[z].(owner := None))
            case MapZone(a, _) => name !in sh.zones && sh' == SetZone(sh, name, Zone(None, a, {}))
            case PushZone(a, z, _) => a < |sh.arenas| &&
              sh' == SetArena(sh, a, sh.arenas[a].(list := [z] + sh.arenas[a].list))
            case AllocateFresh(_, z, _) => z in sh.zones &&
              sh' == SetZone(sh, z, sh.zones[z].(live := sh.zones[z].live + {name}))
            case AllocateLarge(a, _) => a < |sh.arenas| &&
              sh' == SetArena(sh, a, sh.arenas[a].(bigs := sh.arenas[a].bigs + {name}))
            case UnlockArena(a, _, _) => a < |sh.arenas| && sh' == SetArena(sh, a, sh.arenas[a].(owner := None))
            case _ => false
  {
    hide SetArena, SetZone, MallocReturns;
  }

  lemma MallocChangesOnlyTouched(s: System, t: nat, ok: bool, name: nat)
    requires Inv(s) && Ready(s, t) && PartOf(s.threads[t]) == MallocPart
    ensures ChangesOnly(s.sh, MallocStep(s, t, s.threads[t], ok, name).sh, Touches(s.threads[t]))
  {
    var pc := s.threads[t];
    var sh, sh', touched := s.sh, MallocStep(s, t, pc, ok, name).sh, Touches(pc);
    hide Inv, ThreadOk, ChangesOnly, Lists, Apart, RelinksOnly, MallocStep, SetZone, SetArena, Ready;
    InvParts(s, t);
    MallocSets(s, t, ok, name);
    if sh' == sh {
      NothingSet(sh, sh', touched);
    } else {
      match pc
      case TryArena(_, _, _) => ArenaSet(sh, pc.cands[pc.i], sh.arenas[pc.cands[pc.i]].(owner := Some(t)), touched);
      case WantArena(a, _) => ArenaSet(sh, a, sh.arenas[a].(owner := Some(t)), touched);
      case TryZone(_, _, z, _) => ZoneSet(sh, z, sh.zones[z].(owner := Some(t)), touched);
      case Allocate(_, _, z, _) => ZoneSet(sh, z, sh.zones[z].(live := sh.zones[z].live + {name}), touched);
      case UnlockZone(_, _, z, _, _) => ZoneSet(sh, z, sh.zones[z].(owner := None), touched);
      case MapZone(a, _) => ZoneSet(sh, name, Zone(None, a, {}), touched);
      case PushZone(a, z, _) =>
        PushTouches(s, t, a, z, pc.m);
        ArenaSet(sh, a, sh.arenas[a].(list := [z] + sh.arenas[a].list), touched);
      case AllocateFresh(_, z, _) => ZoneSet(sh, z, sh.zones[z].(live := sh.zones[z].live + {name}), touched);
      case AllocateLarge(a, _) => ArenaSet(sh, a, sh.arenas[a].(bigs := sh.arenas[a].bigs + {name}), touched);
      case UnlockArena(a, _, _) => ArenaSet(sh, a, sh.arenas[a].(owner := None), touched);
    }
  }

  lemma PushTouches(s: System, t: nat, a: nat, z: nat, m: AfterMalloc)
    requires Inv(s) && t < |s.threads| && s.threads[t] == PushZone(a, z, m)
    ensures a < |s.sh.arenas| && RelinksOnly(s.sh.arenas[a].list, [z] + s.sh.arenas[a].list, a, Touches(s.threads[t]))
  {
    Knows(s, t);
    PushRelinks(s.sh.arenas[a].list, z, a, Touches(s.threads[t]));
  }

  /** What a step inside free does to the shared state. */
  lemma FreeSets(s: System, t: nat)
    requires Ready(s, t) && PartOf(s.threads[t]) == FreePart
    ensures var sh, sh' := s.sh, FreeStep(s, t, s.threads[t]).sh;
            sh' == sh ||
            match s.threads[t]
            case WantZone(z, _, _, _) => z in sh.zones && sh' == SetZone(sh, z, sh.zones[z].(owner := Some(t)))
            case FreeChunk(z, c, _, _) => z in sh.zones &&
              sh' == SetZone(sh, z, sh.zones[z].(live := sh.zones[z].live - {c}))
            case FreeUnlock(z, _) => z in sh.zones && sh' == SetZone(sh, z, sh.zones[z].(owner := None))
            case WantLarge(a, _, _) => a < |sh.arenas| && sh' == SetArena(sh, a, sh.arenas[a].(owner := Some(t)))
            case FreeLarge(a, c, _) => a < |sh.arenas| &&
              sh' == SetArena(sh, a, sh.arenas[a].(bigs := sh.arenas[a].bigs - {c}))
            case LargeUnlock(a, _) => a < |sh.arenas| && sh' == SetArena(sh, a, sh.arenas[a].(owner := None))
  {
    hide SetArena, SetZone, FreeReturns;
  }

  lemma FreeChangesOnlyTouched(s: System, t: nat)
    requires Inv(s) && Ready(s, t) && PartOf(s.threads[t]) == FreePart
    ensures ChangesOnly(s.sh, FreeStep(s, t, s.threads[t]).sh, Touches(s.threads[t]))
  {
    var pc := s.threads[t];
    var sh, sh', touched := s.sh, FreeStep(s, t, pc).sh, Touches(pc);
    hide Inv, ThreadOk, ChangesOnly, Lists, Apart, RelinksOnly, FreeStep, SetZone, SetArena, Ready;
    InvParts(s, t);
    FreeSets(s, t);
    if sh' == sh {
      NothingSet(sh, sh', touched);
    } else {
      match pc
      case WantZone(z, _, _, _) => ZoneSet(sh, z, sh.zones[z].(owner := Some(t)), touched);
      case FreeChunk(z, c, _, _) => ZoneSet(sh, z, sh.zones[z].(live := sh.zones[z].live - {c}), touched);
      case FreeUnlock(z, _) => ZoneSet(sh, z, sh.zones[z].(owner := None), touched);
      case WantLarge(a, _, _) => ArenaSet(sh, a, sh.arenas[a].(owner := Some(t)), touched);
      case FreeLarge(a, c, _) => ArenaSet(sh, a, sh.arenas[a].(bigs := sh.arenas[a].bigs - {c}), touched);
      case LargeUnlock(a, _) => ArenaSet(sh, a, sh.arenas[a].(owner := None), touched);
    }
  }

  lemma ReleaseChangesOnlyTouched(s: System, t: nat)
    requires Inv(s) && Ready(s, t) && PartOf(s.threads[t]) == ReleasePart
    ensures ChangesOnly(s.sh, ReleaseStep(s, t, s.threads[t]).sh, Touches(s.threads[t]))
  {
    var pc := s.threads[t];
    var sh, sh', touched := s.sh, ReleaseStep(s, t, pc).sh, Touches(pc);
    assert Lists(sh);
    hide Inv, ChangesOnly, Lists, RelinksOnly;
    if sh' == sh {
      NothingSet(sh, sh', touched);
    } else {
      match pc
      case RWantArena(a) => ArenaSet(sh, a, sh.arenas[a].(owner := Some(t)), touched);
      case RWantZone(_, _, _, z) => ZoneSet(sh, z, sh.zones[z].(owner := Some(t)), touched);
      case RUnlockZone(_, _, _, z, _) => ZoneSet(sh, z, sh.zones[z].(owner := None), touched);
      case RUnlink(a, i, lot, z) => UnlinkTouches(s, t, a, i, lot, z); ArenaSet(sh, a, sh'.arenas[a], touched);
      case RUnmap(_, _, _, z) => ZoneUnset(sh, z, touched);
      case RUnlockArena(a) => ArenaSet(sh, a, sh.arenas[a].(owner := None), touched);
    }
  }

  lemma UnlinkTouches(s: System, t: nat, a: nat, i: nat, lot: Option<nat>, z: nat)
    requires Inv(s) && t < |s.threads| && s.threads[t] == RUnlink(a, i, lot, z)
    ensures a < |s.sh.arenas| && i < |s.sh.arenas[a].list|
    ensures RelinksOnly(s.sh.arenas[a].list, Without(s.sh.arenas[a].list, i), a, Touches(s.threads[t]))
  {
    Knows(s, t);
    DropRelinks(s.sh.arenas[a].list, i, lot, a, Touches(s.threads[t]));
  }

  lemma BookChangesOnlyTouched(s: System, t: nat, ok: bool)
    requires Inv(s) && Ready(s, t) && PartOf(s.threads[t]) == BookPart
    ensures ChangesOnly(s.sh, BookStep(s, t, s.threads[t], ok).sh, Touches(s.threads[t]))
  {
    assert Lists(s.sh);
    hide Inv, Lists, ChangesOnly;
    NothingSet(s.sh, BookStep(s, t, s.threads[t], ok).sh, Touches(s.threads[t]));
  }

  lemma IdleChangesNothing(s: System, a: Action)
    requires Inv(s) && a.t < |s.threads| && (!Ready(s, a.t) || PartOf(s.threads[a.t]) == NoPart)
    ensures Step(s, a).sh == s.sh && ChangesOnly(s.sh, s.sh, Touches(s.threads[a.t]))
  {
    NothingSet(s.sh, s.sh, Touches(s.threads[a.t]));
    hide Inv, ChangesOnly, Touches;
  }

  /** No step changes a list, a link, a zone or the book that it is not counted as touching. */
  lemma StepChangesOnlyTouched(s: System, a: Action)
    requires Inv(s) && a.t < |s.threads|
    ensures ChangesOnly(s.sh, Step(s, a).sh, Touches(s.threads[a.t]))
  {
    hide Inv, ChangesOnly, MallocStep, FreeStep, ReleaseStep, BookStep, Touches;
    if Ready(s, a.t) && PartOf(s.threads[a.t]) == MallocPart {
      MallocChangesOnlyTouched(s, a.t, a.ok, a.name);
    } else if Ready(s, a.t) && PartOf(s.threads[a.t]) == FreePart {
      FreeChangesOnlyTouched(s, a.t);
    } else if Ready(s, a.t) && PartOf(s.threads[a.t]) == ReleasePart {
      ReleaseChangesOnlyTouched(s, a.t);
    } else if Ready(s, a.t) && PartOf(s.threads[a.t]) == BookPart {
      BookChangesOnlyTouched(s, a.t, a.ok);
    } else {
      IdleChangesNothing(s, a);
    }
  }

  /** A thread is not on the way to the lock of zone `z`, and does not hold it. */
  ghost predicate AwayFrom(pc: Pc, z: nat) {
    HoldsZone(pc) != Some(z) && !(pc.WantZone? && pc.z == z) && !(pc.TryZone? && pc.z == z) &&
      !(pc.RWantZone? && pc.z == z)
  }

  lemma PrivateIsOutOfReach(sh: Shared, a: nat, z: nat, t: nat, u: nat, pc: Pc)
    requires Lists(sh) && Private(sh, a, z) && sh.arenas[a].owner == Some(t) && u != t && HasLocks(sh, u, pc) &&
             PcOk(sh, pc)
    requires pc.WantZone? ==> IsLive(sh, InZone(pc.z, pc.c))
    ensures AwayFrom(pc, z)
  {
    if pc.TryZone? || pc.RWantZone? { assert HoldsArena(pc) == Some(pc.a); }
    hide Distinct;
  }

  lemma OthersAway(s: System, t: nat, u: nat)
    requires Inv(s) && t < |s.threads| && s.threads[t].RUnmap? && u < |s.threads| && u != t
    ensures AwayFrom(s.threads[u], s.threads[t].z)
  {
    hide Inv, ThreadOk, Lists, Private, AwayFrom;
    var pc, pc' := s.threads[t], s.threads[u];
    InvParts(s, t);
    InvParts(s, u);
    UnmapperOwns(s.sh, t, pc);
    ThreadHas(s.sh, u, pc');
    PrivateIsOutOfReach(s.sh, pc.a, pc.z, t, u, pc');
  }

  lemma UnmapperOwns(sh: Shared, t: nat, pc: Pc)
    requires ThreadOk(sh, t, pc) && pc.RUnmap?
    ensures Private(sh, pc.a, pc.z) && sh.arenas[pc.a].owner == Some(t)
  {
    hide Mentions, LotOf;
  }

  lemma ThreadHas(sh: Shared, u: nat, pc: Pc)
    requires ThreadOk(sh, u, pc)
    ensures HasLocks(sh, u, pc) && PcOk(sh, pc) && (pc.WantZone? ==> IsLive(sh, InZone(pc.z, pc.c)))
  {
    hide HasLocks, PcOk, IsLive;
    assert pc.WantZone? ==> InZone(pc.z, pc.c) in Mentions(pc);
  }

  /** release_memory unmaps a zone only without live chunks, when nobody else is on the way to its lock or holds it. */
  lemma UnmapsOnlyEmpty(s: System, t: nat)
    requires Inv(s) && t < |s.threads| && s.threads[t].RUnmap?
    ensures var z := s.threads[t].z; z in s.sh.zones && s.sh.zones[z].live == {} && s.sh.zones[z].owner == None
    ensures forall u :: 0 <= u < |s.threads| && u != t ==> AwayFrom(s.threads[u], s.threads[t].z)
  {
    Knows(s, t);
    forall u | 0 <= u < |s.threads| && u != t ensures AwayFrom(s.threads[u], s.threads[t].z) {
      OthersAway(s, t, u);
    }
    hide Inv, Mentions, AwayFrom;
  }

  // ---------------------------------------------------------------- chunks the application holds

  function Named(call: Call): set<Handle> {
    match call
    case CallFree(h) => {h}
    case CallShrink(h) => {h}
    case CallRelocate(h, _) => {h}
    case _ => {}
  }

  lemma ZoneSetLeaves(sh: Shared, z: nat, x: Zone, h: Handle)
    requires IsLive(sh, h) && (h.InZone? && h.z == z ==> h.c in x.live)
    ensures IsLive(SetZone(sh, z, x), h)
  {
  }

  lemma ArenaSetLeaves(sh: Shared, a: nat, x: Arena, h: Handle)
    requires IsLive(sh, h) && a < |sh.arenas| && x.large == sh.arenas[a].large &&
             (h.InLarge? && h.a == a ==> h.c in x.bigs)
    ensures IsLive(SetArena(sh, a, x), h)
  {
  }

  lemma MallocLives(s: System, t: nat, ok: bool, name: nat, h: Handle)
    requires Ready(s, t) && PartOf(s.threads[t]) == MallocPart && IsLive(s.sh, h)
    ensures IsLive(MallocStep(s, t, s.threads[t], ok, name).sh, h)
  {
    var pc := s.threads[t];
    var sh, sh' := s.sh, MallocStep(s, t, pc, ok, name).sh;
    assert h.InZone? ==> h.z in sh.zones && h.c in sh.zones[h.z].live;
    assert h.InLarge? ==> h.a < |sh.arenas| && h.c in sh.arenas[h.a].bigs;
    hide IsLive, MallocStep, SetZone, SetArena, Ready;
    MallocSets(s, t, ok, name);
    if sh' != sh {
      match pc
      case TryArena(_, _, _) => ArenaSetLeaves(sh, pc.cands[pc.i], sh.arenas[pc.cands[pc.i]].(owner := Some(t)), h);
      case WantArena(a, _) => ArenaSetLeaves(sh, a, sh.arenas[a].(owner := Some(t)), h);
      case TryZone(_, _, z, _) => ZoneSetLeaves(sh, z, sh.zones[z].(owner := Some(t)), h);
      case Allocate(_, _, z, _) => ZoneSetLeaves(sh, z, sh.zones[z].(live := sh.zones[z].live + {name}), h);
      case UnlockZone(_, _, z, _, _) => ZoneSetLeaves(sh, z, sh.zones[z].(owner := None), h);
      case MapZone(a, _) => ZoneSetLeaves(sh, name, Zone(None, a, {}), h);
      case PushZone(a, z, _) => ArenaSetLeaves(sh, a, sh.arenas[a].(list := [z] + sh.arenas[a].list), h);
      case AllocateFresh(_, z, _) => ZoneSetLeaves(sh, z, sh.zones[z].(live := sh.zones[z].live + {name}), h);
      case AllocateLarge(a, _) => ArenaSetLeaves(sh, a, sh.arenas[a].(bigs := sh.arenas[a].bigs + {name}), h);
      case UnlockArena(a, _, _) => ArenaSetLeaves(sh, a, sh.arenas[a].(owner := None), h);
    }
  }

  lemma FreeLives(s: System, t: nat, h: Handle)
    requires Ready(s, t) && PartOf(s.threads[t]) == FreePart && IsLive(s.sh, h) && h !in Mentions(s.threads[t])
    ensures IsLive(FreeStep(s, t, s.threads[t]).sh, h)
  {
    var pc := s.threads[t];
    var sh, sh' := s.sh, FreeStep(s, t, pc).sh;
    assert h.InZone? ==> h.z in sh.zones && h.c in sh.zones[h.z].live;
    assert h.InLarge? ==> h.a < |sh.arenas| && h.c in sh.arenas[h.a].bigs;
    assert pc.FreeChunk? ==> h != InZone(pc.z, pc.c);
    assert pc.FreeLarge? ==> h != InLarge(pc.a, pc.c);
    hide Mentions, IsLive, FreeStep, SetZone, SetArena, Ready;
    FreeSets(s, t);
    if sh' != sh {
      match pc
      case WantZone(z, _, _, _) => ZoneSetLeaves(sh, z, sh.zones[z].(owner := Some(t)), h);
      case FreeChunk(z, c, _, _) => ZoneSetLeaves(sh, z, sh.zones[z].(live := sh.zones[z].live - {c}), h);
      case FreeUnlock(z, _) => ZoneSetLeaves(sh, z, sh.zones[z].(owner := None), h);
      case WantLarge(a, _, _) => ArenaSetLeaves(sh, a, sh.arenas[a].(owner := Some(t)), h);
      case FreeLarge(a, c, _) => ArenaSetLeaves(sh, a, sh.arenas[a].(bigs := sh.arenas[a].bigs - {c}), h);
      case LargeUnlock(a, _) => ArenaSetLeaves(sh, a, sh.arenas[a].(owner := None), h);
    }
  }

  lemma ReleaseLives(s: System, t: nat, h: Handle)
    requires Inv(s) && Ready(s, t) && PartOf(s.threads[t]) == ReleasePart && IsLive(s.sh, h)
    ensures IsLive(ReleaseStep(s, t, s.threads[t]).sh, h)
  {
    var pc := s.threads[t];
    var sh, sh' := s.sh, ReleaseStep(s, t, pc).sh;
    if pc.RUnmap? {
      UnmapsOnlyEmpty(s, t);
    }
    assert h.InZone? ==> h.z in sh.zones && h.c in sh.zones[h.z].live;
    assert h.InLarge? ==> h.a < |sh.arenas| && h.c in sh.arenas[h.a].bigs;
    hide Inv, IsLive;
    if sh' != sh {
      match pc
      case RWantArena(a) => ArenaSetLeaves(sh, a, sh.arenas[a].(owner := Some(t)), h);
      case RWantZone(_, _, _, z) => ZoneSetLeaves(sh, z, sh.zones[z].(owner := Some(t)), h);
      case RUnlockZone(_, _, _, z, _) => ZoneSetLeaves(sh, z, sh.zones[z].(owner := None), h);
      case RUnlink(a, i, lot, z) => ArenaSetLeaves(sh, a, sh'.arenas[a], h);
      case RUnmap(_, _, _, z) => ZoneUnsetLeaves(sh, z, h);
      case RUnlockArena(a) => ArenaSetLeaves(sh, a, sh.arenas[a].(owner := None), h);
    }
  }

  lemma ZoneUnsetLeaves(sh: Shared, z: nat, h: Handle)
    requires IsLive(sh, h) && z in sh.zones && sh.zones[z].live == {}
    ensures IsLive(sh.(zones := sh.zones - {z}), h)
  {
  }

  lemma BookLives(s: System, t: nat, ok: bool, h: Handle)
    requires Ready(s, t) && PartOf(s.threads[t]) == BookPart && IsLive(s.sh, h)
    ensures IsLive(BookStep(s, t, s.threads[t], ok).sh, h)
  {
    var sh' := BookStep(s, t, s.threads[t], ok).sh;
    assert sh'.zones == s.sh.zones && sh'.arenas == s.sh.arenas;
    hide BookStep;
  }

  /** A live chunk stays live over every step of a thread that does not have it in its hands. */
  lemma StepLives(s: System, a: Action, h: Handle)
    requires Inv(s) && IsLive(s.sh, h) && (a.t < |s.threads| ==> h !in Mentions(s.threads[a.t]))
    ensures IsLive(Step(s, a).sh, h)
  {
    hide Inv, Mentions, MallocStep, FreeStep, ReleaseStep, BookStep, IsLive;
    if Ready(s, a.t) && PartOf(s.threads[a.t]) == MallocPart {
      MallocLives(s, a.t, a.ok, a.name, h);
    } else if Ready(s, a.t) && PartOf(s.threads[a.t]) == FreePart {
      FreeLives(s, a.t, h);
    } else if Ready(s, a.t) && PartOf(s.threads[a.t]) == ReleasePart {
      ReleaseLives(s, a.t, h);
    } else if Ready(s, a.t) && PartOf(s.threads[a.t]) == BookPart {
      BookLives(s, a.t, a.ok, h);
    } else {
      assert Step(s, a).sh == s.sh;
    }
  }

  predicate Makes(pc: Pc) { pc.Allocate? || pc.AllocateFresh? || pc.AllocateLarge? }

  lemma WalkHands(s: System, t: nat, ok: bool, name: nat)
    requires Ready(s, t) && PartOf(s.threads[t]) == MallocPart && !Makes(s.threads[t])
    ensures Mentions(MallocStep(s, t, s.threads[t], ok, name).threads[t]) <= Mentions(s.threads[t])
  {
    hide Positioned, LockArena, LockZone, SetArena, SetZone;
    match s.threads[t]
    case UnlockArena(_, got, m) =>
    case _ =>
  }

  lemma MakeHands(s: System, t: nat, ok: bool, name: nat, h: Handle)
    requires Inv(s) && Ready(s, t) && Makes(s.threads[t]) && IsLive(s.sh, h)
    requires h in Mentions(MallocStep(s, t, s.threads[t], ok, name).threads[t])
    ensures h in Mentions(s.threads[t])
  {
    var pc := s.threads[t];
    Knows(s, t);
    assert pc.AllocateFresh? ==> s.sh.zones[pc.z].live == {};
    hide Inv, ThreadOk, LockArena, LockZone;
  }

  /** The live chunks in the hands of a thread after a malloc step were in its hands before. */
  lemma MallocHands(s: System, t: nat, ok: bool, name: nat, h: Handle)
    requires Inv(s) && Ready(s, t) && PartOf(s.threads[t]) == MallocPart && IsLive(s.sh, h) &&
             h !in Mentions(s.threads[t])
    ensures h !in Mentions(MallocStep(s, t, s.threads[t], ok, name).threads[t])
  {
    hide Inv, MallocStep, Mentions, IsLive;
    if Makes(s.threads[t]) {
      if h in Mentions(MallocStep(s, t, s.threads[t], ok, name).threads[t]) {
        MakeHands(s, t, ok, name, h);
      }
    } else {
      WalkHands(s, t, ok, name);
    }
  }

  lemma FreeHands(s: System, t: nat)
    requires Ready(s, t) && PartOf(s.threads[t]) == FreePart
    ensures Mentions(FreeStep(s, t, s.threads[t]).threads[t]) <= Mentions(s.threads[t])
  {
    hide LockArena, LockZone, SetArena, SetZone, Positioned;
  }

  lemma ReleaseHands(s: System, t: nat)
    requires Ready(s, t) && PartOf(s.threads[t]) == ReleasePart
    ensures Mentions(ReleaseStep(s, t, s.threads[t]).threads[t]) == {}
  {
    hide LockArena, LockZone, SetArena, SetZone, Positioned;
  }

  lemma BookHands(s: System, t: nat, ok: bool)
    requires Ready(s, t) && PartOf(s.threads[t]) == BookPart
    ensures Mentions(BookStep(s, t, s.threads[t], ok).threads[t]) <= Mentions(s.threads[t]) + Opt(s.sh.bookChunk)
  {
  }

  lemma BeginHands(s: System, t: nat, call: Call)
    requires t < |s.threads| && s.threads[t] == Idle
    ensures Mentions(Begin(s, t, call).threads[t]) <= Named(call)
  {
  }

  lemma OtherHands(s: System, a: Action, h: Handle)
    requires Ready(s, a.t) && PartOf(s.threads[a.t]) != MallocPart && Free(s, h) && h !in Named(a.call)
    ensures h !in Mentions(Step(s, a).threads[a.t])
  {
    hide Mentions, Positioned, Enabled, FreeStep, ReleaseStep, BookStep, Begin;
    assert h !in Opt(s.sh.bookChunk);
    match PartOf(s.threads[a.t])
    case NoPart => BeginHands(s, a.t, a.call);
    case BookPart => BookHands(s, a.t, a.ok);
    case FreePart => FreeHands(s, a.t);
    case ReleasePart => ReleaseHands(s, a.t);
  }

  lemma BookKeepsAway(s: System, a: Action, h: Handle)
    requires Free(s, h)
    ensures Step(s, a).sh.bookChunk != Some(h)
  {
    if a.t < |s.threads| && s.threads[a.t].UseBook? {
      assert h !in Mentions(s.threads[a.t]);
    }
  }

  /** No step moves a thread but its own. */
  lemma OnlyActorMoves(s: System, a: Action)
    ensures |Step(s, a).threads| == |s.threads|
    ensures forall u :: 0 <= u < |s.threads| && u != a.t ==> Step(s, a).threads[u] == s.threads[u]
  {
  }

  /** A chunk of the application stays so over every step that is not asked to free or move it. */
  lemma StepLeavesToApplication(s: System, a: Action, h: Handle)
    requires Inv(s) && Free(s, h) && h !in Named(a.call)
    ensures Free(Step(s, a), h)
  {
    StepLives(s, a, h);
    BookKeepsAway(s, a, h);
    OnlyActorMoves(s, a);
    if Ready(s, a.t) {
      if PartOf(s.threads[a.t]) == MallocPart {
        MallocHands(s, a.t, a.ok, a.name, h);
      } else {
        OtherHands(s, a, h);
      }
    }
    hide Inv, MallocStep, FreeStep, ReleaseStep, BookStep, Begin, Mentions, IsLive;
  }

  /** A chunk of the application stays live and its own in every run in which nobody is asked to free or move it. */
  lemma {:induction false} RunLeavesToApplication(s: System, actions: seq<Action>, h: Handle)
    requires Inv(s) && Free(s, h) && forall k :: 0 <= k < |actions| ==> h !in Named(actions[k].call)
    ensures Free(Run(s, actions), h)
    decreases |actions|
  {
    if actions != [] {
      assert h !in Named(actions[0].call);
      StepKeepsInv(s, actions[0]);
      StepLeavesToApplication(s, actions[0], h);
      RunLeavesToApplication(Step(s, actions[0]), actions[1..], h);
    }
  }

  // ---------------------------------------------------------------- no deadlock

  predicate Waits(pc: Pc) {
    pc.WantArena? || pc.WantLarge? || pc.RWantArena? || pc.WantZone? || pc.RWantZone? || pc.WantBook?
  }

  /**
    Subarena before zone: a thread that waits owns no zone and not the book, and a subarena only if it is release_memory
    waiting for a zone of that subarena.
  */
  lemma LockOrder(s: System, t: nat)
    requires Inv(s) && t < |s.threads| && Waits(s.threads[t])
    ensures forall z :: z in s.sh.zones ==> s.sh.zones[z].owner != Some(t)
    ensures s.sh.bookOwner != Some(t)
    ensures forall a :: 0 <= a < |s.sh.arenas| && s.sh.arenas[a].owner == Some(t) ==>
              s.threads[t].RWantZone? && s.threads[t].a == a
              && s.threads[t].z in s.sh.zones && s.sh.zones[s.threads[t].z].arena == a
  {
    hide Inv, Mentions, HasLocks;
    LocksAreHeld(s, t);
    Knows(s, t);
  }

  /** Thread `u` has the lock that thread `t` waits for. */
  ghost predicate Blocks(s: System, t: nat, u: nat) {
    t < |s.threads| &&
    match s.threads[t]
    case WantArena(a, _) => a < |s.sh.arenas| && s.sh.arenas[a].owner == Some(u)
    case WantLarge(a, _, _) => a < |s.sh.arenas| && s.sh.arenas[a].owner == Some(u)
    case RWantArena(a) => a < |s.sh.arenas| && s.sh.arenas[a].owner == Some(u)
    case WantZone(z, _, _, _) => z in s.sh.zones && s.sh.zones[z].owner == Some(u)
    case RWantZone(_, _, _, z) => z in s.sh.zones && s.sh.zones[z].owner == Some(u)
    case WantBook(_) => s.sh.bookOwner == Some(u)
    case _ => false
  }

  lemma ArenaBlocks(s: System, a: nat) returns (u: nat)
    requires Inv(s) && a < |s.sh.arenas| && s.sh.arenas[a].owner.Some?
    ensures u < |s.threads| && HoldsArena(s.threads[u]) == Some(a) && s.sh.arenas[a].owner == Some(u)
  {
    u := s.sh.arenas[a].owner.value;
    hide ThreadOk, Apart, Lists, HoldsArena;
  }

  lemma ZoneBlocks(s: System, z: nat) returns (u: nat)
    requires Inv(s) && z in s.sh.zones && s.sh.zones[z].owner.Some?
    ensures u < |s.threads| && HoldsZone(s.threads[u]) == Some(z) && s.sh.zones[z].owner == Some(u)
  {
    u := s.sh.zones[z].owner.value;
    hide ThreadOk, Apart, Lists, HoldsZone;
  }

  lemma BookBlocks(s: System) returns (u: nat)
    requires Inv(s) && s.sh.bookOwner.Some?
    ensures u < |s.threads| && HoldsBook(s.threads[u]) && s.sh.bookOwner == Some(u)
  {
    u := s.sh.bookOwner.value;
    hide ThreadOk, Apart, Lists, HoldsBook;
  }

  /** A thread that holds a lock can go on, unless it holds a subarena and waits for a zone. */
  lemma HolderGoesOn(s: System, u: nat)
    requires Inv(s) && u < |s.threads| && (HoldsArena(s.threads[u]).Some? || HoldsZone(s.threads[u]).Some? ||
             HoldsBook(s.threads[u]))
    ensures s.threads[u] != Idle && (Ready(s, u) ||
            (s.threads[u].RWantZone? && HoldsZone(s.threads[u]).None? && !HoldsBook(s.threads[u])))
  {
    NoDanglingLock(s, u);
    hide Inv, Positioned;
  }

  /**
    The lock that thread `t` waits for is taken by a thread that can go on, or that waits for a zone with its
    subarena locked.
  */
  lemma WhoBlocks(s: System, t: nat) returns (u: nat)
    requires Inv(s) && t < |s.threads| && s.threads[t] != Idle && !Ready(s, t)
    ensures Blocks(s, t, u) && u < |s.threads| && s.threads[u] != Idle
    ensures Ready(s, u) || (s.threads[u].RWantZone? && !s.threads[t].RWantZone?)
  {
    NoDanglingLock(s, t);
    hide Inv, HoldsArena, HoldsZone, HoldsBook;
    var pc := s.threads[t];
    if pc.WantArena? || pc.WantLarge? || pc.RWantArena? {
      u := ArenaBlocks(s, pc.a);
    } else if pc.WantZone? || pc.RWantZone? {
      u := ZoneBlocks(s, pc.z);
    } else {
      u := BookBlocks(s);
    }
    hide Positioned, Enabled, Ready;
    HolderGoesOn(s, u);
  }

  /**
    Thread `u` can take its next step, and is `t`, or in the way of `t`, or in the way of `w`, which is in the way
    of `t`.
  */
  ghost predicate Unblocks(s: System, t: nat, w: nat, u: nat) {
    Ready(s, u) && s.threads[u] != Idle && (u == t || Blocks(s, t, u) || (Blocks(s, t, w) && Blocks(s, w, u)))
  }

  /**
    From every thread inside the allocator, following the owners of the locks waited for leads to a ready thread in
    two steps.
  */
  lemma NoDeadlock(s: System, t: nat) returns (w: nat, u: nat)
    requires Inv(s) && t < |s.threads| && s.threads[t] != Idle
    ensures Unblocks(s, t, w, u)
  {
    hide Inv, Positioned, Blocks;
    w, u := t, t;
    if !Ready(s, t) {
      w := WhoBlocks(s, t);
      u := w;
      if !Ready(s, w) {
        u := WhoBlocks(s, w);
      }
    }
  }

  /** A step that can be taken takes the thread somewhere else. */
  lemma StepsAdvance(s: System, a: Action)
    requires Ready(s, a.t) && s.threads[a.t] != Idle
    ensures a.t < |Step(s, a).threads| && Step(s, a).threads[a.t] != s.threads[a.t]
  {
    OnlyActorMoves(s, a);
    hide Positioned, LockArena, LockZone, SetArena, SetZone;
  }

  /** When everyone has returned, every lock is free. */
  lemma AllReturned(s: System)
    requires Inv(s) && forall t :: 0 <= t < |s.threads| ==> s.threads[t] == Idle
    ensures forall a :: 0 <= a < |s.sh.arenas| ==> s.sh.arenas[a].owner == None
    ensures forall z :: z in s.sh.zones ==> s.sh.zones[z].owner == None
    ensures s.sh.bookOwner == None
  {
    hide Lists, Apart, Mentions, PcOk;
  }

  /** From the start, in every interleaving: no races, no bad pointers, and nobody waits in vain. */
  lemma EveryRunIsSafe(s: System, actions: seq<Action>, t: nat, u: nat)
    requires Initial(s) && t < |Run(s, actions).threads| && u < |Run(s, actions).threads|
    ensures var r := Run(s, actions);
            && (t != u ==> Touches(r.threads[t]) !! Touches(r.threads[u])) && Positioned(r.sh, r.threads[t])
            && (r.threads[t] != Idle ==> exists w: nat, v: nat :: Unblocks(r, t, w, v))
  {
    hide Touches, Positioned, Inv, Run, Unblocks;
    InitialInv(s);
    RunKeepsInv(s, actions);
    var r := Run(s, actions);
    if t != u { NoRace(r, t, u); }
    NoDanglingLock(r, t);
    if r.threads[t] != Idle {
      var w, v := NoDeadlock(r, t);
    }
  }
}
