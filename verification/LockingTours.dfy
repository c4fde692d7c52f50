/**
  What a thread has looked at when it gives up a search: over every interleaving malloc maps a zone only after every
  zone of the list was locked by others or had no room, and release_memory leaves only zones found in use.
*/
module LockingTours {
  import opened Wrappers
  import opened LinkedLists
  import opened LockingModel
  import opened LockingInvariant
  import opened LockingSteps
  import opened LockingPositions
  import opened LockingTheorems

  /**
    The subarenas a call was offered, those of them found locked, the zones passed over since the lock was taken, and
    whether a mapping was denied.
  */
  datatype Tour = Tour(cands: seq<nat>, locked: seq<nat>, passed: seq<nat>, denied: bool)

  /**
    What the next step adds to the tour of thread `t`: malloc passes over a zone that is locked or has no room,
    release_memory one that has a chunk in use.
  */
  ghost function Toured(s: System, a: Action, t: nat, w: Tour): Tour {
    if a.t != t || !Ready(s, t) then w else
    match s.threads[t]
    case TryArena(cands, i, _) =>
      var before := if i == 0 then [] else w.locked;
      Tour(cands, if i < |cands| && s.sh.arenas[cands[i]].owner.Some? then before + [cands[i]] else before, w.passed,
        false)
    case ReadHead(_, _) => w.(passed := [])
    case TryZone(_, _, z, _) => if s.sh.zones[z].owner.Some? then w.(passed := w.passed + [z]) else w
    case Allocate(_, _, z, _) =>
      if a.ok && a.name !in s.sh.zones[z].live then w else w.(passed := w.passed + [z])
    case MapZone(_, _) => w.(denied := !a.ok || a.name in s.sh.zones)
    case AllocateLarge(b, _) => w.(denied := !a.ok || a.name in s.sh.arenas[b].bigs)
    case RWantArena(_) => w.(passed := [])
    case RTest(_, _, _, z) => if s.sh.zones[z].live != {} then w.(passed := w.passed + [z]) else w
    case _ => w
  }

  const NO_TOUR := Tour([], [], [], false)

  ghost function RunTour(s: System, actions: seq<Action>, t: nat, w: Tour): Tour
    decreases |actions|
  {
    if actions == [] then w else RunTour(Step(s, actions[0]), actions[1..], t, Toured(s, actions[0], t, w))
  }

  /** The zones passed over are the first `n` of the list. */
  ghost predicate Passed(sh: Shared, a: nat, n: nat, w: Tour) {
    a < |sh.arenas| && n <= |sh.arenas[a].list| && w.passed == sh.arenas[a].list[..n]
  }

  ghost predicate PassedAll(sh: Shared, a: nat, w: Tour) {
    a < |sh.arenas| && w.passed == sh.arenas[a].list
  }

  /** How far along its walk a thread is. */
  ghost predicate OnTour(sh: Shared, pc: Pc, w: Tour) {
    match pc
    case TryArena(cands, i, _) => i == 0 || (w.cands == cands && i <= |cands| && w.locked == cands[..i])
    case WantArena(a, _) => w.cands != [] && a == w.cands[0] && (|w.cands| > 1 ==> w.locked == w.cands)
    case TryZone(a, i, _, _) => Passed(sh, a, i, w)
    case Allocate(a, i, _, _) => Passed(sh, a, i, w)
    case UnlockZone(a, i, _, got, _) => Passed(sh, a, if got.Some? then i else i + 1, w)
    case ReadNext(a, i, _, _) => Passed(sh, a, i + 1, w)
    case MapZone(a, _) => PassedAll(sh, a, w)
    case UnlockArena(a, got, _) =>
      got.None? ==> w.denied && a < |sh.arenas| && (sh.arenas[a].large || PassedAll(sh, a, w))
    case RReadLot(a, i, _) => Passed(sh, a, i, w)
    case RWantZone(a, i, _, _) => Passed(sh, a, i, w)
    case RTest(a, i, _, _) => Passed(sh, a, i, w)
    case RUnlockZone(a, i, _, _, releasable) => Passed(sh, a, if releasable then i else i + 1, w)
    case RUnlink(a, i, _, _) => Passed(sh, a, i, w)
    case RUnmap(a, i, _, _) => Passed(sh, a, i, w)
    case RUnlockArena(a) => PassedAll(sh, a, w)
    case _ => true
  }

  // ---------------------------------------------------------------- the steps of others

  /** The list of subarena `a` is as it was. */
  ghost predicate SameList(sh: Shared, sh': Shared, a: nat)
    requires a < |sh.arenas|
  {
    a < |sh'.arenas| && sh'.arenas[a].list == sh.arenas[a].list && sh'.arenas[a].large == sh.arenas[a].large
  }

  lemma MallocLeavesList(s: System, t: nat, ok: bool, name: nat, a: nat)
    requires Ready(s, t) && PartOf(s.threads[t]) == MallocPart && OwnsExactly(s.sh, t, s.threads[t])
    requires a < |s.sh.arenas| && s.sh.arenas[a].owner.Some? && s.sh.arenas[a].owner != Some(t)
    ensures SameList(s.sh, MallocStep(s, t, s.threads[t], ok, name).sh, a)
  {
    hide MallocStep, Positioned, Enabled, HoldsZone, HoldsBook;
    MallocSets(s, t, ok, name);
  }

  lemma FreeLeavesList(s: System, t: nat, a: nat)
    requires Ready(s, t) && PartOf(s.threads[t]) == FreePart && a < |s.sh.arenas|
    ensures SameList(s.sh, FreeStep(s, t, s.threads[t]).sh, a)
  {
    hide FreeStep, Positioned, Enabled;
    FreeSets(s, t);
  }

  lemma ListStays(s: System, act: Action, t: nat, a: nat)
    requires Inv(s) && act.t != t && a < |s.sh.arenas| && s.sh.arenas[a].owner == Some(t)
    ensures SameList(s.sh, Step(s, act).sh, a)
  {
    hide Inv, MallocStep, FreeStep, ReleaseStep, BookStep, Positioned, Enabled, OwnsExactly, PartOf;
    if Ready(s, act.t) {
      LocksAreHeld(s, act.t);
      match PartOf(s.threads[act.t]) {
        case MallocPart => MallocLeavesList(s, act.t, act.ok, act.name, a);
        case FreePart => FreeLeavesList(s, act.t, a);
        case ReleasePart => ReleaseLeavesList(s, act.t, a);
        case BookPart => BookLists(s, act.t, act.ok);
        case NoPart => IdleChangesNothing(s, act);
      }
    }
  }

  lemma ReleaseLeavesList(s: System, t: nat, a: nat)
    requires Ready(s, t) && PartOf(s.threads[t]) == ReleasePart && OwnsExactly(s.sh, t, s.threads[t])
    requires a < |s.sh.arenas| && s.sh.arenas[a].owner.Some? && s.sh.arenas[a].owner != Some(t)
    ensures SameList(s.sh, ReleaseStep(s, t, s.threads[t]).sh, a)
  {
  }

  lemma BookLists(s: System, t: nat, ok: bool)
    requires Ready(s, t) && PartOf(s.threads[t]) == BookPart
    ensures BookStep(s, t, s.threads[t], ok).sh.arenas == s.sh.arenas
  {
  }

  lemma OthersLeaveTour(s: System, a: Action, t: nat, w: Tour)
    requires Inv(s) && t < |s.threads| && a.t != t && OnTour(s.sh, s.threads[t], w)
    ensures OnTour(Step(s, a).sh, s.threads[t], w) && Toured(s, a, t, w) == w
  {
    var pc := s.threads[t];
    LocksAreHeld(s, t);
    hide Inv, Step;
    if HoldsArena(pc).Some? { ListStays(s, a, t, HoldsArena(pc).value); }
  }

  // ---------------------------------------------------------------- the steps of the thread

  lemma TakeOneMore(list: seq<nat>, i: nat)
    requires i < |list|
    ensures list[..i] + [list[i]] == list[..i + 1]
  {
  }

  ghost predicate SameLists(sh: Shared, sh': Shared) {
    |sh'.arenas| == |sh.arenas| &&
    forall a :: 0 <= a < |sh.arenas| ==>
      sh'.arenas[a].list == sh.arenas[a].list && sh'.arenas[a].large == sh.arenas[a].large
  }

  lemma TourReadsLists(sh: Shared, sh': Shared, pc: Pc, w: Tour)
    requires SameLists(sh, sh') && OnTour(sh, pc, w)
    ensures OnTour(sh', pc, w)
  {
  }

  lemma MallocLists(s: System, t: nat, ok: bool, name: nat)
    requires Ready(s, t) && PartOf(s.threads[t]) == MallocPart && !s.threads[t].PushZone?
    ensures SameLists(s.sh, MallocStep(s, t, s.threads[t], ok, name).sh)
  {
    hide MallocStep, Positioned, Enabled;
    MallocSets(s, t, ok, name);
  }

  lemma TryTours(s: System, a: Action, w: Tour)
    requires Inv(s) && Ready(s, a.t) && s.threads[a.t].TryArena? && OnTour(s.sh, s.threads[a.t], w)
    ensures OnTour(s.sh, MallocStep(s, a.t, s.threads[a.t], a.ok, a.name).threads[a.t], Toured(s, a, a.t, w))
  {
    hide Inv, SetArena, SetZone, LockArena, LockZone, Passed, PassedAll;
    var pc := s.threads[a.t];
    if pc.i < |pc.cands| { TakeOneMore(pc.cands, pc.i); }
  }

  lemma LookTours(s: System, a: Action, w: Tour)
    requires Ready(s, a.t) && (s.threads[a.t].TryZone? || s.threads[a.t].Allocate?)
    requires PcOk(s.sh, s.threads[a.t]) && OnTour(s.sh, s.threads[a.t], w)
    ensures OnTour(s.sh, MallocStep(s, a.t, s.threads[a.t], a.ok, a.name).threads[a.t], Toured(s, a, a.t, w))
  {
    var pc := s.threads[a.t];
    assert pc.z in s.sh.zones;
    hide SetArena, SetZone, LockArena, LockZone, Positioned, Enabled;
    TakeOneMore(s.sh.arenas[pc.a].list, pc.i);
  }

  lemma WalkTours(s: System, a: Action, w: Tour)
    requires Ready(s, a.t) && PartOf(s.threads[a.t]) == MallocPart
    requires !s.threads[a.t].TryArena? && !s.threads[a.t].TryZone? && !s.threads[a.t].Allocate?
    requires PcOk(s.sh, s.threads[a.t]) && OnTour(s.sh, s.threads[a.t], w)
    ensures OnTour(s.sh, MallocStep(s, a.t, s.threads[a.t], a.ok, a.name).threads[a.t], Toured(s, a, a.t, w))
  {
    hide SetArena, SetZone, LockArena, LockZone, Positioned, Enabled, Private, Empty, LotOf, GoodArenas, ForMalloc, Opt;
    match s.threads[a.t]
    case ReadHead(b, _) => assert s.sh.arenas[b].list[..0] == [];
    case ReadNext(b, i, _, _) => assert s.sh.arenas[b].list[..|s.sh.arenas[b].list|] == s.sh.arenas[b].list;
    case _ =>
  }

  lemma PushTours(s: System, a: Action, w: Tour)
    requires Ready(s, a.t) && s.threads[a.t].PushZone?
    ensures var u := MallocStep(s, a.t, s.threads[a.t], a.ok, a.name);
            OnTour(u.sh, u.threads[a.t], Toured(s, a, a.t, w))
  {
  }

  lemma MallocTours(s: System, a: Action, w: Tour)
    requires Inv(s) && Ready(s, a.t) && PartOf(s.threads[a.t]) == MallocPart && OnTour(s.sh, s.threads[a.t], w)
    ensures var u := MallocStep(s, a.t, s.threads[a.t], a.ok, a.name);
            OnTour(u.sh, u.threads[a.t], Toured(s, a, a.t, w))
  {
    hide Inv, OnTour, Toured, MallocStep, Positioned, Enabled, PartOf, SameLists, HasLocks, PcOk, Lists, Apart;
    InvParts(s, a.t);
    if s.threads[a.t].PushZone? {
      PushTours(s, a, w);
    } else {
      if s.threads[a.t].TryArena? {
        TryTours(s, a, w);
      } else if s.threads[a.t].TryZone? || s.threads[a.t].Allocate? {
        LookTours(s, a, w);
      } else {
        WalkTours(s, a, w);
      }
      MallocLists(s, a.t, a.ok, a.name);
      var u := MallocStep(s, a.t, s.threads[a.t], a.ok, a.name);
      TourReadsLists(s.sh, u.sh, u.threads[a.t], Toured(s, a, a.t, w));
    }
  }

  lemma KeptLists(s: System, t: nat)
    requires Ready(s, t) && PartOf(s.threads[t]) == ReleasePart && !s.threads[t].RUnlink?
    ensures SameLists(s.sh, ReleaseStep(s, t, s.threads[t]).sh)
  {
  }

  lemma UnlinkTours(s: System, a: Action, w: Tour)
    requires Ready(s, a.t) && s.threads[a.t].RUnlink? && OnTour(s.sh, s.threads[a.t], w)
    ensures var u := ReleaseStep(s, a.t, s.threads[a.t]);
            OnTour(u.sh, u.threads[a.t], Toured(s, a, a.t, w))
  {
    var pc := s.threads[a.t];
    var list := s.sh.arenas[pc.a].list;
    assert Without(list, pc.i)[..pc.i] == list[..pc.i];
    hide Enabled;
  }

  lemma CheckTours(s: System, a: Action, w: Tour)
    requires Ready(s, a.t) && PartOf(s.threads[a.t]) == ReleasePart && !s.threads[a.t].RUnlink?
    requires PcOk(s.sh, s.threads[a.t]) && OnTour(s.sh, s.threads[a.t], w)
    ensures OnTour(s.sh, ReleaseStep(s, a.t, s.threads[a.t]).threads[a.t], Toured(s, a, a.t, w))
  {
    hide SetArena, LockArena, LockZone, Positioned, Enabled, Private, Empty;
    var pc := s.threads[a.t];
    match pc
    case RTest(b, i, _, _) => TakeOneMore(s.sh.arenas[b].list, i);
    case _ =>
  }

  lemma ReleaseTours(s: System, a: Action, w: Tour)
    requires Inv(s) && Ready(s, a.t) && PartOf(s.threads[a.t]) == ReleasePart && OnTour(s.sh, s.threads[a.t], w)
    ensures var u := ReleaseStep(s, a.t, s.threads[a.t]);
            OnTour(u.sh, u.threads[a.t], Toured(s, a, a.t, w))
  {
    hide Inv, OnTour, Toured, ReleaseStep, Positioned, Enabled, PartOf, SameLists, HasLocks, PcOk, Lists, Apart;
    InvParts(s, a.t);
    if s.threads[a.t].RUnlink? {
      UnlinkTours(s, a, w);
    } else {
      CheckTours(s, a, w);
      KeptLists(s, a.t);
      var u := ReleaseStep(s, a.t, s.threads[a.t]);
      TourReadsLists(s.sh, u.sh, u.threads[a.t], Toured(s, a, a.t, w));
    }
  }

  lemma OtherPartsTour(s: System, a: Action, w: Tour)
    requires Inv(s) && Ready(s, a.t) && PartOf(s.threads[a.t]) != ReleasePart && PartOf(s.threads[a.t]) != MallocPart
    ensures OnTour(Step(s, a).sh, Step(s, a).threads[a.t], w) && Toured(s, a, a.t, w) == w
  {
    hide Inv, SetArena, SetZone, LockArena, LockZone, Positioned, Enabled, Free, GoodArenas;
  }

  lemma Waits(s: System, a: Action, w: Tour)
    requires !Ready(s, a.t)
    ensures Step(s, a) == s && Toured(s, a, a.t, w) == w
  {
  }

  lemma StepTours(s: System, a: Action, t: nat, w: Tour)
    requires Inv(s) && t < |s.threads| && OnTour(s.sh, s.threads[t], w)
    ensures OnTour(Step(s, a).sh, Step(s, a).threads[t], Toured(s, a, t, w))
  {
    hide Inv, OnTour, MallocStep, ReleaseStep, FreeStep, BookStep, Begin, Toured, Positioned, Enabled, PartOf;
    if a.t != t {
      OnlyActorMoves(s, a);
      OthersLeaveTour(s, a, t, w);
    } else if Ready(s, t) {
      match PartOf(s.threads[t]) {
        case MallocPart => MallocTours(s, a, w);
        case ReleasePart => ReleaseTours(s, a, w);
        case _ => OtherPartsTour(s, a, w);
      }
    } else {
      Waits(s, a, w);
    }
  }

  lemma {:induction false} RunTours(s: System, actions: seq<Action>, t: nat, w: Tour)
    requires Inv(s) && t < |s.threads| && OnTour(s.sh, s.threads[t], w)
    ensures t < |Run(s, actions).threads|
    ensures OnTour(Run(s, actions).sh, Run(s, actions).threads[t], RunTour(s, actions, t, w))
    decreases |actions|
  {
    hide Inv, OnTour, Step, Toured;
    if actions != [] {
      StepKeepsInv(s, actions[0]);
      StepTours(s, actions[0], t, w);
      RunTours(Step(s, actions[0]), actions[1..], t, Toured(s, actions[0], t, w));
    }
  }

  lemma ToursFromTheStart(s: System, actions: seq<Action>, t: nat)
    requires Initial(s) && t < |s.threads|
    ensures t < |Run(s, actions).threads|
    ensures OnTour(Run(s, actions).sh, Run(s, actions).threads[t], RunTour(s, actions, t, NO_TOUR))
  {
    InitialInv(s);
    assert OnTour(s.sh, s.threads[t], NO_TOUR);
    hide Inv, OnTour;
    RunTours(s, actions, t, NO_TOUR);
  }

  // ---------------------------------------------------------------- every run

  lemma TourTells(sh: Shared, pc: Pc, w: Tour)
    requires OnTour(sh, pc, w)
    ensures pc.MapZone? ==> PassedAll(sh, pc.a, w)
    ensures pc.WantArena? ==> w.cands != [] && pc.a == w.cands[0] && (|w.cands| > 1 ==> w.locked == w.cands)
    ensures pc.RUnlockArena? ==> PassedAll(sh, pc.a, w)
    ensures pc.UnlockArena? && pc.got.None? ==>
              w.denied && pc.a < |sh.arenas| && (sh.arenas[pc.a].large || PassedAll(sh, pc.a, w))
  {
  }

  /**
    When malloc is about to map a zone, it has passed over every zone that is on the list, in order: each was locked
    by another thread, or searched in vain under its lock.
  */
  lemma MapsOnlyAfterTheWalk(s: System, actions: seq<Action>, t: nat)
    requires Initial(s) && t < |s.threads|
    ensures var u, w := Run(s, actions), RunTour(s, actions, t, NO_TOUR);
            t < |u.threads| && (u.threads[t].MapZone? ==> PassedAll(u.sh, u.threads[t].a, w))
  {
    hide *;
    ToursFromTheStart(s, actions, t);
    TourTells(Run(s, actions).sh, Run(s, actions).threads[t], RunTour(s, actions, t, NO_TOUR));
  }

  /** malloc waits for a lock only at the first subarena of the call, and only if all the others were locked. */
  lemma WaitsOnlyIfAllAreLocked(s: System, actions: seq<Action>, t: nat)
    requires Initial(s) && t < |s.threads|
    ensures var u, w := Run(s, actions), RunTour(s, actions, t, NO_TOUR);
            t < |u.threads| && (u.threads[t].WantArena? ==>
              w.cands != [] && u.threads[t].a == w.cands[0] && (|w.cands| > 1 ==> w.locked == w.cands))
  {
    hide *;
    ToursFromTheStart(s, actions, t);
    TourTells(Run(s, actions).sh, Run(s, actions).threads[t], RunTour(s, actions, t, NO_TOUR));
  }

  /** When release_memory is through with a subarena, each zone still on the list was found with a chunk in use. */
  lemma ReleaseLeavesZonesInUse(s: System, actions: seq<Action>, t: nat)
    requires Initial(s) && t < |s.threads|
    ensures var u, w := Run(s, actions), RunTour(s, actions, t, NO_TOUR);
            t < |u.threads| && (u.threads[t].RUnlockArena? ==> PassedAll(u.sh, u.threads[t].a, w))
  {
    hide *;
    ToursFromTheStart(s, actions, t);
    TourTells(Run(s, actions).sh, Run(s, actions).threads[t], RunTour(s, actions, t, NO_TOUR));
  }

  /** malloc gives up only if a mapping was denied, and for a small size only after the walk along the whole list. */
  lemma NullOnlyIfNothingIsToBeHad(s: System, actions: seq<Action>, t: nat)
    requires Initial(s) && t < |s.threads|
    ensures var u, w := Run(s, actions), RunTour(s, actions, t, NO_TOUR);
            t < |u.threads| && (u.threads[t].UnlockArena? && u.threads[t].got.None? ==>
              w.denied && u.threads[t].a < |u.sh.arenas| &&
                (u.sh.arenas[u.threads[t].a].large || PassedAll(u.sh, u.threads[t].a, w)))
  {
    hide *;
    ToursFromTheStart(s, actions, t);
    TourTells(Run(s, actions).sh, Run(s, actions).threads[t], RunTour(s, actions, t, NO_TOUR));
  }
}
