/**
  No call runs forever: in every infinite interleaving a thread inside the allocator returns, or takes no further step
  because it is not scheduled or waits for a lock.
*/
module LockingProgress {
  import opened Wrappers
  import opened LockingModel
  import opened LockingInvariant
  import opened LockingSteps
  import opened LockingPositions
  import opened LockingTheorems
  import opened LockingTours

  // ---------------------------------------------------------------- how far a call has to go

  /** How many kinds of steps, at most, are ahead of a thread: walks along a list count as one. */
  function Ahead(pc: Pc): nat {
    match pc
    case Idle => 0
    case RUnlockArena(_) => 1
    case RWantArena(_) => 3
    case BookUnlock(Stop) => 1
    case UseBook(stage) => if stage.First? then 20 else if stage.Install? then 8 else 2
    case WantBook(stage) => if stage.First? then 21 else if stage.Install? then 9 else 3
    case BookUnlock(FreeItems(_)) => 7
    case BookUnlock(Grow(_)) => 19
    case FreeUnlock(_, _) => 4
    case LargeUnlock(_, _) => 4
    case FreeChunk(_, _, _, _) => 5
    case FreeLarge(_, _, _) => 5
    case WantZone(_, _, _, _) => 6
    case WantLarge(_, _, _) => 6
    case UnlockArena(_, _, _) => 10
    case AllocateFresh(_, _, _) => 11
    case PushZone(_, _, _) => 12
    case InitZone(_, _, _) => 13
    case MapZone(_, _) => 14
    case ReadHead(_, _) => 16
    case AllocateLarge(_, _) => 16
    case WantArena(_, _) => 17
    case TryArena(_, _, _) => 18
    case _ => if PartOf(pc) == ReleasePart then 2 else 15
  }

  function Rest(sh: Shared, a: nat, i: nat): nat {
    if a < |sh.arenas| && i <= |sh.arenas[a].list| then |sh.arenas[a].list| - i else 0
  }

  /** On a walk, how many steps are left of it. */
  function Left(sh: Shared, pc: Pc): nat {
    match pc
    case TryArena(cands, i, _) => if i <= |cands| then |cands| - i else 0
    case TryZone(a, i, _, _) => 4 * Rest(sh, a, i) + 3
    case Allocate(a, i, _, _) => 4 * Rest(sh, a, i) + 2
    case UnlockZone(a, i, _, _, _) => 4 * Rest(sh, a, i) + 1
    case ReadNext(a, i, _, _) => 4 * Rest(sh, a, i)
    case RUnmap(a, i, _, _) => 8 * Rest(sh, a, i) + 7
    case RReadLot(a, i, _) => 8 * Rest(sh, a, i) + 6
    case RWantZone(a, i, _, _) => 8 * Rest(sh, a, i) + 5
    case RTest(a, i, _, _) => 8 * Rest(sh, a, i) + 4
    case RUnlockZone(a, i, _, _, _) => 8 * Rest(sh, a, i) + 3
    case RUnlink(a, i, _, _) => 8 * Rest(sh, a, i) + 2
    case _ => 0
  }

  ghost predicate Nearer(sh: Shared, pc: Pc, sh': Shared, q: Pc) {
    Ahead(q) < Ahead(pc) || (Ahead(q) == Ahead(pc) && Left(sh', q) < Left(sh, pc))
  }

  // ---------------------------------------------------------------- one step

  lemma TryNears(s: System, t: nat, ok: bool, name: nat)
    requires Ready(s, t) && s.threads[t].TryArena?
    ensures var u := MallocStep(s, t, s.threads[t], ok, name); Nearer(s.sh, s.threads[t], u.sh, u.threads[t])
  {
    hide SetArena, LockArena, Rest;
  }

  lemma ZoneNears(s: System, t: nat, ok: bool, name: nat)
    requires Ready(s, t) && Ahead(s.threads[t]) == 15 && PcOk(s.sh, s.threads[t])
    ensures var u := MallocStep(s, t, s.threads[t], ok, name); Nearer(s.sh, s.threads[t], u.sh, u.threads[t])
  {
    assert s.threads[t].TryZone? ==> s.threads[t].z in s.sh.zones;
    hide Positioned, Enabled, SetArena, LockArena;
  }

  lemma MallocNears(s: System, t: nat, ok: bool, name: nat)
    requires Ready(s, t) && PartOf(s.threads[t]) == MallocPart && !s.threads[t].TryArena? && Ahead(s.threads[t]) != 15
    ensures var u := MallocStep(s, t, s.threads[t], ok, name); Ahead(u.threads[t]) < Ahead(s.threads[t])
  {
    hide Positioned, Enabled, SetArena, LockArena, SetZone, LockZone;
  }

  lemma FreeNears(s: System, t: nat)
    requires Ready(s, t) && PartOf(s.threads[t]) == FreePart
    ensures Ahead(FreeStep(s, t, s.threads[t]).threads[t]) < Ahead(s.threads[t])
  {
    hide Positioned, Enabled, SetArena, LockArena, SetZone, LockZone;
  }

  lemma UnlinkNears(s: System, t: nat)
    requires Ready(s, t) && s.threads[t].RUnlink? && PcOk(s.sh, s.threads[t])
    ensures var u := ReleaseStep(s, t, s.threads[t]); Nearer(s.sh, s.threads[t], u.sh, u.threads[t])
  {
    hide Enabled, Empty;
  }

  /** The steps of release_memory but for the one that shortens the list. */
  lemma CheckNears(s: System, t: nat)
    requires Ready(s, t) && PartOf(s.threads[t]) == ReleasePart && !s.threads[t].RUnlink?
    requires s.threads[t].RUnlockZone? ==>
      Rest(s.sh, s.threads[t].a, s.threads[t].i + 1) < Rest(s.sh, s.threads[t].a, s.threads[t].i)
    ensures var u := ReleaseStep(s, t, s.threads[t]); Nearer(s.sh, s.threads[t], u.sh, u.threads[t])
  {
    hide Positioned, Enabled, SetArena, LockArena, LockZone, SameLists, Rest;
    KeptLists(s, t);
    SameRest(s.sh, ReleaseStep(s, t, s.threads[t]).sh);
  }

  lemma LessRest(sh: Shared, pc: Pc)
    requires pc.RUnlockZone? && PcOk(sh, pc)
    ensures Rest(sh, pc.a, pc.i + 1) < Rest(sh, pc.a, pc.i)
  {
  }

  lemma SameRest(sh: Shared, sh': Shared)
    requires SameLists(sh, sh')
    ensures forall a, i {:trigger Rest(sh', a, i)} :: Rest(sh', a, i) == Rest(sh, a, i)
  {
  }

  lemma BookNears(s: System, t: nat, ok: bool)
    requires Ready(s, t) && PartOf(s.threads[t]) == BookPart
    ensures Ahead(BookStep(s, t, s.threads[t], ok).threads[t]) < Ahead(s.threads[t])
  {
    hide Positioned, Enabled;
  }

  /** Each step that a thread inside the allocator takes brings it nearer to its return. */
  lemma StepNears(s: System, a: Action)
    requires Inv(s) && Ready(s, a.t) && s.threads[a.t] != Idle
    ensures Nearer(s.sh, s.threads[a.t], Step(s, a).sh, Step(s, a).threads[a.t])
  {
    hide Inv, MallocStep, FreeStep, ReleaseStep, BookStep, Positioned, Enabled, PcOk, HasLocks, Lists, Apart, Left;
    InvParts(s, a.t);
    var pc := s.threads[a.t];
    match PartOf(pc) {
      case MallocPart =>
        if pc.TryArena? {
          TryNears(s, a.t, a.ok, a.name);
        } else if Ahead(pc) == 15 {
          ZoneNears(s, a.t, a.ok, a.name);
        } else {
          MallocNears(s, a.t, a.ok, a.name);
        }
      case FreePart => FreeNears(s, a.t);
      case ReleasePart =>
        if pc.RUnlockZone? { LessRest(s.sh, pc); }
        if pc.RUnlink? { UnlinkNears(s, a.t); } else { CheckNears(s, a.t); }
      case BookPart => BookNears(s, a.t, a.ok);
    }
  }

  /** The steps of other threads leave it where it is. */
  lemma OthersLeaveWork(s: System, a: Action, t: nat)
    requires Inv(s) && t < |s.threads| && a.t != t
    ensures Step(s, a).threads[t] == s.threads[t] && Left(Step(s, a).sh, s.threads[t]) == Left(s.sh, s.threads[t])
  {
    OnlyActorMoves(s, a);
    LocksAreHeld(s, t);
    hide Inv, Step;
    if HoldsArena(s.threads[t]).Some? { ListStays(s, a, t, HoldsArena(s.threads[t]).value); }
  }

  // ---------------------------------------------------------------- every infinite run

  /** The state after the first `n` actions of an infinite schedule. */
  function StateAt(s: System, schedule: nat -> Action, n: nat): System {
    if n == 0 then s else Step(StateAt(s, schedule, n - 1), schedule(n - 1))
  }

  /** At time `n` thread `t` takes a step. */
  ghost predicate Moves(s: System, schedule: nat -> Action, t: nat, n: nat) {
    schedule(n).t == t && Ready(StateAt(s, schedule, n), t)
  }

  /** By time `k` thread `t` has returned, or it takes no step from then on. */
  ghost predicate Rests(s: System, schedule: nat -> Action, t: nat, k: nat) {
    (t < |StateAt(s, schedule, k).threads| && StateAt(s, schedule, k).threads[t] == Idle) ||
      forall j: nat :: k <= j ==> !Moves(s, schedule, t, j)
  }

  lemma {:induction false} InvAt(s: System, schedule: nat -> Action, n: nat)
    requires Inv(s)
    ensures Inv(StateAt(s, schedule, n)) && |StateAt(s, schedule, n).threads| == |s.threads|
  {
    hide Inv, Step;
    if n > 0 {
      InvAt(s, schedule, n - 1);
      StepKeepsInv(StateAt(s, schedule, n - 1), schedule(n - 1));
    }
  }

  /** Until its next step a thread is where it was. */
  lemma {:induction false} StaysUntil(s: System, schedule: nat -> Action, t: nat, n: nat, j: nat)
    requires Inv(s) && t < |s.threads| && n <= j
    requires forall i: nat :: n <= i < j ==> !Moves(s, schedule, t, i)
    ensures t < |StateAt(s, schedule, n).threads| && t < |StateAt(s, schedule, j).threads|
    ensures var u, v := StateAt(s, schedule, n), StateAt(s, schedule, j);
            v.threads[t] == u.threads[t] && Left(v.sh, v.threads[t]) == Left(u.sh, u.threads[t])
    decreases j
  {
    hide Inv, Left, Ready, Step;
    InvAt(s, schedule, n);
    InvAt(s, schedule, j);
    if n < j {
      var v := StateAt(s, schedule, j - 1);
      InvAt(s, schedule, j - 1);
      StaysUntil(s, schedule, t, n, j - 1);
      assert !Moves(s, schedule, t, j - 1);
      if schedule(j - 1).t == t { NotReadyStays(v, schedule(j - 1)); } else { OthersLeaveWork(v, schedule(j - 1), t); }
    }
  }

  lemma NotReadyStays(s: System, a: Action)
    requires !Ready(s, a.t)
    ensures Step(s, a) == s
  {
  }

  /** The next time at which thread `t` takes a step, if there is one. */
  lemma NextMove(s: System, schedule: nat -> Action, t: nat, n: nat, m: nat) returns (j: nat)
    requires n <= m && Moves(s, schedule, t, m)
    ensures n <= j && Moves(s, schedule, t, j) && forall i: nat :: n <= i < j ==> !Moves(s, schedule, t, i)
  {
    hide Moves;
    j := n;
    while !Moves(s, schedule, t, j)
      invariant n <= j <= m && forall i: nat :: n <= i < j ==> !Moves(s, schedule, t, i)
      decreases m - j
    {
      j := j + 1;
    }
  }

  /**
    In every infinite interleaving each call returns, or comes to a point from which its thread takes no step: it is
    not scheduled, or whenever it is, the lock it waits for is taken.
  */
  lemma {:induction false} CallsReturn(s: System, schedule: nat -> Action, t: nat, n: nat) returns (k: nat)
    requires Inv(s) && t < |s.threads|
    ensures n <= k && Rests(s, schedule, t, k)
    decreases if t < |StateAt(s, schedule, n).threads| then Ahead(StateAt(s, schedule, n).threads[t]) else 0,
              if t < |StateAt(s, schedule, n).threads|
              then Left(StateAt(s, schedule, n).sh, StateAt(s, schedule, n).threads[t]) else 0
  {
    hide Inv, Left, Ahead, Step, Ready;
    InvAt(s, schedule, n);
    k := n;
    if !Rests(s, schedule, t, n) {
      var m: nat :| n <= m && Moves(s, schedule, t, m);
      var j := NextMove(s, schedule, t, n, m);
      StaysUntil(s, schedule, t, n, j);
      InvAt(s, schedule, j);
      InvAt(s, schedule, j + 1);
      StepNears(StateAt(s, schedule, j), schedule(j));
      k := CallsReturn(s, schedule, t, j + 1);
    }
  }
}
