/**
  The locks of the allocator: subarena locks, zone locks and the history lock, as atomic steps of many threads running
  malloc, free, realloc, release_memory and take_history.  The contents of zones are reduced to their sets of live
  chunks.
*/
module LockingModel {
  import opened Wrappers

  // A chunk in use: chunk `c` of zone `z`, or LARGE chunk `c` of subarena `a`.
  datatype Handle = InZone(z: nat, c: nat) | InLarge(a: nat, c: nat)

  datatype Zone = Zone(owner: Option<nat>, arena: nat, live: set<nat>)

  // A subarena: `list` are the zones from `head` along `next`, `bigs` the chunks on the LARGE in-use list.
  datatype Arena = Arena(owner: Option<nat>, large: bool, list: seq<nat>, bigs: set<nat>)

  // What a thread does when malloc, or free, returns; after `Giving`, realloc returns chunk `h`.
  datatype AfterMalloc = Return | FreeOld(prior: Handle) | Extend
  datatype AfterFree = Done | Extended | Giving(h: Handle)

  // take_history: on entry, after a failed or a successful allocation, and after the prior array has been freed.
  datatype Stage = First(cands: seq<nat>) | Failed | Install(name: Handle) | Finish
  datatype Leave = Stop | Grow(cands: seq<nat>) | FreeItems(prior: Option<Handle>)

  /** The next step of a thread.  `lot` is the zone whose `next` field is meant, None for the head of the list. */
  datatype Pc =
    | Idle
    // malloc
    | TryArena(cands: seq<nat>, i: nat, m: AfterMalloc)
    | WantArena(a: nat, m: AfterMalloc)
    | ReadHead(a: nat, m: AfterMalloc)
    | TryZone(a: nat, i: nat, z: nat, m: AfterMalloc)
    | Allocate(a: nat, i: nat, z: nat, m: AfterMalloc)
    | UnlockZone(a: nat, i: nat, z: nat, got: Option<Handle>, m: AfterMalloc)
    | ReadNext(a: nat, i: nat, z: nat, m: AfterMalloc)
    | MapZone(a: nat, m: AfterMalloc)
    | InitZone(a: nat, z: nat, m: AfterMalloc)
    | PushZone(a: nat, z: nat, m: AfterMalloc)
    | AllocateFresh(a: nat, z: nat, m: AfterMalloc)
    | AllocateLarge(a: nat, m: AfterMalloc)
    | UnlockArena(a: nat, got: Option<Handle>, m: AfterMalloc)
    // free, and realloc that shrinks
    | WantZone(z: nat, c: nat, shrink: bool, f: AfterFree)
    | FreeChunk(z: nat, c: nat, shrink: bool, f: AfterFree)
    | FreeUnlock(z: nat, f: AfterFree)
    | WantLarge(a: nat, c: nat, f: AfterFree)
    | FreeLarge(a: nat, c: nat, f: AfterFree)
    | LargeUnlock(a: nat, f: AfterFree)
    // release_memory, for one subarena
    | RWantArena(a: nat)
    | RReadLot(a: nat, i: nat, lot: Option<nat>)
    | RWantZone(a: nat, i: nat, lot: Option<nat>, z: nat)
    | RTest(a: nat, i: nat, lot: Option<nat>, z: nat)
    | RUnlockZone(a: nat, i: nat, lot: Option<nat>, z: nat, releasable: bool)
    | RUnlink(a: nat, i: nat, lot: Option<nat>, z: nat)
    | RUnmap(a: nat, i: nat, lot: Option<nat>, z: nat)
    | RUnlockArena(a: nat)
    // take_history
    | WantBook(stage: Stage)
    | UseBook(stage: Stage)
    | BookUnlock(leave: Leave)

  /** What the threads share. */
  datatype Shared = Shared(
    arenas: seq<Arena>,
    zones: map<nat, Zone>,
    bookOwner: Option<nat>,
    bookChunk: Option<Handle>
  )

  datatype System = System(threads: seq<Pc>, sh: Shared)

  /** What an idle thread is asked to do. */
  datatype Call =
    | CallMalloc(cands: seq<nat>)
    | CallFree(h: Handle)
    | CallShrink(h: Handle)
    | CallRelocate(h: Handle, cands: seq<nat>)
    | CallRelease(a: nat)
    | CallHistory(cands: seq<nat>)

  /**
    One step of thread `t`; `ok` and `name` are the outcomes the program does not decide: of a search, of mmap, of
    names.
  */
  datatype Action = Action(t: nat, call: Call, ok: bool, name: nat)

  // ---------------------------------------------------------------- steps

  function HoldsArena(pc: Pc): Option<nat> {
    match pc
    case ReadHead(a, _) => Some(a)
    case TryZone(a, _, _, _) => Some(a)
    case Allocate(a, _, _, _) => Some(a)
    case UnlockZone(a, _, _, _, _) => Some(a)
    case ReadNext(a, _, _, _) => Some(a)
    case MapZone(a, _) => Some(a)
    case InitZone(a, _, _) => Some(a)
    case PushZone(a, _, _) => Some(a)
    case AllocateFresh(a, _, _) => Some(a)
    case AllocateLarge(a, _) => Some(a)
    case UnlockArena(a, _, _) => Some(a)
    case FreeLarge(a, _, _) => Some(a)
    case LargeUnlock(a, _) => Some(a)
    case RReadLot(a, _, _) => Some(a)
    case RWantZone(a, _, _, _) => Some(a)
    case RTest(a, _, _, _) => Some(a)
    case RUnlockZone(a, _, _, _, _) => Some(a)
    case RUnlink(a, _, _, _) => Some(a)
    case RUnmap(a, _, _, _) => Some(a)
    case RUnlockArena(a) => Some(a)
    case _ => None
  }

  function HoldsZone(pc: Pc): Option<nat> {
    match pc
    case Allocate(_, _, z, _) => Some(z)
    case UnlockZone(_, _, z, _, _) => Some(z)
    case FreeChunk(z, _, _, _) => Some(z)
    case FreeUnlock(z, _) => Some(z)
    case RTest(_, _, _, z) => Some(z)
    case RUnlockZone(_, _, _, z, _) => Some(z)
    case _ => None
  }

  predicate HoldsBook(pc: Pc) { pc.UseBook? || pc.BookUnlock? }

  function ForMalloc(m: AfterMalloc): set<Handle> { if m.FreeOld? then {m.prior} else {} }

  function ForFree(f: AfterFree): set<Handle> { if f.Giving? then {f.h} else {} }

  function Opt(h: Option<Handle>): set<Handle> { if h.Some? then {h.value} else {} }

  /** The live chunks a thread is answerable for. */
  function Mentions(pc: Pc): set<Handle> {
    match pc
    case TryArena(_, _, m) => ForMalloc(m)
    case WantArena(_, m) => ForMalloc(m)
    case ReadHead(_, m) => ForMalloc(m)
    case TryZone(_, _, _, m) => ForMalloc(m)
    case Allocate(_, _, _, m) => ForMalloc(m)
    case UnlockZone(_, _, _, got, m) => ForMalloc(m) + Opt(got)
    case ReadNext(_, _, _, m) => ForMalloc(m)
    case MapZone(_, m) => ForMalloc(m)
    case InitZone(_, _, m) => ForMalloc(m)
    case PushZone(_, _, m) => ForMalloc(m)
    case AllocateFresh(_, _, m) => ForMalloc(m)
    case AllocateLarge(_, m) => ForMalloc(m)
    case UnlockArena(_, got, m) => ForMalloc(m) + Opt(got)
    case WantZone(z, c, _, f) => {InZone(z, c)} + ForFree(f)
    case FreeChunk(z, c, _, f) => {InZone(z, c)} + ForFree(f)
    case FreeUnlock(_, f) => ForFree(f)
    case WantLarge(a, c, f) => {InLarge(a, c)} + ForFree(f)
    case FreeLarge(a, c, f) => {InLarge(a, c)} + ForFree(f)
    case LargeUnlock(_, f) => ForFree(f)
    case WantBook(stage) => if stage.Install? then {stage.name} else {}
    case UseBook(stage) => if stage.Install? then {stage.name} else {}
    case BookUnlock(leave) => if leave.FreeItems? then Opt(leave.prior) else {}
    case _ => {}
  }

  predicate IsLive(sh: Shared, h: Handle) {
    match h
    case InZone(z, c) => z in sh.zones && c in sh.zones[z].live
    case InLarge(a, c) => a < |sh.arenas| && sh.arenas[a].large && c in sh.arenas[a].bigs
  }

  /** A chunk the application holds: live, and in nobody's hands. */
  predicate Free(s: System, h: Handle) {
    IsLive(s.sh, h) && s.sh.bookChunk != Some(h) && forall t :: 0 <= t < |s.threads| ==> h !in Mentions(s.threads[t])
  }

  predicate GoodArenas(sh: Shared, cands: seq<nat>) {
    cands != [] && forall k :: 0 <= k < |cands| ==> cands[k] < |sh.arenas|
  }

  function StartFree(h: Handle, f: AfterFree): Pc {
    match h
    case InZone(z, c) => WantZone(z, c, false, f)
    case InLarge(a, c) => WantLarge(a, c, f)
  }

  function FreeReturns(f: AfterFree): Pc {
    if f.Extended? then WantBook(Finish) else Idle
  }

  function MallocReturns(got: Option<Handle>, m: AfterMalloc): Pc {
    match m
    case Return => Idle
    case FreeOld(prior) => if got.None? then Idle else StartFree(prior, Giving(got.value))
    case Extend => WantBook(if got.None? then Failed else Install(got.value))
  }

  function SetArena(sh: Shared, a: nat, x: Arena): Shared
    requires a < |sh.arenas|
  {
    sh.(arenas := sh.arenas[a := x])
  }

  function SetZone(sh: Shared, z: nat, x: Zone): Shared {
    sh.(zones := sh.zones[z := x])
  }

  function LockArena(sh: Shared, a: nat, o: Option<nat>): Shared
    requires a < |sh.arenas|
  {
    SetArena(sh, a, sh.arenas[a].(owner := o))
  }

  function LockZone(sh: Shared, z: nat, o: Option<nat>): Shared
    requires z in sh.zones
  {
    SetZone(sh, z, sh.zones[z].(owner := o))
  }

  /** A list of zones without the one at position `i`. */
  function Without(list: seq<nat>, i: nat): seq<nat>
    requires i < |list|
  {
    list[..i] + list[i + 1..]
  }

  /** Thread `t` moves to `pc`, leaving the shared state as `sh`. */
  function To(s: System, t: nat, sh: Shared, pc: Pc): System
    requires t < |s.threads|
  {
    System(s.threads[t := pc], sh)
  }

  function EnterArena(s: System, t: nat, a: nat, m: AfterMalloc): System
    requires t < |s.threads| && a < |s.sh.arenas|
  {
    To(s, t, LockArena(s.sh, a, Some(t)), if s.sh.arenas[a].large then AllocateLarge(a, m) else ReadHead(a, m))
  }

  /** The subarena and zone of a position, where the C program would dereference pointers. */
  predicate Positioned(sh: Shared, pc: Pc) {
    && (HoldsArena(pc).Some? ==> HoldsArena(pc).value < |sh.arenas|)
    && (HoldsZone(pc).Some? ==> HoldsZone(pc).value in sh.zones)
    && match pc
       case WantArena(a, _) => a < |sh.arenas|
       case TryArena(cands, _, _) => GoodArenas(sh, cands)
       case TryZone(_, _, z, _) => z in sh.zones
       case AllocateFresh(_, z, _) => z in sh.zones
       case WantZone(z, _, _, _) => z in sh.zones
       case WantLarge(a, _, _) => a < |sh.arenas|
       case RWantArena(a) => a < |sh.arenas|
       case RWantZone(_, _, _, z) => z in sh.zones
       case RUnlink(a, i, _, _) => i < |sh.arenas[a].list|
       case _ => true
  }

  /** Whether the next step of a thread can be taken: only the three waiting locks can refuse. */
  predicate Enabled(s: System, t: nat)
    requires t < |s.threads| && Positioned(s.sh, s.threads[t])
  {
    match s.threads[t]
    case WantArena(a, _) => s.sh.arenas[a].owner.None?
    case WantLarge(a, _, _) => s.sh.arenas[a].owner.None?
    case RWantArena(a) => s.sh.arenas[a].owner.None?
    case WantZone(z, _, _, _) => s.sh.zones[z].owner.None?
    case RWantZone(_, _, _, z) => s.sh.zones[z].owner.None?
    case WantBook(_) => s.sh.bookOwner.None?
    case _ => true
  }

  function Begin(s: System, t: nat, call: Call): (r: System)
    requires t < |s.threads|
    ensures |r.threads| == |s.threads|
  {
    match call
    case CallMalloc(cands) => if GoodArenas(s.sh, cands) then To(s, t, s.sh, TryArena(cands, 0, Return)) else s
    case CallFree(h) => if Free(s, h) then To(s, t, s.sh, StartFree(h, Done)) else s
    case CallShrink(h) => if Free(s, h) && h.InZone? then To(s, t, s.sh, WantZone(h.z, h.c, true, Done)) else s
    case CallRelocate(h, cands) => if Free(s, h) && GoodArenas(s.sh, cands)
      then To(s, t, s.sh, TryArena(cands, 0, FreeOld(h))) else s
    case CallRelease(a) => if a < |s.sh.arenas| && !s.sh.arenas[a].large then To(s, t, s.sh, RWantArena(a)) else s
    case CallHistory(cands) => if GoodArenas(s.sh, cands) then To(s, t, s.sh, WantBook(First(cands))) else s
  }

  /** The step of a thread inside malloc. */
  function MallocStep(s: System, t: nat, pc: Pc, ok: bool, name: nat): (r: System)
    requires t < |s.threads| && s.threads[t] == pc && Positioned(s.sh, pc) && Enabled(s, t)
    ensures |r.threads| == |s.threads|
  {
    match pc
    case TryArena(cands, i, m) =>
      if |cands| > 1 && i < |cands| then
        if s.sh.arenas[cands[i]].owner.None? then EnterArena(s, t, cands[i], m)
          else To(s, t, s.sh, TryArena(cands, i + 1, m))
      else To(s, t, s.sh, WantArena(cands[0], m))
    case WantArena(a, m) => EnterArena(s, t, a, m)
    case ReadHead(a, m) =>
      To(s, t, s.sh, if s.sh.arenas[a].list == [] then MapZone(a, m) else TryZone(a, 0, s.sh.arenas[a].list[0], m))
    case TryZone(a, i, z, m) =>
      if s.sh.zones[z].owner.None? then To(s, t, LockZone(s.sh, z, Some(t)), Allocate(a, i, z, m))
        else To(s, t, s.sh, ReadNext(a, i, z, m))
    case Allocate(a, i, z, m) =>
      if ok && name !in s.sh.zones[z].live then
        To(s, t, SetZone(s.sh, z, s.sh.zones[z].(live := s.sh.zones[z].live + {name})),
          UnlockZone(a, i, z, Some(InZone(z, name)), m))
      else To(s, t, s.sh, UnlockZone(a, i, z, None, m))
    case UnlockZone(a, i, z, got, m) =>
      To(s, t, LockZone(s.sh, z, None), if got.Some? then UnlockArena(a, got, m) else ReadNext(a, i, z, m))
    case ReadNext(a, i, z, m) =>
      To(s, t, s.sh, if i + 1 < |s.sh.arenas[a].list| then TryZone(a, i + 1, s.sh.arenas[a].list[i + 1], m)
        else MapZone(a, m))
    case MapZone(a, m) =>
      if ok && name !in s.sh.zones then To(s, t, SetZone(s.sh, name, Zone(None, a, {})), InitZone(a, name, m))
      else To(s, t, s.sh, UnlockArena(a, None, m))
    case InitZone(a, z, m) => To(s, t, s.sh, PushZone(a, z, m))
    case PushZone(a, z, m) =>
      To(s, t, SetArena(s.sh, a, s.sh.arenas[a].(list := [z] + s.sh.arenas[a].list)), AllocateFresh(a, z, m))
    case AllocateFresh(a, z, m) =>
      To(s, t, SetZone(s.sh, z, s.sh.zones[z].(live := s.sh.zones[z].live + {name})),
        UnlockArena(a, Some(InZone(z, name)), m))
    case AllocateLarge(a, m) =>
      if ok && name !in s.sh.arenas[a].bigs then
        To(s, t, SetArena(s.sh, a, s.sh.arenas[a].(bigs := s.sh.arenas[a].bigs + {name})),
          UnlockArena(a, Some(InLarge(a, name)), m))
      else To(s, t, s.sh, UnlockArena(a, None, m))
    case UnlockArena(a, got, m) => To(s, t, LockArena(s.sh, a, None), MallocReturns(got, m))
    case _ => s
  }

  /** The step of a thread inside free, or inside a realloc that shrinks. */
  function FreeStep(s: System, t: nat, pc: Pc): (r: System)
    requires t < |s.threads| && s.threads[t] == pc && Positioned(s.sh, pc) && Enabled(s, t)
    ensures |r.threads| == |s.threads|
  {
    match pc
    case WantZone(z, c, shrink, f) => To(s, t, LockZone(s.sh, z, Some(t)), FreeChunk(z, c, shrink, f))
    case FreeChunk(z, c, shrink, f) =>
      if shrink then To(s, t, s.sh, FreeUnlock(z, Giving(InZone(z, c))))
      else To(s, t, SetZone(s.sh, z, s.sh.zones[z].(live := s.sh.zones[z].live - {c})), FreeUnlock(z, f))
    case FreeUnlock(z, f) => To(s, t, LockZone(s.sh, z, None), FreeReturns(f))
    case WantLarge(a, c, f) => To(s, t, LockArena(s.sh, a, Some(t)), FreeLarge(a, c, f))
    case FreeLarge(a, c, f) => To(s, t, SetArena(s.sh, a, s.sh.arenas[a].(bigs := s.sh.arenas[a].bigs - {c})),
      LargeUnlock(a, f))
    case LargeUnlock(a, f) => To(s, t, LockArena(s.sh, a, None), FreeReturns(f))
    case _ => s
  }

  /** The step of a thread inside release_entirely_free_zone. */
  function ReleaseStep(s: System, t: nat, pc: Pc): (r: System)
    requires t < |s.threads| && s.threads[t] == pc && Positioned(s.sh, pc) && Enabled(s, t)
    ensures |r.threads| == |s.threads|
  {
    match pc
    case RWantArena(a) => To(s, t, LockArena(s.sh, a, Some(t)), RReadLot(a, 0, None))
    case RReadLot(a, i, lot) =>
      To(s, t, s.sh, if i < |s.sh.arenas[a].list| then RWantZone(a, i, lot, s.sh.arenas[a].list[i])
        else RUnlockArena(a))
    case RWantZone(a, i, lot, z) => To(s, t, LockZone(s.sh, z, Some(t)), RTest(a, i, lot, z))
    case RTest(a, i, lot, z) => To(s, t, s.sh, RUnlockZone(a, i, lot, z, s.sh.zones[z].live == {}))
    case RUnlockZone(a, i, lot, z, releasable) =>
      To(s, t, LockZone(s.sh, z, None), if releasable then RUnlink(a, i, lot, z) else RReadLot(a, i + 1, Some(z)))
    case RUnlink(a, i, lot, z) =>
      To(s, t, SetArena(s.sh, a, s.sh.arenas[a].(list := Without(s.sh.arenas[a].list, i))), RUnmap(a, i, lot, z))
    case RUnmap(a, i, lot, z) => To(s, t, s.sh.(zones := s.sh.zones - {z}), RReadLot(a, i, lot))
    case RUnlockArena(a) => To(s, t, LockArena(s.sh, a, None), Idle)
    case _ => s
  }

  /** The step of a thread inside take_history. */
  function BookStep(s: System, t: nat, pc: Pc, ok: bool): (r: System)
    requires t < |s.threads| && s.threads[t] == pc && Positioned(s.sh, pc) && Enabled(s, t)
    ensures |r.threads| == |s.threads|
  {
    match pc
    case WantBook(stage) => To(s, t, s.sh.(bookOwner := Some(t)), UseBook(stage))
    case UseBook(First(cands)) => To(s, t, s.sh, BookUnlock(if ok then Stop else Grow(cands)))
    case UseBook(Failed) => To(s, t, s.sh, BookUnlock(Stop))
    case UseBook(Install(h)) => To(s, t, s.sh.(bookChunk := Some(h)), BookUnlock(FreeItems(s.sh.bookChunk)))
    case UseBook(Finish) => To(s, t, s.sh, BookUnlock(Stop))
    case BookUnlock(leave) =>
      To(s, t, s.sh.(bookOwner := None),
         match leave
         case Stop => Idle
         case Grow(cands) => TryArena(cands, 0, Extend)
         case FreeItems(prior) => if prior.None? then WantBook(Finish) else StartFree(prior.value, Extended))
    case _ => s
  }

  datatype Part = NoPart | MallocPart | FreePart | ReleasePart | BookPart

  function PartOf(pc: Pc): Part {
    if pc.Idle? then NoPart
    else if pc.WantBook? || pc.UseBook? || pc.BookUnlock? then BookPart
    else if pc.WantZone? || pc.FreeChunk? || pc.FreeUnlock? || pc.WantLarge? || pc.FreeLarge? || pc.LargeUnlock?
      then FreePart
    else if pc.RWantArena? || pc.RReadLot? || pc.RWantZone? || pc.RTest? || pc.RUnlockZone? || pc.RUnlink? || pc.RUnmap?
            || pc.RUnlockArena?
    then ReleasePart
    else MallocPart
  }

  function Step(s: System, a: Action): (r: System)
    ensures |r.threads| == |s.threads|
  {
    if a.t >= |s.threads| || !Positioned(s.sh, s.threads[a.t]) || !Enabled(s, a.t) then s else
    var pc := s.threads[a.t];
    match PartOf(pc)
    case NoPart => Begin(s, a.t, a.call)
    case MallocPart => MallocStep(s, a.t, pc, a.ok, a.name)
    case FreePart => FreeStep(s, a.t, pc)
    case ReleasePart => ReleaseStep(s, a.t, pc)
    case BookPart => BookStep(s, a.t, pc, a.ok)
  }

  function Run(s: System, actions: seq<Action>): System
    decreases |actions|
  {
    if actions == [] then s else Run(Step(s, actions[0]), actions[1..])
  }
}
