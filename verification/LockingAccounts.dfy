/**
  Who holds the live chunks: over every interleaving each is held by the application, by one thread on its way
  through the allocator, or by the history book, and what was given to free is gone when free returns.
*/
module LockingAccounts {
  import opened Wrappers
  import opened LinkedLists
  import opened LockingModel
  import opened LockingInvariant
  import opened LockingSteps
  import opened LockingPositions
  import opened LockingTheorems

  // ---------------------------------------------------------------- the record of the application

  /** What a call hands over to the allocator, out of the chunks the application has. */
  function HandsOver(sh: Shared, held: set<Handle>, call: Call): set<Handle> {
    match call
    case CallFree(h) => if h in held then {h} else {}
    case CallShrink(h) => if h in held && h.InZone? then {h} else {}
    case CallRelocate(h, cands) => if h in held && GoodArenas(sh, cands) then {h} else {}
    case _ => {}
  }

  /** What a thread that takes its next step returns to the application; a realloc that fails returns the old chunk. */
  function Returns(pc: Pc): set<Handle> {
    match pc
    case UnlockArena(_, got, Return) => Opt(got)
    case UnlockArena(_, got, FreeOld(prior)) => if got.None? then {prior} else {}
    case FreeUnlock(_, f) => ForFree(f)
    case LargeUnlock(_, f) => ForFree(f)
    case _ => {}
  }

  /** The chunks returned to the application and not handed back, after one more step. */
  ghost function Record(s: System, a: Action, held: set<Handle>): set<Handle> {
    if !Ready(s, a.t) then held
    else if s.threads[a.t].Idle? then held - HandsOver(s.sh, held, a.call)
    else held + Returns(s.threads[a.t])
  }

  ghost function RunRecord(s: System, actions: seq<Action>, held: set<Handle>): set<Handle>
    decreases |actions|
  {
    if actions == [] then held else RunRecord(Step(s, actions[0]), actions[1..], Record(s, actions[0], held))
  }

  ghost predicate InHands(s: System, h: Handle) {
    exists t :: 0 <= t < |s.threads| && h in Mentions(s.threads[t])
  }

  /** The live chunks are those held by the application, a thread or the book, and none has two holders. */
  ghost predicate OneHolder(s: System, held: set<Handle>) {
    && (forall h :: IsLive(s.sh, h) <==> h in held || InHands(s, h) || s.sh.bookChunk == Some(h))
    && (forall h :: h in held ==> !InHands(s, h) && s.sh.bookChunk != Some(h))
    && (forall h :: InHands(s, h) ==> s.sh.bookChunk != Some(h))
    && (forall t, u, h :: 0 <= t < u < |s.threads| && h in Mentions(s.threads[t]) ==> h !in Mentions(s.threads[u]))
  }

  /** The record is exactly the live chunks that neither a thread nor the book holds. */
  ghost predicate Accounted(s: System, held: set<Handle>) {
    forall h {:trigger Free(s, h)} :: Free(s, h) <==> h in held
  }

  lemma AccountedAt(s: System, held: set<Handle>, h: Handle)
    requires Inv(s) && Accounted(s, held)
    ensures IsLive(s.sh, h) <==> h in held || InHands(s, h) || s.sh.bookChunk == Some(h)
    ensures h in held ==> !InHands(s, h) && s.sh.bookChunk != Some(h)
    ensures InHands(s, h) ==> s.sh.bookChunk != Some(h)
  {
    assert Free(s, h) <==> h in held;
    if InHands(s, h) {
      var t :| 0 <= t < |s.threads| && h in Mentions(s.threads[t]);
      assert ThreadOk(s.sh, t, s.threads[t]);
    }
    hide Mentions, IsLive, HasLocks, PcOk, Lists, Owners;
  }

  lemma AccountedIsOneHolder(s: System, held: set<Handle>)
    requires Inv(s) && Accounted(s, held)
    ensures OneHolder(s, held)
  {
    assert Apart(s) by { hide ThreadOk, Owners, Lists, Apart; }
    hide Inv, Mentions, IsLive, Accounted, InHands;
    forall h
      ensures IsLive(s.sh, h) <==> h in held || InHands(s, h) || s.sh.bookChunk == Some(h)
      ensures h in held ==> !InHands(s, h) && s.sh.bookChunk != Some(h)
      ensures InHands(s, h) ==> s.sh.bookChunk != Some(h) {
      AccountedAt(s, held, h);
    }
  }

  // ---------------------------------------------------------------- one step

  /** A live chunk that neither the book nor a thread at `pc` holds. */
  ghost predicate Loose(sh: Shared, pc: Pc, h: Handle) {
    IsLive(sh, h) && sh.bookChunk != Some(h) && h !in Mentions(pc)
  }

  /** The step of a thread from `pc` to `q` takes `taken` from the application and gives it `given`. */
  ghost predicate Balanced(sh: Shared, pc: Pc, sh': Shared, q: Pc, given: set<Handle>, taken: set<Handle>) {
    forall h {:trigger Loose(sh', q, h)} :: Loose(sh', q, h) <==> (Loose(sh, pc, h) && h !in taken) || h in given
  }

  ghost predicate OthersWithout(s: System, t: nat, h: Handle) {
    forall u :: 0 <= u < |s.threads| && u != t ==> h !in Mentions(s.threads[u])
  }

  lemma FreeIsLoose(s: System, t: nat, h: Handle)
    requires t < |s.threads|
    ensures Free(s, h) <==> Loose(s.sh, s.threads[t], h) && OthersWithout(s, t, h)
  {
    hide Mentions, IsLive;
  }

  lemma OthersStay(s: System, u: System, t: nat, h: Handle)
    requires t < |s.threads| == |u.threads| && u.threads == s.threads[t := u.threads[t]]
    ensures OthersWithout(u, t, h) <==> OthersWithout(s, t, h)
  {
    hide Mentions;
    forall k | 0 <= k < |s.threads| && k != t ensures u.threads[k] == s.threads[k] {}
  }

  lemma HandsAreApart(s: System, t: nat, h: Handle)
    requires Apart(s) && t < |s.threads| && h in Mentions(s.threads[t])
    ensures OthersWithout(s, t, h)
  {
    hide Mentions;
  }

  lemma BalancedAt(sh: Shared, pc: Pc, sh': Shared, q: Pc, given: set<Handle>, taken: set<Handle>, h: Handle)
    requires Balanced(sh, pc, sh', q, given, taken)
    ensures Loose(sh', q, h) <==> (Loose(sh, pc, h) && h !in taken) || h in given
  {
    hide Mentions, IsLive;
  }

  /** A step that is balanced keeps the record, with what it takes and gives. */
  lemma BalancedKeeps(s: System, t: nat, sh': Shared, q: Pc, held: set<Handle>, given: set<Handle>, taken: set<Handle>)
    requires Inv(s) && t < |s.threads| && Accounted(s, held) && given <= Mentions(s.threads[t])
    requires Balanced(s.sh, s.threads[t], sh', q, given, taken)
    ensures Accounted(To(s, t, sh', q), held - taken + given)
  {
    InvParts(s, t);
    hide Inv, Mentions, Loose, Apart, ThreadOk, Lists;
    var u := To(s, t, sh', q);
    forall h ensures Free(u, h) <==> h in held - taken + given {
      FreeIsLoose(s, t, h);
      FreeIsLoose(u, t, h);
      OthersStay(s, u, t, h);
      if h in given { HandsAreApart(s, t, h); }
      BalancedAt(s.sh, s.threads[t], sh', q, given, taken, h);
    }
    hide Free, OthersWithout;
  }

  // ---------------------------------------------------------------- kinds of steps

  ghost predicate SameLive(sh: Shared, sh': Shared) {
    sh'.bookChunk == sh.bookChunk && forall h {:trigger IsLive(sh', h)} :: IsLive(sh', h) <==> IsLive(sh, h)
  }

  lemma MoveBalances(sh: Shared, pc: Pc, sh': Shared, q: Pc)
    requires SameLive(sh, sh') && Mentions(q) == Mentions(pc)
    ensures Balanced(sh, pc, sh', q, {}, {})
  {
    hide Mentions, IsLive;
  }

  lemma TakeBalances(sh: Shared, pc: Pc, q: Pc, taken: set<Handle>)
    requires Mentions(q) == Mentions(pc) + taken
    ensures Balanced(sh, pc, sh, q, {}, taken)
  {
    hide Mentions, IsLive;
  }

  lemma GiveBalances(sh: Shared, pc: Pc, sh': Shared, q: Pc, given: set<Handle>)
    requires SameLive(sh, sh') && Mentions(pc) == Mentions(q) + given && Mentions(q) !! given
    requires forall h :: h in given ==> IsLive(sh, h) && sh.bookChunk != Some(h)
    ensures Balanced(sh, pc, sh', q, given, {})
  {
    hide Mentions, IsLive;
  }

  lemma MakeBalances(sh: Shared, pc: Pc, sh': Shared, q: Pc, n: Handle)
    requires sh'.bookChunk == sh.bookChunk && !IsLive(sh, n) && Mentions(q) == Mentions(pc) + {n}
    requires forall h :: IsLive(sh', h) <==> IsLive(sh, h) || h == n
    ensures Balanced(sh, pc, sh', q, {}, {})
  {
    hide Mentions, IsLive;
  }

  lemma FreeBalances(sh: Shared, pc: Pc, sh': Shared, q: Pc, n: Handle)
    requires sh'.bookChunk == sh.bookChunk && Mentions(pc) == Mentions(q) + {n}
    requires forall h :: IsLive(sh', h) <==> IsLive(sh, h) && h != n
    ensures Balanced(sh, pc, sh', q, {}, {})
  {
    hide Mentions, IsLive;
  }

  lemma ArenaOwnerSameLive(sh: Shared, a: nat, o: Option<nat>)
    requires a < |sh.arenas|
    ensures SameLive(sh, SetArena(sh, a, sh.arenas[a].(owner := o)))
  {
  }

  lemma ZoneOwnerSameLive(sh: Shared, z: nat, o: Option<nat>)
    requires z in sh.zones
    ensures SameLive(sh, SetZone(sh, z, sh.zones[z].(owner := o)))
  {
  }

  lemma ListSameLive(sh: Shared, a: nat, list: seq<nat>)
    requires a < |sh.arenas|
    ensures SameLive(sh, SetArena(sh, a, sh.arenas[a].(list := list)))
  {
  }

  lemma EmptySameLive(sh: Shared, a: nat, z: nat)
    ensures z !in sh.zones ==> SameLive(sh, SetZone(sh, z, Zone(None, a, {})))
    ensures z in sh.zones && sh.zones[z].live == {} ==> SameLive(sh, sh.(zones := sh.zones - {z}))
  {
  }

  lemma ZoneLive(sh: Shared, z: nat, c: nat, h: Handle)
    requires z in sh.zones
    ensures IsLive(Live(sh, z, sh.zones[z].live + {c}), h) <==> IsLive(sh, h) || h == InZone(z, c)
    ensures IsLive(Live(sh, z, sh.zones[z].live - {c}), h) <==> IsLive(sh, h) && h != InZone(z, c)
  {
  }

  lemma LargeLive(sh: Shared, a: nat, c: nat, h: Handle)
    requires a < |sh.arenas| && sh.arenas[a].large
    ensures IsLive(Bigs(sh, a, sh.arenas[a].bigs + {c}), h) <==> IsLive(sh, h) || h == InLarge(a, c)
    ensures IsLive(Bigs(sh, a, sh.arenas[a].bigs - {c}), h) <==> IsLive(sh, h) && h != InLarge(a, c)
  {
  }

  // ---------------------------------------------------------------- malloc

  /** The positions of malloc whose step makes no chunk and returns none. */
  predicate Walks(pc: Pc) { PartOf(pc) == MallocPart && !Makes(pc) && !pc.UnlockArena? }

  lemma WalkSameHands(s: System, t: nat, ok: bool, name: nat)
    requires Ready(s, t) && Walks(s.threads[t])
    ensures Mentions(MallocStep(s, t, s.threads[t], ok, name).threads[t]) == Mentions(s.threads[t])
  {
    hide LockArena, LockZone, SetArena, SetZone;
  }

  lemma WalkSameLive(s: System, t: nat, ok: bool, name: nat)
    requires Ready(s, t) && Walks(s.threads[t])
    ensures SameLive(s.sh, MallocStep(s, t, s.threads[t], ok, name).sh)
  {
    var pc, sh := s.threads[t], s.sh;
    hide MallocStep, SetArena, SetZone, Ready, IsLive;
    MallocSets(s, t, ok, name);
    var sh' := MallocStep(s, t, pc, ok, name).sh;
    match pc
    case TryArena(cands, i, _) => if sh' != sh { ArenaOwnerSameLive(sh, cands[i], Some(t)); }
    case WantArena(a, _) => if sh' != sh { ArenaOwnerSameLive(sh, a, Some(t)); }
    case TryZone(_, _, z, _) => if sh' != sh { ZoneOwnerSameLive(sh, z, Some(t)); }
    case UnlockZone(_, _, z, _, _) => if sh' != sh { ZoneOwnerSameLive(sh, z, None); }
    case MapZone(a, _) => EmptySameLive(sh, a, name);
    case PushZone(a, z, _) => if sh' != sh { ListSameLive(sh, a, [z] + sh.arenas[a].list); }
    case _ =>
  }

  lemma LockedSameLive(sh: Shared, a: nat, z: nat, o: Option<nat>)
    ensures a < |sh.arenas| ==> SameLive(sh, LockArena(sh, a, o))
    ensures z in sh.zones ==> SameLive(sh, LockZone(sh, z, o))
  {
    if a < |sh.arenas| { ArenaOwnerSameLive(sh, a, o); }
    if z in sh.zones { ZoneOwnerSameLive(sh, z, o); }
    hide SameLive;
  }

  lemma SameSameLive(sh: Shared)
    ensures SameLive(sh, sh)
  {
  }

  /** What a record gains and loses by the step of a thread. */
  ghost predicate Balances(s: System, t: nat, u: System, given: set<Handle>, taken: set<Handle>)
    requires t < |s.threads|
  {
    && u == To(s, t, u.sh, if t < |u.threads| then u.threads[t] else Idle) && t < |u.threads|
    && Balanced(s.sh, s.threads[t], u.sh, u.threads[t], given, taken)
  }

  /** The next step of a thread inside malloc that searches a zone, or maps a LARGE chunk. */
  lemma AllocateBalances(s: System, t: nat, ok: bool, name: nat)
    requires Inv(s) && Ready(s, t) && s.threads[t].Allocate?
    ensures Balances(s, t, MallocStep(s, t, s.threads[t], ok, name), {}, {})
  {
    var pc, sh := s.threads[t], s.sh;
    var u := MallocStep(s, t, pc, ok, name);
    hide Inv, IsLive, Balanced, ThreadOk;
    if ok && name !in sh.zones[pc.z].live {
      ZoneGains(sh, pc, u.sh, u.threads[t], pc.z, name);
    } else {
      SameSameLive(sh);
      MoveBalances(sh, pc, sh, u.threads[t]);
    }
  }

  lemma ZoneGains(sh: Shared, pc: Pc, sh': Shared, q: Pc, z: nat, c: nat)
    requires z in sh.zones && c !in sh.zones[z].live && sh' == Live(sh, z, sh.zones[z].live + {c})
    requires Mentions(q) == Mentions(pc) + {InZone(z, c)}
    ensures Balanced(sh, pc, sh', q, {}, {})
  {
    LiveGains(sh, z, c);
    hide Mentions, IsLive, Live;
    forall h ensures IsLive(sh', h) <==> IsLive(sh, h) || h == InZone(z, c) { ZoneLive(sh, z, c, h); }
    BookStays(sh, z, sh.zones[z].live + {c});
    MakeBalances(sh, pc, sh', q, InZone(z, c));
  }

  lemma BookStays(sh: Shared, z: nat, live: set<nat>)
    requires z in sh.zones
    ensures Live(sh, z, live).bookChunk == sh.bookChunk
  {
  }

  lemma AllocateFreshBalances(s: System, t: nat, ok: bool, name: nat)
    requires Inv(s) && Ready(s, t) && s.threads[t].AllocateFresh?
    ensures Balances(s, t, MallocStep(s, t, s.threads[t], ok, name), {}, {})
  {
    hide Inv, IsLive, Balanced, HasLocks, Stands;
    var pc, sh := s.threads[t], s.sh;
    var u := MallocStep(s, t, pc, ok, name);
    InvParts(s, t);
    assert Empty(sh, pc.a, pc.z);
    ZoneGains(sh, pc, u.sh, u.threads[t], pc.z, name);
  }

  lemma AllocateLargeBalances(s: System, t: nat, ok: bool, name: nat)
    requires Inv(s) && Ready(s, t) && s.threads[t].AllocateLarge?
    ensures Balances(s, t, MallocStep(s, t, s.threads[t], ok, name), {}, {})
  {
    hide Inv, IsLive, Balanced, HasLocks;
    var pc, sh := s.threads[t], s.sh;
    var u := MallocStep(s, t, pc, ok, name);
    InvParts(s, t);
    assert sh.arenas[pc.a].large;
    if ok && name !in sh.arenas[pc.a].bigs {
      BigGains(sh, pc.a, name);
      forall h ensures IsLive(u.sh, h) <==> IsLive(sh, h) || h == InLarge(pc.a, name) { LargeLive(sh, pc.a, name, h); }
      MakeBalances(sh, pc, u.sh, u.threads[t], InLarge(pc.a, name));
    } else {
      SameSameLive(sh);
      MoveBalances(sh, pc, sh, u.threads[t]);
    }
  }

  lemma HandsAreLive(s: System, t: nat, h: Handle)
    requires Inv(s) && t < |s.threads| && h in Mentions(s.threads[t])
    ensures IsLive(s.sh, h) && s.sh.bookChunk != Some(h)
  {
    hide Inv, Mentions, IsLive, HasLocks, PcOk, Lists;
    InvParts(s, t);
  }

  /** malloc returns: its chunk goes to the application, or to the book, or realloc goes on to free the old one. */
  lemma UnlockArenaBalances(s: System, t: nat, ok: bool, name: nat)
    requires Inv(s) && Ready(s, t) && s.threads[t].UnlockArena?
    ensures Returns(s.threads[t]) <= Mentions(s.threads[t])
    ensures Balances(s, t, MallocStep(s, t, s.threads[t], ok, name), Returns(s.threads[t]), {})
  {
    hide Inv, IsLive, Balanced, HasLocks, SameLive;
    var pc, sh := s.threads[t], s.sh;
    var u := MallocStep(s, t, pc, ok, name);
    InvParts(s, t);
    LockedSameLive(sh, pc.a, 0, None);
    assert ForMalloc(pc.m) !! Opt(pc.got);
    forall h | h in Returns(pc) ensures IsLive(sh, h) && sh.bookChunk != Some(h) { HandsAreLive(s, t, h); }
    GiveBalances(sh, pc, u.sh, u.threads[t], Returns(pc));
  }

  lemma MallocBalances(s: System, t: nat, ok: bool, name: nat)
    requires Inv(s) && Ready(s, t) && PartOf(s.threads[t]) == MallocPart
    ensures Returns(s.threads[t]) <= Mentions(s.threads[t])
    ensures Balances(s, t, MallocStep(s, t, s.threads[t], ok, name), Returns(s.threads[t]), {})
  {
    var pc := s.threads[t];
    MallocMoves(s, t, ok, name);
    hide Inv, MallocStep, Ready, Mentions, Balanced;
    if Walks(pc) {
      WalkSameHands(s, t, ok, name);
      WalkSameLive(s, t, ok, name);
      MoveBalances(s.sh, pc, MallocStep(s, t, pc, ok, name).sh, MallocStep(s, t, pc, ok, name).threads[t]);
    } else if pc.Allocate? {
      AllocateBalances(s, t, ok, name);
    } else if pc.AllocateFresh? {
      AllocateFreshBalances(s, t, ok, name);
    } else if pc.AllocateLarge? {
      AllocateLargeBalances(s, t, ok, name);
    } else {
      UnlockArenaBalances(s, t, ok, name);
    }
  }

  lemma MallocMoves(s: System, t: nat, ok: bool, name: nat)
    requires Ready(s, t) && PartOf(s.threads[t]) == MallocPart
    ensures var u := MallocStep(s, t, s.threads[t], ok, name); u == To(s, t, u.sh, u.threads[t])
  {
    hide LockArena, LockZone, SetArena, SetZone, MallocReturns;
  }

  // ---------------------------------------------------------------- free

  lemma FreeChunkBalances(s: System, t: nat)
    requires Inv(s) && Ready(s, t) && s.threads[t].FreeChunk?
    ensures Balances(s, t, FreeStep(s, t, s.threads[t]), {}, {})
  {
    hide Inv, IsLive, Balanced, HasLocks;
    var pc, sh := s.threads[t], s.sh;
    var u := FreeStep(s, t, pc);
    InvParts(s, t);
    if pc.shrink {
      SameSameLive(sh);
      MoveBalances(sh, pc, sh, u.threads[t]);
    } else {
      ZoneLoses(sh, pc, u.sh, u.threads[t], pc.z, pc.c);
    }
  }

  lemma ZoneLoses(sh: Shared, pc: Pc, sh': Shared, q: Pc, z: nat, c: nat)
    requires z in sh.zones && sh' == Live(sh, z, sh.zones[z].live - {c})
    requires Mentions(pc) == Mentions(q) + {InZone(z, c)}
    ensures Balanced(sh, pc, sh', q, {}, {})
  {
    hide Mentions, IsLive, Live;
    forall h ensures IsLive(sh', h) <==> IsLive(sh, h) && h != InZone(z, c) { ZoneLive(sh, z, c, h); }
    BookStays(sh, z, sh.zones[z].live - {c});
    FreeBalances(sh, pc, sh', q, InZone(z, c));
  }

  lemma FreeLargeBalances(s: System, t: nat)
    requires Inv(s) && Ready(s, t) && s.threads[t].FreeLarge?
    ensures Balances(s, t, FreeStep(s, t, s.threads[t]), {}, {})
  {
    hide Inv, IsLive, Balanced, HasLocks;
    var pc, sh := s.threads[t], s.sh;
    var u := FreeStep(s, t, pc);
    InvParts(s, t);
    assert sh.arenas[pc.a].large;
    forall h ensures IsLive(u.sh, h) <==> IsLive(sh, h) && h != InLarge(pc.a, pc.c) { LargeLive(sh, pc.a, pc.c, h); }
    FreeBalances(sh, pc, u.sh, u.threads[t], InLarge(pc.a, pc.c));
  }

  /** The locks around a free change no chunk; at the end realloc returns the chunk it has kept. */
  lemma FreeLocksBalance(s: System, t: nat)
    requires Inv(s) && Ready(s, t) && PartOf(s.threads[t]) == FreePart
    requires !s.threads[t].FreeChunk? && !s.threads[t].FreeLarge?
    ensures Returns(s.threads[t]) <= Mentions(s.threads[t])
    ensures Balances(s, t, FreeStep(s, t, s.threads[t]), Returns(s.threads[t]), {})
  {
    hide Inv, IsLive, Balanced, SameLive;
    var pc, sh := s.threads[t], s.sh;
    var u := FreeStep(s, t, pc);
    match pc {
      case WantZone(z, _, _, _) => LockedSameLive(sh, |sh.arenas|, z, Some(t));
      case FreeUnlock(z, _) => LockedSameLive(sh, |sh.arenas|, z, None);
      case WantLarge(a, _, _) => LockedSameLive(sh, a, 0, Some(t));
      case LargeUnlock(a, _) => LockedSameLive(sh, a, 0, None);
    }
    forall h | h in Returns(pc) ensures IsLive(sh, h) && sh.bookChunk != Some(h) { HandsAreLive(s, t, h); }
    GiveBalances(sh, pc, u.sh, u.threads[t], Returns(pc));
  }

  lemma FreePartBalances(s: System, t: nat)
    requires Inv(s) && Ready(s, t) && PartOf(s.threads[t]) == FreePart
    ensures Returns(s.threads[t]) <= Mentions(s.threads[t])
    ensures Balances(s, t, FreeStep(s, t, s.threads[t]), Returns(s.threads[t]), {})
  {
    hide Inv, FreeStep, Positioned, Enabled, Mentions, Balances;
    if s.threads[t].FreeChunk? {
      FreeChunkBalances(s, t);
    } else if s.threads[t].FreeLarge? {
      FreeLargeBalances(s, t);
    } else {
      FreeLocksBalance(s, t);
    }
  }

  // ---------------------------------------------------------------- release_memory and the book

  lemma ReleaseBalances(s: System, t: nat)
    requires Inv(s) && Ready(s, t) && PartOf(s.threads[t]) == ReleasePart
    ensures Balances(s, t, ReleaseStep(s, t, s.threads[t]), {}, {})
  {
    hide Inv, IsLive, Balanced, SameLive, Lists, Apart, HasLocks;
    var pc, sh := s.threads[t], s.sh;
    var u := ReleaseStep(s, t, pc);
    SameSameLive(sh);
    match pc {
      case RWantArena(a) => LockedSameLive(sh, a, 0, Some(t));
      case RWantZone(_, _, _, z) => LockedSameLive(sh, |sh.arenas|, z, Some(t));
      case RUnlockZone(_, _, _, z, _) => LockedSameLive(sh, |sh.arenas|, z, None);
      case RUnlink(a, i, _, _) => ListSameLive(sh, a, Without(sh.arenas[a].list, i));
      case RUnmap(a, _, _, z) => InvParts(s, t); assert Private(sh, a, z); EmptySameLive(sh, a, z);
      case RUnlockArena(a) => LockedSameLive(sh, a, 0, None);
      case _ =>
    }
    ReleaseHands(s, t);
    assert Mentions(pc) == {};
    MoveBalances(sh, pc, u.sh, u.threads[t]);
  }

  lemma BookBalances(s: System, t: nat, ok: bool)
    requires Inv(s) && Ready(s, t) && PartOf(s.threads[t]) == BookPart
    ensures Balances(s, t, BookStep(s, t, s.threads[t], ok), {}, {})
  {
    hide Inv, Balanced, SameLive, IsLive;
    var pc, sh := s.threads[t], s.sh;
    var u := BookStep(s, t, pc, ok);
    BookSameLive(sh, u.sh);
    if pc.UseBook? && pc.stage.Install? {
      InstallBalances(sh, pc, u.sh, u.threads[t], pc.stage.name);
    } else {
      MoveBalances(sh, pc, u.sh, u.threads[t]);
    }
  }

  lemma BookSameLive(sh: Shared, sh': Shared)
    requires sh'.zones == sh.zones && sh'.arenas == sh.arenas
    ensures forall h :: IsLive(sh', h) <==> IsLive(sh, h)
    ensures sh'.bookChunk == sh.bookChunk ==> SameLive(sh, sh')
  {
  }

  lemma InstallBalances(sh: Shared, pc: Pc, sh': Shared, q: Pc, n: Handle)
    requires sh'.bookChunk == Some(n) && Mentions(pc) == {n} && Mentions(q) == Opt(sh.bookChunk)
    requires forall h :: IsLive(sh', h) <==> IsLive(sh, h)
    ensures Balanced(sh, pc, sh', q, {}, {})
  {
    hide Mentions, IsLive;
  }

  /** A call takes over what it names, if the application has it. */
  lemma BeginTakes(s: System, t: nat, call: Call, held: set<Handle>)
    requires t < |s.threads| && s.threads[t] == Idle
    requires call.CallFree? || call.CallShrink? || call.CallRelocate? ==> (Free(s, call.h) <==> call.h in held)
    ensures var u := Begin(s, t, call);
            u == To(s, t, s.sh, u.threads[t]) && Mentions(u.threads[t]) == HandsOver(s.sh, held, call)
  {
    hide Free, GoodArenas;
    assert s.threads[t := Idle] == s.threads;
  }

  lemma BeginBalances(s: System, t: nat, call: Call, held: set<Handle>)
    requires Inv(s) && t < |s.threads| && s.threads[t] == Idle && Accounted(s, held)
    ensures Balances(s, t, Begin(s, t, call), {}, HandsOver(s.sh, held, call))
  {
    if call.CallFree? || call.CallShrink? || call.CallRelocate? { assert Free(s, call.h) <==> call.h in held; }
    hide Inv, Free, Balanced, Begin, HandsOver;
    BeginTakes(s, t, call, held);
    TakeBalances(s.sh, Idle, Begin(s, t, call).threads[t], HandsOver(s.sh, held, call));
  }

  // ---------------------------------------------------------------- every run

  lemma StepAccounts(s: System, a: Action, held: set<Handle>)
    requires Inv(s) && Accounted(s, held)
    ensures Accounted(Step(s, a), Record(s, a, held))
  {
    hide Inv, Accounted, Balanced, MallocStep, FreeStep, ReleaseStep, BookStep, Begin, Mentions, HandsOver, Returns;
    if Ready(s, a.t) {
      var pc := s.threads[a.t];
      var u := Step(s, a);
      var given, taken := if pc.Idle? then {} else Returns(pc), if pc.Idle? then HandsOver(s.sh, held, a.call) else {};
      match PartOf(pc) {
        case NoPart => BeginBalances(s, a.t, a.call, held);
        case MallocPart => MallocBalances(s, a.t, a.ok, a.name);
        case FreePart => FreePartBalances(s, a.t);
        case ReleasePart => ReleaseBalances(s, a.t); NothingReturned(pc);
        case BookPart => BookBalances(s, a.t, a.ok); NothingReturned(pc);
      }
      BalancedKeeps(s, a.t, u.sh, u.threads[a.t], held, given, taken);
      assert held - {} + given == held + given && held - taken + {} == held - taken;
    }
  }

  lemma NothingReturned(pc: Pc)
    requires PartOf(pc) == ReleasePart || PartOf(pc) == BookPart
    ensures Returns(pc) == {}
  {
  }

  lemma {:induction false} RunAccounts(s: System, actions: seq<Action>, held: set<Handle>)
    requires Inv(s) && Accounted(s, held)
    ensures Accounted(Run(s, actions), RunRecord(s, actions, held))
    decreases |actions|
  {
    hide Inv, Accounted, Step, Record;
    if actions != [] {
      StepKeepsInv(s, actions[0]);
      StepAccounts(s, actions[0], held);
      RunAccounts(Step(s, actions[0]), actions[1..], Record(s, actions[0], held));
    }
  }

  /**
    From the start, in every interleaving: a chunk is live if and only if it was returned to the application and not
    handed back, or a thread or the book has it, and it has just one of these holders.
  */
  lemma EveryChunkHasOneHolder(s: System, actions: seq<Action>)
    requires Initial(s)
    ensures OneHolder(Run(s, actions), RunRecord(s, actions, {}))
  {
    InitialInv(s);
    assert Accounted(s, {});
    hide Inv, Accounted, OneHolder;
    RunKeepsInv(s, actions);
    RunAccounts(s, actions, {});
    AccountedIsOneHolder(Run(s, actions), RunRecord(s, actions, {}));
  }

  /** When every call has returned, nothing is left over: what is live is the application's, or the book's one array. */
  lemma NothingLeaks(s: System, actions: seq<Action>)
    requires Initial(s)
    requires forall t :: 0 <= t < |Run(s, actions).threads| ==> Run(s, actions).threads[t] == Idle
    ensures forall h :: IsLive(Run(s, actions).sh, h) <==>
                          h in RunRecord(s, actions, {}) || Run(s, actions).sh.bookChunk == Some(h)
  {
    EveryChunkHasOneHolder(s, actions);
    hide Run, RunRecord, IsLive;
    forall h ensures !InHands(Run(s, actions), h) {}
  }

  // ---------------------------------------------------------------- release_memory does unmap

  /** Thread `t` has found zone `z` empty and will unmap it `k + 1` steps of its own from here. */
  ghost predicate Doomed(s: System, t: nat, z: nat, k: nat) {
    t < |s.threads| &&
    var pc := s.threads[t];
    match k
    case 0 => pc.RUnmap? && pc.z == z
    case 1 => pc.RUnlink? && pc.z == z
    case 2 => pc.RUnlockZone? && pc.z == z && pc.releasable
    case _ => k == 3 && pc.RTest? && pc.z == z && z in s.sh.zones && s.sh.zones[z].live == {}
  }

  lemma OthersLeaveDoomed(s: System, a: Action, t: nat, z: nat, k: nat)
    requires Inv(s) && Doomed(s, t, z, k) && a.t != t
    ensures Doomed(Step(s, a), t, z, k)
  {
    OnlyActorMoves(s, a);
    if k == 3 { TestedStaysEmpty(s, a, t); }
    hide Inv, Step;
  }

  lemma TestedStaysEmpty(s: System, a: Action, t: nat)
    requires Inv(s) && t < |s.threads| && s.threads[t].RTest? && a.t != t
    requires s.threads[t].z in s.sh.zones && s.sh.zones[s.threads[t].z].live == {}
    ensures var z := s.threads[t].z; z in Step(s, a).sh.zones && Step(s, a).sh.zones[z].live == {}
  {
    hide Inv, Step;
    if a.t < |s.threads| {
      StepChangesOnlyTouched(s, a);
      NoRace(s, t, a.t);
      TestTouches(s.threads[t]);
      hide Touches;
      UntouchedZone(s.sh, Step(s, a).sh, Touches(s.threads[a.t]), s.threads[t].z);
    } else {
      StrangerDoesNothing(s, a);
    }
  }

  lemma StrangerDoesNothing(s: System, a: Action)
    requires a.t >= |s.threads|
    ensures Step(s, a) == s
  {
  }

  lemma TestTouches(pc: Pc)
    requires pc.RTest?
    ensures ZoneData(pc.z) in Touches(pc)
  {
  }

  lemma UntouchedZone(sh: Shared, sh': Shared, touched: set<Resource>, z: nat)
    requires ChangesOnly(sh, sh', touched) && ZoneData(z) !in touched && z in sh.zones
    ensures z in sh'.zones && sh'.zones[z].live == sh.zones[z].live
  {
    hide RelinksOnly;
  }

  lemma OwnStepDooms(s: System, a: Action, z: nat, k: nat)
    requires Inv(s) && Doomed(s, a.t, z, k)
    ensures if k == 0 then z !in Step(s, a).sh.zones else Doomed(Step(s, a), a.t, z, k - 1)
  {
    hide Inv, Positioned;
    NoDanglingLock(s, a.t);
    assert Ready(s, a.t) && PartOf(s.threads[a.t]) == ReleasePart;
    assert Step(s, a) == ReleaseStep(s, a.t, s.threads[a.t]);
    hide Step, LockZone, SetArena, PartOf, Enabled;
  }

  function OwnSteps(actions: seq<Action>, t: nat): nat {
    if actions == [] then 0 else (if actions[0].t == t then 1 else 0) + OwnSteps(actions[1..], t)
  }

  /**
    A zone that release_memory finds without a chunk is unmapped four steps of its own later, whatever the others do in
    between.
  */
  lemma {:induction false} EmptyZonesAreUnmapped(s: System, actions: seq<Action>, t: nat, z: nat, k: nat)
    requires Inv(s) && Doomed(s, t, z, k) && OwnSteps(actions, t) == k + 1
    requires actions != [] && actions[|actions| - 1].t == t
    ensures z !in Run(s, actions).sh.zones
    decreases |actions|
  {
    hide Inv, Doomed, Step;
    var a, rest := actions[0], actions[1..];
    StepKeepsInv(s, a);
    if a.t == t { OwnStepDooms(s, a, z, k); } else { OthersLeaveDoomed(s, a, t, z, k); }
    if rest == [] {
      assert Run(s, actions) == Step(s, a);
    } else {
      LastCounts(rest, t);
      EmptyZonesAreUnmapped(Step(s, a), rest, t, z, if a.t == t then k - 1 else k);
    }
  }

  lemma {:induction false} LastCounts(actions: seq<Action>, t: nat)
    requires actions != [] && actions[|actions| - 1].t == t
    ensures 1 <= OwnSteps(actions, t)
  {
    if |actions| > 1 { LastCounts(actions[1..], t); }
  }
}
