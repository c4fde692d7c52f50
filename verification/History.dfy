/**
  The operation history of srcs/history.c: a growable log whose owner gives up its lock twice while it grows.
*/
module HistoryModel {
  const TEMP_SIZE: nat := 10
  const FIRST_CAP: nat := 64

  datatype Item = Item(operation: nat, addr: nat, size1: nat, size2: nat)

  /** The book between two critical sections: the items in use, the capacity, and the diverted items. */
  datatype Book = Book(items: seq<Item>, cap: nat, inExtend: bool, temp: seq<Item>)

  function NewCap(cap: nat): nat { if cap > 0 then cap * 2 else FIRST_CAP }

  /** The first lines of extend_items: is there room, or is somebody else making room? */
  predicate MustExtend(b: Book) {
    !b.inExtend && |b.items| + 1 > b.cap
  }

  /** The part of take_history after extend_items has returned true. */
  function Append(b: Book, x: Item): Book {
    if b.inExtend then
      if |b.temp| < TEMP_SIZE then b.(temp := b.temp + [x]) else b
    else
      b.(items := b.items + [x] + b.temp, temp := [])
  }

  /** Whether `Append` keeps `x`. */
  predicate Accepts(b: Book, x: Item) {
    !b.inExtend || |b.temp| < TEMP_SIZE
  }

  // ---------------------------------------------------------------- threads

  /** Where a thread stands in take_history(x); it holds the lock only inside a step. */
  datatype Pc =
    | Idle
    | Calling(x: Item)                   // about to take the lock
    | Allocating(x: Item, cap: nat)      // in extend_items, lock released, malloc running
    | Allocated(x: Item, cap: nat)       // malloc succeeded, about to take the lock again
    | OutOfMemory(x: Item)               // malloc failed, about to take the lock again and give up
    | FreeingOld(x: Item)                // new array installed, lock released, old array being freed

  datatype System = System(
    book: Book,
    threads: seq<Pc>,
    submitted: multiset<Item>,
    dropped: multiset<Item>
  )

  datatype Action = Call(t: nat, x: Item) | Enter(t: nat) | Malloc(t: nat, ok: bool) | Relock(t: nat)

  /** One step of one thread; an action that does not fit the thread's position does nothing. */
  function Step(s: System, a: Action): System {
    var t := a.t;
    if t >= |s.threads| then s else
    match (a, s.threads[t])
    case (Call(_, x), Idle) =>
      s.(threads := s.threads[t := Calling(x)], submitted := s.submitted + multiset{x})
    case (Enter(_), Calling(x)) =>
      if MustExtend(s.book) then
        s.(book := s.book.(inExtend := true), threads := s.threads[t := Allocating(x, NewCap(s.book.cap))])
      else
        Finish(s, t, x)
    case (Malloc(_, ok), Allocating(x, cap)) =>
      s.(threads := s.threads[t := if ok then Allocated(x, cap) else OutOfMemory(x)])
    case (Relock(_), OutOfMemory(x)) =>
      s.(threads := s.threads[t := Idle], dropped := s.dropped + multiset{x})
    case (Relock(_), Allocated(x, cap)) =>
      s.(book := s.book.(cap := cap), threads := s.threads[t := FreeingOld(x)])
    case (Relock(_), FreeingOld(x)) =>
      Finish(s.(book := s.book.(inExtend := false)), t, x)
    case (_, _) => s
  }

  function Finish(s: System, t: nat, x: Item): System
    requires t < |s.threads|
  {
    s.(book := Append(s.book, x), threads := s.threads[t := Idle],
       dropped := if Accepts(s.book, x) then s.dropped else s.dropped + multiset{x})
  }

  function Run(s: System, actions: seq<Action>): System
    decreases |actions|
  {
    if actions == [] then s else Run(Step(s, actions[0]), actions[1..])
  }

  function Start(n: nat): System {
    System(Book([], 0, false, []), seq(n, _ => Idle), multiset{}, multiset{})
  }

  // ---------------------------------------------------------------- the invariant

  predicate Extending(pc: Pc) { pc.Allocating? || pc.Allocated? || pc.OutOfMemory? || pc.FreeingOld? }

  /** What a thread in mid-extension relies on, whatever the others do meanwhile. */
  ghost predicate Relies(b: Book, pc: Pc) {
    match pc
    case Allocating(_, cap) => |b.items| == b.cap && cap == NewCap(b.cap)
    case Allocated(_, cap) => |b.items| == b.cap && cap == NewCap(b.cap)
    case FreeingOld(_) => |b.items| + 1 + TEMP_SIZE <= b.cap
    case _ => true
  }

  ghost predicate Extends(s: System, t: nat)
    requires t < |s.threads|
  {
    Extending(s.threads[t]) ==> s.book.inExtend && Relies(s.book, s.threads[t])
  }

  function Carried(pc: Pc): multiset<Item> {
    if pc.Idle? then multiset{} else multiset{pc.x}
  }

  function InFlight(threads: seq<Pc>): multiset<Item> {
    if threads == [] then multiset{} else Carried(threads[0]) + InFlight(threads[1..])
  }

  function Held(b: Book): multiset<Item> { multiset(b.items) + multiset(b.temp) }

  ghost predicate Inv(s: System) {
    && |s.book.items| <= s.book.cap
    && |s.book.temp| <= TEMP_SIZE
    && (s.book.cap == 0 || s.book.cap >= FIRST_CAP)
    && (!s.book.inExtend ==> s.book.temp == [])
    && (forall t :: 0 <= t < |s.threads| ==> Extends(s, t))
    && OneExtender(s)
    && s.submitted == Held(s.book) + s.dropped + InFlight(s.threads)
  }

  lemma {:induction false} InFlightUpdate(threads: seq<Pc>, t: nat, pc: Pc)
    requires t < |threads|
    ensures InFlight(threads[t := pc]) + Carried(threads[t]) == InFlight(threads) + Carried(pc)
  {
    var after := threads[t := pc];
    assert InFlight(after) == Carried(after[0]) + InFlight(after[1..]);
    if t == 0 {
      assert after[1..] == threads[1..];
    } else {
      assert after[1..] == threads[1..][t - 1 := pc];
      InFlightUpdate(threads[1..], t - 1, pc);
      Regroup(Carried(threads[0]), InFlight(after[1..]), Carried(threads[t]), InFlight(threads[1..]), Carried(pc));
      hide Carried;
    }
  }

  lemma Regroup<T>(c: multiset<T>, r: multiset<T>, t: multiset<T>, r': multiset<T>, t': multiset<T>)
    requires r + t == r' + t'
    ensures c + r + t == c + r' + t'
  {
    assert c + r + t == c + (r + t) && c + r' + t' == c + (r' + t');
  }

  /** The flush of the temporary buffer has room for everything, and puts it behind the item that is appended. */
  lemma AppendFits(b: Book, x: Item)
    requires |b.temp| <= TEMP_SIZE && (b.inExtend || |b.items| + 1 + |b.temp| <= b.cap) && |b.items| <= b.cap
    ensures |Append(b, x).items| <= b.cap && |Append(b, x).temp| <= TEMP_SIZE
    ensures Held(Append(b, x)) == Held(b) + (if Accepts(b, x) then multiset{x} else multiset{})
    ensures Append(b, x).items + Append(b, x).temp ==
            if !Accepts(b, x) then b.items + b.temp
            else if b.inExtend then b.items + b.temp + [x] else b.items + [x] + b.temp
  {
    assert b.items + (b.temp + [x]) == b.items + b.temp + [x] && b.items + [x] + b.temp + [] == b.items + [x] + b.temp;
    assert multiset(b.items + [x] + b.temp) == multiset(b.items) + multiset{x} + multiset(b.temp);
  }

  /** The book as another thread may find it changed while a thread is in mid-extension. */
  ghost predicate OnlyDiverted(b: Book, b': Book) {
    b.inExtend && b' == b.(temp := b'.temp)
  }

  ghost predicate NoneExtending(threads: seq<Pc>) {
    forall k :: 0 <= k < |threads| ==> !Extending(threads[k])
  }

  ghost predicate NobodyExtends(s: System) {
    NoneExtending(s.threads)
  }

  ghost predicate OneExtender(s: System) {
    forall t, u :: 0 <= t < u < |s.threads| ==> !(Extending(s.threads[t]) && Extending(s.threads[u]))
  }

  lemma IfNotInExtend(s: System)
    requires Inv(s) && !s.book.inExtend
    ensures NobodyExtends(s)
  {
    forall k | 0 <= k < |s.threads| ensures !Extending(s.threads[k]) { assert Extends(s, k); }
  }

  /** Thread `t` moves; the book stays good for every other thread, and no second extension begins. */
  lemma OthersStay(s: System, u: System, t: nat)
    requires Inv(s) && t < |s.threads| && |u.threads| == |s.threads| && u.threads == s.threads[t := u.threads[t]]
    requires Extending(u.threads[t]) ==> u.book.inExtend && Relies(u.book, u.threads[t])
    requires u.book == s.book || Extending(s.threads[t]) || NobodyExtends(s) || OnlyDiverted(s.book, u.book)
    requires Extending(u.threads[t]) ==> Extending(s.threads[t]) || NobodyExtends(s)
    ensures forall k :: 0 <= k < |u.threads| ==> Extends(u, k)
    ensures OneExtender(u)
  {
    forall k | 0 <= k < |u.threads| ensures Extends(u, k) {
      if k != t { assert u.threads[k] == s.threads[k] && Extends(s, k); }
    }
  }

  /** Each item is in one place: the balance is kept if what a step takes from one place it puts in another. */
  lemma Balance(s: System, u: System, t: nat)
    requires t < |s.threads| && |u.threads| == |s.threads| && u.threads == s.threads[t := u.threads[t]]
    requires s.submitted == Held(s.book) + s.dropped + InFlight(s.threads)
    requires forall x: Item :: u.submitted[x] + Carried(s.threads[t])[x] + Held(s.book)[x] + s.dropped[x]
                            == s.submitted[x] + Carried(u.threads[t])[x] + Held(u.book)[x] + u.dropped[x]
    ensures u.submitted == Held(u.book) + u.dropped + InFlight(u.threads)
  {
    InFlightUpdate(s.threads, t, u.threads[t]);
    hide InFlight, Held, Carried;
    forall x: Item ensures u.submitted[x] == (Held(u.book) + u.dropped + InFlight(u.threads))[x] {
      assert (InFlight(u.threads) + Carried(s.threads[t]))[x] == (InFlight(s.threads) + Carried(u.threads[t]))[x];
    }
  }

  /**
    Thread `t` is about to append `x`: `b` is the book as it stands, but for the flag that the thread may have
    cleared.
  */
  ghost predicate Appends(s: System, b: Book, t: nat, x: Item) {
    && t < |s.threads| && s.threads[t] != Idle && s.threads[t].x == x
    && b == s.book.(inExtend := b.inExtend) && !MustExtend(b)
    && ((s.threads[t].Calling? && b == s.book) || (s.threads[t].FreeingOld? && !b.inExtend))
  }

  lemma FinishKeepsInv(s: System, b: Book, t: nat, x: Item)
    requires Inv(s) && Appends(s, b, t, x)
    ensures Inv(Finish(s.(book := b), t, x))
  {
    var u := Finish(s.(book := b), t, x);
    FinishOthers(s, b, t, x);
    FinishBalance(s, b, t, x);
    FinishFits(s, b, t, x);
    hide InFlight, Held, Extends, OneExtender, Append, Finish;
  }

  lemma FinishFits(s: System, b: Book, t: nat, x: Item)
    requires Inv(s) && Appends(s, b, t, x)
    ensures var u := Finish(s.(book := b), t, x);
            && |u.book.items| <= u.book.cap && |u.book.temp| <= TEMP_SIZE && u.book.cap == s.book.cap
            && (!u.book.inExtend ==> u.book.temp == [])
  {
    assert Extends(s, t);
    AppendFits(b, x);
    hide InFlight, Held, OneExtender;
  }

  lemma FinishOthers(s: System, b: Book, t: nat, x: Item)
    requires Inv(s) && Appends(s, b, t, x)
    ensures var u := Finish(s.(book := b), t, x); (forall k :: 0 <= k < |u.threads| ==> Extends(u, k)) && OneExtender(u)
  {
    var u := Finish(s.(book := b), t, x);
    assert Extends(s, t);
    if !s.book.inExtend { IfNotInExtend(s); }
    OthersStay(s, u, t);
    hide InFlight, Held;
  }

  lemma FinishBalance(s: System, b: Book, t: nat, x: Item)
    requires Inv(s) && Appends(s, b, t, x)
    ensures var u := Finish(s.(book := b), t, x); u.submitted == Held(u.book) + u.dropped + InFlight(u.threads)
  {
    assert Extends(s, t);
    AppendFits(b, x);
    hide InFlight, Held, Extends, OneExtender, Append;
    Balance(s, Finish(s.(book := b), t, x), t);
  }

  /** A step that leaves the items where they are, or puts one in flight or drops it. */
  lemma MoveKeepsInv(s: System, u: System, t: nat)
    requires Inv(s) && t < |s.threads| && |u.threads| == |s.threads| && u.threads == s.threads[t := u.threads[t]]
    requires Extending(u.threads[t]) ==> u.book.inExtend && Relies(u.book, u.threads[t])
    requires u.book == s.book || Extending(s.threads[t]) || NobodyExtends(s)
    requires Extending(u.threads[t]) ==> Extending(s.threads[t]) || NobodyExtends(s)
    requires u.book.items == s.book.items && u.book.temp == s.book.temp && s.book.cap <= u.book.cap
    requires u.book.cap == s.book.cap || u.book.cap >= FIRST_CAP
    requires s.book.inExtend ==> u.book.inExtend
    requires forall x: Item ::
               u.submitted[x] + Carried(s.threads[t])[x] + s.dropped[x] ==
               s.submitted[x] + Carried(u.threads[t])[x] + u.dropped[x]
    ensures Inv(u)
  {
    OthersStay(s, u, t);
    assert Held(u.book) == Held(s.book);
    Balance(s, u, t) by { hide InFlight, Held, Carried; }
    hide InFlight, Held, Extends, OneExtender, Carried;
  }

  lemma EnterKeepsInv(s: System, t: nat, x: Item)
    requires Inv(s) && t < |s.threads| && s.threads[t] == Calling(x)
    ensures Inv(Step(s, Enter(t)))
  {
    if MustExtend(s.book) {
      IfNotInExtend(s);
      MoveKeepsInv(s, Step(s, Enter(t)), t) by { hide InFlight, Held, Extends, OneExtender; }
    } else {
      FinishKeepsInv(s, s.book, t, x);
    }
    hide Inv, Finish;
  }

  lemma ResumeKeepsInv(s: System, t: nat)
    requires Inv(s) && t < |s.threads| && s.threads[t].FreeingOld?
    ensures Inv(Step(s, Relock(t)))
  {
    assert Extends(s, t);
    FinishKeepsInv(s, s.book.(inExtend := false), t, s.threads[t].x);
    hide Inv, Finish;
  }

  lemma InstallKeepsInv(s: System, t: nat)
    requires Inv(s) && t < |s.threads| && (s.threads[t].Allocated? || s.threads[t].OutOfMemory?)
    ensures Inv(Step(s, Relock(t)))
  {
    hide InFlight, Held, OneExtender;
    assert Extends(s, t);
    MoveKeepsInv(s, Step(s, Relock(t)), t);
  }

  lemma CallKeepsInv(s: System, t: nat, x: Item)
    requires Inv(s) && t < |s.threads| && s.threads[t].Idle?
    ensures Inv(Step(s, Call(t, x)))
  {
    MoveKeepsInv(s, Step(s, Call(t, x)), t) by { hide InFlight, Held, OneExtender; }
    hide Inv;
  }

  lemma MallocKeepsInv(s: System, t: nat, ok: bool)
    requires Inv(s) && t < |s.threads| && s.threads[t].Allocating?
    ensures Inv(Step(s, Malloc(t, ok)))
  {
    assert Extends(s, t);
    MoveKeepsInv(s, Step(s, Malloc(t, ok)), t) by { hide InFlight, Held, OneExtender; }
    hide Inv;
  }

  lemma StepKeepsInv(s: System, a: Action)
    requires Inv(s)
    ensures Inv(Step(s, a))
  {
    hide Inv, Finish;
    var t := a.t;
    if t < |s.threads| {
      match (a, s.threads[t])
      case (Enter(_), Calling(x)) => EnterKeepsInv(s, t, x);
      case (Relock(_), FreeingOld(_)) => ResumeKeepsInv(s, t);
      case (Relock(_), Allocated(_, _)) => InstallKeepsInv(s, t);
      case (Relock(_), OutOfMemory(_)) => InstallKeepsInv(s, t);
      case (Call(_, x), Idle) => CallKeepsInv(s, t, x);
      case (Malloc(_, ok), Allocating(_, _)) => MallocKeepsInv(s, t, ok);
      case (_, _) =>
    }
  }

  lemma StartInv(n: nat)
    ensures Inv(Start(n))
  {
    NothingInFlight(seq(n, _ => Idle));
  }

  lemma {:induction false} NothingInFlight(threads: seq<Pc>)
    requires forall t :: 0 <= t < |threads| ==> threads[t] == Idle
    ensures InFlight(threads) == multiset{}
  {
    if threads != [] { NothingInFlight(threads[1..]); }
  }

  /** Every interleaving of any number of calls keeps the book and its accounts in order. */
  lemma {:induction false} RunKeepsInv(s: System, actions: seq<Action>)
    requires Inv(s)
    ensures Inv(Run(s, actions))
    decreases |actions|
  {
    hide Inv, Step;
    if actions != [] {
      StepKeepsInv(s, actions[0]);
      RunKeepsInv(Step(s, actions[0]), actions[1..]);
    }
  }

  // ---------------------------------------------------------------- what the invariant is for

  /** An item is dropped exactly when the temporary buffer is full, or the allocation for the extension has failed. */
  lemma DropsExactlyWhenFull(s: System, a: Action)
    requires Inv(s)
    ensures Step(s, a).dropped != s.dropped <==>
            a.t < |s.threads| &&
            ((s.threads[a.t].OutOfMemory? && a.Relock?)
             || (s.threads[a.t].Calling? && a.Enter? && s.book.inExtend && |s.book.temp| == TEMP_SIZE))
  {
    if a.t < |s.threads| && !s.threads[a.t].Idle? {
      OneMore(s.dropped, s.threads[a.t].x);
    }
  }

  lemma OneMore(d: multiset<Item>, x: Item)
    ensures d + multiset{x} != d
  {
    assert (d + multiset{x})[x] == d[x] + 1;
  }

  /** The log only grows: what is in it stays in place, across extensions too. */
  lemma {:induction false} LogOnlyGrows(s: System, actions: seq<Action>)
    requires Inv(s)
    ensures Grows(s.book, Run(s, actions).book)
    decreases |actions|
  {
    if actions != [] {
      var u := Step(s, actions[0]);
      StepGrows(s, actions[0]);
      StepKeepsInv(s, actions[0]);
      hide Inv, Step, Held;
      LogOnlyGrows(u, actions[1..]);
    }
  }

  ghost predicate Grows(b: Book, b': Book) {
    b.items <= b'.items && Held(b) <= Held(b')
  }

  lemma AppendGrows(b: Book, x: Item)
    requires |b.temp| <= TEMP_SIZE && (b.inExtend || |b.items| + 1 + |b.temp| <= b.cap) && |b.items| <= b.cap
    ensures Grows(b, Append(b, x))
  {
    AppendFits(b, x);
    assert b.items <= b.items + [x] + b.temp;
    hide Held;
  }

  /** A step changes the log by one `Append`, or not at all. */
  lemma BookAfter(s: System, a: Action)
    ensures var b, b' := s.book, Step(s, a).book;
            || (b'.items == b.items && b'.temp == b.temp)
            || (a.t < |s.threads| && s.threads[a.t].Calling? && !MustExtend(b) && b' == Append(b, s.threads[a.t].x))
            || (a.t < |s.threads| && s.threads[a.t].FreeingOld? &&
              b' == Append(b.(inExtend := false), s.threads[a.t].x))
  {
    hide Append;
  }

  lemma StepGrows(s: System, a: Action)
    requires Inv(s)
    ensures Grows(s.book, Step(s, a).book)
  {
    BookAfter(s, a);
    hide Step, Append, InFlight, OneExtender;
    if a.t < |s.threads| {
      assert Extends(s, a.t);
      if s.threads[a.t].FreeingOld? { AppendGrows(s.book.(inExtend := false), s.threads[a.t].x); }
      if s.threads[a.t].Calling? && !MustExtend(s.book) { AppendGrows(s.book, s.threads[a.t].x); }
    }
  }

  /** The array grows only when it is full: to 64 items, and from then on to twice its size. */
  lemma GrowsByDoubling(s: System, a: Action)
    requires Inv(s) && Step(s, a).book.cap != s.book.cap
    ensures |s.book.items| == s.book.cap && Step(s, a).book.items == s.book.items
    ensures Step(s, a).book.cap == if s.book.cap == 0 then 64 else 2 * s.book.cap
  {
    if a.t < |s.threads| { assert Extends(s, a.t); }
    hide InFlight, Held, OneExtender;
  }

  // ---------------------------------------------------------------- the order of the calls

  // A call that has taken the lock: its thread, its item, and whether the item has been given up.
  datatype Ticket = Ticket(t: nat, x: Item, lost: bool)

  /** The items of a record of calls that have not been given up, in order. */
  function Survivors(calls: seq<Ticket>): seq<Item> {
    if calls == [] then []
    else (if calls[0].lost then [] else [calls[0].x]) + Survivors(calls[1..])
  }

  /** The latest call of thread `t` gives up its item. */
  function GiveUp(calls: seq<Ticket>, t: nat): seq<Ticket> {
    if calls == [] then []
    else
      var before, last := calls[..|calls| - 1], calls[|calls| - 1];
      if last.t == t then before + [last.(lost := true)] else GiveUp(before, t) + [last]
  }

  /**
    The record of the calls, in the order in which they first take the lock: a call that then finds the temporary buffer
    full loses its item at once, and one whose extension fails when it gives up.
  */
  function Recorded(s: System, a: Action, calls: seq<Ticket>): seq<Ticket> {
    if a.t >= |s.threads| then calls
    else if a.Enter? && s.threads[a.t].Calling? then
      calls + [Ticket(a.t, s.threads[a.t].x, s.book.inExtend && |s.book.temp| == TEMP_SIZE)]
    else if a.Relock? && s.threads[a.t].OutOfMemory? then GiveUp(calls, a.t)
    else calls
  }

  function RunRecorded(s: System, actions: seq<Action>, calls: seq<Ticket>): seq<Ticket>
    decreases |actions|
  {
    if actions == [] then calls
    else RunRecorded(Step(s, actions[0]), actions[1..], Recorded(s, actions[0], calls))
  }

  lemma {:induction false} SurvivorsAppend(a: seq<Ticket>, b: seq<Ticket>)
    ensures Survivors(a + b) == Survivors(a) + Survivors(b)
  {
    if a == [] {
      assert a + b == b;
    } else {
      assert (a + b)[1..] == a[1..] + b;
      SurvivorsAppend(a[1..], b);
    }
  }

  lemma SurvivorsAt(calls: seq<Ticket>, k: nat)
    requires k <= |calls|
    ensures Survivors(calls) == Survivors(calls[..k]) + Survivors(calls[k..])
    ensures k < |calls| ==>
              Survivors(calls[k..]) == (if calls[k].lost then [] else [calls[k].x]) + Survivors(calls[k + 1..])
  {
    assert calls == calls[..k] + calls[k..];
    SurvivorsAppend(calls[..k], calls[k..]);
    if k < |calls| { assert calls[k..][1..] == calls[k + 1..]; }
  }

  lemma {:induction false} GiveUpAt(calls: seq<Ticket>, t: nat, k: nat)
    requires k < |calls| && calls[k].t == t && forall j :: k < j < |calls| ==> calls[j].t != t
    ensures GiveUp(calls, t) == calls[k := calls[k].(lost := true)]
    decreases |calls|
  {
    var before := calls[..|calls| - 1];
    if k < |calls| - 1 {
      GiveUpAt(before, t, k);
      assert calls[k := calls[k].(lost := true)] == before[k := calls[k].(lost := true)] + [calls[|calls| - 1]];
    }
  }

  /** The call at `k` of the record is that of thread `t`, in mid-extension; the later ones have been diverted. */
  ghost predicate HeadOf(pc: Pc, t: nat, temp: seq<Item>, calls: seq<Ticket>, k: nat) {
    && k < |calls| && !pc.Idle? && calls[k] == Ticket(t, pc.x, false) && Survivors(calls[k + 1..]) == temp
    && forall j :: k < j < |calls| ==> calls[j].t != t
  }

  /**
    The first `k` calls of the record make up the log, then comes the call in mid-extension, then the diverted ones.
  */
  ghost predicate SplitAt(threads: seq<Pc>, items: seq<Item>, temp: seq<Item>, calls: seq<Ticket>, k: nat) {
    && k <= |calls| && Survivors(calls[..k]) == items
    && (NoneExtending(threads) ==> Survivors(calls[k..]) == temp)
    && (forall t :: 0 <= t < |threads| && Extending(threads[t]) ==> HeadOf(threads[t], t, temp, calls, k))
  }

  ghost predicate InOrder(s: System, calls: seq<Ticket>) {
    exists k: nat :: SplitAt(s.threads, s.book.items, s.book.temp, calls, k)
  }

  /** Nobody is in mid-extension: the record is the log and what is in the temporary buffer. */
  lemma AllRecorded(threads: seq<Pc>, items: seq<Item>, temp: seq<Item>, calls: seq<Ticket>, k: nat)
    requires SplitAt(threads, items, temp, calls, k)
    ensures NoneExtending(threads) ==> Survivors(calls) == items + temp
    ensures forall t :: 0 <= t < |threads| && Extending(threads[t]) ==>
            Survivors(calls) == items + [threads[t].x] + temp
  {
    SurvivorsAt(calls, k);
    hide Survivors;
  }

  /** All that is recorded is in the log. */
  lemma AllLogged(threads: seq<Pc>, calls: seq<Ticket>)
    requires NoneExtending(threads)
    ensures SplitAt(threads, Survivors(calls), [], calls, |calls|)
  {
    assert calls[..|calls|] == calls && calls[|calls|..] == [];
  }

  lemma SameExtending(threads: seq<Pc>, t: nat, pc: Pc)
    requires t < |threads| && Extending(pc) == Extending(threads[t])
    ensures NoneExtending(threads[t := pc]) <==> NoneExtending(threads)
  {
    if NoneExtending(threads[t := pc]) {
      forall u | 0 <= u < |threads| ensures !Extending(threads[u]) { assert !Extending(threads[t := pc][u]); }
    }
  }

  lemma DivertSplits(threads: seq<Pc>, items: seq<Item>, temp: seq<Item>, calls: seq<Ticket>, k: nat, t: nat,
                     lost: bool)
    requires SplitAt(threads, items, temp, calls, k) && t < |threads| && threads[t].Calling?
    ensures SplitAt(threads[t := Idle], items, temp + (if lost then [] else [threads[t].x]),
                    calls + [Ticket(t, threads[t].x, lost)], k)
  {
    var ticket := Ticket(t, threads[t].x, lost);
    var calls' := calls + [ticket];
    assert Survivors([ticket]) == if lost then [] else [threads[t].x];
    hide Survivors;
    assert calls'[..k] == calls[..k] && calls'[k..] == calls[k..] + [ticket];
    SurvivorsAppend(calls[k..], [ticket]);
    if k < |calls| {
      assert calls'[k + 1..] == calls[k + 1..] + [ticket];
      SurvivorsAppend(calls[k + 1..], [ticket]);
    }
    var after := threads[t := Idle];
    forall u | 0 <= u < |after| && Extending(after[u])
      ensures HeadOf(threads[u], u, temp + (if lost then [] else [threads[t].x]), calls', k) {
      assert HeadOf(threads[u], u, temp, calls, k);
    }
    SameExtending(threads, t, Idle);
  }

  /** A call that finds nobody in mid-extension and nothing diverted begins an extension, or goes to the log. */
  lemma EnterSplits(threads: seq<Pc>, items: seq<Item>, calls: seq<Ticket>, k: nat, t: nat, pc: Pc)
    requires SplitAt(threads, items, [], calls, k) && t < |threads| && threads[t].Calling?
    requires NoneExtending(threads)
    ensures var calls' := calls + [Ticket(t, threads[t].x, false)];
            && (Extending(pc) && pc.x == threads[t].x ==> SplitAt(threads[t := pc], items, [], calls', |calls|))
            && SplitAt(threads[t := Idle], items + [threads[t].x], [], calls', |calls'|)
  {
    AllRecorded(threads, items, [], calls, k);
    var ticket := Ticket(t, threads[t].x, false);
    var calls' := calls + [ticket];
    assert Survivors([ticket]) == [threads[t].x] && Survivors([]) == [];
    hide Survivors;
    assert items + [] == items;
    SurvivorsAppend(calls, [ticket]);
    SameExtending(threads, t, Idle);
    AllLogged(threads[t := Idle], calls');
    assert calls'[..|calls|] == calls && calls'[|calls| + 1..] == [];
    if Extending(pc) && pc.x == threads[t].x {
      assert HeadOf(pc, t, [], calls', |calls|);
      assert !NoneExtending(threads[t := pc]) by { assert Extending(threads[t := pc][t]); }
    }
  }

  lemma ResumeSplits(threads: seq<Pc>, items: seq<Item>, temp: seq<Item>, calls: seq<Ticket>, k: nat, t: nat)
    requires SplitAt(threads, items, temp, calls, k) && t < |threads| && Extending(threads[t])
    requires forall u :: 0 <= u < |threads| && u != t ==> !Extending(threads[u])
    ensures SplitAt(threads[t := Idle], items + [threads[t].x] + temp, [], calls, |calls|)
  {
    AllRecorded(threads, items, temp, calls, k);
    hide Survivors, SplitAt;
    AllLogged(threads[t := Idle], calls);
  }

  lemma FailSplits(threads: seq<Pc>, items: seq<Item>, temp: seq<Item>, calls: seq<Ticket>, k: nat, t: nat)
    requires SplitAt(threads, items, temp, calls, k) && t < |threads| && Extending(threads[t])
    requires forall u :: 0 <= u < |threads| && u != t ==> !Extending(threads[u])
    ensures SplitAt(threads[t := Idle], items, temp, GiveUp(calls, t), k)
  {
    hide Survivors, GiveUp;
    assert HeadOf(threads[t], t, temp, calls, k);
    GiveUpAt(calls, t, k);
    var calls' := calls[k := calls[k].(lost := true)];
    SurvivorsAt(calls', k);
    assert calls'[..k] == calls[..k] && calls'[k + 1..] == calls[k + 1..];
    assert [] + temp == temp;
  }

  lemma MoveSplits(threads: seq<Pc>, items: seq<Item>, temp: seq<Item>, calls: seq<Ticket>, k: nat, t: nat, pc: Pc)
    requires SplitAt(threads, items, temp, calls, k) && t < |threads|
    requires Extending(pc) == Extending(threads[t]) && (Extending(pc) ==> pc.x == threads[t].x)
    ensures SplitAt(threads[t := pc], items, temp, calls, k)
  {
    hide Survivors;
    var after := threads[t := pc];
    forall u | 0 <= u < |after| && Extending(after[u]) ensures HeadOf(after[u], u, temp, calls, k) {
      assert HeadOf(threads[u], u, temp, calls, k);
    }
    SameExtending(threads, t, pc);
  }

  lemma OnlyExtender(s: System, t: nat)
    requires Inv(s) && t < |s.threads| && Extending(s.threads[t])
    ensures forall u :: 0 <= u < |s.threads| && u != t ==> !Extending(s.threads[u])
  {
    assert OneExtender(s);
    hide Inv, Extending;
  }

  lemma NothingDiverted(s: System)
    requires Inv(s) && !s.book.inExtend
    ensures s.book.temp == [] && NobodyExtends(s)
  {
    IfNotInExtend(s);
    hide InFlight, Held, Extends, OneExtender;
  }

  lemma EnterInOrder(s: System, t: nat, calls: seq<Ticket>)
    requires Inv(s) && InOrder(s, calls) && t < |s.threads| && s.threads[t].Calling?
    ensures InOrder(Step(s, Enter(t)), Recorded(s, Enter(t), calls))
  {
    hide Inv, SplitAt;
    var k: nat :| SplitAt(s.threads, s.book.items, s.book.temp, calls, k);
    var u := Step(s, Enter(t));
    var x := s.threads[t].x;
    if s.book.inExtend {
      var lost := |s.book.temp| == TEMP_SIZE;
      DivertedBook(s, t);
      DivertSplits(s.threads, s.book.items, s.book.temp, calls, k, t, lost);
      assert SplitAt(u.threads, u.book.items, u.book.temp, Recorded(s, Enter(t), calls), k);
    } else {
      NothingDiverted(s);
      EnterSplits(s.threads, s.book.items, calls, k, t, u.threads[t]);
      assert s.book.items + [x] + [] == s.book.items + [x];
      assert SplitAt(u.threads, u.book.items, u.book.temp, Recorded(s, Enter(t), calls),
                     if MustExtend(s.book) then |calls| else |calls| + 1);
    }
  }

  lemma DivertedBook(s: System, t: nat)
    requires Inv(s) && t < |s.threads| && s.threads[t].Calling? && s.book.inExtend
    ensures var u := Step(s, Enter(t));
            && u.threads == s.threads[t := Idle] && u.book.items == s.book.items
            && u.book.temp == s.book.temp + if |s.book.temp| == TEMP_SIZE then [] else [s.threads[t].x]
  {
    hide InFlight, Held, OneExtender, Extends;
  }

  lemma RelockInOrder(s: System, t: nat, calls: seq<Ticket>)
    requires Inv(s) && InOrder(s, calls) && t < |s.threads| && Extending(s.threads[t])
    ensures InOrder(Step(s, Relock(t)), Recorded(s, Relock(t), calls))
  {
    hide Inv, SplitAt;
    var k: nat :| SplitAt(s.threads, s.book.items, s.book.temp, calls, k);
    OnlyExtender(s, t);
    ResumeSplits(s.threads, s.book.items, s.book.temp, calls, k, t);
    FailSplits(s.threads, s.book.items, s.book.temp, calls, k, t);
    var u := Step(s, Relock(t));
    MoveSplits(s.threads, s.book.items, s.book.temp, calls, k, t, if s.threads[t].Allocated? then u.threads[t]
      else s.threads[t]);
    hide Extending, GiveUp;
    assert SplitAt(u.threads, u.book.items, u.book.temp, Recorded(s, Relock(t), calls),
                   if s.threads[t].FreeingOld? then |calls| else k);
  }

  lemma StepInOrder(s: System, a: Action, calls: seq<Ticket>)
    requires Inv(s) && InOrder(s, calls)
    ensures InOrder(Step(s, a), Recorded(s, a, calls))
  {
    hide Inv, SplitAt;
    var t, u := a.t, Step(s, a);
    if t < |s.threads| {
      if a.Enter? && s.threads[t].Calling? {
        EnterInOrder(s, t, calls);
      } else if a.Relock? && Extending(s.threads[t]) {
        RelockInOrder(s, t, calls);
      } else {
        var k: nat :| SplitAt(s.threads, s.book.items, s.book.temp, calls, k);
        MoveSplits(s.threads, s.book.items, s.book.temp, calls, k, t, u.threads[t]);
        assert SplitAt(u.threads, u.book.items, u.book.temp, calls, k);
      }
    }
  }

  lemma {:induction false} RunInOrder(s: System, actions: seq<Action>, calls: seq<Ticket>)
    requires Inv(s) && InOrder(s, calls)
    ensures InOrder(Run(s, actions), RunRecorded(s, actions, calls))
    decreases |actions|
  {
    hide Inv, Step, InOrder, Recorded;
    if actions != [] {
      StepKeepsInv(s, actions[0]);
      StepInOrder(s, actions[0], calls);
      RunInOrder(Step(s, actions[0]), actions[1..], Recorded(s, actions[0], calls));
    }
  }

  /**
    In every interleaving, the log, then the item of the call in mid-extension if there is one, then the temporary
    buffer are the items not given up, in the order in which their calls first took the lock.
  */
  lemma LogKeepsOrder(n: nat, actions: seq<Action>)
    ensures var s, kept := Run(Start(n), actions), Survivors(RunRecorded(Start(n), actions, []));
            && (NobodyExtends(s) ==> kept == s.book.items + s.book.temp)
            && (forall t :: 0 <= t < |s.threads| && Extending(s.threads[t]) ==>
                  kept == s.book.items + [s.threads[t].x] + s.book.temp)
  {
    var start := Start(n);
    StartInv(n);
    AllLogged(start.threads, []);
    RunInOrder(start, actions, []);
    var s, calls := Run(start, actions), RunRecorded(start, actions, []);
    hide Run, RunRecorded, Survivors, SplitAt, Extending;
    var k: nat :| SplitAt(s.threads, s.book.items, s.book.temp, calls, k);
    AllRecorded(s.threads, s.book.items, s.book.temp, calls, k);
  }

  /** A failed extension leaves the flag set with nobody to clear it. */
  lemma FailureLeavesFlag(s: System, t: nat)
    requires Inv(s) && t < |s.threads| && s.threads[t].OutOfMemory?
    ensures var u := Step(s, Relock(t)); u.book.inExtend && NobodyExtends(u)
  {
    assert Extends(s, t);
    hide InFlight, Held;
  }

  /** From then on the log takes nothing more, in any run: only the temporary buffer still fills up. */
  lemma {:induction false} NothingLoggedAfterFailure(s: System, actions: seq<Action>)
    requires s.book.inExtend && NobodyExtends(s)
    ensures var u := Run(s, actions); u.book.inExtend && u.book.items == s.book.items && NobodyExtends(u)
    decreases |actions|
  {
    if actions != [] {
      StuckStep(s, actions[0]);
      hide Step;
      NothingLoggedAfterFailure(Step(s, actions[0]), actions[1..]);
    }
  }

  lemma StuckStep(s: System, a: Action)
    requires s.book.inExtend && NobodyExtends(s)
    ensures var u := Step(s, a); u.book.inExtend && u.book.items == s.book.items && NobodyExtends(u)
  {
    assert a.t < |s.threads| ==> !Extending(s.threads[a.t]);
  }

  /** With no thread inside take_history, the items submitted are those held and those dropped. */
  lemma NothingLost(s: System)
    requires Inv(s) && forall t :: 0 <= t < |s.threads| ==> s.threads[t] == Idle
    ensures s.submitted == Held(s.book) + s.dropped
  {
    NothingInFlight(s.threads);
  }
}

/** The book as the program keeps it; each method is one critical section. */
module HistoryClass {
  import opened HistoryModel

  class HistoryBook {
    var items: array<Item>
    var nItems: nat
    var capItems: nat
    var inExtend: bool
    const tempBuf: array<Item>
    var nTemp: nat

    ghost predicate Valid()
      reads this
    {
      nItems <= capItems == items.Length && nTemp <= tempBuf.Length == TEMP_SIZE && items != tempBuf
    }

    ghost function State(): Book
      reads this, items, tempBuf
      requires Valid()
    {
      Book(items[..nItems], capItems, inExtend, tempBuf[..nTemp])
    }

    constructor ()
      ensures Valid() && State() == Start(0).book
    {
      items, nItems, capItems := new Item[0], 0, 0;
      inExtend := false;
      tempBuf, nTemp := new Item[TEMP_SIZE](_ => Item(0, 0, 0, 0)), 0;
    }

    /** The tail of take_history. */
    method AppendItem(x: Item)
      requires Valid() && (inExtend || nItems + 1 + nTemp <= capItems)
      modifies this`nItems, this`nTemp, items, tempBuf
      ensures Valid() && State() == Append(old(State()), x)
    {
      if inExtend {
        if nTemp < TEMP_SIZE {
          tempBuf[nTemp] := x;
          nTemp := nTemp + 1;
          assert tempBuf[..nTemp] == old(tempBuf[..nTemp]) + [x];
        }
        return;
      }
      ghost var b := State();
      items[nItems] := x;
      nItems := nItems + 1;
      var i := 0;
      while i < nTemp
        invariant i <= nTemp == |b.temp| && nItems == |b.items| + 1 + i
        invariant capItems == items.Length
        invariant items[..nItems] == b.items + [x] + b.temp[..i]
        invariant tempBuf[..nTemp] == b.temp
      {
        items[nItems] := tempBuf[i];
        assert items[..nItems + 1] == items[..nItems] + [tempBuf[i]];
        assert b.temp[..i + 1] == b.temp[..i] + [tempBuf[..nTemp][i]];
        nItems := nItems + 1;
        i := i + 1;
      }
      nTemp := 0;
    }

    /**
      take_history up to its end, or up to the first unlock in extend_items; then `newCap` items are to be
      allocated.
    */
    method Enter(x: Item) returns (extend: bool, newCap: nat)
      requires Valid() && (!inExtend ==> nTemp == 0)
      modifies this`nItems, this`nTemp, this`inExtend, items, tempBuf
      ensures Valid() && extend == MustExtend(old(State()))
      ensures State() == if extend then old(State()).(inExtend := true) else Append(old(State()), x)
      ensures extend ==> newCap == NewCap(old(State()).cap)
    {
      newCap := 0;
      extend := !inExtend && nItems + 1 > capItems;
      if extend {
        inExtend := true;
        newCap := if capItems > 0 then capItems * 2 else FIRST_CAP;
      } else {
        AppendItem(x);
      }
    }

    /**
      The second critical section of extend_items: the new array replaces the old one, which is returned for
      freeing.
    */
    method Install(extended: array<Item>) returns (oldItems: array<Item>)
      requires Valid() && nItems <= extended.Length && extended != items && extended != tempBuf
      modifies this`items, this`capItems, extended
      ensures Valid() && State() == old(State()).(cap := extended.Length) && oldItems == old(items)
    {
      oldItems := items;
      var i := 0;
      while i < nItems
        invariant i <= nItems && extended[..i] == oldItems[..i]
        invariant oldItems[..] == old(items[..]) && tempBuf[..] == old(tempBuf[..])
      {
        extended[i] := oldItems[i];
        i := i + 1;
      }
      items := extended;
      capItems := extended.Length;
    }

    /** The third critical section of extend_items and the tail of take_history. */
    method Finish(x: Item)
      requires Valid() && nItems + 1 + nTemp <= capItems
      modifies this`nItems, this`nTemp, this`inExtend, items, tempBuf
      ensures Valid() && State() == Append(old(State()).(inExtend := false), x)
    {
      inExtend := false;
      AppendItem(x);
    }
  }
}
