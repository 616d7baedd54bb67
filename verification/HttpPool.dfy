/** Buffer indices of the HTTP server (`httpd.rs`): they wait in `FREE_IDX`, are held by an
    acceptor, queue in `CONN`, are held by a handler, and come back. The steps are the pieces of
    code between awaits, in any interleaving of any number of acceptors and handlers. */
module HttpPool {
  import opened Ownership
  import opened Wrappers

  /** `lost` is no state of the program. `backlog` is also the capacity of both channels. */
  datatype State = State(backlog: nat, free: seq<nat>, acceptors: seq<Option<nat>>, conn: seq<nat>,
                         handlers: seq<Option<nat>>, lost: seq<nat>)

  datatype Event =
    | TakeIndex(task: nat)
    | Accepted(task: nat)
    | AcceptError(task: nat)
    | Disabled(task: nat) // the select drops the accept future with what it holds
    | TakeConnection(task: nat)
    | Served(task: nat)

  predicate Holds(os: seq<Option<nat>>, task: nat) {
    task < |os| && os[task].Some?
  }

  predicate Waits(os: seq<Option<nat>>, task: nat) {
    task < |os| && os[task].None?
  }

  // `let _ = FREE_IDX.try_send(i)`: an index that does not fit would be lost.
  function GiveBack(s: State, i: nat): State {
    if |s.free| < s.backlog then s.(free := s.free + [i]) else s.(lost := s.lost + [i])
  }

  function Step(s: State, e: Event): State {
    match e
    case TakeIndex(a) =>
      if Waits(s.acceptors, a) && s.free != [] then
        s.(free := s.free[1..], acceptors := s.acceptors[a := Some(s.free[0])])
      else s
    case Accepted(a) => // `CONN.send` waits while the channel is full
      if Holds(s.acceptors, a) && |s.conn| < s.backlog then
        s.(conn := s.conn + [s.acceptors[a].value], acceptors := s.acceptors[a := None])
      else s
    case AcceptError(a) =>
      if Holds(s.acceptors, a) then GiveBack(s, s.acceptors[a].value).(acceptors := s.acceptors[a := None]) else s
    case Disabled(a) =>
      if Holds(s.acceptors, a) then s.(lost := s.lost + [s.acceptors[a].value], acceptors := s.acceptors[a := None])
      else s
    case TakeConnection(h) =>
      if Waits(s.handlers, h) && s.conn != [] then
        s.(conn := s.conn[1..], handlers := s.handlers[h := Some(s.conn[0])])
      else s
    case Served(h) =>
      if Holds(s.handlers, h) then GiveBack(s, s.handlers[h].value).(handlers := s.handlers[h := None]) else s
  }

  function Run(s: State, es: seq<Event>): State
    decreases |es|
  {
    if es == [] then s else Run(Step(s, es[0]), es[1..])
  }

  function Users(s: State, x: nat): nat {
    Times(s.free, x) + HeldIn(s.acceptors, x) + Times(s.conn, x) + HeldIn(s.handlers, x) + Times(s.lost, x)
  }

  function Total(s: State): nat {
    |s.free| + Sizes(s.acceptors) + |s.conn| + Sizes(s.handlers) + |s.lost|
  }

  /** Every index below the backlog is in exactly one place, or lost. */
  ghost predicate Inv(s: State) {
    && Total(s) == s.backlog
    && forall x: nat :: Users(s, x) == if x < s.backlog then 1 else 0
  }

  lemma TakeIndexKeepsInv(s: State, a: nat)
    requires Inv(s)
    ensures Inv(Step(s, TakeIndex(a)))
  {
    if Waits(s.acceptors, a) && s.free != [] {
      var o, t := Some(s.free[0]), Step(s, TakeIndex(a));
      SizesUpdate(s.acceptors, a, o);
      forall x: nat ensures Users(t, x) == Users(s, x) { HeldInUpdate(s.acceptors, a, o, x); }
    }
  }

  lemma TakeConnectionKeepsInv(s: State, h: nat)
    requires Inv(s)
    ensures Inv(Step(s, TakeConnection(h)))
  {
    if Waits(s.handlers, h) && s.conn != [] {
      var o, t := Some(s.conn[0]), Step(s, TakeConnection(h));
      SizesUpdate(s.handlers, h, o);
      forall x: nat ensures Users(t, x) == Users(s, x) { HeldInUpdate(s.handlers, h, o, x); }
    }
  }

  lemma AcceptorKeepsInv(s: State, e: Event)
    requires Inv(s) && (e.Accepted? || e.AcceptError? || e.Disabled?)
    ensures Inv(Step(s, e))
  {
    var a := e.task;
    if Holds(s.acceptors, a) {
      var i, t := s.acceptors[a].value, Step(s, e);
      SizesUpdate(s.acceptors, a, None);
      forall x: nat ensures Users(t, x) == Users(s, x) {
        HeldInUpdate(s.acceptors, a, None, x);
        TimesAppend(s.conn, i, x);
        TimesAppend(s.free, i, x);
        TimesAppend(s.lost, i, x);
      }
    }
  }

  lemma ServedKeepsInv(s: State, h: nat)
    requires Inv(s)
    ensures Inv(Step(s, Served(h)))
  {
    if Holds(s.handlers, h) {
      var i, t := s.handlers[h].value, Step(s, Served(h));
      SizesUpdate(s.handlers, h, None);
      forall x: nat ensures Users(t, x) == Users(s, x) {
        HeldInUpdate(s.handlers, h, None, x);
        TimesAppend(s.free, i, x);
        TimesAppend(s.lost, i, x);
      }
    }
  }

  lemma StepKeepsInv(s: State, e: Event)
    requires Inv(s)
    ensures Inv(Step(s, e)) && Step(s, e).backlog == s.backlog
  {
    match e
    case TakeIndex(a) => TakeIndexKeepsInv(s, a);
    case TakeConnection(h) => TakeConnectionKeepsInv(s, h);
    case Served(h) => ServedKeepsInv(s, h);
    case _ => AcceptorKeepsInv(s, e);
  }

  lemma {:induction false} RunKeepsInv(s: State, es: seq<Event>)
    requires Inv(s)
    ensures Inv(Run(s, es)) && Run(s, es).backlog == s.backlog
    decreases |es|
  {
    if es == [] {
    } else {
      StepKeepsInv(s, es[0]);
      RunKeepsInv(Step(s, es[0]), es[1..]);
    }
  }

  // ------------------------------------------------------------------- theorems --

  function UpTo(n: nat): seq<nat> {
    seq(n, i requires 0 <= i < n => i)
  }

  function Nobody(n: nat): seq<Option<nat>> {
    seq(n, _ => None)
  }

  function Initial(backlog: nat, acceptors: nat, handlers: nat): State {
    State(backlog, UpTo(backlog), Nobody(acceptors), [], Nobody(handlers), [])
  }

  lemma {:induction false} TimesUpTo(n: nat, x: nat)
    ensures Times(UpTo(n), x) == if x < n then 1 else 0
  {
    if n == 0 {
    } else {
      TimesUpTo(n - 1, x);
      TimesAppend(UpTo(n - 1), n - 1, x);
      assert UpTo(n) == UpTo(n - 1) + [n - 1];
    }
  }

  lemma {:induction false} NobodyHolds(n: nat, x: nat)
    ensures HeldIn(Nobody(n), x) == Sizes(Nobody(n)) == 0
  {
    if n == 0 {
    } else {
      NobodyHolds(n - 1, x);
      assert Nobody(n)[1..] == Nobody(n - 1);
    }
  }

  lemma EveryRunKeepsInv(backlog: nat, acceptors: nat, handlers: nat, es: seq<Event>)
    ensures Inv(Run(Initial(backlog, acceptors, handlers), es))
    ensures Run(Initial(backlog, acceptors, handlers), es).backlog == backlog
  {
    var s := Initial(backlog, acceptors, handlers);
    NobodyHolds(acceptors, 0);
    NobodyHolds(handlers, 0);
    forall x: nat ensures Users(s, x) == if x < backlog then 1 else 0 {
      TimesUpTo(backlog, x);
      NobodyHolds(acceptors, x);
      NobodyHolds(handlers, x);
    }
    RunKeepsInv(s, es);
  }

  lemma SomeoneHolds(os: seq<Option<nat>>, task: nat)
    requires Holds(os, task)
    ensures Sizes(os) > 0
  {
    SizesUpdate(os, task, None);
  }

  /** No index is in two places; whoever holds one finds room for it in either channel, so an
      accepted connection never waits to be queued and an index given back is never dropped. */
  lemma RoomForAll(s: State, task: nat)
    requires Inv(s)
    ensures forall x: nat :: Users(s, x) <= 1
    ensures Holds(s.acceptors, task) || Holds(s.handlers, task) ==> |s.conn| < s.backlog && |s.free| < s.backlog
  {
    assert forall x: nat :: Users(s, x) == if x < s.backlog then 1 else 0;
    if Holds(s.acceptors, task) { SomeoneHolds(s.acceptors, task); }
    if Holds(s.handlers, task) { SomeoneHolds(s.handlers, task); }
  }

  lemma RunOne(s: State, e: Event, es: seq<Event>)
    ensures Run(s, [e] + es) == Run(Step(s, e), es)
  {
    assert ([e] + es)[1..] == es;
  }

  /** An acceptor that runs undisturbed takes the oldest free buffer, and its connection queues behind
      all others; when the accept fails the buffer is free again, as the youngest. */
  lemma AcceptorRuns(s: State, a: nat)
    requires Inv(s) && s.free != [] && Waits(s.acceptors, a)
    ensures Run(s, [TakeIndex(a), Accepted(a)]) == s.(free := s.free[1..], conn := s.conn + [s.free[0]])
    ensures Run(s, [TakeIndex(a), AcceptError(a)]) == s.(free := s.free[1..] + [s.free[0]])
  {
    var t := s.(free := s.free[1..], acceptors := s.acceptors[a := Some(s.free[0])]);
    TakeIndexKeepsInv(s, a);
    RoomForAll(t, a);
    assert t.acceptors[a := None] == s.acceptors;
    RunOne(t, Accepted(a), []);
    RunOne(t, AcceptError(a), []);
    RunOne(s, TakeIndex(a), [Accepted(a)]);
    RunOne(s, TakeIndex(a), [AcceptError(a)]);
  }

  function Serves(h: nat, n: nat): seq<Event> {
    if n == 0 then [] else [TakeConnection(h)] + ([Served(h)] + Serves(h, n - 1))
  }

  lemma OneServed(s: State, h: nat, rest: seq<Event>)
    requires Inv(s) && Waits(s.handlers, h) && s.conn != []
    ensures var t := s.(conn := s.conn[1..], free := s.free + [s.conn[0]]);
            Inv(t) && Run(s, [TakeConnection(h)] + ([Served(h)] + rest)) == Run(t, rest)
  {
    var u := s.(conn := s.conn[1..], handlers := s.handlers[h := Some(s.conn[0])]);
    StepKeepsInv(s, TakeConnection(h));
    StepKeepsInv(u, Served(h));
    RoomForAll(u, h);
    assert u.handlers[h := None] == s.handlers;
    RunOne(s, TakeConnection(h), [Served(h)] + rest);
    RunOne(u, Served(h), rest);
  }

  /** A handler that is free works off whatever is queued, oldest first, and frees the buffers in
      that order. */
  lemma {:induction false} HandlerRuns(s: State, h: nat)
    requires Inv(s) && Waits(s.handlers, h)
    ensures Run(s, Serves(h, |s.conn|)) == s.(conn := [], free := s.free + s.conn)
    decreases |s.conn|
  {
    if s.conn == [] {
      assert s.free + [] == s.free;
    } else {
      var t := s.(conn := s.conn[1..], free := s.free + [s.conn[0]]);
      OneServed(s, h, Serves(h, |t.conn|));
      HandlerRuns(t, h);
      assert [s.conn[0]] + s.conn[1..] == s.conn;
      Assoc(s.free, [s.conn[0]], s.conn[1..]);
    }
  }

  lemma RunJoin(s: State, a: seq<Event>, b: seq<Event>)
    ensures Run(s, a + b) == Run(Run(s, a), b)
    decreases |a|
  {
    if a == [] {
      assert a + b == b;
    } else {
      assert (a + b)[1..] == a[1..] + b;
      RunJoin(Step(s, a[0]), a[1..], b);
    }
  }

  /** A connection behind any number of others, from its accept to the end of the last: all are
      served, all buffers are free, its own as the youngest, and nothing else has changed. */
  lemma ConnectionServed(s: State, a: nat, h: nat)
    requires Inv(s) && s.free != [] && Waits(s.acceptors, a) && Waits(s.handlers, h)
    ensures Run(s, [TakeIndex(a), Accepted(a)] + Serves(h, |s.conn| + 1))
            == s.(conn := [], free := s.free[1..] + (s.conn + [s.free[0]]))
  {
    AcceptorRuns(s, a);
    var t := s.(free := s.free[1..], conn := s.conn + [s.free[0]]);
    RunKeepsInv(s, [TakeIndex(a), Accepted(a)]);
    HandlerRuns(t, h);
    RunJoin(s, [TakeIndex(a), Accepted(a)], Serves(h, |t.conn|));
  }

  // The buffers of the connections accepted, and of those taken by a handler, in a run.
  function AcceptedIn(s: State, es: seq<Event>): seq<nat>
    decreases |es|
  {
    if es == [] then []
    else
      var e := es[0];
      (if e.Accepted? && Holds(s.acceptors, e.task) && |s.conn| < s.backlog then [s.acceptors[e.task].value] else [])
      + AcceptedIn(Step(s, e), es[1..])
  }

  function TakenIn(s: State, es: seq<Event>): seq<nat>
    decreases |es|
  {
    if es == [] then []
    else
      var e := es[0];
      (if e.TakeConnection? && Waits(s.handlers, e.task) && s.conn != [] then [s.conn[0]] else [])
      + TakenIn(Step(s, e), es[1..])
  }

  /** Over every run and interleaving connections are taken up in the order they were accepted,
      and none is left out. */
  lemma {:induction false} ServedInOrder(s: State, es: seq<Event>)
    ensures s.conn + AcceptedIn(s, es) == TakenIn(s, es) + Run(s, es).conn
    decreases |es|
  {
    if es == [] {
    } else {
      var e, t, more := es[0], Step(s, es[0]), AcceptedIn(Step(s, es[0]), es[1..]);
      ServedInOrder(t, es[1..]);
      if e.Accepted? && t.conn != s.conn {
        Assoc(s.conn, [s.acceptors[e.task].value], more);
      } else if e.TakeConnection? && Waits(s.handlers, e.task) && s.conn != [] {
        assert s.conn == [s.conn[0]] + t.conn;
        Assoc([s.conn[0]], t.conn, more);
        Assoc([s.conn[0]], TakenIn(t, es[1..]), Run(s, es).conn);
      } else {
        assert [] + more == more && [] + TakenIn(t, es[1..]) == TakenIn(t, es[1..]);
      }
    }
  }

  predicate Loses(s: State, e: Event) {
    e.Disabled? && Holds(s.acceptors, e.task)
  }

  function LossCount(s: State, es: seq<Event>): nat
    decreases |es|
  {
    if es == [] then 0 else (if Loses(s, es[0]) then 1 else 0) + LossCount(Step(s, es[0]), es[1..])
  }

  lemma StepLoses(s: State, e: Event)
    requires Inv(s)
    ensures |Step(s, e).lost| == |s.lost| + if Loses(s, e) then 1 else 0
  {
    RoomForAll(s, e.task);
  }

  /** The only way to lose an index is to be disabled while holding one. */
  lemma {:induction false} LossesAdd(s: State, es: seq<Event>)
    requires Inv(s)
    ensures |Run(s, es).lost| == |s.lost| + LossCount(s, es)
    decreases |es|
  {
    if es == [] {
    } else {
      StepLoses(s, es[0]);
      StepKeepsInv(s, es[0]);
      LossesAdd(Step(s, es[0]), es[1..]);
    }
  }

  /** Such cancellations are bounded by the backlog, and when they reach it the server is dead:
      nothing is free, being accepted, queued or served in any continuation. */
  lemma LostDry(backlog: nat, acceptors: nat, handlers: nat, es: seq<Event>, more: seq<Event>)
    ensures LossCount(Initial(backlog, acceptors, handlers), es) <= backlog
    ensures LossCount(Initial(backlog, acceptors, handlers), es) == backlog ==>
              var t := Run(Run(Initial(backlog, acceptors, handlers), es), more);
              t.free == [] && t.conn == [] && Sizes(t.acceptors) == Sizes(t.handlers) == 0
  {
    var s := Initial(backlog, acceptors, handlers);
    EveryRunKeepsInv(backlog, acceptors, handlers, []);
    EveryRunKeepsInv(backlog, acceptors, handlers, es);
    LossesAdd(s, es);
    RunKeepsInv(Run(s, es), more);
    LossesAdd(Run(s, es), more);
  }

  // ------------------------------------------------------------------ the program --

  class Server {
    const backlog: nat
    var free: seq<nat>
    var acceptors: seq<Option<nat>>
    var conn: seq<nat>
    var handlers: seq<Option<nat>>
    ghost var lost: seq<nat>

    ghost function View(): State
      reads this
    {
      State(backlog, free, acceptors, conn, handlers, lost)
    }

    method TrySendFree(i: nat) returns (ok: bool)
      modifies this`free
      ensures ok == (|old(free)| < backlog)
      ensures free == if ok then old(free) + [i] else old(free)
    {
      ok := |free| < backlog;
      if ok { free := free + [i]; }
    }

    constructor (backlog: nat, acceptors: nat, handlers: nat)
      ensures View() == Initial(backlog, acceptors, handlers)
    {
      this.backlog, free, conn, lost := backlog, [], [], [];
      this.acceptors, this.handlers := Nobody(acceptors), Nobody(handlers);
      new;
      var i := 0;
      while i < backlog
        invariant i <= backlog && free == UpTo(i)
        invariant View() == Initial(backlog, acceptors, handlers).(free := free)
      {
        var sent := TrySendFree(i);
        i := i + 1;
      }
    }

    method OnTakeIndex(a: nat)
      requires a < |acceptors| && acceptors[a].None? && free != []
      modifies this
      ensures View() == Step(old(View()), TakeIndex(a))
    {
      acceptors := acceptors[a := Some(free[0])];
      free := free[1..];
    }

    method OnAccepted(a: nat)
      requires a < |acceptors| && acceptors[a].Some? && |conn| < backlog
      modifies this
      ensures View() == Step(old(View()), Accepted(a))
    {
      conn := conn + [acceptors[a].value];
      acceptors := acceptors[a := None];
    }

    method OnAcceptError(a: nat)
      requires a < |acceptors| && acceptors[a].Some?
      modifies this
      ensures View() == Step(old(View()), AcceptError(a))
    {
      var i := acceptors[a].value;
      var sent := TrySendFree(i);
      if !sent { lost := lost + [i]; }
      acceptors := acceptors[a := None];
    }

    method OnDisabled(a: nat)
      requires a < |acceptors|
      modifies this
      ensures View() == Step(old(View()), Disabled(a))
    {
      if acceptors[a].Some? {
        lost := lost + [acceptors[a].value];
        acceptors := acceptors[a := None];
      }
    }

    method OnTakeConnection(h: nat)
      requires h < |handlers| && handlers[h].None? && conn != []
      modifies this
      ensures View() == Step(old(View()), TakeConnection(h))
    {
      handlers := handlers[h := Some(conn[0])];
      conn := conn[1..];
    }

    method OnServed(h: nat)
      requires h < |handlers| && handlers[h].Some?
      modifies this
      ensures View() == Step(old(View()), Served(h))
    {
      var i := handlers[h].value;
      var sent := TrySendFree(i);
      if !sent { lost := lost + [i]; }
      handlers := handlers[h := None];
    }
  }
}
