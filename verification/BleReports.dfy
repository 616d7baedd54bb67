/** The report queue of the BLE keyboard (`kbd_ble.rs`) across connections: one engine task that
    may be blocked in a send, one connection task that receives, and a drain at disconnect. */
module BleReports {
  import opened KeyText
  import opened Wrappers

  const CAPACITY: nat := 8

  /** `blocked` is the report the engine is stuck with in `REPORTS.send`, even when room has been
      made and it has not run since. The last three are what happened since the last connect:
      `carry` what was in the queue and the engine's hands, `sent` what the engine added,
      `delivered` what was taken out to be notified. */
  datatype State = State(connected: bool, queue: seq<Report>, blocked: Option<Report>,
                         carry: seq<Report>, sent: seq<Report>, delivered: seq<Report>)

  datatype Event = Connect | Disconnect | Send(r: Report) | Unblock | Deliver

  const START := State(false, [], None, [], [], [])

  function InHand(o: Option<Report>): seq<Report> {
    if o.Some? then [o.value] else []
  }

  function Step(s: State, e: Event): State {
    match e
    case Connect =>
      if s.connected then s
      else s.(connected := true, carry := s.queue + InHand(s.blocked), sent := [], delivered := [])
    case Disconnect => if s.connected then s.(connected := false, queue := []) else s
    case Send(r) =>
      if s.blocked.Some? || !s.connected then s // the engine is busy, or drops the report
      else if |s.queue| < CAPACITY then s.(queue := s.queue + [r], sent := s.sent + [r])
      else s.(blocked := Some(r), sent := s.sent + [r])
    case Unblock =>
      if s.blocked.Some? && |s.queue| < CAPACITY then s.(queue := s.queue + [s.blocked.value], blocked := None)
      else s
    case Deliver =>
      if s.connected && s.queue != [] then s.(queue := s.queue[1..], delivered := s.delivered + [s.queue[0]]) else s
  }

  function Run(s: State, es: seq<Event>): State
    decreases |es|
  {
    if es == [] then s else Run(Step(s, es[0]), es[1..])
  }

  ghost predicate Inv(s: State) {
    && |s.queue| <= CAPACITY && |s.carry| <= 1
    && (s.connected ==> s.delivered + (s.queue + InHand(s.blocked)) == s.carry + s.sent)
    && (!s.connected ==> |s.queue| + |InHand(s.blocked)| <= 1)
  }

  lemma SendKeepsInv(s: State, r: Report)
    requires Inv(s)
    ensures Inv(Step(s, Send(r)))
  {
    if s.connected && s.blocked.None? {
      var d, q := s.delivered, s.queue;
      assert d + (q + []) == d + q;
      assert d + (q + [r]) == d + q + [r];
      assert d + (q + [r] + []) == d + (q + [r]);
      Assoc(s.carry, s.sent, [r]);
    }
  }

  lemma QueueKeepsInv(s: State, e: Event)
    requires Inv(s) && (e.Unblock? || e.Deliver?)
    ensures Inv(Step(s, e))
  {
    var t := Step(s, e);
    if e.Unblock? {
      assert t.queue + InHand(t.blocked) == s.queue + InHand(s.blocked);
    } else if s.connected && s.queue != [] {
      Assoc(s.delivered, [s.queue[0]], t.queue + InHand(s.blocked));
      assert [s.queue[0]] + (t.queue + InHand(s.blocked)) == s.queue + InHand(s.blocked);
    }
  }

  lemma StepKeepsInv(s: State, e: Event)
    requires Inv(s)
    ensures Inv(Step(s, e))
  {
    match e
    case Send(r) => SendKeepsInv(s, r);
    case Unblock => QueueKeepsInv(s, e);
    case Deliver => QueueKeepsInv(s, e);
    case Connect => assert forall x: seq<Report> :: [] + x == x && x + [] == x;
    case Disconnect =>
  }

  lemma {:induction false} EveryRunKeepsInv(s: State, es: seq<Event>)
    requires Inv(s)
    ensures Inv(Run(s, es))
    decreases |es|
  {
    if es == [] {
    } else {
      StepKeepsInv(s, es[0]);
      EveryRunKeepsInv(Step(s, es[0]), es[1..]);
    }
  }

  /** During any connection of any run, what goes to the host is, in order and without gaps, at
      most one report from before and then what the engine sent since. */
  lemma DeliveredInOrder(es: seq<Event>)
    requires Run(START, es).connected
    ensures var s := Run(START, es);
            s.delivered <= s.carry + s.sent && |s.carry| <= 1
  {
    EveryRunKeepsInv(START, es);
    var s := Run(START, es);
    var rest := s.queue + InHand(s.blocked);
    assert (s.delivered + rest)[..|s.delivered|] == s.delivered;
  }

  function Delivers(n: nat): seq<Event> {
    if n == 0 then [] else [Deliver] + Delivers(n - 1)
  }

  lemma {:induction false} QueueGetsDelivered(s: State, n: nat)
    requires Inv(s) && s.connected && s.blocked.None? && |s.queue| <= n
    ensures var t := Run(s, Delivers(n));
            t.connected && t.queue == [] && t.blocked.None? && t.delivered == s.carry + s.sent
    decreases n
  {
    if n == 0 {
      assert s.delivered + ([] + []) == s.delivered;
    } else {
      assert Delivers(n)[1..] == Delivers(n - 1);
      StepKeepsInv(s, Deliver);
      QueueGetsDelivered(Step(s, Deliver), n - 1);
    }
  }

  lemma RunOne(s: State, e: Event, es: seq<Event>)
    ensures Run(s, [e] + es) == Run(Step(s, e), es)
  {
    assert ([e] + es)[1..] == es;
  }

  /** From every state of every connection, one report taken out, the engine's turn and then a
      queueful of turns are enough: the host has all reports, and the engine is free. */
  lemma AllGetDelivered(s: State)
    requires Inv(s) && s.connected
    ensures var t := Run(s, [Deliver, Unblock] + Delivers(CAPACITY));
            t.connected && t.queue == [] && t.blocked.None? && t.delivered == s.carry + s.sent
  {
    var t := Step(s, Deliver);
    StepKeepsInv(s, Deliver);
    StepKeepsInv(t, Unblock);
    RunOne(s, Deliver, [Unblock] + Delivers(CAPACITY));
    RunOne(t, Unblock, Delivers(CAPACITY));
    assert [Deliver, Unblock] + Delivers(CAPACITY) == [Deliver] + ([Unblock] + Delivers(CAPACITY));
    QueueGetsDelivered(Step(t, Unblock), CAPACITY);
  }

  lemma {:induction false} StaysInHand(s: State, o: Option<Report>, es: seq<Event>)
    requires !s.connected && s.queue + InHand(s.blocked) == InHand(o) && Connect !in es
    ensures var t := Run(s, es); !t.connected && t.queue + InHand(t.blocked) == InHand(o)
    decreases |es|
  {
    if es == [] {
    } else {
      assert es[0] in es;
      var t := Step(s, es[0]);
      assert t.queue + InHand(t.blocked) == s.queue + InHand(s.blocked);
      forall e | e in es[1..] ensures e in es {}
      StaysInHand(t, o, es[1..]);
    }
  }

  /** The next connection starts with exactly the report the engine was blocked with when the
      last one ended, whatever the engine does in between; with none if it was not blocked. */
  lemma CarryIsBlocked(s: State, es: seq<Event>)
    requires s.connected && Connect !in es
    ensures Step(Run(Step(s, Disconnect), es), Connect).carry == InHand(s.blocked)
  {
    StaysInHand(Step(s, Disconnect), s.blocked, es);
  }

  /** The drain is meant to keep stale keys from the next connection. A press the engine was
      blocked with gets through all the same, and its release, sent while nobody is connected, is
      dropped. */
  lemma StalePressReplayed(s: State, press: Report)
    requires s.connected && s.blocked.None? && |s.queue| == CAPACITY
    ensures var t := Run(s, [Send(press), Disconnect, Unblock, Send(RELEASE), Connect, Deliver]);
            t.connected && t.delivered == [press] && t.queue == [] && t.blocked == None
  {
    var s1 := s.(blocked := Some(press), sent := s.sent + [press]);
    var s2 := s1.(connected := false, queue := []);
    var s3 := s2.(queue := [press], blocked := None);
    assert [] + [press] == [press];
    var s4 := s3.(connected := true, carry := [press] + [], sent := [], delivered := []);
    var es := [Send(press), Disconnect, Unblock, Send(RELEASE), Connect, Deliver];
    assert Step(s, Send(press)) == s1 && Step(s1, Disconnect) == s2 && Step(s2, Unblock) == s3;
    assert Step(s3, Send(RELEASE)) == s3 && Step(s3, Connect) == s4;
    assert es[1..] == [Disconnect, Unblock, Send(RELEASE), Connect, Deliver];
    assert Run(s, es) == Run(s1, es[1..]) == Run(s2, [Unblock, Send(RELEASE), Connect, Deliver]);
    assert Run(s2, [Unblock, Send(RELEASE), Connect, Deliver]) == Run(s3, [Send(RELEASE), Connect, Deliver]);
    assert Run(s3, [Send(RELEASE), Connect, Deliver]) == Run(s3, [Connect, Deliver]) == Run(s4, [Deliver]);
  }

  function Sends(rs: seq<Report>): seq<Event> {
    if rs == [] then [] else [Send(rs[0])] + Sends(rs[1..])
  }

  // Such states are reached: a burst that the connection task is too slow for.
  lemma {:induction false} BurstFills(s: State, rs: seq<Report>)
    requires s.connected && s.blocked.None? && |s.queue| + |rs| <= CAPACITY
    ensures Run(s, Sends(rs)) == s.(queue := s.queue + rs, sent := s.sent + rs)
    decreases |rs|
  {
    if rs == [] {
      assert s.queue + rs == s.queue && s.sent + rs == s.sent;
    } else {
      assert Sends(rs)[1..] == Sends(rs[1..]);
      BurstFills(Step(s, Send(rs[0])), rs[1..]);
      assert [rs[0]] + rs[1..] == rs;
      Assoc(s.queue, [rs[0]], rs[1..]);
      Assoc(s.sent, [rs[0]], rs[1..]);
    }
  }

  // ------------------------------------------------------------------- the program --

  class Backend {
    var connected: bool
    var reports: seq<Report>
    var blocked: Option<Report>
    ghost var carry: seq<Report>
    ghost var sent: seq<Report>
    ghost var delivered: seq<Report>

    ghost function View(): State
      reads this
    {
      State(connected, reports, blocked, carry, sent, delivered)
    }

    constructor ()
      ensures View() == START
    {
      connected, reports, blocked := false, [], None;
      carry, sent, delivered := [], [], [];
    }

    /** `send_report` up to its await. */
    method SendReport(r: Report)
      requires blocked.None?
      modifies this
      ensures View() == Step(old(View()), Send(r))
    {
      if connected {
        sent := sent + [r];
        if |reports| < CAPACITY {
          reports := reports + [r];
        } else {
          blocked := Some(r);
        }
      }
    }

    /** The engine runs again and finds room. */
    method Resume()
      requires blocked.Some? && |reports| < CAPACITY
      modifies this
      ensures View() == Step(old(View()), Unblock)
    {
      reports := reports + [blocked.value];
      blocked := None;
    }

    method OnConnect()
      requires !connected
      modifies this
      ensures View() == Step(old(View()), Connect)
    {
      carry, sent, delivered := reports + InHand(blocked), [], [];
      connected := true;
    }

    method Receive() returns (r: Report)
      requires connected && reports != []
      modifies this
      ensures View() == Step(old(View()), Deliver) && r == old(reports)[0]
    {
      r := reports[0];
      reports := reports[1..];
      delivered := delivered + [r];
    }

    /** The end of `serve_connection`; the drain has no await in it. */
    method OnDisconnect()
      requires connected
      modifies this
      ensures View() == Step(old(View()), Disconnect)
    {
      connected := false;
      while reports != []
        invariant View() == old(View()).(connected := false, queue := reports)
        decreases |reports|
      {
        reports := reports[1..];
      }
    }
  }
}
