/** The tunnel client of `rathole.rs`: a manager that allocates a slot, connects a standby data
    channel and hands it to one of several forward tasks. Everything runs on one cooperative
    executor, so the model interleaves the code between awaits; what the network, the heap and
    the configured addresses answer is arbitrary. */
module RatholeTunnel {
  import opened Ownership
  import opened Wrappers

  // Where the manager stands: away from `run_connected`, in its select with or without a
  // standby, or inside `pool_fill_one` at one of its awaits.
  datatype Manager =
    | Away
    | Listening(pool: Option<nat>)
    | Resolving(slot: nat)
    | Connecting(slot: nat)
    | Greeting(slot: nat)

  /** `leaked` is no state of the program: the slots that were allocated and forgotten. */
  datatype State = State(slots: seq<bool>, dataCh: nat, pooled: bool, manager: Manager,
                         queue: seq<nat>, forwarders: seq<Option<nat>>, leaked: seq<nat>)

  datatype Event =
    | ControlUp
    | CreateDataChannel(heapOk: bool, addrOk: bool)
    | Resolved(ok: bool)
    | Connected(ok: bool)
    | Greeted(ok: bool)
    | StandbyLost // closed, failed, or a command other than StartForwardTcp
    | StartForward(heapOk: bool, addrOk: bool)
    | ControlDown
    | Receive(task: nat)
    | SessionOver(task: nat) // local resolve or connect failed, or the pump ended

  function FirstFree(slots: seq<bool>): (i: nat)
    ensures i <= |slots|
    ensures forall k :: 0 <= k < i ==> slots[k]
    ensures i < |slots| ==> !slots[i]
  {
    if slots == [] || !slots[0] then 0 else FirstFree(slots[1..]) + 1
  }

  lemma FirstFreeIs(slots: seq<bool>, i: nat)
    requires i <= |slots| && (forall k :: 0 <= k < i ==> slots[k]) && (i < |slots| ==> !slots[i])
    ensures FirstFree(slots) == i
  {
  }

  // AtomicU8 arithmetic.
  function Inc(n: nat): nat { (n + 1) % 256 }
  function Dec(n: nat): nat { (n + 255) % 256 }

  function Freed(s: State, slot: nat): State {
    if slot < |s.slots| then s.(slots := s.slots[slot := false]) else s
  }

  function Dropped(s: State, slot: nat): State {
    Freed(s, slot).(dataCh := Dec(s.dataCh))
  }

  // `pool_fill_one` up to its first await: the slot is not freed when the address is bad.
  function Fill(s: State, addrOk: bool): State {
    var i := FirstFree(s.slots);
    if i == |s.slots| then s
    else
      var t := s.(slots := s.slots[i := true]);
      if addrOk then t.(manager := Resolving(i)) else t.(leaked := s.leaked + [i])
  }

  predicate HasStandby(s: State) {
    s.manager.Listening? && s.manager.pool.Some?
  }

  function DropStandby(s: State, next: Manager): State
    requires HasStandby(s)
  {
    Dropped(s, s.manager.pool.value).(manager := next, pooled := false)
  }

  /** One piece of code between awaits; an event that cannot happen changes nothing. */
  function Step(s: State, e: Event): State {
    match e
    case ControlUp => if s.manager.Away? then s.(manager := Listening(None)) else s
    case CreateDataChannel(heapOk, addrOk) =>
      if s.manager == Listening(None) && heapOk then Fill(s, addrOk) else s
    case Resolved(ok) =>
      if !s.manager.Resolving? then s
      else if ok then s.(manager := Connecting(s.manager.slot))
      else s.(manager := Listening(None), leaked := s.leaked + [s.manager.slot])
    case Connected(ok) =>
      if !s.manager.Connecting? then s
      else if ok then s.(manager := Greeting(s.manager.slot))
      else Freed(s, s.manager.slot).(manager := Listening(None))
    case Greeted(ok) =>
      if !s.manager.Greeting? then s
      else if ok then s.(manager := Listening(Some(s.manager.slot)), pooled := true, dataCh := Inc(s.dataCh))
      else Freed(s, s.manager.slot).(manager := Listening(None))
    case StandbyLost => if HasStandby(s) then DropStandby(s, Listening(None)) else s
    case StartForward(heapOk, addrOk) =>
      if !HasStandby(s) then s
      else if heapOk && addrOk && |s.queue| < |s.slots| then
        s.(manager := Listening(None), pooled := false, queue := s.queue + [s.manager.pool.value])
      else DropStandby(s, Listening(None))
    case ControlDown =>
      if HasStandby(s) then DropStandby(s, Away)
      else if s.manager.Listening? then s.(manager := Away, pooled := false) else s
    case Receive(i) =>
      if i < |s.forwarders| && s.forwarders[i].None? && s.queue != [] then
        s.(queue := s.queue[1..], forwarders := s.forwarders[i := Some(s.queue[0])])
      else s
    case SessionOver(i) =>
      if i < |s.forwarders| && s.forwarders[i].Some? then
        Dropped(s, s.forwarders[i].value).(forwarders := s.forwarders[i := None])
      else s
  }

  function Run(s: State, es: seq<Event>): State
    decreases |es|
  {
    if es == [] then s else Run(Step(s, es[0]), es[1..])
  }

  // The early returns that forget the slot.
  predicate Leaks(s: State, e: Event) {
    || (e == Resolved(false) && s.manager.Resolving?)
    || (e == CreateDataChannel(true, false) && s.manager == Listening(None) && FirstFree(s.slots) < |s.slots|)
  }

  // ------------------------------------------------------------------ ownership --

  function Standby(m: Manager): Option<nat> {
    if m.Listening? then m.pool else None
  }

  // The slot `pool_fill_one` is working on.
  function Filling(m: Manager): Option<nat> {
    if m.Away? || m.Listening? then None else Some(m.slot)
  }

  /** How many of the sockets that are being filled, stand by, are queued or are forwarded
      use slot `x`, plus the times it leaked. */
  function Users(s: State, x: nat): nat {
    HeldBy(Filling(s.manager), x) + HeldBy(Standby(s.manager), x) + Times(s.queue, x)
    + HeldIn(s.forwarders, x) + Times(s.leaked, x)
  }

  // Pooled, queued and forwarded channels.
  function Channels(s: State): nat {
    Size(Standby(s.manager)) + |s.queue| + Sizes(s.forwarders)
  }

  /** A set bit is one user, a clear bit none, and the counter counts the channels. */
  ghost predicate Inv(s: State) {
    && |s.slots| < 256
    && (forall x: nat :: Users(s, x) == Bit(s.slots, x))
    && Channels(s) + Size(Filling(s.manager)) + |s.leaked| == Ones(s.slots)
    && s.dataCh == Channels(s)
    && s.pooled == HasStandby(s)
  }

  lemma DropKeepsInv(s: State, next: Manager)
    requires Inv(s) && HasStandby(s) && (next == Away || next == Listening(None))
    ensures Inv(DropStandby(s, next))
  {
    var slot, t := s.manager.pool.value, DropStandby(s, next);
    assert Users(s, slot) == Bit(s.slots, slot);
    OnesUpdate(s.slots, slot, false);
    forall x: nat ensures Users(t, x) == Bit(t.slots, x) {
      assert Users(s, x) == Bit(s.slots, x);
    }
  }

  lemma FillKeepsInv(s: State, addrOk: bool)
    requires Inv(s) && s.manager == Listening(None)
    ensures Inv(Fill(s, addrOk))
  {
    var i, t := FirstFree(s.slots), Fill(s, addrOk);
    if i < |s.slots| {
      OnesUpdate(s.slots, i, true);
      forall x: nat ensures Users(t, x) == Bit(t.slots, x) {
        assert Users(s, x) == Bit(s.slots, x);
        TimesAppend(s.leaked, i, x);
      }
    }
  }

  lemma ResolvedKeepsInv(s: State, ok: bool)
    requires Inv(s) && s.manager.Resolving?
    ensures Inv(Step(s, Resolved(ok)))
  {
    var t := Step(s, Resolved(ok));
    forall x: nat ensures Users(t, x) == Bit(t.slots, x) {
      assert Users(s, x) == Bit(s.slots, x);
      TimesAppend(s.leaked, s.manager.slot, x);
    }
  }

  lemma FreedKeepsInv(s: State)
    requires Inv(s) && Filling(s.manager).Some?
    ensures Inv(Freed(s, s.manager.slot).(manager := Listening(None)))
  {
    var slot, t := s.manager.slot, Freed(s, s.manager.slot).(manager := Listening(None));
    assert Users(s, slot) == Bit(s.slots, slot);
    OnesUpdate(s.slots, slot, false);
    forall x: nat ensures Users(t, x) == Bit(t.slots, x) {
      assert Users(s, x) == Bit(s.slots, x);
    }
  }

  lemma ConnectedKeepsInv(s: State, ok: bool)
    requires Inv(s) && s.manager.Connecting?
    ensures Inv(Step(s, Connected(ok)))
  {
    FreedKeepsInv(s);
    forall x: nat ensures Users(s.(manager := Greeting(s.manager.slot)), x) == Bit(s.slots, x) {
      assert Users(s, x) == Bit(s.slots, x);
    }
  }

  lemma GreetedKeepsInv(s: State, ok: bool)
    requires Inv(s) && s.manager.Greeting?
    ensures Inv(Step(s, Greeted(ok)))
  {
    FreedKeepsInv(s);
    var t := Step(s, Greeted(true));
    forall x: nat ensures Users(t, x) == Bit(t.slots, x) {
      assert Users(s, x) == Bit(s.slots, x);
    }
  }

  lemma QueuedKeepsInv(s: State)
    requires Inv(s) && HasStandby(s)
    ensures Inv(s.(manager := Listening(None), pooled := false, queue := s.queue + [s.manager.pool.value]))
  {
    var t := s.(manager := Listening(None), pooled := false, queue := s.queue + [s.manager.pool.value]);
    forall x: nat ensures Users(t, x) == Bit(t.slots, x) {
      assert Users(s, x) == Bit(s.slots, x);
      TimesAppend(s.queue, s.manager.pool.value, x);
    }
  }

  lemma ReceiveKeepsInv(s: State, task: nat)
    requires Inv(s)
    ensures Inv(Step(s, Receive(task)))
  {
    if task < |s.forwarders| && s.forwarders[task].None? && s.queue != [] {
      var t := Step(s, Receive(task));
      SizesUpdate(s.forwarders, task, Some(s.queue[0]));
      forall x: nat ensures Users(t, x) == Bit(t.slots, x) {
        assert Users(s, x) == Bit(s.slots, x);
        HeldInUpdate(s.forwarders, task, Some(s.queue[0]), x);
      }
    }
  }

  lemma SessionOverKeepsInv(s: State, task: nat)
    requires Inv(s)
    ensures Inv(Step(s, SessionOver(task)))
  {
    if task < |s.forwarders| && s.forwarders[task].Some? {
      var t, slot := Step(s, SessionOver(task)), s.forwarders[task].value;
      SizesUpdate(s.forwarders, task, None);
      HeldInUpdate(s.forwarders, task, None, slot);
      assert Users(s, slot) == Bit(s.slots, slot);
      OnesUpdate(s.slots, slot, false);
      forall x: nat ensures Users(t, x) == Bit(t.slots, x) {
        assert Users(s, x) == Bit(s.slots, x);
        HeldInUpdate(s.forwarders, task, None, x);
      }
    }
  }

  lemma AwayKeepsInv(s: State)
    requires Inv(s)
    ensures Inv(Step(s, ControlUp)) && Inv(Step(s, ControlDown))
  {
    if HasStandby(s) { DropKeepsInv(s, Away); }
    forall x: nat
      ensures Users(Step(s, ControlUp), x) == Bit(s.slots, x)
      ensures !HasStandby(s) ==> Users(Step(s, ControlDown), x) == Bit(s.slots, x)
    {
      assert Users(s, x) == Bit(s.slots, x);
    }
  }

  /** No step breaks the invariant, whatever the network, heap and configuration answer. */
  lemma StepKeepsInv(s: State, e: Event)
    requires Inv(s)
    ensures Inv(Step(s, e))
  {
    match e
    case CreateDataChannel(heapOk, addrOk) =>
      if s.manager == Listening(None) && heapOk { FillKeepsInv(s, addrOk); }
    case StandbyLost => if HasStandby(s) { DropKeepsInv(s, Listening(None)); }
    case ControlDown => AwayKeepsInv(s);
    case StartForward(heapOk, addrOk) =>
      if HasStandby(s) {
        DropKeepsInv(s, Listening(None));
        QueuedKeepsInv(s);
      }
    case Resolved(ok) => if s.manager.Resolving? { ResolvedKeepsInv(s, ok); }
    case Connected(ok) => if s.manager.Connecting? { ConnectedKeepsInv(s, ok); }
    case Greeted(ok) => if s.manager.Greeting? { GreetedKeepsInv(s, ok); }
    case Receive(task) => ReceiveKeepsInv(s, task);
    case SessionOver(task) => SessionOverKeepsInv(s, task);
    case ControlUp => AwayKeepsInv(s);
  }

  // ------------------------------------------------------------------- theorems --

  function Idle(n: nat): seq<Option<nat>> {
    seq(n, _ => None)
  }

  function Clear(n: nat): seq<bool> {
    seq(n, _ => false)
  }

  function Blank(slots: nat, tasks: nat): State {
    State(Clear(slots), 0, false, Away, [], Idle(tasks), [])
  }

  lemma {:induction false} NothingSet(n: nat)
    ensures Ones(Clear(n)) == 0
  {
    if n == 0 {
    } else {
      NothingSet(n - 1);
      assert Clear(n)[1..] == Clear(n - 1);
    }
  }

  lemma {:induction false} NothingHeld(n: nat, x: nat)
    ensures HeldIn(Idle(n), x) == Sizes(Idle(n)) == 0
  {
    if n == 0 {
    } else {
      NothingHeld(n - 1, x);
      assert Idle(n)[1..] == Idle(n - 1);
    }
  }

  lemma {:induction false} RunKeepsInv(s: State, es: seq<Event>)
    requires Inv(s)
    ensures Inv(Run(s, es))
    decreases |es|
  {
    if es == [] {
    } else {
      StepKeepsInv(s, es[0]);
      RunKeepsInv(Step(s, es[0]), es[1..]);
    }
  }

  /** Every interleaving of the manager and any number of forward tasks, from power-on. */
  lemma EveryRunKeepsInv(slots: nat, tasks: nat, es: seq<Event>)
    requires slots < 256
    ensures Inv(Run(Blank(slots, tasks), es))
  {
    NothingSet(slots);
    forall x: nat ensures HeldIn(Idle(tasks), x) == Sizes(Idle(tasks)) == 0 {
      NothingHeld(tasks, x);
    }
    assert Inv(Blank(slots, tasks)) by { NothingHeld(tasks, 0); }
    RunKeepsInv(Blank(slots, tasks), es);
  }

  lemma TwoHolders(os: seq<Option<nat>>, i: nat, j: nat)
    requires i < j < |os| && os[i].Some?
    ensures os[i] == os[j] ==> HeldIn(os, os[i].value) >= 2
  {
    HeldInUpdate(os, i, None, os[i].value);
    HeldInUpdate(os[i := None], j, None, os[i].value);
  }

  /** What the invariant is for: no slot has two users, the counter stays within the slots, the
      queue takes every standby, and the counter is never decremented below zero. */
  lemma WhatInvMeans(s: State)
    requires Inv(s)
    ensures forall x: nat :: Users(s, x) <= 1
    ensures s.dataCh + |s.leaked| <= |s.slots|
    ensures HasStandby(s) ==> |s.queue| < |s.slots| && s.dataCh > 0
    ensures forall i :: 0 <= i < |s.forwarders| && s.forwarders[i].Some? ==> s.dataCh > 0
    ensures forall i, j :: 0 <= i < j < |s.forwarders| && s.forwarders[i].Some? ==> s.forwarders[i] != s.forwarders[j]
  {
    forall x: nat ensures Users(s, x) <= 1 {
      assert Users(s, x) == Bit(s.slots, x);
    }
    forall i | 0 <= i < |s.forwarders| && s.forwarders[i].Some? ensures s.dataCh > 0 {
      SizesUpdate(s.forwarders, i, None);
    }
    forall i, j | 0 <= i < j < |s.forwarders| && s.forwarders[i].Some? ensures s.forwarders[i] != s.forwarders[j] {
      TwoHolders(s.forwarders, i, j);
      assert Users(s, s.forwarders[i].value) <= 1;
    }
  }

  /** A CreateDataChannel command finds a free slot exactly when channels and leaks leave one. */
  lemma FindsSlotIff(s: State)
    requires Inv(s) && s.manager == Listening(None)
    ensures FirstFree(s.slots) < |s.slots| <==> s.dataCh + |s.leaked| < |s.slots|
  {
    AllOnes(s.slots);
    var i := FirstFree(s.slots);
    if i < |s.slots| { assert s.slots[i] in s.slots; }
  }

  const FILLED := [Resolved(true), Connected(true), Greeted(true)]

  const TO_STANDBY := [CreateDataChannel(true, true)] + FILLED

  lemma RunOne(s: State, e: Event, es: seq<Event>)
    ensures Run(s, [e] + es) == Run(Step(s, e), es)
  {
    assert ([e] + es)[1..] == es;
  }

  function WithStandby(s: State, i: nat): State
    requires i < |s.slots|
  {
    s.(slots := s.slots[i := true], manager := Listening(Some(i)), pooled := true, dataCh := s.dataCh + 1)
  }

  lemma FillSucceeds(s: State)
    requires s.manager.Resolving? && s.dataCh < 255
    ensures Run(s, FILLED)
            == s.(manager := Listening(Some(s.manager.slot)), pooled := true, dataCh := s.dataCh + 1)
  {
    RunOne(s.(manager := Greeting(s.manager.slot)), Greeted(true), []);
    RunOne(s.(manager := Connecting(s.manager.slot)), Connected(true), [Greeted(true)]);
    RunOne(s, Resolved(true), [Connected(true), Greeted(true)]);
  }

  lemma BecomesStandby(s: State)
    requires s.manager == Listening(None) && FirstFree(s.slots) < |s.slots| && s.dataCh < 255
    ensures Run(s, TO_STANDBY) == WithStandby(s, FirstFree(s.slots))
  {
    RunOne(s, CreateDataChannel(true, true), FILLED);
    FillSucceeds(Step(s, CreateDataChannel(true, true)));
  }

  lemma FindsNone(s: State)
    requires s.manager == Listening(None) && FirstFree(s.slots) == |s.slots|
    ensures Run(s, TO_STANDBY) == s
  {
    RunOne(s, CreateDataChannel(true, true), FILLED);
    RunOne(s, Resolved(true), [Connected(true), Greeted(true)]);
    RunOne(s, Connected(true), [Greeted(true)]);
    RunOne(s, Greeted(true), []);
  }

  /** A listening manager that meets no failure fills the lowest free slot, if channels and leaks
      leave one. */
  lemma Fills(s: State)
    requires Inv(s) && s.manager == Listening(None)
    ensures FirstFree(s.slots) < |s.slots| <==> s.dataCh + |s.leaked| < |s.slots|
    ensures Run(s, TO_STANDBY)
            == if s.dataCh + |s.leaked| < |s.slots| then WithStandby(s, FirstFree(s.slots)) else s
  {
    FindsSlotIff(s);
    if s.dataCh + |s.leaked| < |s.slots| { BecomesStandby(s); } else { FindsNone(s); }
  }

  /** Whenever the manager is away, the next session that comes up gets its standby, on the lowest
      free slot and with one more count, exactly when channels and leaks leave a slot. */
  lemma ComesUp(s: State)
    requires Inv(s) && s.manager.Away?
    ensures FirstFree(s.slots) < |s.slots| <==> s.dataCh + |s.leaked| < |s.slots|
    ensures var up := s.(manager := Listening(None));
            Run(s, [ControlUp] + TO_STANDBY)
            == if s.dataCh + |s.leaked| < |s.slots| then WithStandby(up, FirstFree(s.slots)) else up
  {
    AwayKeepsInv(s);
    RunOne(s, ControlUp, TO_STANDBY);
    Fills(s.(manager := Listening(None)));
  }

  /** So it is from power-on. */
  lemma PowersUp(slots: nat, tasks: nat)
    requires 0 < slots < 256
    ensures Run(Blank(slots, tasks), [ControlUp] + TO_STANDBY)
            == WithStandby(Blank(slots, tasks).(manager := Listening(None)), 0)
  {
    EveryRunKeepsInv(slots, tasks, []);
    FirstFreeIs(Clear(slots), 0);
    ComesUp(Blank(slots, tasks));
  }

  /** A session that ends gives its standby up; the next one finds the slot free. */
  lemma ComesBack(s: State)
    requires Inv(s) && s.manager.Listening?
    ensures var t := Run(s, [ControlDown, ControlUp] + TO_STANDBY);
            var slots := if HasStandby(s) then Freed(s, s.manager.pool.value).slots else s.slots;
            && t.queue == s.queue && t.forwarders == s.forwarders && t.leaked == s.leaked
            && (HasStandby(t) <==> FirstFree(slots) < |slots|) && (HasStandby(s) ==> HasStandby(t))
            && (HasStandby(t) ==> t.manager.pool.value == FirstFree(slots) && t.slots == slots[FirstFree(slots) := true])
  {
    var down := Step(s, ControlDown);
    AwayKeepsInv(s);
    ComesUp(down);
    WhatInvMeans(s);
    RunOne(s, ControlDown, [ControlUp] + TO_STANDBY);
    assert [ControlDown, ControlUp] + TO_STANDBY == [ControlDown] + ([ControlUp] + TO_STANDBY);
    if HasStandby(s) { assert Users(s, s.manager.pool.value) == Bit(s.slots, s.manager.pool.value); }
  }

  // What can go wrong for a request or a standby.
  predicate SetBack(s: State, e: Event) {
    match e
    case CreateDataChannel(heapOk, addrOk) => s.manager == Listening(None) && !(heapOk && addrOk)
    case Resolved(ok) => s.manager.Resolving? && !ok
    case Connected(ok) => s.manager.Connecting? && !ok
    case Greeted(ok) => s.manager.Greeting? && !ok
    case StandbyLost => HasStandby(s)
    case StartForward(heapOk, addrOk) => HasStandby(s) && !(heapOk && addrOk)
    case _ => false
  }

  // The slot that is given up with it.
  function InUse(m: Manager): Option<nat> {
    if m.Listening? then m.pool else Filling(m)
  }

  lemma SlotInUse(s: State)
    requires Inv(s) && InUse(s.manager).Some?
    ensures InUse(s.manager).value < |s.slots| && s.dataCh + |s.leaked| < |s.slots| + Size(Standby(s.manager))
  {
    assert Users(s, InUse(s.manager).value) == Bit(s.slots, InUse(s.manager).value);
  }

  lemma GivesUp(s: State, e: Event)
    requires Inv(s) && SetBack(s, e)
    ensures var t := Step(s, e);
            && t.manager == Listening(None) && t.queue == s.queue && t.forwarders == s.forwarders
            && |t.slots| == |s.slots| && t.dataCh == s.dataCh - Size(Standby(s.manager))
            && (InUse(s.manager).Some? && !Leaks(s, e) ==>
                  t.leaked == s.leaked && t.slots == Freed(s, InUse(s.manager).value).slots)
  {
    if InUse(s.manager).Some? { SlotInUse(s); }
  }

  /** After a failure of any kind the next CreateDataChannel is served: always when a slot was given
      up, and if the slot leaked exactly when another one is left. The visitors of the other
      tasks do not notice. */
  lemma ServedAfter(s: State, e: Event)
    requires Inv(s) && SetBack(s, e)
    ensures var t := Run(s, [e] + TO_STANDBY);
            && t.queue == s.queue && t.forwarders == s.forwarders
            && (HasStandby(t) <==> s.dataCh - Size(Standby(s.manager)) + |t.leaked| < |s.slots|)
            && (HasStandby(t) ==> t.dataCh == s.dataCh - Size(Standby(s.manager)) + 1)
            && (InUse(s.manager).Some? && !Leaks(s, e) ==>
                  var slots := Freed(s, InUse(s.manager).value).slots;
                  && HasStandby(t) && t.leaked == s.leaked
                  && t.manager.pool.value == FirstFree(slots) < |slots| && t.slots == slots[FirstFree(slots) := true])
  {
    StepKeepsInv(s, e);
    GivesUp(s, e);
    if InUse(s.manager).Some? { SlotInUse(s); }
    Fills(Step(s, e));
    RunOne(s, e, TO_STANDBY);
  }

  // ---------------------------------------------------- while other tasks go on --

  predicate ByTask(e: Event) {
    e.Receive? || e.SessionOver?
  }

  // What the manager does in a run.
  function Managed(es: seq<Event>): seq<Event> {
    if es == [] then [] else (if ByTask(es[0]) then [] else [es[0]]) + Managed(es[1..])
  }

  // The outcomes that are still to come before the standby is there.
  function ToCome(m: Manager): seq<Event> {
    match m
    case Resolving(_) => FILLED
    case Connecting(_) => FILLED[1..]
    case Greeting(_) => FILLED[2..]
    case Listening(_) => if m.pool.Some? then [] else TO_STANDBY
    case Away => [ControlUp] + TO_STANDBY
  }

  lemma TaskStep(s: State, e: Event)
    requires Inv(s) && ByTask(e)
    ensures var t := Step(s, e);
            && t.manager == s.manager && t.leaked == s.leaked && |t.slots| == |s.slots| && t.dataCh <= s.dataCh
  {
    WhatInvMeans(s);
  }

  lemma ManagerStep(s: State, e: Event)
    requires Inv(s) && ToCome(s.manager) != [] && e == ToCome(s.manager)[0]
    requires Filling(s.manager).None? ==> s.dataCh + |s.leaked| < |s.slots|
    ensures var t := Step(s, e);
            && ToCome(t.manager) == ToCome(s.manager)[1..]
            && (Filling(t.manager).None? && !HasStandby(t) ==> t.dataCh + |t.leaked| < |t.slots|)
  {
    if s.manager == Listening(None) { FindsSlotIff(s); }
    if s.manager.Away? { assert ([ControlUp] + TO_STANDBY)[1..] == TO_STANDBY; }
  }

  /** What forward tasks do in between changes nothing about it: from wherever the manager stands,
      if a slot is left or already taken, the outcomes that are to come lead to a standby in
      every interleaving with them. */
  lemma {:induction false} FillsAmongOthers(s: State, es: seq<Event>)
    requires Inv(s) && Managed(es) == ToCome(s.manager)
    requires Filling(s.manager).None? && !HasStandby(s) ==> s.dataCh + |s.leaked| < |s.slots|
    ensures HasStandby(Run(s, es))
    decreases |es|
  {
    if es == [] {
    } else {
      StepKeepsInv(s, es[0]);
      if ByTask(es[0]) {
        TaskStep(s, es[0]);
        assert [] + Managed(es[1..]) == Managed(es[1..]);
      } else {
        assert ([es[0]] + Managed(es[1..]))[1..] == Managed(es[1..]);
        ManagerStep(s, es[0]);
      }
      FillsAmongOthers(Step(s, es[0]), es[1..]);
    }
  }

  lemma IsHandedOver(s: State, task: nat)
    requires HasStandby(s) && s.queue == [] && |s.slots| > 0
    requires task < |s.forwarders| && s.forwarders[task].None?
    ensures Run(s, [StartForward(true, true), Receive(task)])
            == s.(manager := Listening(None), pooled := false, forwarders := s.forwarders[task := s.manager.pool])
  {
    var slot := s.manager.pool.value;
    var t := s.(manager := Listening(None), pooled := false, queue := [slot]);
    assert [] + [slot] == [slot] && [slot][1..] == [];
    RunOne(t, Receive(task), []);
    RunOne(s, StartForward(true, true), [Receive(task)]);
  }

  function Forwarding(s: State, task: nat, i: nat): State
    requires i < |s.slots| && task < |s.forwarders|
  {
    s.(slots := s.slots[i := true], dataCh := s.dataCh + 1, forwarders := s.forwarders[task := Some(i)])
  }

  lemma SessionUndone(s: State, task: nat, i: nat)
    requires i < |s.slots| && !s.slots[i] && s.dataCh < 255
    requires task < |s.forwarders| && s.forwarders[task].None?
    ensures Step(Forwarding(s, task, i), SessionOver(task)) == s
  {
    assert s.slots[i := true][i := false] == s.slots;
    assert s.forwarders[task := Some(i)][task := None] == s.forwarders;
  }

  lemma Reached(s: State, mid: State, task: nat)
    requires s.manager == Listening(None) && !s.pooled && s.queue == [] && FirstFree(s.slots) < |s.slots|
    requires task < |s.forwarders| && s.forwarders[task].None?
    requires mid == s.(slots := s.slots[FirstFree(s.slots) := true], manager := Listening(Some(FirstFree(s.slots))),
                       pooled := true, dataCh := s.dataCh + 1)
    ensures Run(mid, [StartForward(true, true), Receive(task)]) == Forwarding(s, task, FirstFree(s.slots))
  {
    IsHandedOver(mid, task);
  }

  /** A visitor, from the command to the forward task, takes the lowest free slot and one count;
      its end undoes all of it. */
  lemma VisitorServed(s: State, task: nat)
    requires Inv(s) && s.manager == Listening(None) && s.queue == []
    requires task < |s.forwarders| && s.forwarders[task].None? && s.dataCh + |s.leaked| < |s.slots|
    ensures FirstFree(s.slots) < |s.slots|
    ensures Run(Run(s, TO_STANDBY), [StartForward(true, true), Receive(task)])
            == Forwarding(s, task, FirstFree(s.slots))
    ensures Step(Forwarding(s, task, FirstFree(s.slots)), SessionOver(task)) == s
  {
    FindsSlotIff(s);
    BecomesStandby(s);
    Reached(s, Run(s, TO_STANDBY), task);
    SessionUndone(s, task, FirstFree(s.slots));
  }

  // The slots of the visitors handed over, and of those a task has received, in a run.
  function HandedIn(s: State, es: seq<Event>): seq<nat>
    decreases |es|
  {
    if es == [] then []
    else
      var t := Step(s, es[0]);
      (if es[0].StartForward? && |t.queue| > |s.queue| then [t.queue[|t.queue| - 1]] else []) + HandedIn(t, es[1..])
  }

  function ReceivedIn(s: State, es: seq<Event>): seq<nat>
    decreases |es|
  {
    if es == [] then []
    else
      var t := Step(s, es[0]);
      (if es[0].Receive? && |t.queue| < |s.queue| then [s.queue[0]] else []) + ReceivedIn(t, es[1..])
  }

  lemma StepQueues(s: State, e: Event)
    ensures var t := Step(s, e);
            if e.StartForward? && |t.queue| > |s.queue| then t.queue == s.queue + [t.queue[|t.queue| - 1]]
            else if e.Receive? && |t.queue| < |s.queue| then s.queue == [s.queue[0]] + t.queue
            else t.queue == s.queue
  {
  }

  /** Over every run and interleaving the forward tasks get the visitors in the order they were
      handed over, and none is left out. */
  lemma {:induction false} ReceivedInOrder(s: State, es: seq<Event>)
    ensures s.queue + HandedIn(s, es) == ReceivedIn(s, es) + Run(s, es).queue
    decreases |es|
  {
    if es == [] {
    } else {
      var t, more, taken := Step(s, es[0]), HandedIn(Step(s, es[0]), es[1..]), ReceivedIn(Step(s, es[0]), es[1..]);
      ReceivedInOrder(t, es[1..]);
      StepQueues(s, es[0]);
      if es[0].StartForward? && |t.queue| > |s.queue| {
        Assoc(s.queue, [t.queue[|t.queue| - 1]], more);
      } else if es[0].Receive? && |t.queue| < |s.queue| {
        Assoc([s.queue[0]], t.queue, more);
        Assoc([s.queue[0]], taken, Run(s, es).queue);
      } else {
        assert [] + more == more && [] + taken == taken;
      }
    }
  }

  // Sessions that end and requests that are taken, on one task.
  function Rounds(task: nat, n: nat): seq<Event> {
    if n == 0 then [] else [SessionOver(task)] + ([Receive(task)] + Rounds(task, n - 1))
  }

  lemma OneRound(s: State, task: nat, es: seq<Event>)
    requires s.queue != [] && task < |s.forwarders|
    ensures var t := Step(Step(s, SessionOver(task)), Receive(task));
            && Run(s, [SessionOver(task)] + ([Receive(task)] + es)) == Run(t, es)
            && HandedIn(s, [SessionOver(task)] + ([Receive(task)] + es)) == HandedIn(t, es)
            && t.queue == s.queue[1..] && t.manager == s.manager
            && |t.forwarders| == |s.forwarders| && t.forwarders[task] == Some(s.queue[0])
  {
    var over := Step(s, SessionOver(task));
    RunOne(s, SessionOver(task), [Receive(task)] + es);
    RunOne(over, Receive(task), es);
    assert ([SessionOver(task)] + ([Receive(task)] + es))[1..] == [Receive(task)] + es;
    assert ([Receive(task)] + es)[1..] == es;
  }

  lemma {:induction false} RoundsEmpty(s: State, task: nat, n: nat)
    requires n == |s.queue| && task < |s.forwarders|
    ensures var t := Run(s, Rounds(task, n));
            && t.queue == [] && t.manager == s.manager && task < |t.forwarders|
            && (n > 0 ==> t.forwarders[task] == Some(s.queue[n - 1]))
    ensures HandedIn(s, Rounds(task, n)) == []
    decreases n
  {
    if n == 0 {
    } else {
      var t := Step(Step(s, SessionOver(task)), Receive(task));
      OneRound(s, task, Rounds(task, n - 1));
      RoundsEmpty(t, task, n - 1);
      if n > 1 { assert t.queue[n - 2] == s.queue[n - 1]; }
    }
  }

  /** A visitor handed over behind any number of others is reached: once a task has had as many
      sessions as there are before it, in their order, it forwards this one. */
  lemma VisitorReached(s: State, task: nat)
    requires Inv(s) && HasStandby(s) && task < |s.forwarders|
    ensures var queue := s.queue + [s.manager.pool.value];
            var queued := Run(s, [StartForward(true, true)]);
            var t := Run(queued, Rounds(task, |queue|));
            && queued == s.(manager := Listening(None), pooled := false, queue := queue)
            && ReceivedIn(queued, Rounds(task, |queue|)) == queue
            && t.queue == [] && task < |t.forwarders| && t.forwarders[task] == s.manager.pool
  {
    WhatInvMeans(s);
    RunOne(s, StartForward(true, true), []);
    var queue := s.queue + [s.manager.pool.value];
    var queued := s.(manager := Listening(None), pooled := false, queue := queue);
    RoundsEmpty(queued, task, |queue|);
    ReceivedInOrder(queued, Rounds(task, |queue|));
    assert queue + [] == queue;
    assert ReceivedIn(queued, Rounds(task, |queue|)) + [] == ReceivedIn(queued, Rounds(task, |queue|));
  }

  function LeakCount(s: State, es: seq<Event>): nat
    decreases |es|
  {
    if es == [] then 0 else (if Leaks(s, es[0]) then 1 else 0) + LeakCount(Step(s, es[0]), es[1..])
  }

  lemma StepLeaks(s: State, e: Event)
    ensures |Step(s, e).slots| == |s.slots|
    ensures if Leaks(s, e) then |Step(s, e).leaked| == |s.leaked| + 1 && s.leaked <= Step(s, e).leaked
            else Step(s, e).leaked == s.leaked
  {
  }

  /** A slot is lost at those two returns and nowhere else, and never comes back. */
  lemma {:induction false} LeaksAdd(s: State, es: seq<Event>)
    ensures |Run(s, es).slots| == |s.slots|
    ensures s.leaked <= Run(s, es).leaked
    ensures |Run(s, es).leaked| == |s.leaked| + LeakCount(s, es)
    decreases |es|
  {
    if es == [] {
    } else {
      StepLeaks(s, es[0]);
      LeaksAdd(Step(s, es[0]), es[1..]);
    }
  }

  /** There are at most as many leaks as slots; once there are as many, the tunnel is dead: it
      never has a data channel again, whatever follows. */
  lemma LeakedDry(slots: nat, tasks: nat, es: seq<Event>, more: seq<Event>)
    requires slots < 256
    ensures LeakCount(Blank(slots, tasks), es) <= slots
    ensures LeakCount(Blank(slots, tasks), es) == slots ==> Run(Run(Blank(slots, tasks), es), more).dataCh == 0
  {
    var s := Blank(slots, tasks);
    var t := Run(s, es);
    EveryRunKeepsInv(slots, tasks, es);
    LeaksAdd(s, es);
    WhatInvMeans(t);
    RunKeepsInv(t, more);
    LeaksAdd(t, more);
    WhatInvMeans(Run(t, more));
  }

  // ------------------------------------------------------------------ the program --

  /** The statics and the manager's and tasks' places; each method is the code between two
      awaits. */
  class Tunnel {
    var slots: seq<bool>
    var dataCh: nat
    var pooled: bool
    var manager: Manager
    var queue: seq<nat>
    var forwarders: seq<Option<nat>>
    ghost var leaked: seq<nat>

    ghost function View(): State
      reads this
    {
      State(slots, dataCh, pooled, manager, queue, forwarders, leaked)
    }

    constructor (slotCount: nat, tasks: nat)
      ensures View() == Blank(slotCount, tasks)
    {
      slots, dataCh, pooled, manager := Clear(slotCount), 0, false, Away;
      queue, forwarders, leaked := [], Idle(tasks), [];
    }

    method SlotAlloc() returns (r: Option<nat>)
      modifies this`slots
      ensures var i := FirstFree(old(slots));
              if i < |old(slots)| then r == Some(i) && slots == old(slots)[i := true]
              else r == None && slots == old(slots)
    {
      var i := 0;
      while i < |slots|
        invariant i <= |slots| && slots == old(slots)
        invariant forall k :: 0 <= k < i ==> slots[k]
      {
        var was := slots[i];
        slots := slots[i := true]; // fetch_or
        if !was {
          FirstFreeIs(old(slots), i);
          return Some(i);
        }
        i := i + 1;
      }
      FirstFreeIs(slots, i);
      return None;
    }

    method SlotFree(i: nat)
      modifies this`slots
      ensures slots == if i < |old(slots)| then old(slots)[i := false] else old(slots)
    {
      if i < |slots| { slots := slots[i := false]; }
    }

    method Handshake()
      requires manager.Away?
      modifies this
      ensures View() == Step(old(View()), ControlUp)
    {
      manager := Listening(None);
    }

    /** A full control command: CreateDataChannel with a standby present is dropped. */
    method OnCreateDataChannel(heapOk: bool, addrOk: bool)
      requires manager.Listening?
      modifies this
      ensures View() == Step(old(View()), CreateDataChannel(heapOk, addrOk))
    {
      if manager.pool.Some? || !heapOk { return; }
      var slot := SlotAlloc();
      if slot.None? { return; }
      if !addrOk {
        leaked := leaked + [slot.value];
        return;
      }
      manager := Resolving(slot.value);
    }

    method OnResolved(ok: bool)
      requires manager.Resolving?
      modifies this
      ensures View() == Step(old(View()), Resolved(ok))
    {
      if !ok {
        leaked := leaked + [manager.slot];
        manager := Listening(None);
        return;
      }
      manager := Connecting(manager.slot);
    }

    method OnConnected(ok: bool)
      requires manager.Connecting?
      modifies this
      ensures View() == Step(old(View()), Connected(ok))
    {
      if !ok {
        SlotFree(manager.slot);
        manager := Listening(None);
        return;
      }
      manager := Greeting(manager.slot);
    }

    method OnGreeted(ok: bool)
      requires manager.Greeting?
      modifies this
      ensures View() == Step(old(View()), Greeted(ok))
    {
      if !ok {
        SlotFree(manager.slot);
        manager := Listening(None);
        return;
      }
      pooled := true;
      dataCh := Inc(dataCh);
      manager := Listening(Some(manager.slot));
    }

    method OnStandbyLost()
      requires manager.Listening?
      modifies this
      ensures View() == Step(old(View()), StandbyLost)
    {
      if manager.pool.Some? {
        SlotFree(manager.pool.value);
        pooled := false;
        dataCh := Dec(dataCh);
        manager := Listening(None);
      }
    }

    method TrySend(slot: nat) returns (ok: bool)
      modifies this`queue
      ensures ok == (|old(queue)| < |slots|)
      ensures queue == if ok then old(queue) + [slot] else old(queue)
    {
      ok := |queue| < |slots|;
      if ok { queue := queue + [slot]; }
    }

    method OnStartForward(heapOk: bool, addrOk: bool)
      requires manager.Listening? && manager.pool.Some?
      modifies this
      ensures View() == Step(old(View()), StartForward(heapOk, addrOk))
    {
      var slot := manager.pool.value;
      manager := Listening(None);
      pooled := false;
      if heapOk && addrOk {
        var sent := TrySend(slot);
        if !sent {
          SlotFree(slot);
          dataCh := Dec(dataCh);
        }
      } else {
        SlotFree(slot);
        dataCh := Dec(dataCh);
      }
    }

    method OnControlDown()
      requires manager.Listening?
      modifies this
      ensures View() == Step(old(View()), ControlDown)
    {
      if manager.pool.Some? {
        SlotFree(manager.pool.value);
        dataCh := Dec(dataCh);
      }
      pooled := false;
      manager := Away;
    }

    method OnReceive(task: nat)
      requires task < |forwarders| && forwarders[task].None? && queue != []
      modifies this
      ensures View() == Step(old(View()), Receive(task))
    {
      forwarders := forwarders[task := Some(queue[0])];
      queue := queue[1..];
    }

    method OnSessionOver(task: nat)
      requires task < |forwarders| && forwarders[task].Some?
      modifies this
      ensures View() == Step(old(View()), SessionOver(task))
    {
      SlotFree(forwarders[task].value);
      dataCh := Dec(dataCh);
      forwarders := forwarders[task := None];
    }
  }
}
