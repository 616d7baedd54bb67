/** The multi-host slot table of the CH582 keyboard (`hidkbd_ble.c`, KBD_MULTI builds) with
    the output target of `at_cmds.c`: which host owns which slot, who may connect, who is
    told to leave. */
module SlotTable {

  const GAP_CONNHANDLE_INIT: nat := 0xFFFE

  type Addr = seq<bv8> // six bytes, least significant first

  const FREE_ROW: Addr := [0xFF, 0xFF, 0xFF, 0xFF, 0xFF, 0xFF]

  datatype Conn = Conn(handle: nat, addr: Addr) {
    predicate Linked() {
      handle != GAP_CONNHANDLE_INIT
    }
  }

  // A row is taken for free on its first byte alone.
  predicate Bound(row: Addr) {
    |row| == 6 && row[0] != 0xFF
  }

  // --------------------------------------------------------------- lookups --

  function Find(rows: seq<Addr>, a: Addr, from: nat := 0): (s: int)
    requires from <= |rows|
    ensures -1 <= s < |rows|
    ensures s >= 0 ==> from <= s && Bound(rows[s]) && rows[s] == a
    ensures s < 0 ==> forall k :: from <= k < |rows| ==> !(Bound(rows[k]) && rows[k] == a)
    decreases |rows| - from
  {
    if from == |rows| then -1
    else if Bound(rows[from]) && rows[from] == a then from
    else Find(rows, a, from + 1)
  }

  function SlotOf(conns: seq<Conn>, h: nat, from: nat := 0): (s: int)
    requires from <= |conns|
    ensures -1 <= s < |conns|
    ensures s >= 0 ==> from <= s && conns[s].handle == h
    ensures s < 0 ==> forall k :: from <= k < |conns| ==> conns[k].handle != h
    decreases |conns| - from
  {
    if from == |conns| then -1
    else if conns[from].handle == h then from
    else SlotOf(conns, h, from + 1)
  }

  predicate Vacant(conns: seq<Conn>, rows: seq<Addr>, s: int) {
    0 <= s < |conns| && s < |rows| && !conns[s].Linked() && !Bound(rows[s])
  }

  function LowestVacant(conns: seq<Conn>, rows: seq<Addr>, from: nat := 0): (s: int)
    requires from <= |conns| == |rows|
    ensures s == -1 || (from <= s && Vacant(conns, rows, s))
    ensures s == -1 ==> forall k :: from <= k < |conns| ==> !Vacant(conns, rows, k)
    ensures forall k :: from <= k < s ==> !Vacant(conns, rows, k)
    decreases |conns| - from
  {
    if from == |conns| then -1
    else if Vacant(conns, rows, from) then from
    else LowestVacant(conns, rows, from + 1)
  }

  /** Where a new pairing lands: the window's slot, else the active one, else the lowest. */
  function NextPairSlot(d: Dev): (s: int)
    requires d.Shape()
    ensures s == -1 || Vacant(d.conns, d.rows, s)
    ensures s == -1 ==> forall k :: 0 <= k < |d.conns| ==> !Vacant(d.conns, d.rows, k)
    ensures Vacant(d.conns, d.rows, d.pairSlot) ==> s == d.pairSlot
    ensures !Vacant(d.conns, d.rows, d.pairSlot) && Vacant(d.conns, d.rows, d.target) ==> s == d.target
    ensures s != d.pairSlot && s != d.target ==> forall k :: 0 <= k < s ==> !Vacant(d.conns, d.rows, k)
  {
    if Vacant(d.conns, d.rows, d.pairSlot) then d.pairSlot
    else if Vacant(d.conns, d.rows, d.target) then d.target
    else LowestVacant(d.conns, d.rows)
  }

  // ------------------------------------------------------------- the device --

  /** The table with what only the radio knows. `target` is the BLE slot selected for output,
      -1 for USB; `pairSlot` is -1 while no pairing window is open. `live` holds every link
      with its peer, accepted or not, `doomed` those told to terminate, `guests` those an
      unknown host got in an open window since the last activation. */
  datatype Dev = Dev(conns: seq<Conn>, rows: seq<Addr>, flash: seq<Addr>, target: int, pairSlot: int,
                     live: map<nat, Addr>, doomed: set<nat>, guests: set<nat>)
  {
    predicate Shape() {
      && |conns| == |rows| == |flash| > 1
      && -1 <= target < |conns| && -1 <= pairSlot < |conns|
    }
  }

  datatype Event =
    | LinkUp(h: nat, a: Addr)
    | LinkDown(h: nat)
    | SelectDev(t: int)
    | Pair(slot: nat)
    | PairActive
    | WindowClosed
    | Unbind(slot: nat)
    | Disconnect(slot: nat)
    | FactoryReset
    | Reboot

  ghost predicate InRange(d: Dev, e: Event) {
    match e
    case LinkUp(h, a) => |a| == 6
    case SelectDev(t) => -1 <= t < |d.conns|
    case Pair(slot) => slot < |d.conns|
    case Unbind(slot) => slot < |d.conns|
    case Disconnect(slot) => slot < |d.conns|
    case _ => true
  }

  /** The radio hands out handles that are not in use and is not the sentinel, keeps one link
      per peer, and takes down links that are up. */
  ghost predicate Possible(d: Dev, e: Event) {
    && InRange(d, e)
    && (e.LinkUp? ==> e.h != GAP_CONNHANDLE_INIT && e.h !in d.live && e.a !in d.live.Values)
    && (e.LinkDown? ==> e.h in d.live)
  }

  function FreeRows(n: nat): (rows: seq<Addr>)
    ensures |rows| == n && forall i :: 0 <= i < n ==> rows[i] == FREE_ROW
  {
    seq(n, _ => FREE_ROW)
  }

  function Unlinked(n: nat): (cs: seq<Conn>)
    ensures |cs| == n && forall i :: 0 <= i < n ==> !cs[i].Linked()
  {
    seq(n, _ => Conn(GAP_CONNHANDLE_INIT, []))
  }

  ghost function HandleAt(c: Conn): set<nat> {
    if c.Linked() then {c.handle} else {}
  }

  ghost function Unbound(d: Dev, slot: nat): (d': Dev)
    requires d.Shape() && slot < |d.conns|
    ensures d'.Shape() && |d'.conns| == |d.conns|
  {
    if !Bound(d.rows[slot]) then d
    else d.(rows := d.rows[slot := FREE_ROW], flash := d.rows[slot := FREE_ROW],
            doomed := d.doomed + HandleAt(d.conns[slot]))
  }

  ghost function HandlesExcept(conns: seq<Conn>, slot: int): set<nat> {
    set s | 0 <= s < |conns| && conns[s].Linked() && s != slot :: conns[s].handle
  }

  ghost function Activated(d: Dev): (d': Dev)
    requires d.Shape()
    ensures d'.Shape() && |d'.conns| == |d.conns|
  {
    d.(doomed := d.doomed + HandlesExcept(d.conns, d.target), guests := {},
       pairSlot := if d.target < 0 then -1 else d.pairSlot)
  }

  // All but the restart that follows.
  ghost function Wiped(d: Dev): (d': Dev)
    requires d.Shape()
    ensures d'.Shape() && |d'.conns| == |d.conns|
  {
    var rows := FreeRows(|d.rows|);
    d.(rows := rows, flash := rows, doomed := d.doomed + HandlesExcept(d.conns, -1))
  }

  ghost function Unseated(d: Dev, h: nat): (d': Dev)
    requires d.Shape()
    ensures d'.Shape() && |d'.conns| == |d.conns|
  {
    var s := SlotOf(d.conns, h);
    var down := d.(live := d.live - {h}, doomed := d.doomed - {h}, guests := d.guests - {h});
    if s < 0 then down else down.(conns := d.conns[s := d.conns[s].(handle := GAP_CONNHANDLE_INIT)])
  }

  ghost function Seated(d: Dev, h: nat, a: Addr): (d': Dev)
    requires d.Shape() && |a| == 6
    ensures d'.Shape() && |d'.conns| == |d.conns|
  {
    var own, next := Find(d.rows, a), NextPairSlot(d);
    if SlotOf(d.conns, h) >= 0 then d
    else if own >= 0 && !d.conns[own].Linked() then d.(conns := d.conns[own := Conn(h, a)])
    else if next < 0 then d.(doomed := d.doomed + {h})
    else d.(conns := d.conns[next := Conn(h, a)], rows := d.rows[next := a], flash := d.rows[next := a],
            guests := if own < 0 then d.guests + {h} else d.guests)
  }

  // A known host off the active slot, or an unknown one outside the window.
  predicate Dropped(d: Dev, a: Addr) {
    var s := Find(d.rows, a);
    if s < 0 then d.pairSlot < 0 else d.target != s
  }

  ghost function Step(d: Dev, e: Event): (d': Dev)
    requires d.Shape() && InRange(d, e)
    ensures d'.Shape() && |d'.conns| == |d.conns|
  {
    match e
    case LinkUp(h, a) =>
      var up := d.(live := d.live[h := a]);
      if Dropped(d, a) then up.(doomed := d.doomed + {h}) else Seated(up, h, a)
    case LinkDown(h) => Unseated(d, h)
    case SelectDev(t) => Activated(d.(target := t))
    case Pair(slot) => Activated(Unbound(d, slot).(target := slot)).(pairSlot := slot)
    case PairActive => if d.target < 0 then d else Activated(d).(pairSlot := d.target)
    case WindowClosed => d.(pairSlot := -1)
    case Unbind(slot) => Unbound(d, slot)
    case Disconnect(slot) => d.(doomed := d.doomed + HandleAt(d.conns[slot]))
    case FactoryReset => Wiped(d)
    case Reboot => Dev(Unlinked(|d.conns|), d.flash, d.flash, 0, -1, map[], {}, {})
  }

  // ------------------------------------------------------------ invariants --

  ghost predicate RowsInv(d: Dev) {
    && d.Shape() && d.flash == d.rows
    && (forall s :: 0 <= s < |d.rows| ==> |d.rows[s]| == 6)
    && (forall s, t :: 0 <= s < t < |d.rows| && Bound(d.rows[s]) && Bound(d.rows[t]) ==> d.rows[s] != d.rows[t])
  }

  ghost predicate LinksInv(d: Dev) {
    && d.Shape()
    && (forall h, k :: h in d.live && k in d.live && h != k ==> d.live[h] != d.live[k])
    && GAP_CONNHANDLE_INIT !in d.live
    && d.doomed <= d.live.Keys && d.guests <= d.live.Keys
    && (forall s :: 0 <= s < |d.conns| && d.conns[s].Linked() ==>
          d.conns[s].handle in d.live && d.live[d.conns[s].handle] == d.conns[s].addr)
    && (forall s, t :: 0 <= s < t < |d.conns| && d.conns[s].Linked() ==> d.conns[s].handle != d.conns[t].handle)
    && (forall s :: 0 <= s < |d.conns| && d.conns[s].Linked() && Bound(d.rows[s]) ==> d.conns[s].addr == d.rows[s])
  }

  /** Every link not told to leave is on the active slot, or a guest of the window. */
  ghost predicate PolicyInv(d: Dev) {
    && d.Shape()
    && (forall s :: 0 <= s < |d.conns| && d.conns[s].Linked() ==>
          s == d.target || d.conns[s].handle in d.doomed || d.conns[s].handle in d.guests)
    && (forall h :: h in d.live && h !in d.doomed ==> SlotOf(d.conns, h) >= 0)
  }

  ghost predicate Inv(d: Dev) {
    RowsInv(d) && LinksInv(d) && PolicyInv(d)
  }

  lemma LinkDownKeepsInv(d: Dev, h: nat)
    requires Inv(d) && h in d.live
    ensures Inv(Step(d, LinkDown(h)))
  {
    var d' := Step(d, LinkDown(h));
    forall k | k in d'.live && k !in d'.doomed ensures SlotOf(d'.conns, k) >= 0 {
      assert d'.conns[SlotOf(d.conns, k)].handle == k;
    }
  }

  // The slot a link that is let in takes.
  ghost function SeatOf(d: Dev, h: nat, a: Addr): int
    requires d.Shape()
  {
    var own := Find(d.rows, a);
    if own >= 0 && !d.conns[own].Linked() then own else NextPairSlot(d)
  }

  // A known host finds its own slot empty: whoever sits there has its address.
  lemma SeatIsVacant(d: Dev, h: nat, a: Addr)
    requires Inv(d) && Possible(d, LinkUp(h, a))
    ensures SlotOf(d.conns, h) < 0
    ensures Find(d.rows, a) >= 0 ==> !d.conns[Find(d.rows, a)].Linked()
  {
  }

  lemma LinkUpKeepsPolicy(d: Dev, h: nat, a: Addr)
    requires Inv(d) && Possible(d, LinkUp(h, a))
    ensures PolicyInv(Step(d, LinkUp(h, a)))
  {
    SeatIsVacant(d, h, a);
    var d' := Step(d, LinkUp(h, a));
    forall k | k in d'.live && k !in d'.doomed ensures SlotOf(d'.conns, k) >= 0 {
      var s := if k == h then SeatOf(d, h, a) else SlotOf(d.conns, k);
      assert d'.conns[s].handle == k;
    }
  }

  lemma SeatKeepsLinks(d: Dev, h: nat, a: Addr, s: int, rows: seq<Addr>, guests: set<nat>)
    requires LinksInv(d) && Possible(d, LinkUp(h, a))
    requires 0 <= s < |d.conns| && !d.conns[s].Linked()
    requires (rows == d.rows && rows[s] == a) || rows == d.rows[s := a]
    requires guests <= d.guests + {h}
    ensures LinksInv(d.(live := d.live[h := a], conns := d.conns[s := Conn(h, a)], rows := rows, flash := rows,
                        guests := guests))
  {
  }

  lemma LinkUpKeepsLinks(d: Dev, h: nat, a: Addr)
    requires Inv(d) && Possible(d, LinkUp(h, a)) && !Dropped(d, a)
    ensures LinksInv(Step(d, LinkUp(h, a)))
  {
    SeatIsVacant(d, h, a);
    var own, next := Find(d.rows, a), NextPairSlot(d);
    if own >= 0 {
      SeatKeepsLinks(d, h, a, own, d.rows, d.guests);
    } else if next >= 0 {
      SeatKeepsLinks(d, h, a, next, d.rows[next := a], d.guests + {h});
    }
  }

  lemma LinkUpKeepsRows(d: Dev, h: nat, a: Addr)
    requires Inv(d) && Possible(d, LinkUp(h, a)) && !Dropped(d, a)
    ensures RowsInv(Step(d, LinkUp(h, a)))
  {
    SeatIsVacant(d, h, a);
  }

  lemma LinkUpKeepsInv(d: Dev, h: nat, a: Addr)
    requires Inv(d) && Possible(d, LinkUp(h, a))
    ensures Inv(Step(d, LinkUp(h, a)))
  {
    if Dropped(d, a) {
      LinkUpKeepsPolicy(d, h, a);
    } else {
      SeatIsVacant(d, h, a);
      LinkUpKeepsRows(d, h, a);
      LinkUpKeepsLinks(d, h, a);
      LinkUpKeepsPolicy(d, h, a);
    }
  }

  lemma UnboundKeepsInv(d: Dev, slot: nat)
    requires Inv(d) && slot < |d.conns|
    ensures Inv(Unbound(d, slot))
  {
  }

  lemma WipedKeepsInv(d: Dev)
    requires Inv(d)
    ensures Inv(Wiped(d))
  {
  }

  lemma ActivatedKeepsInv(d: Dev, t: int)
    requires Inv(d) && -1 <= t < |d.conns|
    ensures Inv(Activated(d.(target := t)))
  {
  }

  lemma StepKeepsInv(d: Dev, e: Event)
    requires Inv(d) && Possible(d, e)
    ensures Inv(Step(d, e))
  {
    match e {
      case LinkUp(h, a) => LinkUpKeepsInv(d, h, a);
      case LinkDown(h) => LinkDownKeepsInv(d, h);
      case SelectDev(t) => ActivatedKeepsInv(d, t);
      case Pair(slot) =>
        UnboundKeepsInv(d, slot);
        ActivatedKeepsInv(Unbound(d, slot), slot);
      case PairActive => ActivatedKeepsInv(d, d.target);
      case Unbind(slot) => UnboundKeepsInv(d, slot);
      case FactoryReset => WipedKeepsInv(d);
      case _ =>
    }
  }

  // ------------------------------------------------------------------- runs --

  ghost predicate PossibleRun(d: Dev, es: seq<Event>)
    requires d.Shape()
    decreases |es|
  {
    es != [] ==> Possible(d, es[0]) && PossibleRun(Step(d, es[0]), es[1..])
  }

  ghost function Run(d: Dev, es: seq<Event>): (d': Dev)
    requires d.Shape() && PossibleRun(d, es)
    ensures d'.Shape() && |d'.conns| == |d.conns|
    decreases |es|
  {
    if es == [] then d else Run(Step(d, es[0]), es[1..])
  }

  ghost function Blank(n: nat): Dev
    requires n > 1
  {
    Dev(Unlinked(n), FreeRows(n), FreeRows(n), 0, -1, map[], {}, {})
  }

  /** Over every run from an unused device: bound rows stay distinct, each link sits in one
      slot and in its own, flash and RAM agree, and only the active slot's link and the
      window's guests are not on their way out. */
  lemma {:induction false} EveryRunKeepsInv(d: Dev, es: seq<Event>)
    requires Inv(d) && PossibleRun(d, es)
    ensures Inv(Run(d, es))
    decreases |es|
  {
    if es == [] {
    } else {
      StepKeepsInv(d, es[0]);
      EveryRunKeepsInv(Step(d, es[0]), es[1..]);
    }
  }

  lemma BlankIsInv(n: nat)
    requires n > 1
    ensures Inv(Blank(n))
  {
  }

  /** The table gains a host only when an unknown one connects in an open window, and then the
      host is that one. */
  lemma TableGainsOnlyInWindow(d: Dev, e: Event, s: nat)
    requires Inv(d) && Possible(d, e) && s < |d.rows|
    requires Bound(Step(d, e).rows[s]) && Step(d, e).rows[s] != d.rows[s]
    ensures e.LinkUp? && d.pairSlot >= 0 && Find(d.rows, e.a) < 0
    ensures Step(d, e).rows == d.rows[s := e.a]
  {
  }

  /** AT+BT_PAIR with a slot, then an unknown host: it is let in exactly when there is a vacant
      slot, and it gets the one asked for exactly when no link is left there to go first. */
  lemma PairsIntoSlot(d: Dev, slot: nat, h: nat, a: Addr)
    requires Inv(d) && Possible(d, Pair(slot))
    requires Possible(Step(d, Pair(slot)), LinkUp(h, a)) && Find(Step(d, Pair(slot)).rows, a) < 0
    ensures var w := Step(d, Pair(slot)); var d', s := Step(w, LinkUp(h, a)), NextPairSlot(w);
            && (h in d'.doomed <==> s < 0)
            && (s < 0 ==> d'.rows == w.rows && d'.conns == w.conns)
            && (s >= 0 ==> d'.rows == w.rows[s := a] && d'.conns == w.conns[s := Conn(h, a)])
            && (s == slot <==> !d.conns[slot].Linked())
  {
    var w := Step(d, Pair(slot));
    StepKeepsInv(d, Pair(slot));
    SeatIsVacant(w, h, a);
    assert h !in w.doomed;
  }

  /** A host the table knows is let in exactly into its own slot, and only while that slot is
      the active one. */
  lemma KnownHostComesHome(d: Dev, h: nat, a: Addr)
    requires Inv(d) && Possible(d, LinkUp(h, a)) && Find(d.rows, a) >= 0
    ensures var d', s := Step(d, LinkUp(h, a)), Find(d.rows, a);
            && d'.rows == d.rows
            && (if d.target == s then d'.conns == d.conns[s := Conn(h, a)] && h !in d'.doomed
                else d'.conns == d.conns && h in d'.doomed)
  {
  }

  /** A host that was given the active slot `s` comes back to it exactly when its address does
      not begin with 0xFF, or when an open window happens to pair into it: its row reads as
      free. The window then writes its row anew, wherever it lands. It is turned away exactly when
      its row reads as free and there is no window or no vacant slot. */
  lemma ReturnsIff(d: Dev, s: nat, h: nat, a: Addr)
    requires Inv(d) && Possible(d, LinkUp(h, a))
    requires s < |d.rows| && d.rows[s] == a && d.target == s
    ensures var d', next := Step(d, LinkUp(h, a)), NextPairSlot(d);
            && (d'.conns[s].handle == h <==> a[0] != 0xFF || (d.pairSlot >= 0 && next == s))
            && (h in d'.doomed <==> a[0] == 0xFF && (d.pairSlot < 0 || next < 0))
            && (a[0] == 0xFF && d.pairSlot >= 0 && next >= 0 ==> d'.rows == d.rows[next := a])
            && (a[0] != 0xFF ==> d'.rows == d.rows)
  {
    SeatIsVacant(d, h, a);
    if a[0] != 0xFF { assert Bound(d.rows[s]); }
    assert d.conns[s].handle != h;
    assert h !in d.doomed;
  }

  /** Why the radio must keep to one link per peer: a second link of the active host would be
      given another slot and the host bound twice. */
  lemma SecondLinkBindsTwice(d: Dev, s: nat, t: nat, h: nat, k: nat, a: Addr)
    requires Inv(d) && s < |d.conns| && d.conns[s] == Conn(k, a) && k != GAP_CONNHANDLE_INIT
    requires d.rows[s] == a && Bound(a) && d.target == s
    requires t < |d.conns| && Vacant(d.conns, d.rows, t)
    requires h !in d.live && h != GAP_CONNHANDLE_INIT
    ensures var d' := Step(d, LinkUp(h, a));
            exists u :: 0 <= u < |d'.rows| && u != s && d'.rows[u] == d'.rows[s] == a
  {
    var u := NextPairSlot(d);
    assert Bound(d.rows[s]) && Find(d.rows, a) == s;
    assert SlotOf(d.conns, h) < 0;
    assert Step(d, LinkUp(h, a)).rows[u] == a;
  }

  /** AT+FACTORY tells every link to leave, and the reset behind it leaves an unused device,
      whatever was before. */
  lemma FactoryIsBlank(d: Dev)
    requires Inv(d)
    ensures PossibleRun(d, [FactoryReset, Reboot])
    ensures Run(d, [FactoryReset]).doomed == d.live.Keys
    ensures Run(d, [FactoryReset, Reboot]) == Blank(|d.conns|)
  {
    var w := Step(d, FactoryReset);
    assert [FactoryReset, Reboot][1..] == [Reboot] && [Reboot][1..] == [];
    assert Run(d, [FactoryReset, Reboot]) == Run(w, [Reboot]) == Step(w, Reboot);
    forall h | h in d.live ensures h in w.doomed {
      if h !in d.doomed { assert d.conns[SlotOf(d.conns, h)].handle == h; }
    }
    assert [FactoryReset][1..] == [];
  }

  predicate Frees(e: Event, s: nat) {
    e == Unbind(s) || e == Pair(s) || e == FactoryReset
  }

  lemma StepKeepsBinding(d: Dev, e: Event, s: nat)
    requires Inv(d) && Possible(d, e) && s < |d.rows| && Bound(d.rows[s]) && !Frees(e, s)
    ensures Step(d, e).rows[s] == d.rows[s]
  {
  }

  /** Over every run, links, pairings of other slots and reboots included, a host keeps its slot
      until that slot is unbound or paired anew, or everything is wiped. */
  lemma {:induction false} BindingSurvives(d: Dev, es: seq<Event>, s: nat)
    requires Inv(d) && PossibleRun(d, es) && s < |d.rows| && Bound(d.rows[s])
    requires forall i :: 0 <= i < |es| ==> !Frees(es[i], s)
    ensures Run(d, es).rows[s] == d.rows[s]
    decreases |es|
  {
    if es == [] {
    } else {
      StepKeepsInv(d, es[0]);
      StepKeepsBinding(d, es[0], s);
      BindingSurvives(Step(d, es[0]), es[1..], s);
    }
  }

  // ------------------------------------------------------ what a command is good for --

  lemma {:induction false} RunJoins(d: Dev, a: seq<Event>, b: seq<Event>)
    requires d.Shape() && PossibleRun(d, a + b)
    ensures PossibleRun(d, a) && PossibleRun(Run(d, a), b) && Run(d, a + b) == Run(Run(d, a), b)
    decreases |a|
  {
    if a == [] {
      assert a + b == b;
    } else {
      assert (a + b)[0] == a[0] && (a + b)[1..] == a[1..] + b;
      RunJoins(Step(d, a[0]), a[1..], b);
    }
  }

  lemma RunOne(d: Dev, e: Event)
    requires d.Shape()
    ensures PossibleRun(d, [e]) <==> Possible(d, e)
    ensures Possible(d, e) ==> Run(d, [e]) == Step(d, e)
  {
    if Possible(d, e) { assert [e][1..] == [] && PossibleRun(Step(d, e), []); }
  }

  // Changes the output target.
  predicate Retargets(e: Event) {
    e.SelectDev? || e.Pair? || e.Reboot?
  }

  predicate Opens(e: Event) {
    e.Pair? || e.PairActive?
  }

  ghost predicate Without(es: seq<Event>, p: Event -> bool) {
    forall i :: 0 <= i < |es| ==> !p(es[i])
  }

  lemma {:induction false} TargetStays(d: Dev, es: seq<Event>)
    requires d.Shape() && PossibleRun(d, es) && Without(es, Retargets)
    ensures Run(d, es).target == d.target
    decreases |es|
  {
    if es == [] {
    } else {
      TargetStays(Step(d, es[0]), es[1..]);
    }
  }

  lemma {:induction false} StaysShut(d: Dev, es: seq<Event>)
    requires d.Shape() && PossibleRun(d, es) && Without(es, Opens) && d.pairSlot < 0
    ensures Run(d, es).pairSlot < 0 && (d.guests == {} ==> Run(d, es).guests == {})
    decreases |es|
  {
    if es == [] {
    } else {
      StaysShut(Step(d, es[0]), es[1..]);
    }
  }

  lemma {:induction false} StaysOpen(d: Dev, es: seq<Event>)
    requires d.Shape() && PossibleRun(d, es) && d.pairSlot >= 0
    requires Without(es, Retargets) && Without(es, Opens) && WindowClosed !in es
    ensures Run(d, es).pairSlot == d.pairSlot
    decreases |es|
  {
    if es == [] {
    } else {
      assert es[0] in es && forall e :: e in es[1..] ==> e in es;
      StaysOpen(Step(d, es[0]), es[1..]);
    }
  }

  // Without guests only the active slot's link is not on its way out.
  lemma OnlyActive(d: Dev)
    requires Inv(d) && d.guests == {}
    ensures d.live.Keys - d.doomed <= if d.target < 0 then {} else HandleAt(d.conns[d.target])
  {
    forall h | h in d.live.Keys - d.doomed ensures d.target >= 0 && h in HandleAt(d.conns[d.target]) {
      assert d.conns[SlotOf(d.conns, h)].handle == h;
    }
  }

  /** AT+DEV leaves no link but the one on the slot it selects, and that one if it was not on its
      way out. */
  lemma SelectKeepsOne(d: Dev, t: int)
    requires Inv(d) && Possible(d, SelectDev(t))
    ensures var d' := Run(d, [SelectDev(t)]);
            d'.live == d.live
            && d'.live.Keys - d'.doomed == (if t < 0 then {} else HandleAt(d.conns[t])) - d.doomed
  {
    RunOne(d, SelectDev(t));
    ActivatedKeepsInv(d, t);
    OnlyActive(Step(d, SelectDev(t)));
  }

  // A command, what follows it, and a link.
  lemma RunsThrough(d: Dev, e: Event, es: seq<Event>, f: Event)
    requires Inv(d) && PossibleRun(d, [e] + es + [f])
    ensures Possible(d, e) && Inv(Step(d, e)) && PossibleRun(Step(d, e), es)
    ensures PossibleRun(d, [e] + es) && Run(d, [e] + es) == Run(Step(d, e), es)
    ensures var w := Run(Step(d, e), es); Inv(w) && Possible(w, f) && Run(d, [e] + es + [f]) == Step(w, f)
  {
    RunJoins(d, [e] + es, [f]);
    RunJoins(d, [e], es);
    RunOne(d, e);
    StepKeepsInv(d, e);
    EveryRunKeepsInv(Step(d, e), es);
    RunOne(Run(Step(d, e), es), f);
  }

  lemma OnlyHome(d: Dev, s: nat, h: nat, a: Addr)
    requires Inv(d) && s < |d.conns| && d.conns[s] == Conn(h, a) && h != GAP_CONNHANDLE_INIT
    requires d.target == s && d.guests == {} && h !in d.doomed
    ensures d.live.Keys - d.doomed == {h}
  {
    OnlyActive(d);
  }

  // The same from the moment the slot is selected.
  lemma ComesHome(d: Dev, s: nat, es: seq<Event>, h: nat, a: Addr)
    requires Inv(d) && d.target == s && PossibleRun(d, es) && Inv(Run(d, es)) && Possible(Run(d, es), LinkUp(h, a))
    requires s < |d.rows| && d.rows[s] == a && Bound(a)
    requires Without(es, Retargets) && Without(es, e => Frees(e, s))
    ensures var d' := Step(Run(d, es), LinkUp(h, a));
            && d'.conns[s] == Conn(h, a) && d'.rows[s] == a && h !in d'.doomed && d'.target == s
            && d'.guests == Run(d, es).guests
  {
    TargetStays(d, es);
    BindingSurvives(d, es, s);
    KnownHostComesHome(Run(d, es), h, a);
  }

  /** A slot that has been selected is where its host finds its way to: whatever happens in between,
      as long as no other target is selected and the slot not freed. With the window shut it is
      the only link that may stay. */
  lemma SelectedComesHome(d: Dev, s: nat, es: seq<Event>, h: nat, a: Addr)
    requires Inv(d) && PossibleRun(d, [SelectDev(s)] + es + [LinkUp(h, a)])
    requires s < |d.rows| && d.rows[s] == a && Bound(a)
    requires Without(es, Retargets) && Without(es, e => Frees(e, s))
    ensures var d' := Run(d, [SelectDev(s)] + es + [LinkUp(h, a)]);
            && d'.conns[s] == Conn(h, a) && d'.rows[s] == a && h !in d'.doomed
            && (d.pairSlot < 0 && Without(es, Opens) ==> d'.live.Keys - d'.doomed == {h})
  {
    RunsThrough(d, SelectDev(s), es, LinkUp(h, a));
    var v := Step(d, SelectDev(s));
    ComesHome(v, s, es, h, a);
    if d.pairSlot < 0 && Without(es, Opens) {
      StaysShut(v, es);
      StepKeepsInv(Run(v, es), LinkUp(h, a));
      OnlyHome(Step(Run(v, es), LinkUp(h, a)), s, h, a);
    }
  }

  lemma {:induction false} QuietStays(d: Dev, es: seq<Event>)
    requires Inv(d) && PossibleRun(d, es) && Without(es, Retargets)
    requires d.target < 0 && d.pairSlot < 0 && d.guests == {}
    ensures Inv(Run(d, es)) && Run(d, es).target < 0 && Run(d, es).guests == {}
    decreases |es|
  {
    if es == [] {
    } else {
      StepKeepsInv(d, es[0]);
      QuietStays(Step(d, es[0]), es[1..]);
    }
  }

  /** With USB selected no host is let in, whatever happens and AT+BT_PAIR without a slot included,
      until another target is. */
  lemma UsbLetsNobodyIn(d: Dev, es: seq<Event>)
    requires Inv(d) && PossibleRun(d, [SelectDev(-1)] + es) && Without(es, Retargets)
    ensures var d' := Run(d, [SelectDev(-1)] + es); d'.live.Keys == d'.doomed
  {
    RunJoins(d, [SelectDev(-1)], es);
    RunOne(d, SelectDev(-1));
    ActivatedKeepsInv(d, -1);
    QuietStays(Step(d, SelectDev(-1)), es);
    OnlyActive(Run(d, [SelectDev(-1)] + es));
  }

  // AT+BT_PAIR, with the slot or on it.
  predicate OpensAt(d: Dev, e: Event, slot: nat) {
    e == Pair(slot) || (e == PairActive && d.target == slot)
  }

  /** Opening a window keeps nothing but the link on its slot either, and not that when the slot is
      paired anew. */
  lemma PairKeepsOne(d: Dev, open: Event, slot: nat)
    requires Inv(d) && Possible(d, open) && OpensAt(d, open, slot)
    ensures var d' := Run(d, [open]);
            && d'.live == d.live && d'.target == d'.pairSlot == slot
            && d'.live.Keys - d'.doomed
               == (if open.Pair? && Bound(d.rows[slot]) then {} else HandleAt(d.conns[slot])) - d.doomed
  {
    RunOne(d, open);
    StepKeepsInv(d, open);
    OnlyActive(Step(d, open));
  }

  /** While the window is open an unknown host is let in exactly when a slot is vacant, and is
      bound there: to the window's slot if that is vacant, which is the active one too. */
  lemma WindowLetsIn(d: Dev, open: Event, slot: nat, es: seq<Event>, h: nat, a: Addr)
    requires Inv(d) && OpensAt(d, open, slot) && PossibleRun(d, [open] + es + [LinkUp(h, a)])
    requires Without(es, Retargets) && Without(es, Opens) && WindowClosed !in es
    requires PossibleRun(d, [open] + es) && Find(Run(d, [open] + es).rows, a) < 0
    ensures var w, d' := Run(d, [open] + es), Run(d, [open] + es + [LinkUp(h, a)]);
            var s := NextPairSlot(w);
            && w.target == w.pairSlot == slot
            && (h in d'.doomed <==> forall k :: 0 <= k < |w.conns| ==> !Vacant(w.conns, w.rows, k))
            && (h !in d'.doomed ==> s >= 0 && d'.conns[s] == Conn(h, a) && d'.rows == w.rows[s := a])
            && (h in d'.doomed ==> d'.rows == w.rows && d'.conns == w.conns)
            && (Vacant(w.conns, w.rows, slot) ==> s == slot)
  {
    var w := Run(d, [open] + es);
    RunsThrough(d, open, es, LinkUp(h, a));
    TargetStays(Step(d, open), es);
    StaysOpen(Step(d, open), es);
    SeatIsVacant(w, h, a);
    assert h !in w.doomed;
  }

  /** Once it has closed, and until another one is opened, an unknown host is turned away. */
  lemma ShutWindowKeepsOut(d: Dev, es: seq<Event>, h: nat, a: Addr)
    requires Inv(d) && PossibleRun(d, [WindowClosed] + es + [LinkUp(h, a)]) && Without(es, Opens)
    requires PossibleRun(d, [WindowClosed] + es) && Find(Run(d, [WindowClosed] + es).rows, a) < 0
    ensures var w, d' := Run(d, [WindowClosed] + es), Run(d, [WindowClosed] + es + [LinkUp(h, a)]);
            h in d'.doomed && d'.rows == w.rows && d'.conns == w.conns
  {
    RunsThrough(d, WindowClosed, es, LinkUp(h, a));
    StaysShut(Step(d, WindowClosed), es);
  }

  ghost predicate SitsAt(d: Dev, s: nat, h: nat, a: Addr) {
    Inv(d) && s < |d.conns| && d.conns[s] == Conn(h, a) && h != GAP_CONNHANDLE_INIT && d.rows[s] == a && Bound(a)
  }

  lemma Unlinks(d: Dev, s: nat, h: nat, a: Addr)
    requires d.Shape() && LinksInv(d) && s < |d.conns| && d.conns[s] == Conn(h, a) && h != GAP_CONNHANDLE_INIT
    ensures Step(d, LinkDown(h)).conns == d.conns[s := Conn(GAP_CONNHANDLE_INIT, a)]
    ensures a !in Step(d, LinkDown(h)).live.Values
  {
    assert SlotOf(d.conns, h) == s;
  }

  lemma RunThree(d: Dev, e: Event, f: Event, g: Event)
    requires d.Shape() && Possible(d, e) && Possible(Step(d, e), f) && Possible(Step(Step(d, e), f), g)
    ensures PossibleRun(d, [e, f, g]) && Run(d, [e, f, g]) == Step(Step(Step(d, e), f), g)
  {
    RunOne(Step(Step(d, e), f), g);
    assert [e, f, g][1..] == [f, g] && [f, g][1..] == [g];
  }

  /** A host that AT+BT_DISC sends away may come straight back; one whose slot AT+BT_UNBIND frees
      may only while a pairing window is open. */
  lemma SentAway(d: Dev, s: nat, h: nat, a: Addr, unbind: bool, k: nat)
    requires SitsAt(d, s, h, a) && d.target == s
    requires k != GAP_CONNHANDLE_INIT && (k == h || k !in d.live)
    ensures var leave := if unbind then Unbind(s) else Disconnect(s);
            && Run(d, [leave]).doomed == d.doomed + {h}
            && PossibleRun(d, [leave, LinkDown(h), LinkUp(k, a)])
            && var d' := Run(d, [leave, LinkDown(h), LinkUp(k, a)]);
               && (k in d'.doomed <==> unbind && d.pairSlot < 0)
               && (!unbind ==> d'.conns[s] == Conn(k, a) && d'.rows == d.rows)
               && (unbind && d.pairSlot < 0 ==> d'.rows == d.rows[s := FREE_ROW] && !d'.conns[s].Linked())
  {
    var leave := if unbind then Unbind(s) else Disconnect(s);
    RunOne(d, leave);
    StepKeepsInv(d, leave);
    var d1 := Step(d, leave);
    Unlinks(d1, s, h, a);
    StepKeepsInv(d1, LinkDown(h));
    var d2 := Step(d1, LinkDown(h));
    RunThree(d, leave, LinkDown(h), LinkUp(k, a));
    SeatIsVacant(d2, k, a);
    assert k !in d2.doomed;
    if unbind {
      assert Vacant(d2.conns, d2.rows, s);
    } else {
      KnownHostComesHome(d2, k, a);
    }
  }

  // ------------------------------------------------------------- the driver --

  lemma HandlesGrow(conns: seq<Conn>, s: nat, slot: int)
    requires s < |conns|
    ensures HandlesExcept(conns[..s + 1], slot)
            == HandlesExcept(conns[..s], slot) + if s != slot then HandleAt(conns[s]) else {}
  {
    var was, now := conns[..s], conns[..s + 1];
    assert forall k :: 0 <= k < s ==> was[k] == now[k];
    forall h | h in HandlesExcept(was, slot) ensures h in HandlesExcept(now, slot) {
      var k :| 0 <= k < |was| && was[k].Linked() && k != slot && was[k].handle == h;
      assert now[k].handle == h;
    }
    if s != slot && conns[s].Linked() { assert now[s].handle in HandlesExcept(now, slot); }
  }

  class Keyboard {
    var conns: seq<Conn>
    var slotmap: seq<Addr>
    var page: seq<Addr>    // the rows on the flash page
    var kbTarget: int
    var pairSlot: int
    ghost var live: map<nat, Addr>
    ghost var doomed: set<nat>
    ghost var guests: set<nat>

    ghost function View(): Dev
      reads this
    {
      Dev(conns, slotmap, page, kbTarget, pairSlot, live, doomed, guests)
    }

    constructor (n: nat)
      requires n > 1
      ensures View() == Blank(n)
    {
      conns := Unlinked(n);
      slotmap, page := FreeRows(n), FreeRows(n);
      kbTarget, pairSlot := 0, -1;
      live, doomed, guests := map[], {}, {};
    }

    method TerminateLink(h: nat)
      modifies this`doomed
      ensures doomed == old(doomed) + {h}
    {
      doomed := doomed + {h};
    }

    method Save()
      modifies this`page
      ensures page == slotmap
    {
      page := slotmap;
    }

    method SlotmapFind(a: Addr) returns (s: int)
      ensures s == Find(slotmap, a)
    {
      s := 0;
      while s < |slotmap|
        invariant 0 <= s <= |slotmap| && Find(slotmap, a) == Find(slotmap, a, s)
      {
        if Bound(slotmap[s]) && slotmap[s] == a { return; }
        s := s + 1;
      }
      s := -1;
    }

    method KbdSlotOf(h: nat) returns (s: int)
      ensures s == SlotOf(conns, h)
    {
      s := 0;
      while s < |conns|
        invariant 0 <= s <= |conns| && SlotOf(conns, h) == SlotOf(conns, h, s)
      {
        if conns[s].handle == h { return; }
        s := s + 1;
      }
      s := -1;
    }

    method KbdNextPairSlot() returns (s: int)
      requires View().Shape()
      ensures s == NextPairSlot(View())
    {
      if Vacant(conns, slotmap, pairSlot) { return pairSlot; }
      if Vacant(conns, slotmap, kbTarget) { return kbTarget; }
      s := 0;
      while s < |conns|
        invariant 0 <= s <= |conns| && LowestVacant(conns, slotmap) == LowestVacant(conns, slotmap, s)
      {
        if Vacant(conns, slotmap, s) { return; }
        s := s + 1;
      }
      s := -1;
    }

    method KbdSlotAlloc(h: nat, a: Addr) returns (s: int)
      requires View().Shape() && |a| == 6
      modifies this`conns, this`slotmap, this`page, this`guests
      ensures View() == if s < 0 then old(View()) else Seated(old(View()), h, a)
      ensures s < 0 ==> Seated(old(View()), h, a) == old(View()).(doomed := old(doomed) + {h})
    {
      s := KbdSlotOf(h);
      if s >= 0 { return; }
      s := SlotmapFind(a);
      if s >= 0 && !conns[s].Linked() {
        conns := conns[s := Conn(h, a)];
        return;
      }
      ghost var unknown := s < 0;
      s := KbdNextPairSlot();
      if s >= 0 {
        conns := conns[s := Conn(h, a)];
        slotmap := slotmap[s := a];
        Save();
        if unknown { guests := guests + {h}; }
      }
    }

    /** GAP_LINK_ESTABLISHED_EVENT */
    method LinkEstablished(h: nat, a: Addr)
      requires View().Shape() && |a| == 6
      modifies this
      ensures View() == Step(old(View()), LinkUp(h, a))
    {
      live := live[h := a];
      var s := SlotmapFind(a);
      if (if s < 0 then pairSlot < 0 else kbTarget != s) {
        TerminateLink(h);
        return;
      }
      s := KbdSlotAlloc(h, a);
      if s < 0 { TerminateLink(h); }
    }

    /** GAP_LINK_TERMINATED_EVENT */
    method LinkTerminated(h: nat)
      requires View().Shape()
      modifies this
      ensures View() == Step(old(View()), LinkDown(h))
    {
      live, doomed, guests := live - {h}, doomed - {h}, guests - {h};
      var s := KbdSlotOf(h);
      if s >= 0 { conns := conns[s := conns[s].(handle := GAP_CONNHANDLE_INIT)]; }
    }

    method TerminateAllBut(slot: int)
      modifies this`doomed
      ensures doomed == old(doomed) + HandlesExcept(conns, slot)
    {
      var s := 0;
      while s < |conns|
        invariant 0 <= s <= |conns|
        invariant doomed == old(doomed) + HandlesExcept(conns[..s], slot)
      {
        if s != slot && conns[s].Linked() { TerminateLink(conns[s].handle); }
        HandlesGrow(conns, s, slot);
        s := s + 1;
      }
      assert conns[..s] == conns;
    }

    method ActivateSlot(slot: int)
      requires View().Shape() && slot == kbTarget
      modifies this`doomed, this`guests, this`pairSlot
      ensures View() == Activated(old(View()))
    {
      TerminateAllBut(slot);
      guests := {};
      if slot < 0 && pairSlot >= 0 { pairSlot := -1; }
    }

    method UnbindSlot(slot: nat) returns (bound: bool)
      requires View().Shape() && slot < |conns|
      modifies this`slotmap, this`page, this`doomed
      ensures View() == Unbound(old(View()), slot) && bound == old(Bound(slotmap[slot]))
    {
      if !Bound(slotmap[slot]) { return false; }
      slotmap := slotmap[slot := FREE_ROW];
      Save();
      if conns[slot].Linked() { TerminateLink(conns[slot].handle); }
      return true;
    }

    /** AT+DEV */
    method SetTarget(t: int)
      requires View().Shape() && -1 <= t < |conns|
      modifies this
      ensures View() == Step(old(View()), SelectDev(t))
    {
      kbTarget := t;
      ActivateSlot(t);
    }

    /** AT+BT_PAIR, with a slot or without one (`slot` -1) */
    method BtPair(slot: int) returns (ok: bool)
      requires View().Shape() && -1 <= slot < |conns|
      modifies this
      ensures View() == Step(old(View()), if slot < 0 then PairActive else Pair(slot))
      ensures ok == (slot >= 0 || old(kbTarget) >= 0)
    {
      var s := slot;
      if s >= 0 {
        var _ := UnbindSlot(s);
      } else {
        s := kbTarget;
        if s < 0 { return false; }
      }
      kbTarget := s;
      ActivateSlot(s);
      pairSlot := s;
      return true;
    }

    method PairWindowEvent()
      requires View().Shape()
      modifies this`pairSlot
      ensures View() == Step(old(View()), WindowClosed)
    {
      pairSlot := -1;
    }

    method DisconnectSlot(slot: nat) returns (ok: bool)
      requires View().Shape() && slot < |conns|
      modifies this`doomed
      ensures View() == Step(old(View()), Disconnect(slot)) && ok == conns[slot].Linked()
    {
      ok := conns[slot].Linked();
      if ok { TerminateLink(conns[slot].handle); }
    }

    /** AT+FACTORY up to its reset: every link is told to leave, the page is erased and loaded. */
    method Factory()
      requires View().Shape()
      modifies this`slotmap, this`page, this`doomed
      ensures View() == Step(old(View()), FactoryReset)
    {
      TerminateAllBut(-1);
      page := FreeRows(|page|);
      slotmap := page;
    }

    /** Power cycle: RAM starts from its initial values, the rows come from flash. */
    method Restart()
      requires View().Shape()
      modifies this
      ensures View() == Step(old(View()), Reboot)
    {
      conns := Unlinked(|conns|);
      slotmap := page;
      kbTarget, pairSlot := 0, -1;
      live, doomed, guests := map[], {}, {};
    }
  }
}
