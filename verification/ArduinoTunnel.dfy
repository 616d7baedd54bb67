/** Data channels of the Arduino tunnel client (`rathole_client.cpp`): heap objects that belong
    to the manager task that connects them, then to a pool slot, then to one forward task, and
    are deleted by whoever has them last. Tasks are cut at their blocking calls. */
module ArduinoTunnel {
  import opened Wrappers

  /** Where a manager task is when it lets others run: its control channel is down, or it is in
      its loop, in the connect or the hello of a new client, about to look at the next standby,
      in the read of one, or giving them up. */
  datatype Manager<C> =
    | Down
    | Serving
    | Connecting(slot: nat, c: C)
    | Greeting(slot: nat, c: C)
    | Polling(next: nat)
    | Reading(slot: nat)
    | Draining(next: nat)

  /** Who will delete a client: the slot's manager, its forward task, the manager that is
      connecting it, or nobody any more. */
  datatype Owner = Slot(tunnel: nat, slot: nat) | Task(id: nat) | Hand(tunnel: nat) | Gone

  type Pool<C> = seq<Option<C>>

  /** `pools[t]` are the slots of tunnel `t`, `managers[t]` is its manager, `forwards` what the
      live forward tasks own, `ending` how many of them have deleted it and not yet counted
      down, `count` is `g_data_ch_count`. `owner` knows every client there ever was. */
  datatype State<C> = State(pools: seq<Pool<C>>, managers: seq<Manager<C>>, forwards: map<nat, C>, ending: nat,
                            count: int, owner: map<C, Owner>)

  function Pooled<C>(pool: Pool<C>): (n: nat)
    ensures n <= |pool|
  {
    if pool == [] then 0 else (if pool[0].None? then 0 else 1) + Pooled(pool[1..])
  }

  lemma {:induction false} PooledUpdate<C>(pool: Pool<C>, i: nat, x: Option<C>)
    requires i < |pool|
    ensures Pooled(pool[i := x]) + (if pool[i].None? then 0 else 1) == Pooled(pool) + if x.None? then 0 else 1
  {
    var after := pool[i := x];
    if i == 0 {
      assert after[1..] == pool[1..];
    } else {
      assert after[1..] == pool[1..][i - 1 := x];
      PooledUpdate(pool[1..], i - 1, x);
    }
  }

  lemma {:induction false} NonePooled<C>(pool: Pool<C>)
    requires forall i :: 0 <= i < |pool| ==> pool[i].None?
    ensures Pooled(pool) == 0
  {
    if pool == [] {
    } else {
      NonePooled(pool[1..]);
    }
  }

  function AllPooled<C>(pools: seq<Pool<C>>): nat {
    if pools == [] then 0 else Pooled(pools[0]) + AllPooled(pools[1..])
  }

  lemma {:induction false} AllPooledUpdate<C>(pools: seq<Pool<C>>, t: nat, p: Pool<C>)
    requires t < |pools|
    ensures AllPooled(pools[t := p]) + Pooled(pools[t]) == AllPooled(pools) + Pooled(p)
  {
    var after := pools[t := p];
    if t == 0 {
      assert after[1..] == pools[1..];
    } else {
      assert after[1..] == pools[1..][t - 1 := p];
      AllPooledUpdate(pools[1..], t - 1, p);
    }
  }

  lemma {:induction false} NoPooled<C>(pools: seq<Pool<C>>)
    requires forall t, i :: 0 <= t < |pools| && 0 <= i < |pools[t]| ==> pools[t][i].None?
    ensures AllPooled(pools) == 0
  {
    if pools == [] {
    } else {
      NonePooled(pools[0]);
      NoPooled(pools[1..]);
    }
  }

  // ------------------------------------------------------------------ the steps --

  /** What a look at a standby finds. */
  datatype Look = Nothing | Closed | Command

  /** What the read of its command brings: a start, and the task that was created for it if
      it was; fewer bytes than announced; or neither. */
  datatype Read = Start(task: Option<nat>) | Phantom | Desync

  /** What a manager does between two of its blocking calls. `made` is the new client, if there
      was heap for one. */
  datatype Action<C> =
    | SessionUp
    | CreateDataChannel(made: Option<C>)
    | Connected(ok: bool)
    | Greeted(ok: bool)
    | StartPoll
    | PollSlot(look: Look)
    | CommandRead(read: Read)
    | SessionOver
    | DrainSlot

  /** A forward task deletes its client, and counts down after it has closed its own socket. */
  datatype Event<C> = Acts(t: nat, act: Action<C>) | ForwardStops(k: nat) | ForwardUncounts

  function FirstFree<C>(pool: Pool<C>): (i: nat)
    ensures i <= |pool| && (i < |pool| ==> pool[i].None?) && forall j :: 0 <= j < i ==> pool[j].Some?
  {
    if pool == [] || pool[0].None? then 0 else FirstFree(pool[1..]) + 1
  }

  predicate CanAct<C>(s: State<C>, m: Manager<C>, pool: Pool<C>, act: Action<C>) {
    match act
    case SessionUp => m.Down?
    case CreateDataChannel(c) => m.Serving? && (c.Some? ==> c.value !in s.owner)
    case Connected(_) => m.Connecting? && m.slot < |pool|
    case Greeted(_) => m.Greeting? && m.slot < |pool|
    case StartPoll => m.Serving?
    case PollSlot(_) => m.Polling?
    case CommandRead(r) =>
      && m.Reading? && m.slot < |pool| && pool[m.slot].Some?
      && (r.Start? && r.task.Some? ==> r.task.value !in s.forwards)
    case SessionOver => m.Serving?
    case DrainSlot => m.Draining?
  }

  predicate Possible<C>(s: State<C>, e: Event<C>) {
    match e
    case Acts(t, act) => t < |s.managers| == |s.pools| && CanAct(s, s.managers[t], s.pools[t], act)
    case ForwardStops(k) => k in s.forwards
    case ForwardUncounts => s.ending > 0
  }

  // The manager goes on at `m`.
  function At<C>(s: State<C>, t: nat, m: Manager<C>): State<C>
    requires t < |s.managers|
  {
    s.(managers := s.managers[t := m])
  }

  function SetSlot<C>(s: State<C>, t: nat, i: nat, x: Option<C>): State<C>
    requires t < |s.pools| && i < |s.pools[t]|
  {
    s.(pools := s.pools[t := s.pools[t][i := x]])
  }

  function Owned<C>(s: State<C>, c: C, o: Owner): State<C> {
    s.(owner := s.owner[c := o])
  }

  /** A new client becomes the standby of its slot and is counted. */
  function Standby<C>(s: State<C>, t: nat, i: nat, c: C): State<C>
    requires t < |s.pools| && i < |s.pools[t]|
  {
    Owned(SetSlot(s, t, i, Some(c)), c, Slot(t, i)).(count := s.count + 1)
  }

  /** The standby in a slot is stopped, deleted and no longer counted. */
  function Drop<C>(s: State<C>, t: nat, i: nat): State<C>
    requires t < |s.pools| && i < |s.pools[t]| && s.pools[t][i].Some?
  {
    Owned(SetSlot(s, t, i, None), s.pools[t][i].value, Gone).(count := s.count - 1)
  }

  /** It moves to a new forward task. */
  function Handed<C>(s: State<C>, t: nat, i: nat, k: nat): State<C>
    requires t < |s.pools| && i < |s.pools[t]| && s.pools[t][i].Some?
  {
    var c := s.pools[t][i].value;
    Owned(SetSlot(s, t, i, None), c, Task(k)).(forwards := s.forwards[k := c])
  }

  /** `start_forward`, which deletes the client if no task could be created. */
  function Started<C>(s: State<C>, t: nat, i: nat, task: Option<nat>): State<C>
    requires t < |s.pools| && i < |s.pools[t]| && s.pools[t][i].Some?
  {
    if task.Some? then Handed(s, t, i, task.value) else Drop(s, t, i)
  }

  function AfterRead<C>(s: State<C>, t: nat, i: nat, read: Read): State<C>
    requires t < |s.pools| && i < |s.pools[t]| && s.pools[t][i].Some?
  {
    match read
    case Start(task) => Started(s, t, i, task)
    case Phantom => s
    case Desync => Drop(s, t, i)
  }

  function Looked<C>(s: State<C>, t: nat, i: nat, look: Look): State<C>
    requires t < |s.managers| == |s.pools|
  {
    if i >= |s.pools[t]| then At(s, t, Serving)
    else if s.pools[t][i].None? || look.Nothing? then At(s, t, Polling(i + 1))
    else if look.Closed? then At(Drop(s, t, i), t, Polling(i + 1))
    else At(s, t, Reading(i))
  }

  function Drained<C>(s: State<C>, t: nat, i: nat): State<C>
    requires t < |s.managers| == |s.pools|
  {
    if i >= |s.pools[t]| then At(s, t, Down)
    else At(if s.pools[t][i].Some? then Drop(s, t, i) else s, t, Draining(i + 1))
  }

  function Acted<C>(s: State<C>, t: nat, act: Action<C>): State<C>
    requires Possible(s, Acts(t, act))
  {
    var m, pool := s.managers[t], s.pools[t];
    match act
    case SessionUp => At(s, t, Serving)
    case CreateDataChannel(made) =>
      var i := FirstFree(pool);
      if i == |pool| || made.None? then s
      else At(Owned(s, made.value, Hand(t)), t, Connecting(i, made.value))
    case Connected(ok) =>
      if ok then At(s, t, Greeting(m.slot, m.c)) else At(Owned(s, m.c, Gone), t, Serving)
    case Greeted(ok) =>
      At(if ok then Standby(s, t, m.slot, m.c) else Owned(s, m.c, Gone), t, Serving)
    case StartPoll => At(s, t, Polling(0))
    case PollSlot(look) => Looked(s, t, m.next, look)
    case CommandRead(read) => At(AfterRead(s, t, m.slot, read), t, Polling(m.slot + 1))
    case SessionOver => At(s, t, Draining(0))
    case DrainSlot => Drained(s, t, m.next)
  }

  function Stopped<C>(s: State<C>, k: nat): State<C>
    requires k in s.forwards
  {
    Owned(s, s.forwards[k], Gone).(forwards := s.forwards - {k}, ending := s.ending + 1)
  }

  function Step<C>(s: State<C>, e: Event<C>): State<C>
    requires Possible(s, e)
  {
    match e
    case Acts(t, act) => Acted(s, t, act)
    case ForwardStops(k) => Stopped(s, k)
    case ForwardUncounts => s.(ending := s.ending - 1, count := s.count - 1)
  }

  function Run<C>(s: State<C>, es: seq<Event<C>>): State<C>
    decreases |es|
  {
    if es == [] then s else Run(if Possible(s, es[0]) then Step(s, es[0]) else s, es[1..])
  }

  // ---------------------------------------------------------------- the invariant --

  predicate Busy<C>(m: Manager<C>) {
    m.Connecting? || m.Greeting?
  }

  predicate Filled<C>(s: State<C>, t: nat, i: nat) {
    t < |s.pools| && i < |s.pools[t]| && s.pools[t][i].Some?
  }

  ghost predicate OwnedBy<C>(s: State<C>, c: C, o: Owner) {
    match o
    case Slot(t, i) => Filled(s, t, i) && s.pools[t][i].value == c
    case Task(k) => k in s.forwards && s.forwards[k] == c
    case Hand(t) => t < |s.managers| && Busy(s.managers[t]) && s.managers[t].c == c
    case Gone => true
  }

  ghost predicate Owns<C>(s: State<C>, o: Owner, c: C) {
    c in s.owner && s.owner[c] == o
  }

  /** Whatever holds a client is its owner, and the owner holds it: no client is held twice, and
      none but the deleted ones is held by nobody. */
  ghost predicate OneOwner<C>(s: State<C>) {
    && (forall c :: c in s.owner ==> OwnedBy(s, c, s.owner[c]))
    && (forall t: nat, i: nat :: Filled(s, t, i) ==> Owns(s, Slot(t, i), s.pools[t][i].value))
    && (forall k :: k in s.forwards ==> Owns(s, Task(k), s.forwards[k]))
    && (forall t: nat :: t < |s.managers| && Busy(s.managers[t]) ==> Owns(s, Hand(t), s.managers[t].c))
  }

  // What a manager relies on when it runs again.
  predicate Resumes<C>(m: Manager<C>, pool: Pool<C>) {
    match m
    case Down => forall j :: 0 <= j < |pool| ==> pool[j].None?
    case Serving => true
    case Connecting(i, _) => i < |pool| && pool[i].None?
    case Greeting(i, _) => i < |pool| && pool[i].None?
    case Polling(i) => i <= |pool|
    case Reading(i) => i < |pool| && pool[i].Some?
    case Draining(i) => i <= |pool| && forall j :: 0 <= j < i ==> pool[j].None?
  }

  predicate Resuming<C>(s: State<C>) {
    |s.managers| == |s.pools| && forall t :: 0 <= t < |s.managers| ==> Resumes(s.managers[t], s.pools[t])
  }

  predicate Counted<C>(s: State<C>) {
    s.count == AllPooled(s.pools) + |s.forwards| + s.ending
  }

  ghost predicate Inv<C>(s: State<C>) {
    OneOwner(s) && Resuming(s) && Counted(s)
  }

  lemma Goes<C>(s: State<C>, t: nat, m: Manager<C>)
    requires Inv(s) && t < |s.managers| && Resumes(m, s.pools[t]) && !Busy(s.managers[t]) && !Busy(m)
    ensures Inv(At(s, t, m))
  {
  }

  lemma CreatedOwner<C>(s: State<C>, t: nat, i: nat, c: C)
    requires OneOwner(s) && t < |s.managers| && !Busy(s.managers[t]) && c !in s.owner
    ensures OneOwner(At(Owned(s, c, Hand(t)), t, Connecting(i, c)))
  {
  }

  lemma Creates<C>(s: State<C>, t: nat, i: nat, c: C)
    requires Inv(s) && t < |s.managers| && s.managers[t].Serving? && c !in s.owner
    requires i < |s.pools[t]| && s.pools[t][i].None?
    ensures Inv(At(Owned(s, c, Hand(t)), t, Connecting(i, c)))
  {
    CreatedOwner(s, t, i, c);
  }

  lemma Greets<C>(s: State<C>, t: nat)
    requires Inv(s) && t < |s.managers| && s.managers[t].Connecting?
    ensures Inv(At(s, t, Greeting(s.managers[t].slot, s.managers[t].c)))
  {
  }

  lemma GivenUpOwner<C>(s: State<C>, t: nat, c: C)
    requires OneOwner(s) && t < |s.managers| && Busy(s.managers[t]) && s.managers[t].c == c
    ensures OneOwner(At(Owned(s, c, Gone), t, Serving))
  {
  }

  lemma GivesUp<C>(s: State<C>, t: nat)
    requires Inv(s) && t < |s.managers| && Busy(s.managers[t])
    ensures Inv(At(Owned(s, s.managers[t].c, Gone), t, Serving))
  {
    GivenUpOwner(s, t, s.managers[t].c);
  }

  lemma SlotCount<C>(s: State<C>, t: nat, i: nat, x: Option<C>)
    requires t < |s.pools| && i < |s.pools[t]|
    ensures AllPooled(SetSlot(s, t, i, x).pools) + (if s.pools[t][i].None? then 0 else 1)
            == AllPooled(s.pools) + if x.None? then 0 else 1
  {
    PooledUpdate(s.pools[t], i, x);
    AllPooledUpdate(s.pools, t, s.pools[t][i := x]);
  }

  lemma SlotResumes<C>(s: State<C>, t: nat, i: nat, x: Option<C>, m: Manager<C>)
    requires Resuming(s) && t < |s.pools| && i < |s.pools[t]| && Resumes(m, s.pools[t][i := x])
    ensures Resuming(At(SetSlot(s, t, i, x), t, m))
  {
  }

  lemma StandbyOwner<C>(s: State<C>, t: nat, i: nat, c: C)
    requires OneOwner(s) && t < |s.managers| == |s.pools| && Busy(s.managers[t]) && s.managers[t].c == c
    requires i < |s.pools[t]| && s.pools[t][i].None?
    ensures OneOwner(At(Standby(s, t, i, c), t, Serving))
  {
  }

  lemma Pools<C>(s: State<C>, t: nat)
    requires Inv(s) && t < |s.managers| && s.managers[t].Greeting?
    ensures s.managers[t].slot < |s.pools[t]|
    ensures Inv(At(Standby(s, t, s.managers[t].slot, s.managers[t].c), t, Serving))
  {
    var m := s.managers[t];
    SlotCount(s, t, m.slot, Some(m.c));
    SlotResumes(s, t, m.slot, Some(m.c), Serving);
    StandbyOwner(s, t, m.slot, m.c);
  }

  lemma DropOwner<C>(s: State<C>, t: nat, i: nat, m: Manager<C>)
    requires OneOwner(s) && t < |s.managers| && Filled(s, t, i) && !Busy(s.managers[t]) && !Busy(m)
    ensures OneOwner(At(Drop(s, t, i), t, m))
  {
  }

  lemma Drops<C>(s: State<C>, t: nat, i: nat, m: Manager<C>)
    requires Inv(s) && t < |s.managers| && Filled(s, t, i) && !Busy(s.managers[t]) && !Busy(m)
    requires Resumes(m, s.pools[t][i := None])
    ensures Inv(At(Drop(s, t, i), t, m))
  {
    SlotCount(s, t, i, None);
    SlotResumes(s, t, i, None, m);
    DropOwner(s, t, i, m);
  }

  lemma HandedOwner<C>(s: State<C>, t: nat, i: nat, k: nat, m: Manager<C>)
    requires OneOwner(s) && t < |s.managers| && Filled(s, t, i) && !Busy(s.managers[t]) && !Busy(m)
    requires k !in s.forwards
    ensures OneOwner(At(Handed(s, t, i, k), t, m))
  {
  }

  lemma HandsOver<C>(s: State<C>, t: nat, i: nat, k: nat)
    requires Inv(s) && t < |s.managers| && s.managers[t] == Reading(i) && k !in s.forwards
    ensures i < |s.pools[t]| && s.pools[t][i].Some? && Inv(At(Handed(s, t, i, k), t, Polling(i + 1)))
  {
    SlotCount(s, t, i, None);
    SlotResumes(s, t, i, None, Polling(i + 1));
    HandedOwner(s, t, i, k, Polling(i + 1));
  }

  lemma StoppedOwner<C>(s: State<C>, k: nat)
    requires OneOwner(s) && k in s.forwards
    ensures OneOwner(Stopped(s, k))
  {
  }

  lemma Stops<C>(s: State<C>, k: nat)
    requires Inv(s) && k in s.forwards
    ensures Inv(Stopped(s, k))
  {
    var rest := s.forwards - {k};
    assert s.forwards == rest[k := s.forwards[k]];
    StoppedOwner(s, k);
  }

  lemma FillKeepsInv<C>(s: State<C>, t: nat, act: Action<C>)
    requires Inv(s) && Possible(s, Acts(t, act)) && (act.CreateDataChannel? || act.Connected? || act.Greeted?)
    ensures Inv(Acted(s, t, act))
  {
    match act
    case CreateDataChannel(made) =>
      var i := FirstFree(s.pools[t]);
      if i < |s.pools[t]| && made.Some? { Creates(s, t, i, made.value); }
    case Connected(ok) => if ok { Greets(s, t); } else { GivesUp(s, t); }
    case Greeted(ok) => if ok { Pools(s, t); } else { GivesUp(s, t); }
  }

  lemma LookKeepsInv<C>(s: State<C>, t: nat, i: nat, look: Look)
    requires Inv(s) && t < |s.managers| && s.managers[t] == Polling(i)
    ensures Inv(Looked(s, t, i, look))
  {
    if i >= |s.pools[t]| {
      Goes(s, t, Serving);
    } else if s.pools[t][i].None? || look.Nothing? {
      Goes(s, t, Polling(i + 1));
    } else if look.Closed? {
      Drops(s, t, i, Polling(i + 1));
    } else {
      Goes(s, t, Reading(i));
    }
  }

  lemma ReadKeepsInv<C>(s: State<C>, t: nat, i: nat, read: Read)
    requires Inv(s) && t < |s.managers| && s.managers[t] == Reading(i)
    requires read.Start? && read.task.Some? ==> read.task.value !in s.forwards
    ensures i < |s.pools[t]| && s.pools[t][i].Some? && Inv(At(AfterRead(s, t, i, read), t, Polling(i + 1)))
  {
    match read
    case Phantom => Goes(s, t, Polling(i + 1));
    case Desync => Drops(s, t, i, Polling(i + 1));
    case Start(task) => if task.Some? { HandsOver(s, t, i, task.value); } else { Drops(s, t, i, Polling(i + 1)); }
  }

  lemma DrainKeepsInv<C>(s: State<C>, t: nat, i: nat)
    requires Inv(s) && t < |s.managers| && s.managers[t] == Draining(i)
    ensures Inv(Drained(s, t, i))
  {
    if i >= |s.pools[t]| {
      Goes(s, t, Down);
    } else if s.pools[t][i].Some? {
      Drops(s, t, i, Draining(i + 1));
    } else {
      Goes(s, t, Draining(i + 1));
    }
  }

  lemma GoKeepsInv<C>(s: State<C>, t: nat, act: Action<C>)
    requires Inv(s) && Possible(s, Acts(t, act)) && (act.SessionUp? || act.StartPoll? || act.SessionOver?)
    ensures Inv(Acted(s, t, act))
  {
    Goes(s, t, if act.SessionUp? then Serving else if act.StartPoll? then Polling(0) else Draining(0));
  }

  lemma ActKeepsInv<C>(s: State<C>, t: nat, act: Action<C>)
    requires Inv(s) && Possible(s, Acts(t, act))
    ensures Inv(Acted(s, t, act))
  {
    if act.CreateDataChannel? || act.Connected? || act.Greeted? {
      FillKeepsInv(s, t, act);
    } else if act.PollSlot? {
      assert Acted(s, t, act) == Looked(s, t, s.managers[t].next, act.look);
      LookKeepsInv(s, t, s.managers[t].next, act.look);
    } else if act.CommandRead? {
      ReadKeepsInv(s, t, s.managers[t].slot, act.read);
    } else if act.DrainSlot? {
      assert Acted(s, t, act) == Drained(s, t, s.managers[t].next);
      DrainKeepsInv(s, t, s.managers[t].next);
    } else {
      GoKeepsInv(s, t, act);
    }
  }

  lemma StepKeepsInv<C>(s: State<C>, e: Event<C>)
    requires Inv(s) && Possible(s, e)
    ensures Inv(Step(s, e))
  {
    match e
    case Acts(t, act) => ActKeepsInv(s, t, act);
    case ForwardStops(k) => Stops(s, k);
    case ForwardUncounts =>
  }

  /** Any number of managers and forward tasks, in any interleaving of what they do between
      blocking calls. */
  lemma {:induction false} EveryRunKeepsInv<C>(s: State<C>, es: seq<Event<C>>)
    requires Inv(s)
    ensures Inv(Run(s, es))
    decreases |es|
  {
    if es == [] {
    } else {
      if Possible(s, es[0]) { StepKeepsInv(s, es[0]); }
      EveryRunKeepsInv(if Possible(s, es[0]) then Step(s, es[0]) else s, es[1..]);
    }
  }

  /** No client is in two places, and none that is deleted is in any. */
  lemma HeldOnce<C>(s: State<C>, o: Owner, o': Owner, c: C)
    requires Inv(s) && !o.Gone? && OwnedBy(s, c, o)
    ensures Owns(s, o, c) && (!o'.Gone? && OwnedBy(s, c, o') ==> o == o')
  {
  }

  /** With every control channel down and every forward task at its end, all clients are deleted
      and the counter is zero: a control channel that is down has left no standby behind. */
  lemma NothingLeftOver<C>(s: State<C>)
    requires Inv(s) && s.forwards == map[] && s.ending == 0
    requires forall t :: 0 <= t < |s.managers| ==> s.managers[t].Down?
    ensures s.count == 0 && forall c :: c in s.owner ==> s.owner[c].Gone?
  {
    forall t, i | 0 <= t < |s.pools| && 0 <= i < |s.pools[t]| ensures s.pools[t][i].None? {
      assert Resumes(s.managers[t], s.pools[t]);
    }
    NoPooled(s.pools);
  }

  // ----------------------------------------------------------------- what is achieved --

  lemma RunOne<C>(s: State<C>, e: Event<C>, es: seq<Event<C>>)
    requires Possible(s, e)
    ensures Run(s, [e] + es) == Run(Step(s, e), es)
  {
    assert ([e] + es)[1..] == es;
  }

  function Fill<C>(t: nat, c: C, connected: bool, greeted: bool): seq<Event<C>> {
    [Acts(t, CreateDataChannel(Some(c))), Acts(t, Connected(connected)), Acts(t, Greeted(greeted))]
  }

  lemma SaysHello<C>(s: State<C>, t: nat, i: nat, c: C, connected: bool, greeted: bool)
    requires t < |s.managers| && t < |s.pools| == |s.managers| && i < |s.pools[t]|
    requires s.managers[t] == Connecting(i, c)
    ensures Run(s, [Acts(t, Connected(connected)), Acts(t, Greeted(greeted))])
            == At(if connected && greeted then Standby(s, t, i, c) else Owned(s, c, Gone), t, Serving)
  {
    var end := [Acts(t, Greeted(greeted))];
    RunOne(s, Acts(t, Connected(connected)), end);
    assert [Acts(t, Connected(connected))] + end == [Acts(t, Connected(connected)), Acts(t, Greeted(greeted))];
    if connected {
      var u := At(s, t, Greeting(i, c));
      assert u.managers[t := Serving] == s.managers[t := Serving];
      RunOne(u, Acts(t, Greeted(greeted)), []);
    } else {
      assert !Possible(At(Owned(s, c, Gone), t, Serving), Acts(t, Greeted(greeted)));
    }
  }

  /** A request a serving manager gets while a slot is free: if the new client connects and greets
      it is the standby of the first free slot, counted once; if it does not it is deleted.
      Nothing else changes. */
  lemma Fills<C>(s: State<C>, t: nat, c: C, connected: bool, greeted: bool)
    requires Inv(s) && t < |s.managers| && s.managers[t].Serving? && c !in s.owner
    requires t < |s.pools| && FirstFree(s.pools[t]) < |s.pools[t]|
    ensures var i := FirstFree(s.pools[t]);
            Run(s, Fill(t, c, connected, greeted))
            == if connected && greeted then
                 s.(pools := s.pools[t := s.pools[t][i := Some(c)]], owner := s.owner[c := Slot(t, i)],
                    count := s.count + 1)
               else s.(owner := s.owner[c := Gone])
  {
    var i := FirstFree(s.pools[t]);
    var u := At(Owned(s, c, Hand(t)), t, Connecting(i, c));
    var rest := [Acts(t, Connected(connected)), Acts(t, Greeted(greeted))];
    assert Fill(t, c, connected, greeted) == [Acts(t, CreateDataChannel(Some(c)))] + rest;
    RunOne(s, Acts(t, CreateDataChannel(Some(c))), rest);
    SaysHello(u, t, i, c, connected, greeted);
    assert u.managers[t := Serving] == s.managers;
    assert u.owner[c := Gone] == s.owner[c := Gone] && u.owner[c := Slot(t, i)] == s.owner[c := Slot(t, i)];
  }

  /** What one pass of the poll loop finds at a slot; there is a read only behind a command. */
  datatype Find = Find(look: Look, read: Read)

  predicate Stays(f: Find) {
    f.look.Nothing? || (f.look.Command? && f.read.Phantom?)
  }

  predicate Starts(f: Find) {
    f.look.Command? && f.read.Start? && f.read.task.Some?
  }

  function Looks<C>(t: nat, finds: seq<Find>): seq<Event<C>> {
    if finds == [] then [Acts(t, PollSlot(Nothing))]
    else [Acts(t, PollSlot(finds[0].look))] + ([Acts(t, CommandRead(finds[0].read))] + Looks(t, finds[1..]))
  }

  // The slot behind the pass, and who has its standby then.
  function Left<C>(slot: Option<C>, f: Find): Option<C> {
    if Stays(f) then slot else None
  }

  function Fate(t: nat, i: nat, f: Find): Owner {
    if Stays(f) then Slot(t, i) else if Starts(f) then Task(f.read.task.value) else Gone
  }

  function Lost<C>(slot: Option<C>, f: Find): nat {
    if slot.Some? && !Stays(f) && !Starts(f) then 1 else 0
  }

  function AllLost<C>(pool: Pool<C>, finds: seq<Find>): nat
    requires |pool| == |finds|
  {
    if pool == [] then 0 else Lost(pool[0], finds[0]) + AllLost(pool[1..], finds[1..])
  }

  // Every task that is created is a new one.
  ghost predicate NewTasks<C>(forwards: map<nat, C>, finds: seq<Find>) {
    && (forall i :: 0 <= i < |finds| && Starts(finds[i]) ==> finds[i].read.task.value !in forwards)
    && (forall i, j :: 0 <= i < j < |finds| && Starts(finds[i]) && Starts(finds[j]) ==>
          finds[i].read.task != finds[j].read.task)
  }

  // One slot of the pass.
  function Polled<C>(s: State<C>, t: nat, i: nat, f: Find): State<C>
    requires t < |s.managers| == |s.pools| && i < |s.pools[t]|
  {
    var slot := s.pools[t][i];
    At(if slot.None? || Stays(f) then s else if Starts(f) then Handed(s, t, i, f.read.task.value) else Drop(s, t, i),
       t, Polling(i + 1))
  }

  lemma CommandIsRead<C>(s: State<C>, t: nat, i: nat, read: Read)
    requires t < |s.managers| == |s.pools| && i < |s.pools[t]| && s.pools[t][i].Some?
    ensures At(AfterRead(At(s, t, Reading(i)), t, i, read), t, Polling(i + 1))
            == At(AfterRead(s, t, i, read), t, Polling(i + 1))
  {
    assert s.managers[t := Reading(i)][t := Polling(i + 1)] == s.managers[t := Polling(i + 1)];
  }

  lemma PollsCommand<C>(s: State<C>, t: nat, i: nat, read: Read, rest: seq<Event<C>>)
    requires Inv(s) && t < |s.managers| && s.managers[t] == Polling(i) && Filled(s, t, i)
    requires read.Start? && read.task.Some? ==> read.task.value !in s.forwards
    ensures Run(s, [Acts(t, PollSlot(Command))] + ([Acts(t, CommandRead(read))] + rest))
            == Run(At(AfterRead(s, t, i, read), t, Polling(i + 1)), rest)
    ensures Inv(At(AfterRead(s, t, i, read), t, Polling(i + 1)))
  {
    var s1 := At(s, t, Reading(i));
    LookKeepsInv(s, t, i, Command);
    RunOne(s, Acts(t, PollSlot(Command)), [Acts(t, CommandRead(read))] + rest);
    ReadKeepsInv(s1, t, i, read);
    CommandIsRead(s, t, i, read);
    RunOne(s1, Acts(t, CommandRead(read)), rest);
  }

  lemma PollsOther<C>(s: State<C>, t: nat, i: nat, look: Look, read: Read, rest: seq<Event<C>>)
    requires Inv(s) && t < |s.managers| && s.managers[t] == Polling(i) && i < |s.pools[t]|
    requires s.pools[t][i].Some? ==> !look.Command?
    ensures Run(s, [Acts(t, PollSlot(look))] + ([Acts(t, CommandRead(read))] + rest))
            == Run(Looked(s, t, i, look), rest)
    ensures Inv(Looked(s, t, i, look))
  {
    var more: seq<Event<C>> := [Acts(t, CommandRead(read))] + rest;
    LookKeepsInv(s, t, i, look);
    RunOne(s, Acts(t, PollSlot(look)), more);
    assert more[1..] == rest && more[0] == Acts(t, CommandRead(read));
  }

  lemma PollsSlot<C>(s: State<C>, t: nat, i: nat, f: Find, rest: seq<Event<C>>)
    requires Inv(s) && t < |s.managers| && s.managers[t] == Polling(i) && i < |s.pools[t]|
    requires Starts(f) ==> f.read.task.value !in s.forwards
    ensures Run(s, [Acts(t, PollSlot(f.look))] + ([Acts(t, CommandRead(f.read))] + rest))
            == Run(Polled(s, t, i, f), rest)
    ensures Inv(Polled(s, t, i, f))
  {
    if s.pools[t][i].Some? && f.look.Command? {
      PollsCommand(s, t, i, f.read, rest);
    } else {
      PollsOther(s, t, i, f.look, f.read, rest);
    }
  }

  // Whose a client is behind a pass that begins at slot `i`.
  function OwnerAfter(o: Owner, t: nat, i: nat, finds: seq<Find>): Owner {
    if o.Slot? && o.tunnel == t && i <= o.slot < |finds| then Fate(t, o.slot, finds[o.slot]) else o
  }

  function LeftFrom<C>(pool: Pool<C>, i: nat, finds: seq<Find>, j: nat): Option<C>
    requires j < |pool| == |finds|
  {
    if j < i then pool[j] else Left(pool[j], finds[j])
  }

  ghost predicate PassedPools<C>(s: State<C>, u: State<C>, t: nat, i: nat, finds: seq<Find>)
    requires t < |s.pools| && |finds| == |s.pools[t]|
  {
    && |u.pools| == |s.pools| && |u.pools[t]| == |finds|
    && (forall k :: 0 <= k < |s.pools| && k != t ==> u.pools[k] == s.pools[k])
    && (forall j :: 0 <= j < |finds| ==> u.pools[t][j] == LeftFrom(s.pools[t], i, finds, j))
  }

  ghost predicate PassedOwners<C>(s: State<C>, u: State<C>, t: nat, i: nat, finds: seq<Find>) {
    u.owner.Keys == s.owner.Keys && forall c :: c in s.owner ==> u.owner[c] == OwnerAfter(s.owner[c], t, i, finds)
  }

  /** `u` is where a pass over the slots from `i` on leaves `s`, with the manager at `m`. */
  ghost predicate Passed<C>(s: State<C>, u: State<C>, t: nat, i: nat, finds: seq<Find>, m: Manager<C>)
    requires t < |s.managers| == |s.pools| && |finds| == |s.pools[t]| && i <= |finds|
  {
    && Inv(u) && u.managers == s.managers[t := m] && u.ending == s.ending
    && PassedPools(s, u, t, i, finds) && PassedOwners(s, u, t, i, finds)
    && u.count == s.count - AllLost(s.pools[t][i..], finds[i..])
  }

  lemma SlotPasses<C>(s: State<C>, t: nat, i: nat, f: Find)
    requires Inv(s) && t < |s.managers| && s.managers[t] == Polling(i) && i < |s.pools[t]|
    ensures var v := Polled(s, t, i, f);
            && |v.pools| == |s.pools| && v.pools == s.pools[t := s.pools[t][i := Left(s.pools[t][i], f)]]
            && v.managers == s.managers[t := Polling(i + 1)] && v.ending == s.ending
            && v.count == s.count - Lost(s.pools[t][i], f)
            && v.owner.Keys == s.owner.Keys
            && (forall c :: c in s.owner ==>
                  v.owner[c] == if s.owner[c] == Slot(t, i) then Fate(t, i, f) else s.owner[c])
            && forall k :: k in v.forwards ==> k in s.forwards || (Starts(f) && f.read.task == Some(k))
  {
    var slot := s.pools[t][i];
    assert slot.Some? ==> Filled(s, t, i) && Owns(s, Slot(t, i), slot.value);
    assert forall c :: Owns(s, Slot(t, i), c) ==> Filled(s, t, i) && c == slot.value;
    if slot.None? || Stays(f) {
      assert s.pools[t][i := Left(slot, f)] == s.pools[t];
    }
  }

  lemma PassComposes<C>(s: State<C>, v: State<C>, u: State<C>, t: nat, i: nat, finds: seq<Find>,
                        next: Manager<C>, m: Manager<C>)
    requires t < |s.managers| == |s.pools| && |finds| == |s.pools[t]| && i < |finds|
    requires v.pools == s.pools[t := s.pools[t][i := Left(s.pools[t][i], finds[i])]]
    requires v.managers == s.managers[t := next] && v.ending == s.ending
    requires v.count == s.count - Lost(s.pools[t][i], finds[i])
    requires v.owner.Keys == s.owner.Keys
    requires forall c :: c in s.owner ==>
               v.owner[c] == if s.owner[c] == Slot(t, i) then Fate(t, i, finds[i]) else s.owner[c]
    requires Passed(v, u, t, i + 1, finds, m)
    ensures Passed(s, u, t, i, finds, m)
  {
    assert v.managers[t := m] == s.managers[t := m];
    assert v.pools[t][i + 1..] == s.pools[t][i..][1..] && finds[i + 1..] == finds[i..][1..];
    forall c | c in s.owner ensures u.owner[c] == OwnerAfter(s.owner[c], t, i, finds) {
      assert u.owner[c] == OwnerAfter(v.owner[c], t, i + 1, finds);
    }
    forall j | 0 <= j < |finds| ensures u.pools[t][j] == LeftFrom(s.pools[t], i, finds, j) {
      assert u.pools[t][j] == LeftFrom(v.pools[t], i + 1, finds, j);
    }
  }

  lemma PassEnds<C>(s: State<C>, t: nat, finds: seq<Find>)
    requires Inv(s) && t < |s.managers| && |finds| == |s.pools[t]| && s.managers[t] == Polling(|finds|)
    ensures Passed(s, Run(s, [Acts(t, PollSlot(Nothing))]), t, |finds|, finds, Serving)
  {
    LookKeepsInv(s, t, |finds|, Nothing);
    RunOne(s, Acts(t, PollSlot(Nothing)), []);
  }

  lemma {:induction false} PassFrom<C>(s: State<C>, t: nat, i: nat, finds: seq<Find>)
    requires Inv(s) && t < |s.managers| && s.managers[t] == Polling(i) && |finds| == |s.pools[t]| && i <= |finds|
    requires NewTasks(s.forwards, finds[i..])
    ensures Passed(s, Run(s, Looks(t, finds[i..])), t, i, finds, Serving)
    decreases |finds| - i
  {
    if i == |finds| {
      PassEnds(s, t, finds);
    } else {
      var f, more := finds[i], finds[i + 1..];
      assert finds[i..][0] == f && finds[i..][1..] == more;
      PollsSlot(s, t, i, f, Looks(t, more));
      SlotPasses(s, t, i, f);
      var v := Polled(s, t, i, f);
      assert NewTasks(v.forwards, more);
      PassFrom(v, t, i + 1, finds);
      PassComposes(s, v, Run(v, Looks(t, more)), t, i, finds, Polling(i + 1), Serving);
    }
  }

  /** One pass of the poll loop of a serving manager, for whatever it finds: a standby with
      nothing to read stays in its slot, one whose command says start belongs to the task that
      was created for it and to no other, and every other is deleted; the counter goes down by
      as many. No other tunnel notices, and the manager serves again. */
  lemma PollPasses<C>(s: State<C>, t: nat, finds: seq<Find>)
    requires Inv(s) && t < |s.managers| && s.managers[t].Serving?
    requires |finds| == |s.pools[t]| && NewTasks(s.forwards, finds)
    ensures Passed(s, Run(s, [Acts(t, StartPoll)] + Looks(t, finds)), t, 0, finds, Serving)
  {
    var v := At(s, t, Polling(0));
    GoKeepsInv(s, t, StartPoll);
    RunOne(s, Acts(t, StartPoll), Looks(t, finds));
    assert finds[0..] == finds;
    PassFrom(v, t, 0, finds);
    assert v.managers[t := Serving] == s.managers[t := Serving];
  }

  // A pass that finds something at slot `i` only.
  function Only(n: nat, i: nat, f: Find): seq<Find> {
    seq(n, j => if j == i then f else Find(Nothing, Phantom))
  }

  lemma {:induction false} NoneLost<C>(pool: Pool<C>, finds: seq<Find>)
    requires |pool| == |finds| && forall i :: 0 <= i < |finds| ==> Stays(finds[i]) || Starts(finds[i])
    ensures AllLost(pool, finds) == 0
  {
    if pool == [] {
    } else {
      NoneLost(pool[1..], finds[1..]);
    }
  }

  // The tasks behind a pass are those that the owners say.
  lemma OneStarted<C>(s: State<C>, u: State<C>, t: nat, i: nat, c: C, k: nat)
    requires Inv(s) && Filled(s, t, i) && s.pools[t][i].value == c && k !in s.forwards && Inv(u)
    requires PassedOwners(s, u, t, 0, Only(|s.pools[t]|, i, Find(Command, Start(Some(k)))))
    ensures u.owner == s.owner[c := Task(k)] && u.forwards == s.forwards[k := c]
  {
    assert Owns(s, Slot(t, i), c);
    forall x | x in s.owner ensures u.owner[x] == if x == c then Task(k) else s.owner[x] {
      assert s.owner[x] == Slot(t, i) ==> OwnedBy(s, x, Slot(t, i));
      assert OwnedBy(s, x, s.owner[x]);
    }
    assert u.owner == s.owner[c := Task(k)];
    forall j | j in u.forwards ensures j in s.forwards[k := c] && u.forwards[j] == s.forwards[k := c][j] {
      assert Owns(u, Task(j), u.forwards[j]);
      if j != k { assert OwnedBy(s, u.forwards[j], Task(j)); }
    }
    forall j | j in s.forwards[k := c] ensures j in u.forwards {
      var x := s.forwards[k := c][j];
      if j != k { assert Owns(s, Task(j), x) && Owns(s, Slot(t, i), c); }
      assert OwnedBy(u, x, Task(j));
    }
  }

  lemma OnlyPools<C>(s: State<C>, u: State<C>, t: nat, i: nat, k: nat)
    requires Filled(s, t, i)
    requires PassedPools(s, u, t, 0, Only(|s.pools[t]|, i, Find(Command, Start(Some(k)))))
    ensures u.pools == s.pools[t := s.pools[t][i := None]]
  {
    var finds := Only(|s.pools[t]|, i, Find(Command, Start(Some(k))));
    assert forall j :: 0 <= j < |finds| ==> u.pools[t][j] == LeftFrom(s.pools[t], 0, finds, j);
    assert u.pools[t] == s.pools[t][i := None];
  }

  // The pass in which the standby of slot `i` is told to start, and the others are quiet.
  function Activation<C>(t: nat, n: nat, i: nat, k: nat): seq<Event<C>> {
    [Acts(t, StartPoll)] + Looks(t, Only(n, i, Find(Command, Start(Some(k)))))
  }

  /** Its client goes to the new task and stays counted. */
  lemma Activates<C>(s: State<C>, t: nat, i: nat, k: nat)
    requires Inv(s) && Filled(s, t, i) && t < |s.managers| && s.managers[t].Serving? && k !in s.forwards
    ensures var c := s.pools[t][i].value;
            Run(s, Activation(t, |s.pools[t]|, i, k))
            == s.(pools := s.pools[t := s.pools[t][i := None]], owner := s.owner[c := Task(k)],
                  forwards := s.forwards[k := c])
  {
    var finds := Only(|s.pools[t]|, i, Find(Command, Start(Some(k))));
    var u := Run(s, Activation(t, |s.pools[t]|, i, k));
    PollPasses(s, t, finds);
    OneStarted(s, u, t, i, s.pools[t][i].value, k);
    NoneLost(s.pools[t], finds);
    OnlyPools(s, u, t, i, k);
    assert s.pools[t][0..] == s.pools[t] && finds[0..] == finds;
    assert u.managers == s.managers;
  }

  /** The end of a session undoes it. */
  lemma ForwardEnds<C>(s: State<C>, k: nat)
    requires k in s.forwards
    ensures Run(s, [ForwardStops(k), ForwardUncounts])
            == s.(forwards := s.forwards - {k}, owner := s.owner[s.forwards[k] := Gone], count := s.count - 1)
  {
    var last: seq<Event<C>> := [ForwardUncounts];
    RunOne(s, ForwardStops(k), last);
    RunOne(Stopped(s, k), ForwardUncounts, []);
    assert [ForwardStops(k)] + last == [ForwardStops(k), ForwardUncounts];
  }

  lemma FirstFreeIs<C>(pool: Pool<C>, i: nat)
    requires i < |pool| && pool[i].None? && forall j :: 0 <= j < i ==> pool[j].Some?
    ensures FirstFree(pool) == i
  {
  }

  function Forwarding<C>(s: State<C>, c: C, k: nat): State<C> {
    s.(owner := s.owner[c := Task(k)], forwards := s.forwards[k := c], count := s.count + 1)
  }

  lemma InAndOut<C>(s: State<C>, t: nat, i: nat, c: C, k: nat)
    requires t < |s.pools| && i < |s.pools[t]| && s.pools[t][i].None?
    ensures var v := Standby(s, t, i, c);
            v.(pools := v.pools[t := v.pools[t][i := None]], owner := v.owner[c := Task(k)],
               forwards := v.forwards[k := c]) == Forwarding(s, c, k)
  {
    var v := Standby(s, t, i, c);
    assert v.pools[t][i := None] == s.pools[t];
    assert v.pools[t := s.pools[t]] == s.pools;
    assert v.owner[c := Task(k)] == s.owner[c := Task(k)];
  }

  lemma Undone<C>(s: State<C>, c: C, k: nat)
    requires k !in s.forwards
    ensures Run(Forwarding(s, c, k), [ForwardStops(k), ForwardUncounts]) == s.(owner := s.owner[c := Gone])
  {
    var u := Forwarding(s, c, k);
    ForwardEnds(u, k);
    assert u.forwards - {k} == s.forwards && u.owner[c := Gone] == s.owner[c := Gone];
  }

  lemma StandbyActivates<C>(s: State<C>, v: State<C>, t: nat, i: nat, c: C, k: nat)
    requires Inv(v) && t < |s.pools| == |s.managers| && i < |s.pools[t]| && s.pools[t][i].None?
    requires v == Standby(s, t, i, c) && s.managers[t].Serving? && k !in s.forwards
    ensures Run(v, Activation(t, |s.pools[t]|, i, k)) == Forwarding(s, c, k)
  {
    assert |v.pools[t]| == |s.pools[t]| && v.pools[t][i] == Some(c);
    Activates(v, t, i, k);
    InAndOut(s, t, i, c, k);
  }

  /** A visitor from request to end, through any free slot, leaves nothing but a deleted client. */
  lemma VisitorServed<C>(s: State<C>, t: nat, c: C, k: nat)
    requires Inv(s) && t < |s.managers| && s.managers[t].Serving? && c !in s.owner && k !in s.forwards
    requires t < |s.pools| && FirstFree(s.pools[t]) < |s.pools[t]|
    ensures Run(Run(s, Fill(t, c, true, true)), Activation(t, |s.pools[t]|, FirstFree(s.pools[t]), k))
            == Forwarding(s, c, k)
    ensures Run(Forwarding(s, c, k), [ForwardStops(k), ForwardUncounts]) == s.(owner := s.owner[c := Gone])
  {
    Fills(s, t, c, true, true);
    EveryRunKeepsInv(s, Fill(t, c, true, true));
    StandbyActivates(s, Run(s, Fill(t, c, true, true)), t, FirstFree(s.pools[t]), c, k);
    Undone(s, c, k);
  }

  const CLOSED := Find(Closed, Phantom)

  function Drains<C>(t: nat, n: nat): seq<Event<C>> {
    if n == 0 then [] else [Acts(t, DrainSlot)] + Drains(t, n - 1)
  }

  function AllClosed(n: nat): seq<Find> {
    seq(n, _ => CLOSED)
  }

  lemma DrainsSlot<C>(s: State<C>, t: nat, i: nat, finds: seq<Find>)
    requires Inv(s) && t < |s.managers| && s.managers[t] == Draining(i) && i < |s.pools[t]| == |finds|
    requires finds[i] == CLOSED
    ensures var v := Drained(s, t, i);
            && v.pools == s.pools[t := s.pools[t][i := Left(s.pools[t][i], finds[i])]]
            && v.managers == s.managers[t := Draining(i + 1)] && v.ending == s.ending
            && v.count == s.count - Lost(s.pools[t][i], finds[i])
            && v.owner.Keys == s.owner.Keys
            && (forall c :: c in s.owner ==>
                  v.owner[c] == if s.owner[c] == Slot(t, i) then Fate(t, i, finds[i]) else s.owner[c])
  {
    var slot := s.pools[t][i];
    assert slot.Some? ==> Filled(s, t, i) && Owns(s, Slot(t, i), slot.value);
    assert forall c :: Owns(s, Slot(t, i), c) ==> Filled(s, t, i) && c == slot.value;
    if slot.None? { assert s.pools[t][i := None] == s.pools[t]; }
  }

  lemma DrainEnds<C>(s: State<C>, t: nat, finds: seq<Find>)
    requires Inv(s) && t < |s.managers| && |finds| == |s.pools[t]| && s.managers[t] == Draining(|finds|)
    ensures Passed(s, Run(s, Drains(t, 1)), t, |finds|, finds, Down)
  {
    DrainKeepsInv(s, t, |finds|);
    RunOne(s, Acts(t, DrainSlot), []);
    assert Drains<C>(t, 1) == [Acts(t, DrainSlot)] + [];
  }

  lemma {:induction false} DrainFrom<C>(s: State<C>, t: nat, i: nat, finds: seq<Find>)
    requires Inv(s) && t < |s.managers| && s.managers[t] == Draining(i) && |s.pools[t]| == |finds| && i <= |finds|
    requires forall j :: 0 <= j < |finds| ==> finds[j] == CLOSED
    ensures Passed(s, Run(s, Drains(t, |finds| - i + 1)), t, i, finds, Down)
    decreases |finds| - i
  {
    if i == |finds| {
      DrainEnds(s, t, finds);
    } else {
      var v, more := Drained(s, t, i), Drains(t, |finds| - i);
      DrainKeepsInv(s, t, i);
      RunOne(s, Acts(t, DrainSlot), more);
      DrainsSlot(s, t, i, finds);
      DrainFrom(v, t, i + 1, finds);
      PassComposes(s, v, Run(v, more), t, i, finds, Draining(i + 1), Down);
    }
  }

  lemma {:induction false} ClosedCount<C>(pool: Pool<C>)
    ensures AllLost(pool, AllClosed(|pool|)) == Pooled(pool)
  {
    if pool == [] {
    } else {
      ClosedCount(pool[1..]);
      assert AllClosed(|pool|)[1..] == AllClosed(|pool| - 1);
    }
  }

  /** The end of a session deletes its standbys and uncounts them, and nothing else. */
  lemma SessionEnds<C>(s: State<C>, t: nat)
    requires Inv(s) && t < |s.managers| && s.managers[t].Serving?
    ensures var n := |s.pools[t]|;
            var u := Run(s, [Acts(t, SessionOver)] + Drains(t, n + 1));
            && Inv(u) && u.managers == s.managers[t := Down] && u.count == s.count - Pooled(s.pools[t])
            && PassedPools(s, u, t, 0, AllClosed(n)) && PassedOwners(s, u, t, 0, AllClosed(n))
  {
    var n := |s.pools[t]|;
    var v := At(s, t, Draining(0));
    GoKeepsInv(s, t, SessionOver);
    RunOne(s, Acts(t, SessionOver), Drains(t, n + 1));
    DrainFrom(v, t, 0, AllClosed(n));
    ClosedCount(s.pools[t]);
    assert s.pools[t][0..] == s.pools[t] && AllClosed(n)[0..] == AllClosed(n);
    assert v.managers[t := Down] == s.managers[t := Down];
  }

  /** A session that comes up has its first request served in the first slot. */
  lemma SessionServes<C>(s: State<C>, t: nat, c: C)
    requires Inv(s) && t < |s.managers| && s.managers[t].Down? && c !in s.owner && t < |s.pools| && s.pools[t] != []
    ensures Run(s, [Acts(t, SessionUp)] + Fill(t, c, true, true))
            == s.(managers := s.managers[t := Serving], pools := s.pools[t := s.pools[t][0 := Some(c)]],
                  owner := s.owner[c := Slot(t, 0)], count := s.count + 1)
  {
    assert Resumes(s.managers[t], s.pools[t]);
    FirstFreeIs(s.pools[t], 0);
    GoKeepsInv(s, t, SessionUp);
    RunOne(s, Acts(t, SessionUp), Fill(t, c, true, true));
    Fills(At(s, t, Serving), t, c, true, true);
  }

  // ------------------------------------------------------------------- the program --

  function Brought(got: nat, zero: bool, connected: bool, task: Option<nat>): Read {
    if got == 4 && zero then Start(task) else if got == 0 && connected then Phantom else Desync
  }

  class WiFiClient {
    var stopped: bool
    var freed: bool

    constructor ()
      ensures !stopped && !freed
    {
      stopped, freed := false, false;
    }

    method Stop()
      requires !freed
      modifies this`stopped
      ensures stopped
    {
      stopped := true;
    }

    /** Deleting twice, or using what is deleted, is what the preconditions forbid. */
    method Delete()
      requires !freed
      modifies this`freed
      ensures freed
    {
      freed := true;
    }
  }

  class Tunnels {
    var pools: seq<Pool<WiFiClient>>
    var managers: seq<Manager<WiFiClient>>
    var forwards: map<nat, WiFiClient>
    var ending: nat
    var dataChCount: int
    ghost var owner: map<WiFiClient, Owner>

    ghost function View(): State<WiFiClient>
      reads this
    {
      State(pools, managers, forwards, ending, dataChCount, owner)
    }

    /** The objects that are deleted are those that have no owner any more. */
    ghost predicate FreedAreGone()
      reads this, owner.Keys
    {
      forall c :: c in owner ==> (c.freed <==> owner[c].Gone?)
    }

    ghost predicate Valid()
      reads this, owner.Keys
    {
      Inv(View()) && FreedAreGone()
    }

    // What a place holds can be deleted.
    lemma Live(o: Owner, c: WiFiClient)
      requires Valid() && !o.Gone? && OwnedBy(View(), c, o)
      ensures c in owner && !c.freed
    {
      HeldOnce(View(), o, o, c);
    }

    method Discard(c: WiFiClient, stop: bool)
      requires FreedAreGone() && c in owner && !c.freed
      modifies this`owner, c
      ensures FreedAreGone() && owner == old(owner)[c := Gone]
    {
      if stop { c.Stop(); }
      c.Delete();
      owner := owner[c := Gone];
    }

    constructor (tunnels: nat, slots: nat)
      ensures Valid() && |pools| == tunnels && owner == map[] && dataChCount == 0
    {
      pools, managers := seq(tunnels, _ => seq(slots, _ => None)), seq(tunnels, _ => Down);
      forwards, ending, dataChCount, owner := map[], 0, 0, map[];
      new;
      NoPooled(pools);
    }

    /** The first part of `pool_fill_one`, for the first free slot; with none the request is
        dropped. */
    method OnCreateDataChannel(t: nat, heapOk: bool, newOk: bool) returns (made: Option<WiFiClient>)
      requires Valid() && Possible(View(), Acts(t, CreateDataChannel(None)))
      modifies this`managers, this`owner
      ensures made.Some? ==> fresh(made.value)
      ensures FreedAreGone() && View() == Acted(old(View()), t, CreateDataChannel(made))
      ensures made.Some? <==> heapOk && newOk && FirstFree(pools[t]) < |pools[t]|
    {
      made := None;
      var i := 0;
      while i < |pools[t]| && pools[t][i].Some?
        invariant i <= |pools[t]| && forall j :: 0 <= j < i ==> pools[t][j].Some?
      {
        i := i + 1;
      }
      assert i == FirstFree(pools[t]);
      if i < |pools[t]| && heapOk && newOk {
        var c := new WiFiClient();
        made := Some(c);
        owner := owner[c := Hand(t)];
        managers := managers[t := Connecting(i, c)];
      }
    }

    method OnConnected(t: nat, ok: bool)
      requires Valid() && Possible(View(), Acts(t, Connected(ok)))
      modifies this`managers, this`owner, owner.Keys
      ensures FreedAreGone() && View() == Acted(old(View()), t, Connected(ok))
    {
      var c := managers[t].c;
      if ok {
        managers := managers[t := Greeting(managers[t].slot, c)];
      } else {
        Live(Hand(t), c);
        Discard(c, false);
        managers := managers[t := Serving];
      }
    }

    method OnGreeted(t: nat, ok: bool)
      requires Valid() && Possible(View(), Acts(t, Greeted(ok)))
      modifies this`pools, this`managers, this`dataChCount, this`owner, owner.Keys
      ensures FreedAreGone() && View() == Acted(old(View()), t, Greeted(ok))
    {
      var i, c := managers[t].slot, managers[t].c;
      if ok {
        pools := pools[t := pools[t][i := Some(c)]];
        dataChCount := dataChCount + 1;
        owner := owner[c := Slot(t, i)];
      } else {
        Live(Hand(t), c);
        Discard(c, true);
      }
      managers := managers[t := Serving];
    }

    /** The standby in a slot goes. */
    method DropStandby(t: nat, i: nat)
      requires Valid() && Filled(View(), t, i)
      modifies this`pools, this`dataChCount, this`owner, owner.Keys
      ensures View() == Drop(old(View()), t, i)
      ensures FreedAreGone() && owner.Keys == old(owner.Keys)
    {
      var c := pools[t][i].value;
      Live(Slot(t, i), c);
      Discard(c, true);
      pools := pools[t := pools[t][i := None]];
      dataChCount := dataChCount - 1;
    }

    /** The manager's session begins or ends, or it comes to its poll loop. */
    method GoOn(t: nat, act: Action<WiFiClient>)
      requires Valid() && Possible(View(), Acts(t, act)) && (act.SessionUp? || act.StartPoll? || act.SessionOver?)
      modifies this`managers
      ensures FreedAreGone() && View() == Acted(old(View()), t, act)
    {
      managers := managers[t := if act.SessionUp? then Serving else if act.StartPoll? then Polling(0) else Draining(0)];
    }

    /** One turn of the poll loop, up to the read if there is something to read. */
    method OnPollSlot(t: nat, look: Look)
      requires Valid() && Possible(View(), Acts(t, PollSlot(look)))
      modifies this`pools, this`managers, this`dataChCount, this`owner, owner.Keys
      ensures FreedAreGone() && View() == Acted(old(View()), t, PollSlot(look))
    {
      var i := managers[t].next;
      if i >= |pools[t]| {
        managers := managers[t := Serving];
        return;
      }
      var next := Polling(i + 1);
      if pools[t][i].Some? {
        match look {
          case Nothing =>
          case Closed => DropStandby(t, i);
          case Command => next := Reading(i);
        }
      }
      managers := managers[t := next];
    }

    /** `start_forward`: the client moves to the task, or is deleted when there is none, for want
        of heap, of an address or of the task itself. */
    method StartForward(t: nat, i: nat, task: Option<nat>)
      requires Valid() && Filled(View(), t, i)
      modifies this`pools, this`forwards, this`dataChCount, this`owner, owner.Keys
      ensures View() == Started(old(View()), t, i, task)
      ensures FreedAreGone() && owner.Keys == old(owner.Keys)
    {
      if task.None? {
        DropStandby(t, i);
        return;
      }
      var c := pools[t][i].value;
      pools := pools[t := pools[t][i := None]];
      forwards := forwards[task.value := c];
      owner := owner[c := Task(task.value)];
    }

    /** Behind the read of a command: `got` bytes of it, and whether it is zero. */
    method OnCommandRead(t: nat, got: nat, zero: bool, connected: bool, task: Option<nat>)
      requires Valid() && got <= 4 && Possible(View(), Acts(t, CommandRead(Start(task))))
      modifies this`pools, this`managers, this`forwards, this`dataChCount, this`owner, owner.Keys
      ensures FreedAreGone()
      ensures View() == Acted(old(View()), t, CommandRead(Brought(got, zero, connected, task)))
    {
      var i := managers[t].slot;
      if got == 4 && zero {
        StartForward(t, i, task);
      } else if !(got == 0 && connected) {
        DropStandby(t, i);
      }
      managers := managers[t := Polling(i + 1)];
    }

    /** One turn of `pool_drain`. */
    method OnDrainSlot(t: nat)
      requires Valid() && Possible(View(), Acts(t, DrainSlot))
      modifies this`pools, this`managers, this`dataChCount, this`owner, owner.Keys
      ensures FreedAreGone() && View() == Acted(old(View()), t, DrainSlot)
    {
      var i := managers[t].next;
      if i >= |pools[t]| {
        managers := managers[t := Down];
        return;
      }
      if pools[t][i].Some? { DropStandby(t, i); }
      managers := managers[t := Draining(i + 1)];
    }

    /** The end of a forward task, whatever ended its session. */
    method OnForwardStops(k: nat)
      requires Valid() && Possible(View(), ForwardStops(k))
      modifies this`forwards, this`ending, this`owner, owner.Keys
      ensures FreedAreGone() && View() == Step(old(View()), ForwardStops(k))
    {
      var c := forwards[k];
      Live(Task(k), c);
      Discard(c, true);
      forwards := forwards - {k};
      ending := ending + 1;
    }

    method OnForwardUncounts()
      requires Valid() && Possible(View(), ForwardUncounts)
      modifies this`ending, this`dataChCount
      ensures FreedAreGone() && View() == Step(old(View()), ForwardUncounts)
    {
      ending := ending - 1;
      dataChCount := dataChCount - 1;
    }
  }

  // ------------------------------------------------------ the counter is not atomic --

  /** `g_data_ch_count--` is a load and a store; tasks may run in between. */
  datatype Access = Load(task: nat) | Store(task: nat, delta: int)

  function Exec(count: int, regs: map<nat, int>, es: seq<Access>): int
    decreases |es|
  {
    if es == [] then count
    else
      match es[0]
      case Load(k) => Exec(count, regs[k := count], es[1..])
      case Store(k, d) => Exec(if k in regs then regs[k] + d else count, regs, es[1..])
  }

  function Deltas(es: seq<Access>): int {
    if es == [] then 0 else (if es[0].Store? then es[0].delta else 0) + Deltas(es[1..])
  }

  /** A history in which the tasks of `open` have loaded and not yet stored: every task stores
      what it loaded, once. A task may update the counter any number of times. */
  ghost predicate Complete(open: set<nat>, es: seq<Access>)
    decreases |es|
  {
    if es == [] then open == {}
    else
      match es[0]
      case Load(k) => k !in open && Complete(open + {k}, es[1..])
      case Store(k, d) => k in open && Complete(open - {k}, es[1..])
  }

  // No store happens while another task has loaded and not yet stored.
  ghost predicate Exclusive(open: set<nat>, es: seq<Access>)
    decreases |es|
  {
    es != [] ==>
      match es[0]
      case Load(k) => Exclusive(open + {k}, es[1..])
      case Store(k, d) => open <= {k} && Exclusive(open - {k}, es[1..])
  }

  ghost predicate Decrements(es: seq<Access>) {
    forall i :: 0 <= i < |es| && es[i].Store? ==> es[i].delta < 0
  }

  // What the open tasks have loaded is at least `floor`.
  ghost predicate Above(regs: map<nat, int>, open: set<nat>, floor: int) {
    forall k :: k in open ==> k in regs && regs[k] >= floor
  }

  // Once the count is too high, and all that is loaded with it, it stays so.
  lemma {:induction false} GapStays(count: int, right: int, regs: map<nat, int>, open: set<nat>, es: seq<Access>)
    requires Complete(open, es) && Decrements(es)
    requires count > right && Above(regs, open, right + 1)
    ensures Exec(count, regs, es) > right + Deltas(es)
    decreases |es|
  {
    if es == [] {
    } else {
      match es[0]
      case Load(k) => GapStays(count, right, regs[k := count], open + {k}, es[1..]);
      case Store(k, d) => GapStays(regs[k] + d, right + d, regs, open - {k}, es[1..]);
    }
  }

  // A task that has loaded more than the right count will store too much.
  lemma {:induction false} StaleDooms(count: int, right: int, regs: map<nat, int>, open: set<nat>,
                                      es: seq<Access>, j: nat)
    requires Complete(open, es) && Decrements(es)
    requires count >= right && Above(regs, open, right) && j in open && regs[j] > right
    ensures Exec(count, regs, es) > right + Deltas(es)
    decreases |es|
  {
    if es == [] {
    } else {
      match es[0]
      case Load(k) => StaleDooms(count, right, regs[k := count], open + {k}, es[1..], j);
      case Store(k, d) =>
        if k == j {
          GapStays(regs[k] + d, right + d, regs, open - {k}, es[1..]);
        } else {
          StaleDooms(regs[k] + d, right + d, regs, open - {k}, es[1..], j);
        }
    }
  }

  lemma {:induction false} RightIff(count: int, regs: map<nat, int>, open: set<nat>, es: seq<Access>)
    requires Complete(open, es) && Decrements(es)
    requires forall k :: k in open ==> k in regs && regs[k] == count
    ensures Exec(count, regs, es) == count + Deltas(es) <==> Exclusive(open, es)
    decreases |es|
  {
    if es == [] {
    } else {
      match es[0]
      case Load(k) => RightIff(count, regs[k := count], open + {k}, es[1..]);
      case Store(k, d) =>
        if open <= {k} {
          RightIff(count + d, regs, open - {k}, es[1..]);
        } else {
          var j :| j in open && j != k;
          StaleDooms(count + d, count + d, regs, open - {k}, es[1..], j);
        }
    }
  }

  lemma {:induction false} NeverTooLow(count: int, right: int, regs: map<nat, int>, open: set<nat>, es: seq<Access>)
    requires Complete(open, es) && Decrements(es)
    requires count >= right && Above(regs, open, right)
    ensures Exec(count, regs, es) >= right + Deltas(es)
    decreases |es|
  {
    if es == [] {
    } else {
      match es[0]
      case Load(k) => NeverTooLow(count, right, regs[k := count], open + {k}, es[1..]);
      case Store(k, d) => NeverTooLow(regs[k] + d, right + d, regs, open - {k}, es[1..]);
    }
  }

  /** Any number of sessions that end, in any interleaving of their loads and stores: the
      counter is right afterwards exactly when no store fell between another session's load and
      its store. Otherwise it stays too high for good. */
  lemma CounterRightIff(count: int, regs: map<nat, int>, es: seq<Access>)
    requires Complete({}, es) && Decrements(es)
    ensures Exec(count, regs, es) == count + Deltas(es) <==> Exclusive({}, es)
    ensures Exec(count, regs, es) >= count + Deltas(es)
  {
    RightIff(count, regs, {}, es);
    NeverTooLow(count, count, regs, {}, es);
  }

  /** What the stores wipe out: at each, what the counter gained since that task's load. */
  function Overwritten(count: int, regs: map<nat, int>, es: seq<Access>): int
    decreases |es|
  {
    if es == [] then 0
    else
      match es[0]
      case Load(k) => Overwritten(count, regs[k := count], es[1..])
      case Store(k, d) =>
        if k in regs then count - regs[k] + Overwritten(regs[k] + d, regs, es[1..])
        else Overwritten(count, regs, es[1..])
  }

  /** With connects mixed in the counter is off by the sum of what was wiped out, so it is right
      exactly when that cancels. */
  lemma {:induction false} OffByOverwritten(count: int, regs: map<nat, int>, open: set<nat>, es: seq<Access>)
    requires Complete(open, es) && open <= regs.Keys
    ensures Exec(count, regs, es) == count + Deltas(es) - Overwritten(count, regs, es)
    decreases |es|
  {
    if es == [] {
    } else {
      match es[0]
      case Load(k) => OffByOverwritten(count, regs[k := count], open + {k}, es[1..]);
      case Store(k, d) => OffByOverwritten(regs[k] + d, regs, open - {k}, es[1..]);
    }
  }

  // Two updates that overlap, and what follows them.
  function Overlap(a: nat, b: nat, d: int, e: int, rest: seq<Access>): seq<Access> {
    [Load(a)] + ([Load(b)] + ([Store(a, d)] + ([Store(b, e)] + rest)))
  }

  lemma First(count: int, regs: map<nat, int>, x: Access, rest: seq<Access>)
    ensures Deltas([x] + rest) == (if x.Store? then x.delta else 0) + Deltas(rest)
    ensures x.Load? ==> && Exec(count, regs, [x] + rest) == Exec(count, regs[x.task := count], rest)
                        && Overwritten(count, regs, [x] + rest) == Overwritten(count, regs[x.task := count], rest)
    ensures x.Store? && x.task in regs ==>
              var after := regs[x.task] + x.delta;
              && Exec(count, regs, [x] + rest) == Exec(after, regs, rest)
              && Overwritten(count, regs, [x] + rest) == count - regs[x.task] + Overwritten(after, regs, rest)
  {
    assert ([x] + rest)[1..] == rest;
  }

  lemma OverlapWipes(count: int, regs: map<nat, int>, a: nat, b: nat, d: int, e: int, rest: seq<Access>)
    requires a != b
    ensures var es, regs2 := Overlap(a, b, d, e, rest), regs[a := count][b := count];
            && Overwritten(count, regs, es) == d + Overwritten(count + e, regs2, rest)
            && Deltas(es) == d + e + Deltas(rest)
  {
    var regs1 := regs[a := count];
    var regs2 := regs1[b := count];
    var es1 := [Store(b, e)] + rest;
    var es2 := [Store(a, d)] + es1;
    First(count, regs, Load(a), [Load(b)] + es2);
    First(count, regs1, Load(b), es2);
    First(count, regs2, Store(a, d), es1);
    First(count + d, regs2, Store(b, e), rest);
  }

  lemma OverlapComplete(a: nat, b: nat, d: int, e: int, rest: seq<Access>)
    requires a != b && Complete({}, rest)
    ensures Complete({}, Overlap(a, b, d, e, rest))
  {
    var es1 := [Store(b, e)] + rest;
    var es2 := [Store(a, d)] + es1;
    var es3 := [Load(b)] + es2;
    assert es1[1..] == rest && es2[1..] == es1 && es3[1..] == es2 && ([Load(a)] + es3)[1..] == es3;
    assert {b} - {b} == {} && {a, b} - {a} == {b} && {} + {a} == {a} && {a} + {b} == {a, b};
    assert Complete({b}, es1) && Complete({a, b}, es2) && Complete({a}, es3);
  }

  /** A lost update and a later lost one cancel exactly when they are opposite: a session's end
      makes up for a connect. */
  lemma TwoLossesCancelIff(count: int, regs: map<nat, int>, a: nat, b: nat, d: int, e: int, d': int, e': int)
    requires a != b
    ensures var es := Overlap(a, b, d, e, Overlap(a, b, d', e', []));
            Exec(count, regs, es) == count + Deltas(es) <==> d + d' == 0
  {
    var second := Overlap(a, b, d', e', []);
    OverlapWipes(count, regs, a, b, d, e, second);
    OverlapWipes(count + e, regs[a := count][b := count], a, b, d', e', []);
    OverlapComplete(a, b, d', e', []);
    OverlapComplete(a, b, d, e, second);
    OffByOverwritten(count, regs, {}, Overlap(a, b, d, e, second));
  }
}
