/** The USB CDC rings of the CH582 firmware (`usb_dev.c`): the receive ring filled by the
    endpoint interrupt and emptied by the AT task, the transmit ring filled by the tasks and
    drained one endpoint packet at a time. */
module CdcRings {
  import opened Wrappers

  const RX_SIZE: nat := 256
  const TX_SIZE: nat := 2048
  const EP1_SIZE: nat := 64

  function Min(a: nat, b: nat): nat {
    if a < b then a else b
  }

  // -------------------------------------------------------- ring arithmetic --

  // Bytes between the two indices of a ring of `size` cells.
  function Queued(head: nat, tail: nat, size: nat): nat
    requires head < size && tail < size
  {
    if tail <= head then head - tail else size - tail + head
  }

  // `n` consecutive cells from `from` on, around the end of the buffer.
  function Window(buf: seq<bv8>, from: nat, n: nat): (w: seq<bv8>)
    requires from < |buf| && n <= |buf|
    ensures |w| == n
  {
    if from + n <= |buf| then buf[from..from + n] else buf[from..] + buf[..from + n - |buf|]
  }

  lemma SmallMod(i: nat, size: nat)
    requires i < size
    ensures i % size == i
  {
  }

  lemma WrapIndex(i: nat, n: nat, size: nat)
    requires i < size && n < size
    ensures (i + n) % size == if i + n < size then i + n else i + n - size
  {
    if i + n < size { SmallMod(i + n, size); }
    else {
      SmallMod(i + n - size, size);
      assert i + n == size * 1 + (i + n - size);
    }
  }

  lemma NextIndex(i: nat, size: nat)
    requires i < size
    ensures (i + 1) % size == if i + 1 == size then 0 else i + 1
  {
    if size > 1 { WrapIndex(i, 1, size); }
  }

  lemma WindowGrows(buf: seq<bv8>, head: nat, tail: nat, b: bv8)
    requires head < |buf| && tail < |buf|
    requires Queued(head, tail, |buf|) + 1 < |buf|
    ensures var next := (head + 1) % |buf|;
            Window(buf[head := b], tail, Queued(next, tail, |buf|))
            == Window(buf, tail, Queued(head, tail, |buf|)) + [b]
  {
    NextIndex(head, |buf|);
  }

  lemma WindowSnoc(buf: seq<bv8>, from: nat, n: nat)
    requires from < |buf| && n < |buf|
    ensures Window(buf, from, n + 1) == Window(buf, from, n) + [buf[(from + n) % |buf|]]
  {
    WrapIndex(from, n, |buf|);
  }

  lemma CutTwice(buf: seq<bv8>, i: nat, j: nat, k: nat)
    requires i <= j <= k <= |buf|
    ensures buf[i..k] == buf[i..j] + buf[j..k]
  {
  }

  lemma JoinsBelow(buf: seq<bv8>, from: nat, a: nat, b: nat)
    requires from + a < |buf| && from + a + b <= |buf|
    ensures Window(buf, from, a + b) == Window(buf, from, a) + Window(buf, from + a, b)
  {
    CutTwice(buf, from, from + a, from + a + b);
  }

  lemma JoinsAcross(buf: seq<bv8>, from: nat, a: nat, b: nat)
    requires from + a < |buf| < from + a + b && a + b <= |buf|
    ensures Window(buf, from, a + b) == Window(buf, from, a) + Window(buf, from + a, b)
  {
    var n := |buf|;
    CutTwice(buf, from, from + a, n);
    Assoc(buf[from..from + a], buf[from + a..n], buf[..from + a + b - n]);
  }

  lemma JoinsAbove(buf: seq<bv8>, from: nat, a: nat, b: nat)
    requires from < |buf| <= from + a && a < |buf| && a + b <= |buf|
    ensures Window(buf, from, a + b) == Window(buf, from, a) + Window(buf, from + a - |buf|, b)
  {
    var r, next := buf[from..], from + a - |buf|;
    assert Window(buf, from, a) == r + buf[..next];
    assert Window(buf, from, a + b) == r + buf[..next + b];
    assert Window(buf, next, b) == buf[next..next + b];
    CutTwice(buf, 0, next, next + b);
    Assoc(r, buf[..next], buf[next..next + b]);
  }

  lemma WindowAppends(buf: seq<bv8>, from: nat, a: nat, b: nat)
    requires from < |buf| && a < |buf| && a + b <= |buf|
    ensures Window(buf, from, a + b) == Window(buf, from, a) + Window(buf, (from + a) % |buf|, b)
  {
    WrapIndex(from, a, |buf|);
    if from + a >= |buf| {
      JoinsAbove(buf, from, a, b);
    } else if from + a + b > |buf| {
      JoinsAcross(buf, from, a, b);
    } else {
      JoinsBelow(buf, from, a, b);
    }
  }

  lemma QueuedShrinks(head: nat, tail: nat, next: nat, size: nat)
    requires head < size && tail < size && head != tail
    requires next == if tail + 1 == size then 0 else tail + 1
    ensures 0 < Queued(head, tail, size) == Queued(head, next, size) + 1
  {
  }

  lemma CellAt(buf: seq<bv8>, from: nat, n: nat, k: nat)
    requires from < |buf| && k < n <= |buf|
    ensures Window(buf, from, n)[k] == buf[if from + k < |buf| then from + k else from + k - |buf|]
  {
  }

  lemma Prepends<T>(all: seq<T>, x: T, rest: seq<T>)
    requires |all| == |rest| + 1 && all[0] == x && forall k :: 0 < k <= |rest| ==> all[k] == rest[k - 1]
    ensures all == [x] + rest
  {
  }

  lemma FirstCell(buf: seq<bv8>, from: nat, next: nat, more: nat)
    requires from < |buf| && more < |buf|
    requires next == if from + 1 == |buf| then 0 else from + 1
    ensures Window(buf, from, more + 1) == [buf[from]] + Window(buf, next, more)
  {
    var all, rest := Window(buf, from, more + 1), Window(buf, next, more);
    CellAt(buf, from, more + 1, 0);
    forall k | 0 < k <= more ensures all[k] == rest[k - 1] {
      CellAt(buf, from, more + 1, k);
      CellAt(buf, next, more, k - 1);
    }
    Prepends(all, buf[from], rest);
  }

  lemma WindowShrinks(buf: seq<bv8>, head: nat, tail: nat, next: nat)
    requires head < |buf| && tail < |buf| && head != tail
    requires next == if tail + 1 == |buf| then 0 else tail + 1
    ensures Window(buf, tail, Queued(head, tail, |buf|))
            == [buf[tail]] + Window(buf, next, Queued(head, next, |buf|))
  {
    QueuedShrinks(head, tail, next, |buf|);
    FirstCell(buf, tail, next, Queued(head, next, |buf|));
  }

  /** Taking `n` cells from the tail: within the queued bytes they are the oldest ones and the
      rest stays; past the head the tail overtakes it. */
  lemma TailMoves(head: nat, tail: nat, n: nat, size: nat)
    requires head < size && tail < size && n < size
    ensures var q, next := Queued(head, tail, size), (tail + n) % size;
            next < size && Queued(head, next, size) == if n <= q then q - n else size - n + q
  {
    WrapIndex(tail, n, size);
  }

  // ------------------------------------------------ receive: a bounded FIFO --

  datatype Pc = Idle | Ready | Copied

  /** The FIFO the receive ring stands for, with the reading task in one of three places:
      about to test for data, about to copy a byte, about to move the tail index. */
  datatype Fifo = Fifo(queue: seq<bv8>, pc: Pc, room: nat, delivered: seq<bv8>)

  /** Interrupts come between any two steps of the task, which calls the read function again and
      again; `room` is what the caller's buffer still takes, 0 between two calls. */
  datatype Event = Packet(data: seq<bv8>) | Call(maxlen: nat) | TaskStep

  function Accepted(s: Fifo, data: seq<bv8>): seq<bv8>
    requires |s.queue| < RX_SIZE
  {
    data[..Min(|data|, RX_SIZE - 1 - |s.queue|)]
  }

  ghost predicate FifoInv(s: Fifo) {
    |s.queue| < RX_SIZE && (s.pc != Idle ==> s.queue != []) && (s.pc == Ready ==> s.room > 0)
  }

  function Next(s: Fifo, e: Event): Fifo
    requires FifoInv(s)
  {
    match e
    case Packet(data) => s.(queue := s.queue + Accepted(s, data))
    case Call(maxlen) => if s.pc == Idle && s.room == 0 then s.(room := maxlen) else s
    case TaskStep =>
      match s.pc
      case Idle => if s.room > 0 && s.queue != [] then s.(pc := Ready) else s.(room := 0)
      case Ready => s.(pc := Copied, room := s.room - 1, delivered := s.delivered + [s.queue[0]])
      case Copied => s.(pc := Idle, queue := s.queue[1..])
  }

  // What is queued and not yet handed to the task.
  function Undelivered(s: Fifo): seq<bv8>
    requires FifoInv(s)
  {
    if s.pc == Copied then s.queue[1..] else s.queue
  }

  function Run(s: Fifo, es: seq<Event>): Fifo
    requires FifoInv(s)
    decreases |es|
  {
    if es == [] then s else Run(Next(s, es[0]), es[1..])
  }

  // All bytes the interrupts of a run put in, in order.
  function Arrived(s: Fifo, es: seq<Event>): seq<bv8>
    requires FifoInv(s)
    decreases |es|
  {
    if es == [] then []
    else (if es[0].Packet? then Accepted(s, es[0].data) else []) + Arrived(Next(s, es[0]), es[1..])
  }

  lemma StepConserves(s: Fifo, e: Event)
    requires FifoInv(s)
    ensures FifoInv(Next(s, e))
    ensures Next(s, e).delivered + Undelivered(Next(s, e))
            == s.delivered + Undelivered(s) + if e.Packet? then Accepted(s, e.data) else []
  {
    if e.TaskStep? && s.pc == Ready { assert s.queue == [s.queue[0]] + s.queue[1..]; }
  }

  /** No byte is lost, repeated or reordered between interrupt and task, however they
      interleave: delivered and waiting bytes together are the accepted ones. */
  lemma {:induction false} FifoConserves(s: Fifo, es: seq<Event>)
    requires FifoInv(s)
    ensures FifoInv(Run(s, es))
    ensures Run(s, es).delivered + Undelivered(Run(s, es))
            == s.delivered + Undelivered(s) + Arrived(s, es)
    decreases |es|
  {
    if es == [] {
    } else {
      var t := Next(s, es[0]);
      var first := if es[0].Packet? then Accepted(s, es[0].data) else [];
      StepConserves(s, es[0]);
      FifoConserves(t, es[1..]);
      assert s.delivered + Undelivered(s) + first + Arrived(t, es[1..])
          == s.delivered + Undelivered(s) + (first + Arrived(t, es[1..]));
    }
  }

  /** A call hands out at most as many bytes as it was asked for. */
  lemma {:induction false} CallStaysWithin(s: Fifo, es: seq<Event>)
    requires FifoInv(s) && forall i :: 0 <= i < |es| ==> !es[i].Call?
    ensures var t := Run(s, es); |t.delivered| + t.room <= |s.delivered| + s.room
    decreases |es|
  {
    if es == [] {
    } else {
      StepConserves(s, es[0]);
      CallStaysWithin(Next(s, es[0]), es[1..]);
    }
  }

  // Task steps until the call that is under way has ended, if no interrupt comes in between.
  function StepsLeft(s: Fifo): nat {
    match s.pc
    case Idle => 3 * s.room
    case Ready => if s.room == 0 then 0 else 3 * s.room - 1
    case Copied => 3 * s.room + 1
  }

  function TaskSteps(es: seq<Event>): nat {
    if es == [] then 0 else (if es[0].TaskStep? then 1 else 0) + TaskSteps(es[1..])
  }

  ghost predicate NoCall(es: seq<Event>) {
    forall i :: 0 <= i < |es| ==> !es[i].Call?
  }

  // Between two calls.
  predicate Ended(s: Fifo) {
    s.pc == Idle && s.room == 0
  }

  // What the call under way is sure to hand out still: it has the room and the bytes are there.
  function Owed(s: Fifo): seq<bv8>
    requires FifoInv(s)
  {
    Undelivered(s)[..Min(s.room, |Undelivered(s)|)]
  }

  lemma FirstOwed(q: seq<bv8>, n: nat)
    requires q != [] && n > 0
    ensures q[..Min(n, |q|)] == [q[0]] + q[1..][..Min(n - 1, |q| - 1)]
  {
  }

  lemma StepOwes(s: Fifo, e: Event)
    requires FifoInv(s) && !e.Call?
    ensures FifoInv(Next(s, e)) && s.delivered + Owed(s) <= Next(s, e).delivered + Owed(Next(s, e))
    ensures e.TaskStep? ==> StepsLeft(Next(s, e)) < StepsLeft(s) || StepsLeft(Next(s, e)) == 0
    ensures !e.TaskStep? ==> StepsLeft(Next(s, e)) == StepsLeft(s)
    ensures e.TaskStep? ==> Next(s, e).delivered + Owed(Next(s, e)) == s.delivered + Owed(s)
  {
    StepConserves(s, e);
    var t := Next(s, e);
    if e.TaskStep? && s.pc == Ready {
      FirstOwed(s.queue, s.room);
      Assoc(s.delivered, [s.queue[0]], Owed(t));
    } else if e.Packet? {
      assert Owed(s) == Undelivered(t)[..|Owed(s)|];
      assert Owed(s) == Owed(t)[..|Owed(s)|];
    }
  }

  lemma {:induction false} RunOwes(s: Fifo, es: seq<Event>)
    requires FifoInv(s) && NoCall(es)
    ensures FifoInv(Run(s, es)) && s.delivered + Owed(s) <= Run(s, es).delivered + Owed(Run(s, es))
    ensures StepsLeft(s) <= TaskSteps(es) ==> StepsLeft(Run(s, es)) == 0
    decreases |es|
  {
    if es == [] {
    } else {
      StepOwes(s, es[0]);
      RunOwes(Next(s, es[0]), es[1..]);
    }
  }

  lemma RunOne(s: Fifo, e: Event, es: seq<Event>)
    requires FifoInv(s)
    ensures FifoInv(Next(s, e)) && Run(s, [e] + es) == Run(Next(s, e), es)
  {
    StepConserves(s, e);
    assert ([e] + es)[1..] == es;
  }

  /** A call that finds bytes queued hands out as many as there are and as it has room for, at
      least, whatever interrupts come in between, and has ended after three steps a byte. */
  lemma CallHandsOut(s: Fifo, maxlen: nat, es: seq<Event>)
    requires FifoInv(s) && Ended(s) && NoCall(es) && 3 * maxlen <= TaskSteps(es)
    ensures var t := Run(s, [Call(maxlen)] + es);
            && Ended(t) && s.delivered + s.queue[..Min(maxlen, |s.queue|)] <= t.delivered
            && |t.delivered| <= |s.delivered| + maxlen
  {
    var c := s.(room := maxlen);
    RunOne(s, Call(maxlen), es);
    RunOwes(c, es);
    CallStaysWithin(c, es);
    var t := Run(c, es);
    assert Owed(t) == [] && t.delivered + [] == t.delivered;
  }

  function Steps(n: nat): seq<Event> {
    if n == 0 then [] else [TaskStep] + Steps(n - 1)
  }

  lemma {:induction false} StepsAre(s: Fifo, n: nat)
    requires FifoInv(s)
    ensures NoCall(Steps(n)) && TaskSteps(Steps(n)) == n && Arrived(s, Steps(n)) == []
    decreases n
  {
    if n == 0 {
    } else {
      assert Steps(n)[1..] == Steps(n - 1);
      StepConserves(s, TaskStep);
      StepsAre(Next(s, TaskStep), n - 1);
    }
  }

  lemma {:induction false} StepsAlone(s: Fifo, n: nat)
    requires FifoInv(s)
    ensures FifoInv(Run(s, Steps(n)))
    ensures Run(s, Steps(n)).delivered + Owed(Run(s, Steps(n))) == s.delivered + Owed(s)
    decreases n
  {
    if n == 0 {
    } else {
      StepOwes(s, TaskStep);
      StepsAlone(Next(s, TaskStep), n - 1);
      RunOne(s, TaskStep, Steps(n - 1));
    }
  }

  lemma RestIs(d: seq<bv8>, q: seq<bv8>, n: nat, rest: seq<bv8>)
    requires n <= |q| && d + q[..n] + rest == d + q
    ensures rest == q[n..]
  {
    assert (d + q[..n] + rest)[|d| + n..] == rest && (d + q)[|d| + n..] == q[n..];
  }

  lemma NothingOwed(s: Fifo)
    requires FifoInv(s) && StepsLeft(s) == 0
    ensures Ended(s) && Owed(s) == [] && Undelivered(s) == s.queue
  {
  }

  /** Left alone, a call hands out exactly the oldest bytes it has room for, leaves the rest, and
      ends. */
  lemma CallReads(s: Fifo, maxlen: nat)
    requires FifoInv(s) && Ended(s)
    ensures var n := Min(maxlen, |s.queue|);
            Run(s, [Call(maxlen)] + Steps(3 * maxlen))
            == s.(queue := s.queue[n..], delivered := s.delivered + s.queue[..n])
  {
    var c, es, n := s.(room := maxlen), Steps(3 * maxlen), Min(maxlen, |s.queue|);
    var t := Run(c, es);
    RunOne(s, Call(maxlen), es);
    StepsAre(c, 3 * maxlen);
    StepsAlone(c, 3 * maxlen);
    RunOwes(c, es);
    FifoConserves(c, es);
    NothingOwed(t);
    assert t.delivered == t.delivered + [] == s.delivered + s.queue[..n];
    RestIs(s.delivered, s.queue, n, t.queue);
  }

  /** From the interrupt to the caller: behind what is queued a packet is taken whole if it fits the
      255 bytes, and cut off there if it does not; a call with room for all reads just that. */
  lemma PacketIsRead(s: Fifo, data: seq<bv8>)
    requires FifoInv(s) && Ended(s)
    ensures var all := s.queue + data;
            var taken := all[..Min(|all|, RX_SIZE - 1)];
            Run(s, [Packet(data)] + ([Call(RX_SIZE)] + Steps(3 * RX_SIZE)))
            == s.(queue := [], delivered := s.delivered + taken)
  {
    var all := s.queue + data;
    var taken, t := all[..Min(|all|, RX_SIZE - 1)], Next(s, Packet(data));
    assert t.queue == taken;
    RunOne(s, Packet(data), [Call(RX_SIZE)] + Steps(3 * RX_SIZE));
    CallReads(t, RX_SIZE);
    assert taken[..|taken|] == taken && taken[|taken|..] == [];
  }

  lemma OneMore(q: seq<bv8>, data: seq<bv8>, i: nat)
    requires i < |data|
    ensures q + data[..i] + [data[i]] == q + data[..i + 1]
  {
  }

  class RxRing {
    var buf: array<bv8>
    var head: nat // written by the interrupt
    var tail: nat // written by the task
    var pc: Pc
    var room: nat     // maxlen - n of USB_CDC_Read
    var out: seq<bv8> // what it has put in its callers' buffers

    ghost predicate Valid()
      reads this, buf
    {
      && buf.Length == RX_SIZE && head < RX_SIZE && tail < RX_SIZE
      && (pc != Idle ==> head != tail) && (pc == Ready ==> room > 0)
    }

    ghost function View(): (s: Fifo)
      reads this, buf
      requires Valid()
      ensures FifoInv(s)
    {
      Fifo(Window(buf[..], tail, Queued(head, tail, RX_SIZE)), pc, room, out)
    }

    constructor ()
      ensures Valid() && View() == Fifo([], Idle, 0, [])
    {
      buf := new bv8[RX_SIZE];
      head, tail, pc, room, out := 0, 0, Idle, 0, [];
    }

    method Put(b: bv8, next: nat)
      requires Valid() && next == (head + 1) % RX_SIZE != tail
      modifies this`head, buf
      ensures Valid() && View() == old(View()).(queue := old(View()).queue + [b])
    {
      WindowGrows(buf[..], head, tail, b);
      ghost var cells := buf[..][head := b];
      buf[head] := b;
      head := next;
      assert buf[..] == cells;
    }

    /** `cdc_recv_data`, one interrupt. */
    method RecvData(data: seq<bv8>)
      requires Valid()
      modifies this`head, buf
      ensures Valid() && View() == Next(old(View()), Packet(data))
    {
      var i := 0;
      ghost var q := old(View()).queue;
      while i < |data|
        invariant i <= |data| && Valid()
        invariant i <= RX_SIZE - 1 - |q|
        invariant View() == old(View()).(queue := q + data[..i])
      {
        var next := (head + 1) % RX_SIZE;
        if next == tail { break; }
        Put(data[i], next);
        OneMore(q, data, i);
        i := i + 1;
      }
    }

    method StartRead(maxlen: nat)
      requires Valid() && pc == Idle && room == 0
      modifies this`room
      ensures Valid() && View() == Next(old(View()), Call(maxlen))
    {
      room := maxlen;
    }

    method Advance()
      requires Valid() && pc == Copied
      modifies this`tail, this`pc
      ensures Valid() && View() == old(View()).(pc := Idle, queue := old(View()).queue[1..])
    {
      ghost var was := View().queue;
      var next := (tail + 1) % RX_SIZE;
      NextIndex(tail, RX_SIZE);
      WindowShrinks(buf[..], head, tail, next);
      tail, pc := next, Idle;
      assert was == [was[0]] + View().queue;
    }

    /** One step of the loop in `USB_CDC_Read`: test, copy, or advance. */
    method ReadStep()
      requires Valid()
      modifies this`tail, this`pc, this`room, this`out
      ensures Valid() && View() == Next(old(View()), TaskStep)
    {
      match pc {
        case Idle =>
          if room > 0 && tail != head {
            pc := Ready;
          } else {
            room := 0;
          }
        case Ready =>
          out := out + [buf[tail]];
          room := room - 1;
          pc := Copied;
        case Copied => Advance();
      }
    }
  }

  // -------------------------------------------------------- transmit: drain --

  // C's remainder on int truncates toward zero.
  function CRem(a: int, b: nat): int
    requires b > 0
  {
    if a >= 0 then a % b else -(-a % b)
  }

  function U16(x: int): nat {
    x % 0x1_0000
  }

  // `n` of `cdc_tx_process`.
  function DrainCount(head: nat, tail: nat): nat {
    Min(U16(CRem(head - tail, TX_SIZE)), EP1_SIZE)
  }

  // The ring has not wrapped, or it holds a full packet.
  predicate DrainsRight(head: nat, tail: nat)
    requires head < TX_SIZE && tail < TX_SIZE
  {
    tail <= head || Queued(head, tail, TX_SIZE) >= EP1_SIZE
  }

  lemma DrainCountIff(head: nat, tail: nat)
    requires head < TX_SIZE && tail < TX_SIZE
    ensures DrainCount(head, tail) == Min(Queued(head, tail, TX_SIZE), EP1_SIZE) <==> DrainsRight(head, tail)
    ensures !DrainsRight(head, tail) ==> DrainCount(head, tail) == EP1_SIZE
  {
    if tail > head { SmallMod(tail - head, TX_SIZE); } else { SmallMod(head - tail, TX_SIZE); }
  }

  datatype Tx = Tx(cells: seq<bv8>, head: nat, tail: nat) {
    ghost predicate Valid() {
      |cells| == TX_SIZE && head < TX_SIZE && tail < TX_SIZE
    }

    ghost function Contents(): seq<bv8>
      requires Valid()
    {
      Window(cells, tail, Queued(head, tail, TX_SIZE))
    }

    ghost predicate Right()
      requires Valid()
    {
      DrainsRight(head, tail)
    }
  }

  ghost function PutAll(s: Tx, data: seq<bv8>): (t: Tx)
    requires s.Valid()
    ensures t.Valid()
    decreases |data|
  {
    var next := (s.head + 1) % TX_SIZE;
    if data == [] || next == s.tail then s
    else PutAll(Tx(s.cells[s.head := data[0]], next, s.tail), data[1..])
  }

  ghost function Taken(s: Tx): seq<bv8>
    requires s.Valid()
  {
    if s.head == s.tail then [] else Window(s.cells, s.tail, DrainCount(s.head, s.tail))
  }

  ghost function Take(s: Tx): (t: Tx)
    requires s.Valid()
    ensures t.Valid()
  {
    if s.head == s.tail then s else s.(tail := (s.tail + DrainCount(s.head, s.tail)) % TX_SIZE)
  }

  ghost function Fits(s: Tx, data: seq<bv8>): seq<bv8>
    requires s.Valid()
  {
    data[..Min(|data|, TX_SIZE - 1 - |s.Contents()|)]
  }

  /** A write appends what fits, one cell staying free, and drops the rest. */
  lemma {:induction false} PutAllAppends(s: Tx, data: seq<bv8>)
    requires s.Valid()
    ensures PutAll(s, data).Contents() == s.Contents() + Fits(s, data)
    decreases |data|
  {
    var next := (s.head + 1) % TX_SIZE;
    NextIndex(s.head, TX_SIZE);
    if data == [] || next == s.tail {
    } else {
      var t := Tx(s.cells[s.head := data[0]], next, s.tail);
      WindowGrows(s.cells, s.head, s.tail, data[0]);
      PutAllAppends(t, data[1..]);
      var n := |Fits(s, data)|;
      assert Fits(t, data[1..]) == data[1..][..n - 1];
      assert data[..n] == [data[0]] + data[1..][..n - 1];
      Assoc(s.Contents(), [data[0]], data[1..][..n - 1]);
    }
  }

  /** A drain sends the oldest min(64, queued) bytes exactly when it goes right; otherwise it
      sends 64 bytes, more than there are, and leaves the ring holding stale ones. */
  lemma DrainIff(s: Tx)
    requires s.Valid()
    ensures s.Right() <==> Taken(s) == s.Contents()[..Min(|s.Contents()|, EP1_SIZE)]
    ensures s.Right() ==> Taken(s) + Take(s).Contents() == s.Contents()
    ensures !s.Right() ==> |Taken(s)| == EP1_SIZE && s.Contents() < Taken(s)
    ensures !s.Right() ==> |Take(s).Contents()| == TX_SIZE - EP1_SIZE + |s.Contents()|
  {
    DrainCountIff(s.head, s.tail);
    var n, q := DrainCount(s.head, s.tail), Queued(s.head, s.tail, TX_SIZE);
    TailMoves(s.head, s.tail, n, TX_SIZE);
    if n <= q {
      WindowAppends(s.cells, s.tail, n, q - n);
    } else {
      WindowAppends(s.cells, s.tail, q, n - q);
    }
  }

  datatype TxEvent = Write(data: seq<bv8>) | Drain

  ghost function TxNext(s: Tx, e: TxEvent): (t: Tx)
    requires s.Valid()
    ensures t.Valid()
  {
    match e
    case Write(data) => PutAll(s, data)
    case Drain => Take(s)
  }

  ghost predicate AllDrainsRight(s: Tx, es: seq<TxEvent>)
    requires s.Valid()
    decreases |es|
  {
    es != [] ==> (es[0].Drain? ==> s.Right()) && AllDrainsRight(TxNext(s, es[0]), es[1..])
  }

  /** At every drain the host gets bytes it is owed, in order: `owed` are the bytes accepted
      from the writers and not sent yet. */
  ghost predicate StreamSound(s: Tx, es: seq<TxEvent>, owed: seq<bv8>)
    requires s.Valid()
    decreases |es|
  {
    es != [] ==>
      match es[0]
      case Write(data) => StreamSound(TxNext(s, es[0]), es[1..], owed + Fits(s, data))
      case Drain => Taken(s) <= owed && StreamSound(TxNext(s, es[0]), es[1..], owed[|Taken(s)|..])
  }

  /** Over every run of writes and drains, the host receives the accepted bytes in order
      exactly when no drain meets a wrapped ring with less than a packet in it. */
  lemma {:induction false} StreamSoundIff(s: Tx, es: seq<TxEvent>)
    requires s.Valid()
    ensures StreamSound(s, es, s.Contents()) <==> AllDrainsRight(s, es)
    decreases |es|
  {
    if es == [] {
    } else {
      var t := TxNext(s, es[0]);
      StreamSoundIff(t, es[1..]);
      match es[0] {
        case Write(data) => PutAllAppends(s, data);
        case Drain =>
          DrainIff(s);
          if s.Right() { assert t.Contents() == s.Contents()[|Taken(s)|..]; }
      }
    }
  }

  ghost function TxRun(s: Tx, es: seq<TxEvent>): (t: Tx)
    requires s.Valid()
    ensures t.Valid()
    decreases |es|
  {
    if es == [] then s else TxRun(TxNext(s, es[0]), es[1..])
  }

  ghost function Sent(s: Tx, es: seq<TxEvent>): seq<bv8>
    requires s.Valid()
    decreases |es|
  {
    if es == [] then [] else (if es[0].Drain? then Taken(s) else []) + Sent(TxNext(s, es[0]), es[1..])
  }

  lemma HeadOfRest(q: seq<bv8>, a: nat, n: nat)
    requires a <= |q|
    ensures q[..a] + q[a..][..Min(|q| - a, n)] == q[..Min(|q|, a + n)]
  {
  }

  /** Drains that go right send all there is, 64 bytes each. */
  lemma {:induction false} DrainsSend(s: Tx, es: seq<TxEvent>)
    requires s.Valid() && AllDrainsRight(s, es) && forall e <- es :: e.Drain?
    ensures Sent(s, es) == s.Contents()[..Min(|s.Contents()|, EP1_SIZE * |es|)]
    ensures Sent(s, es) + TxRun(s, es).Contents() == s.Contents()
    decreases |es|
  {
    if es == [] {
    } else {
      assert es[0] in es;
      var q, t := s.Contents(), Take(s);
      DrainIff(s);
      DrainsSend(t, es[1..]);
      assert t.Contents() == q[|Taken(s)|..];
      HeadOfRest(q, Min(|q|, EP1_SIZE), EP1_SIZE * (|es| - 1));
      Assoc(Taken(s), Sent(t, es[1..]), TxRun(s, es).Contents());
    }
  }

  // An unwrapped ring is drained in packets of 64 bytes.
  lemma {:induction false} DrainsEmpty(s: Tx, es: seq<TxEvent>)
    requires s.Valid() && s.tail <= s.head
    requires forall e <- es :: e.Drain?
    ensures TxRun(s, es) == s.(tail := Min(s.head, s.tail + EP1_SIZE * |es|))
    decreases |es|
  {
    if es == [] {
    } else {
      assert es[0] in es;
      DrainCountIff(s.head, s.tail);
      TailMoves(s.head, s.tail, DrainCount(s.head, s.tail), TX_SIZE);
      DrainsEmpty(TxNext(s, es[0]), es[1..]);
    }
  }

  lemma {:induction false} PutAllMovesHead(s: Tx, data: seq<bv8>)
    requires s.Valid() && |data| <= TX_SIZE - 1 - Queued(s.head, s.tail, TX_SIZE)
    ensures PutAll(s, data).tail == s.tail
    ensures PutAll(s, data).head
            == if s.head + |data| < TX_SIZE then s.head + |data| else s.head + |data| - TX_SIZE
    decreases |data|
  {
    NextIndex(s.head, TX_SIZE);
    if data == [] {
    } else {
      PutAllMovesHead(Tx(s.cells[s.head := data[0]], (s.head + 1) % TX_SIZE, s.tail), data[1..]);
    }
  }

  /** The failing case is reached in normal use: a ring filled from its start to its end and
      emptied, then a write of 5 bytes. */
  lemma WrappedDrainIsReached(s: Tx, full: seq<bv8>, line: seq<bv8>, drains: seq<TxEvent>)
    requires s.Valid() && s.head == s.tail == 0
    requires |full| == TX_SIZE - 1 && |line| == 5
    requires |drains| == 32 && forall e <- drains :: e.Drain?
    ensures var t := TxRun(PutAll(s, full), drains);
            t.head == t.tail && !PutAll(t, line).Right()
  {
    PutAllMovesHead(s, full);
    var t := TxRun(PutAll(s, full), drains);
    DrainsEmpty(PutAll(s, full), drains);
    PutAllMovesHead(t, line);
  }

  class TxRing {
    var buf: array<bv8>
    var head: nat
    var tail: nat
    var drops: nat

    ghost function View(): Tx
      reads this, buf
    {
      Tx(buf[..], head, tail)
    }

    ghost predicate Valid()
      reads this, buf
    {
      buf.Length == TX_SIZE && View().Valid()
    }

    constructor ()
      ensures Valid() && View().Contents() == [] && drops == 0
    {
      buf := new bv8[TX_SIZE];
      head, tail, drops := 0, 0, 0;
    }

    /** One turn of the loop in `USB_CDC_Write`. */
    method Put(b: bv8) returns (ok: bool)
      requires Valid()
      modifies this`head, buf
      ensures Valid() && ok == ((old(head) + 1) % TX_SIZE != tail)
      ensures View() == if ok then Tx(old(buf[..])[old(head) := b], (old(head) + 1) % TX_SIZE, tail) else old(View())
      ensures ok ==> Queued(head, tail, TX_SIZE) == Queued(old(head), tail, TX_SIZE) + 1
    {
      var next := (head + 1) % TX_SIZE;
      NextIndex(head, TX_SIZE);
      ok := next != tail;
      if ok {
        buf[head] := b;
        head := next;
      }
    }

    /** `USB_CDC_Write`: nothing without a configured host, otherwise what does not fit is
        dropped and counted. */
    method Write(data: seq<bv8>, ready: bool)
      requires Valid()
      modifies this`head, this`drops, buf
      ensures Valid() && View() == if ready then PutAll(old(View()), data) else old(View())
      ensures ready ==> View().Contents() == old(View()).Contents() + Fits(old(View()), data)
      ensures drops == old(drops) + if !ready || Fits(old(View()), data) == data then 0 else 1
    {
      if !ready { return; }
      PutAllAppends(View(), data);
      var i := 0;
      while i < |data|
        invariant i <= |data| && drops == old(drops) && head < TX_SIZE
        invariant Queued(head, tail, TX_SIZE) == Queued(old(head), tail, TX_SIZE) + i
        invariant Valid() && PutAll(View(), data[i..]) == PutAll(old(View()), data)
      {
        var ok := Put(data[i]);
        if !ok {
          drops := drops + 1;
          break;
        }
        i := i + 1;
      }
    }

    // The copy loop, from the ring to the endpoint buffer.
    method CopyOut(n: nat) returns (packet: seq<bv8>)
      requires Valid() && n <= EP1_SIZE
      ensures packet == Window(buf[..], tail, n)
    {
      packet := [];
      var i := 0;
      while i < n
        invariant i <= n && packet == Window(buf[..], tail, i)
      {
        WindowSnoc(buf[..], tail, i);
        packet := packet + [buf[(tail + i) % TX_SIZE]];
        i := i + 1;
      }
    }

    /** `cdc_tx_process`: a busy endpoint is tried again later. */
    method Drain(busy: bool) returns (packet: seq<bv8>, again: bool)
      requires Valid()
      modifies this`tail
      ensures Valid() && View() == if busy then old(View()) else Take(old(View()))
      ensures packet == if busy then [] else Taken(old(View()))
      ensures again <==> head != tail
    {
      if tail == head { return [], false; }
      if busy { return [], true; }
      var n := U16(CRem(head - tail, TX_SIZE));
      if n > EP1_SIZE { n := EP1_SIZE; }
      packet := CopyOut(n);
      tail := (tail + n) % TX_SIZE;
      again := tail != head;
    }
  }
}
