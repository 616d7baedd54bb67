/** A control read end to end: the CH58x device cuts a descriptor into endpoint-0 packets
    (`usb_dev.c`), the CH58x host puts them together again (`CH58x_usb2hostBase.c`), each
    packet fetched by a transaction that retries on NAK, silence and lost toggles. */
module UsbControl {
  import opened Wrappers

  const EP0_SIZE: nat := 64
  const DESCR_MAX: nat := 255 // a descriptor's length is kept in a uint8_t
  const NO_LIMIT: nat := 0xFFFF_FFFF

  type Byte = bv8

  function Min(a: nat, b: nat): nat {
    if a < b then a else b
  }

  // ----------------------------------------- fragmentation and reassembly --

  /** The packets that carry `data`: full ones, then one short packet, empty when the data
      is a multiple of the packet size (section 5.5.3 of USB 2.0). */
  function Fragments(data: seq<Byte>): seq<seq<Byte>> {
    if |data| < EP0_SIZE then [data]
    else [data[..EP0_SIZE]] + Fragments(data[EP0_SIZE..])
  }

  lemma {:induction false} FragmentShape(data: seq<Byte>)
    ensures |Fragments(data)| == |data| / EP0_SIZE + 1
    ensures forall i :: 0 <= i < |Fragments(data)| ==>
              |Fragments(data)[i]| == if i == |data| / EP0_SIZE then |data| % EP0_SIZE else EP0_SIZE
  {
    if |data| < EP0_SIZE {
    } else {
      FragmentShape(data[EP0_SIZE..]);
    }
  }

  /** What a host that asked for `want` bytes has once the packets `ps` have come in: it
      stops at a short packet or when nothing is left to ask for. */
  function Reassembled(ps: seq<seq<Byte>>, want: nat): seq<Byte> {
    if want == 0 || ps == [] then []
    else
      var n := Min(|ps[0]|, want);
      if |ps[0]| < EP0_SIZE then ps[0][..n]
      else ps[0][..n] + Reassembled(ps[1..], want - n)
  }

  function Answer(descr: seq<Byte>, want: nat): seq<Byte> {
    descr[..Min(want, |descr|)]
  }

  lemma {:induction false} ReassembleFragments(data: seq<Byte>, want: nat)
    requires |data| <= want
    ensures Reassembled(Fragments(data), want) == data
  {
    if want == 0 || |data| < EP0_SIZE {
    } else {
      ReassembleFragments(data[EP0_SIZE..], want - EP0_SIZE);
      assert Fragments(data)[1..] == Fragments(data[EP0_SIZE..]);
      assert data == data[..EP0_SIZE] + data[EP0_SIZE..];
    }
  }

  /** For every descriptor and every requested length, the host ends with exactly the first
      `min(want, |descr|)` bytes. */
  lemma ControlReadIsExact(descr: seq<Byte>, want: nat)
    ensures Reassembled(Fragments(Answer(descr, want)), want) == Answer(descr, want)
  {
    ReassembleFragments(Answer(descr, want), want);
  }

  // ------------------------------------------------------------- the device --

  /** One IN token on the wire: the device's packet arrives, and the host's ACK is lost or not,
      or it does not, and this is what the host's hardware reports. */
  datatype Exchange = Arrives(ackLost: bool) | Missed(why: Failure)

  datatype Failure = NoInterrupt | Unplugged | Replugged | Stall | Nak | Silent | OtherPid

  lemma CutTwice(data: seq<Byte>, n: nat, more: nat)
    requires n + more <= |data|
    ensures data[..n] + data[n..n + more] == data[..n + more]
  {
  }

  class Device {
    var descr: seq<Byte>    // the constant table pDescr points into
    var pDescr: nat         // offset of pDescr in it
    var setupReqLen: nat
    var ep0: seq<Byte>      // EP0_Buf[..R8_UEP0_T_LEN], the packet offered to the host
    var tog: bool           // RB_UEP_T_TOG: it is offered as DATA1

    ghost predicate Valid()
      reads this
    {
      pDescr + setupReqLen <= |descr| && |ep0| <= EP0_SIZE && (|ep0| < EP0_SIZE ==> setupReqLen == 0)
    }

    // What comes behind the offered packet.
    ghost function Behind(): seq<Byte>
      reads this
      requires Valid()
    {
      descr[pDescr..pDescr + setupReqLen]
    }

    ghost function Pending(): seq<Byte>
      reads this
      requires Valid()
    {
      ep0 + Behind()
    }

    /** SETUP stage of GET_DESCRIPTOR (device to host). */
    method Setup(d: seq<Byte>, wLength: nat)
      requires |d| <= DESCR_MAX
      modifies this
      ensures Valid() && descr == d && tog
      ensures Pending() == Answer(d, wLength)
    {
      descr, pDescr, setupReqLen, tog := d, 0, wLength, true;
      if setupReqLen > |d| { setupReqLen := |d|; }
      var len := if setupReqLen > EP0_SIZE then EP0_SIZE else setupReqLen;
      ep0 := descr[pDescr..pDescr + len];
      pDescr := pDescr + len;
      len := if setupReqLen > EP0_SIZE then EP0_SIZE else setupReqLen;
      setupReqLen := setupReqLen - len;
      CutTwice(d, pDescr, setupReqLen);
    }

    /** The IN interrupt: the offered packet was acknowledged, load the next one. */
    method InDone()
      requires Valid()
      modifies this
      ensures Valid() && descr == old(descr) && tog == !old(tog)
      ensures Pending() == old(Behind())
    {
      var len := if setupReqLen >= EP0_SIZE then EP0_SIZE else setupReqLen;
      ep0 := descr[pDescr..pDescr + len];
      setupReqLen := setupReqLen - len;
      pDescr := pDescr + len;
      tog := !tog;
    }

    /** The device's side of an IN token: it hears of nothing but an ACK. */
    method OnIn(x: Exchange)
      requires Valid()
      modifies this
      ensures Valid() && descr == old(descr)
      ensures if x == Arrives(false) then tog == !old(tog) && Pending() == old(Behind()) else unchanged(this)
    {
      if x == Arrives(false) { InDone(); }
    }
  }

  // --------------------------------------------------------- a transaction --

  datatype Token = Setup | In | Out

  /** What one attempt comes to at the host. `OutOfStep` is a DATA0/DATA1 with the wrong
      toggle: dropped and acknowledged. */
  datatype Attempt = TogOk | OutOfStep | Failed(why: Failure)

  datatype Status = Success | Unknown | Disconnected | Connected | Refused(pid: Attempt) | TimedOut

  // `Silent` is no handshake at all.
  predicate Quiet(token: Token, a: Attempt) {
    a == Failed(Silent) || (token.In? && a.OutOfStep?)
  }

  function Verdict(a: Attempt): Status {
    match a
    case TogOk => Success
    case Failed(NoInterrupt) => Unknown
    case Failed(Unplugged) => Disconnected
    case Failed(Replugged) => Connected
    case _ => Refused(a)
  }

  function Naks(script: nat -> Attempt, n: nat): nat {
    if n == 0 then 0 else Naks(script, n - 1) + if script(n - 1) == Failed(Nak) then 1 else 0
  }

  function Quiets(token: Token, script: nat -> Attempt, n: nat): nat {
    if n == 0 then 0 else Quiets(token, script, n - 1) + if Quiet(token, script(n - 1)) then 1 else 0
  }

  /** Attempt `n` (counted from 1) settles the transaction: a verdict of the device or the
      hub, the NAK after the last one allowed (`NO_LIMIT` allows any number), or the third
      attempt without a handshake. */
  predicate Settled(token: Token, script: nat -> Attempt, timeout: nat, n: nat) {
    n > 0 && var a := script(n - 1);
    || (a != Failed(Nak) && !Quiet(token, a))
    || (timeout < NO_LIMIT && Naks(script, n) > timeout)
    || Quiets(token, script, n) >= 3
  }

  function Outcome(token: Token, a: Attempt): Status {
    if Quiet(token, a) then TimedOut else Verdict(a)
  }

  lemma {:induction false} UnsettledAttemptsCount(token: Token, script: nat -> Attempt, timeout: nat, n: nat)
    requires forall k :: 0 <= k <= n ==> !Settled(token, script, timeout, k)
    ensures n == Naks(script, n) + Quiets(token, script, n) && Quiets(token, script, n) <= 2
    ensures timeout < NO_LIMIT ==> n <= timeout + 2
  {
    if n == 0 {
    } else {
      UnsettledAttemptsCount(token, script, timeout, n - 1);
      assert !Settled(token, script, timeout, n);
    }
  }

  /** Every transaction with a limit is settled within `timeout + 3` attempts. */
  lemma TransactionsSettle(token: Token, script: nat -> Attempt, timeout: nat)
    requires timeout < NO_LIMIT
    ensures exists n :: 0 < n <= timeout + 3 && Settled(token, script, timeout, n)
  {
    if forall k :: 0 <= k <= timeout + 3 ==> !Settled(token, script, timeout, k) {
      UnsettledAttemptsCount(token, script, timeout, timeout + 3);
    }
  }

  /** The first attempt from `n` on that settles the transaction. */
  function SettledAt(token: Token, timeout: nat, script: nat -> Attempt, n: nat): (m: nat)
    requires n > 0
    ensures m > 0
    decreases timeout + 3 - n
  {
    if n >= timeout + 3 || Settled(token, script, timeout, n) then n
    else SettledAt(token, timeout, script, n + 1)
  }

  lemma {:induction false} FirstSettled(token: Token, timeout: nat, script: nat -> Attempt, n: nat, m: nat)
    requires 0 < n <= m && Settled(token, script, timeout, m)
    requires forall k :: n <= k < m ==> !Settled(token, script, timeout, k)
    requires m <= timeout + 3
    ensures SettledAt(token, timeout, script, n) == m
    decreases m - n
  {
    if n == m {
    } else {
      FirstSettled(token, timeout, script, n + 1, m);
    }
  }

  /** The loop goes on after an attempt. */
  predicate GoesOn(token: Token, a: Attempt, left: nat, transRetry: nat) {
    (a == Failed(Nak) && left > 0) || (Quiet(token, a) && transRetry < 2)
  }

  /** One turn of the retry loop. */
  method Turn(token: Token, a: Attempt, timeout: nat, transRetry: nat)
    returns (s: Status, more: bool, left: nat, retries: nat)
    requires transRetry < 3
    ensures more <==> GoesOn(token, a, timeout, transRetry)
    ensures !more ==> s == Outcome(token, a)
    ensures more ==> left == if a == Failed(Nak) && timeout < NO_LIMIT then timeout - 1 else timeout
    ensures more ==> retries == if Quiet(token, a) then transRetry + 1 else transRetry
  {
    left, retries := timeout, transRetry;
    if a == Failed(NoInterrupt) { return Unknown, false, left, retries; }
    if a == Failed(Unplugged) { return Disconnected, false, left, retries; }
    if a == Failed(Replugged) { return Connected, false, left, retries; }
    if a.TogOk? { return Success, false, left, retries; }
    if a == Failed(Stall) { return Refused(a), false, left, retries; }
    if a == Failed(Nak) {
      if left == 0 { return Refused(a), false, left, retries; }
      if left < NO_LIMIT { left := left - 1; }
      retries := (retries + 255) % 256; // --TransRetry on a uint8_t
    } else if token.In? && a.OutOfStep? {
    } else if a != Failed(Silent) {
      return Refused(a), false, left, retries;
    }
    retries := (retries + 1) % 256;
    return TimedOut, retries < 3, left, retries;
  }

  // The loop variables after `n` attempts.
  predicate Counted(token: Token, script: nat -> Attempt, timeout: nat, n: nat, left: nat, transRetry: nat) {
    && transRetry == Quiets(token, script, n) < 3
    && if timeout < NO_LIMIT then left == timeout - Naks(script, n) else left == timeout
  }

  lemma TurnSettles(token: Token, script: nat -> Attempt, timeout: nat, n: nat, left: nat, transRetry: nat)
    requires Counted(token, script, timeout, n, left, transRetry) && timeout <= NO_LIMIT
    ensures Settled(token, script, timeout, n + 1) <==> !GoesOn(token, script(n), left, transRetry)
    ensures var a := script(n);
            GoesOn(token, a, left, transRetry) ==>
              Counted(token, script, timeout, n + 1, if a == Failed(Nak) && left < NO_LIMIT then left - 1 else left,
                      if Quiet(token, a) then transRetry + 1 else transRetry)
  {
  }

  // Something ends the loop later on.
  lemma EndAhead(token: Token, timeout: nat, script: nat -> Attempt, bound: nat, n: nat)
    requires Settled(token, script, timeout, bound)
    requires forall k :: 0 <= k <= n ==> !Settled(token, script, timeout, k)
    ensures n < bound
  {
  }

  /** The retry loop. Without a limit it ends only if something ends it, at `bound` at the
      latest. */
  method Transact(token: Token, timeout: nat, script: nat -> Attempt, ghost bound: nat) returns (s: Status, n: nat)
    requires timeout < NO_LIMIT || (timeout == NO_LIMIT && Settled(token, script, timeout, bound))
    ensures 0 < n && (timeout < NO_LIMIT ==> n <= timeout + 3)
    ensures Settled(token, script, timeout, n) && s == Outcome(token, script(n - 1))
    ensures forall k :: 0 <= k < n ==> !Settled(token, script, timeout, k)
  {
    var transRetry, left, more := 0, timeout, true;
    s, n := TimedOut, 0;
    while more
      invariant more ==> Counted(token, script, timeout, n, left, transRetry)
      invariant more ==> !Settled(token, script, timeout, n)
      invariant !more ==> 0 < n && Settled(token, script, timeout, n) && s == Outcome(token, script(n - 1))
      invariant forall k :: 0 <= k < n ==> !Settled(token, script, timeout, k)
      invariant timeout < NO_LIMIT ==> n <= timeout + (if more then 2 else 3)
      invariant timeout == NO_LIMIT && more ==> n < bound
      decreases more, (if timeout < NO_LIMIT then timeout + 3 else bound) - n
    {
      TurnSettles(token, script, timeout, n, left, transRetry);
      s, more, left, transRetry := Turn(token, script(n), left, transRetry);
      n := n + 1;
      if more {
        if timeout < NO_LIMIT {
          UnsettledAttemptsCount(token, script, timeout, n);
        } else {
          EndAhead(token, timeout, script, bound, n);
        }
      }
    }
  }

  // ------------------------------------------------- what decides a transaction --

  // How many of the first `n` attempts come to `a`.
  function Count(script: nat -> Attempt, a: Attempt, n: nat): nat {
    if n == 0 then 0 else Count(script, a, n - 1) + if script(n - 1) == a then 1 else 0
  }

  /** The device or the hub has said something that no repetition will change. */
  predicate Answers(token: Token, a: Attempt) {
    match a
    case TogOk => true
    case OutOfStep => token != In
    case Failed(Nak) => false
    case Failed(Silent) => false
    case Failed(_) => true
  }

  // NAKs beyond the limit, or three attempts that brought nothing.
  predicate UsedUp(token: Token, script: nat -> Attempt, timeout: nat, n: nat) {
    || (timeout < NO_LIMIT && Count(script, Failed(Nak), n) > timeout)
    || Count(script, Failed(Silent), n) + (if token == In then Count(script, OutOfStep, n) else 0) >= 3
  }

  lemma {:induction false} CountsAgree(token: Token, script: nat -> Attempt, n: nat)
    ensures Naks(script, n) == Count(script, Failed(Nak), n)
    ensures Quiets(token, script, n)
            == Count(script, Failed(Silent), n) + if token == In then Count(script, OutOfStep, n) else 0
  {
    if n == 0 {
    } else {
      CountsAgree(token, script, n - 1);
    }
  }

  lemma {:induction false} NotUsedUpBefore(token: Token, script: nat -> Attempt, timeout: nat, k: nat, n: nat)
    requires k <= n && !UsedUp(token, script, timeout, n)
    ensures !UsedUp(token, script, timeout, k)
    decreases n
  {
    if k == n {
    } else {
      NotUsedUpBefore(token, script, timeout, k, n - 1);
    }
  }

  function Said(a: Attempt): Status {
    match a
    case TogOk => Success
    case Failed(NoInterrupt) => Unknown
    case Failed(Unplugged) => Disconnected
    case Failed(Replugged) => Connected
    case Failed(Silent) => TimedOut
    case _ => Refused(a)
  }

  /** The first answer decides a transaction, a stall at once and with its own status, unless the
      NAKs or the three attempts are used up before: then that does. Up to two losses and any
      number of NAKs within the limit do no harm. */
  lemma FirstDecides(token: Token, script: nat -> Attempt, timeout: nat, n: nat)
    requires forall k :: 0 <= k < n ==> !Answers(token, script(k))
    requires !UsedUp(token, script, timeout, n)
    ensures forall k :: 0 <= k <= n ==> !Settled(token, script, timeout, k)
    ensures Settled(token, script, timeout, n + 1)
            <==> Answers(token, script(n)) || UsedUp(token, script, timeout, n + 1)
    ensures Settled(token, script, timeout, n + 1) ==>
              Outcome(token, script(n)) == if token == In && script(n).OutOfStep? then TimedOut else Said(script(n))
  {
    forall k | 0 <= k <= n ensures !Settled(token, script, timeout, k) {
      NotUsedUpBefore(token, script, timeout, k, n);
      CountsAgree(token, script, k);
    }
    CountsAgree(token, script, n + 1);
    CountsAgree(token, script, n);
  }

  // --------------------------------------------------- an IN transaction on the wire --

  /** Device and host are out of step before attempt `n`, if they were `late` to begin with: the
      packet offered is one the host has. */
  predicate LateBefore(late: bool, xs: nat -> Exchange, n: nat) {
    if n == 0 then late else LateBefore(late, xs, n - 1) && xs(n - 1) != Arrives(false)
  }

  function Seen(late: bool, xs: nat -> Exchange, n: nat): Attempt {
    match xs(n)
    case Arrives(_) => if LateBefore(late, xs, n) then OutOfStep else TogOk
    case Missed(why) => Failed(why)
  }

  function Attempts(late: bool, xs: nat -> Exchange): nat -> Attempt {
    (n: nat) => Seen(late, xs, n)
  }

  // The attempt that settles the transaction.
  function LastAttempt(timeout: nat, late: bool, xs: nat -> Exchange): nat {
    SettledAt(In, timeout, Attempts(late, xs), 1) - 1
  }

  /** An IN transaction that meets these exchanges fetches its packet. */
  predicate Fetches(timeout: nat, late: bool, xs: nat -> Exchange) {
    Seen(late, xs, LastAttempt(timeout, late, xs)).TogOk?
  }

  /** It leaves them out of step when the ACK of the packet is lost. */
  predicate LateAfter(timeout: nat, late: bool, xs: nat -> Exchange) {
    xs(LastAttempt(timeout, late, xs)) == Arrives(true)
  }

  /** Transaction `i` of a control read begins out of step. */
  predicate Late(timeout: nat, script: nat -> (nat -> Exchange), i: nat) {
    i > 0 && LateAfter(timeout, Late(timeout, script, i - 1), script(i - 1))
  }

  predicate Delivers(timeout: nat, script: nat -> (nat -> Exchange), i: nat) {
    Fetches(timeout, Late(timeout, script, i), script(i))
  }

  lemma SettlesAt(timeout: nat, late: bool, xs: nat -> Exchange, n: nat)
    requires n < timeout + 3 && Settled(In, Attempts(late, xs), timeout, n + 1)
    requires forall k :: 0 <= k <= n ==> !Settled(In, Attempts(late, xs), timeout, k)
    ensures LastAttempt(timeout, late, xs) == n
  {
    FirstSettled(In, timeout, Attempts(late, xs), 1, n + 1);
  }

  /** A lost ACK is made up for when the packet is repeated and this ACK comes through; the
      repetition costs one of the three attempts. */
  lemma RepetitionCatchesUp(timeout: nat, xs: nat -> Exchange)
    requires timeout < NO_LIMIT && xs(0) == Arrives(false) && xs(1).Arrives?
    ensures Fetches(timeout, true, xs)
  {
    var a := Attempts(true, xs);
    assert a(0).OutOfStep? && a(1).TogOk?;
    assert Naks(a, 1) == 0 && Quiets(In, a, 1) == 1;
    SettlesAt(timeout, true, xs, 1);
  }

  lemma {:induction false} StaysInStep(xs: nat -> Exchange, n: nat)
    requires forall k :: 0 <= k < n ==> !xs(k).Arrives?
    ensures !LateBefore(false, xs, n)
  {
    if n == 0 {
    } else {
      StaysInStep(xs, n - 1);
    }
  }

  lemma {:induction false} NeverOutOfStep(script: nat -> Attempt, n: nat)
    requires forall k :: 0 <= k < n ==> !script(k).OutOfStep?
    ensures Count(script, OutOfStep, n) == 0
  {
    if n == 0 {
    } else {
      NeverOutOfStep(script, n - 1);
    }
  }

  // NAKs within the limit and at most two losses.
  ghost predicate Bears(timeout: nat, xs: nat -> Exchange, n: nat) {
    && timeout < NO_LIMIT && (forall k :: 0 <= k < n ==> xs(k) == Missed(Nak) || xs(k) == Missed(Silent))
    && Count(Attempts(false, xs), Failed(Nak), n) <= timeout
    && Count(Attempts(false, xs), Failed(Silent), n) <= 2
  }

  lemma BearsMisses(timeout: nat, xs: nat -> Exchange, n: nat)
    requires Bears(timeout, xs, n)
    ensures !UsedUp(In, Attempts(false, xs), timeout, n)
    ensures forall k :: 0 <= k < n ==> !Answers(In, Attempts(false, xs)(k))
  {
    var a := Attempts(false, xs);
    forall k | 0 <= k < n ensures a(k) == Failed(Nak) || a(k) == Failed(Silent) {
      assert xs(k) == Missed(Nak) || xs(k) == Missed(Silent);
    }
    NeverOutOfStep(a, n);
  }

  /** A packet that arrives behind NAKs within the limit and at most two losses is fetched; a stall
      instead of it ends the transaction there. */
  lemma ArrivesIn(timeout: nat, xs: nat -> Exchange, n: nat)
    requires Bears(timeout, xs, n)
    ensures xs(n).Arrives? || xs(n) == Missed(Stall) ==> LastAttempt(timeout, false, xs) == n
    ensures xs(n).Arrives? ==> Fetches(timeout, false, xs)
    ensures xs(n) == Missed(Stall) ==> !Fetches(timeout, false, xs)
  {
    var a := Attempts(false, xs);
    BearsMisses(timeout, xs, n);
    FirstDecides(In, a, timeout, n);
    UnsettledAttemptsCount(In, a, timeout, n);
    if xs(n).Arrives? || xs(n) == Missed(Stall) {
      StaysInStep(xs, n);
      assert Answers(In, a(n));
      SettlesAt(timeout, false, xs, n);
    }
  }

  /** When no ACK comes through, the second transaction fails though its data always arrives. */
  lemma LostAcksFail(timeout: nat)
    requires timeout < NO_LIMIT
    ensures var script := (i: nat) => (k: nat) => Arrives(true);
            Delivers(timeout, script, 0) && !Delivers(timeout, script, 1)
  {
    var script := (i: nat) => (k: nat) => Arrives(true);
    SettlesAt(timeout, false, script(0), 0);
    var a := Attempts(true, script(1));
    assert a(0).OutOfStep? && a(1).OutOfStep? && a(2).OutOfStep?;
    assert Naks(a, 1) == Naks(a, 2) == Naks(a, 3) == 0;
    assert Quiets(In, a, 1) == 1 && Quiets(In, a, 2) == 2 && Quiets(In, a, 3) == 3;
    SettlesAt(timeout, true, script(1), 2);
  }

  /** The host has yet to get `rest`: what the device offers and has behind it, or, out of
      step, what it has behind the packet offered once more. */
  ghost predicate Owes(dev: Device, hostTog: bool, rest: seq<Byte>)
    reads dev
  {
    && dev.Valid()
    && if dev.tog == hostTog then rest == dev.Pending() else |dev.ep0| == EP0_SIZE && rest == dev.Behind()
  }

  /** The device's side of the attempts before the last one. */
  method DeviceFollows(dev: Device, hostTog: bool, xs: nat -> Exchange, n: nat, ghost late: bool, ghost rest: seq<Byte>)
    requires Owes(dev, hostTog, rest) && late == (dev.tog != hostTog)
    requires forall k :: 0 <= k < n ==> !Seen(late, xs, k).TogOk?
    modifies dev
    ensures Owes(dev, hostTog, rest) && LateBefore(late, xs, n) == (dev.tog != hostTog)
  {
    var i := 0;
    while i < n
      invariant i <= n && Owes(dev, hostTog, rest) && LateBefore(late, xs, i) == (dev.tog != hostTog)
    {
      assert !Seen(late, xs, i).TogOk?;
      dev.OnIn(xs(i));
      i := i + 1;
    }
  }

  /** One IN transaction, whatever is lost on the wire: on success the host has the next packet
      of what is owed, otherwise the same is owed as before. */
  method FetchPacket(dev: Device, hostTog: bool, timeout: nat, xs: nat -> Exchange, ghost rest: seq<Byte>)
    returns (s: Status, rx: seq<Byte>, tog: bool)
    requires Owes(dev, hostTog, rest) && timeout < NO_LIMIT
    modifies dev
    ensures var late := old(dev.tog) != hostTog;
            && (s.Success? <==> Fetches(timeout, late, xs))
            && (s.Success? ==> (dev.tog != tog) == LateAfter(timeout, late, xs))
    ensures !s.Success? ==> Owes(dev, hostTog, rest)
    ensures s.Success? ==> rx == rest[..Min(EP0_SIZE, |rest|)]
    ensures s.Success? && |rest| >= EP0_SIZE ==> Owes(dev, tog, rest[EP0_SIZE..])
  {
    ghost var late := dev.tog != hostTog;
    var deviceTog := dev.tog;
    var n;
    s, n := Transact(In, timeout, Attempts(deviceTog != hostTog, xs), 0);
    FirstSettled(In, timeout, Attempts(late, xs), 1, n);
    forall k | 0 <= k < n - 1 ensures !Seen(late, xs, k).TogOk? {
      assert !Settled(In, Attempts(late, xs), timeout, k + 1);
    }
    DeviceFollows(dev, hostTog, xs, n - 1, late, rest);
    rx := dev.ep0;
    dev.OnIn(xs(n - 1));
    tog := if s.Success? then !hostTog else hostTog;
  }

  // --------------------------------------------------------------- the host --

  /** The buffer `buf`, which was `was`, has got the first `n` bytes of the answer. */
  ghost predicate Received(buf: seq<Byte>, was: seq<Byte>, answer: seq<Byte>, n: nat)
  {
    n <= |answer| && n <= |was| && buf == answer[..n] + was[n..]
  }

  /** The copy loop: the packet that comes next in the answer goes behind what is there. */
  method StorePacket(rx: seq<Byte>, dataBuf: array<Byte>, pBuf: nat,
                     ghost was: seq<Byte>, ghost answer: seq<Byte>, ghost pending: seq<Byte>)
    requires Received(dataBuf[..], was, answer, pBuf)
    requires answer[pBuf..] == rx + pending && |answer| <= |was|
    modifies dataBuf
    ensures Received(dataBuf[..], was, answer, pBuf + |rx|)
    ensures answer[pBuf + |rx|..] == pending
  {
    assert |answer[pBuf..]| == |rx| + |pending|;
    var rxCnt := 0;
    while rxCnt != |rx|
      invariant rxCnt <= |rx|
      invariant Received(dataBuf[..], was, answer, pBuf + rxCnt)
    {
      assert answer[pBuf + rxCnt] == answer[pBuf..][rxCnt] == rx[rxCnt];
      assert answer[..pBuf + rxCnt + 1] == answer[..pBuf + rxCnt] + [rx[rxCnt]];
      dataBuf[pBuf + rxCnt] := rx[rxCnt];
      rxCnt := rxCnt + 1;
    }
    assert answer[pBuf..][|rx|..] == pending;
  }

  lemma OneMore<T>(all: seq<T>, wire: seq<T>, rx: T, more: seq<T>)
    requires all == wire + ([rx] + more)
    ensures wire + [rx] <= all && all == wire + [rx] + more
  {
    Assoc(wire, [rx], more);
  }

  /** The packets on the wire so far are the answer's first ones, and `n` bytes of it. */
  ghost predicate Framed(answer: seq<Byte>, n: nat, wire: seq<seq<Byte>>) {
    n <= |answer| && n == EP0_SIZE * |wire| && Fragments(answer) == wire + Fragments(answer[n..])
  }

  lemma FullFragment(rest: seq<Byte>)
    requires |rest| >= EP0_SIZE
    ensures Fragments(rest) == [rest[..EP0_SIZE]] + Fragments(rest[EP0_SIZE..])
  {
  }

  lemma NextFramed(answer: seq<Byte>, n: nat, wire: seq<seq<Byte>>, rx: seq<Byte>)
    requires Framed(answer, n, wire) && rx == answer[n..][..Min(EP0_SIZE, |answer| - n)]
    ensures wire + [rx] <= Fragments(answer)
    ensures |rx| == EP0_SIZE ==> Framed(answer, n + EP0_SIZE, wire + [rx])
  {
    var rest := answer[n..];
    if |rest| < EP0_SIZE {
      assert rx == rest && Fragments(answer) == wire + [rx];
    } else {
      assert rx == rest[..EP0_SIZE];
      FullFragment(rest);
      OneMore(Fragments(answer), wire, rx, Fragments(rest[EP0_SIZE..]));
      assert rest[EP0_SIZE..] == answer[n + EP0_SIZE..];
    }
  }

  /** The packet of one transaction goes into the buffer. */
  method StoreNext(dev: Device, hostTog: bool, dataBuf: array<Byte>, pBuf: nat, remLen: nat,
                       timeout: nat, xs: nat -> Exchange, ghost was: seq<Byte>, ghost answer: seq<Byte>)
    returns (s: Status, rx: seq<Byte>, tog: bool, short: bool)
    requires Received(dataBuf[..], was, answer, pBuf) && Owes(dev, hostTog, answer[pBuf..])
    requires |answer| <= pBuf + remLen <= |was| && timeout < NO_LIMIT
    modifies dev, dataBuf
    ensures var late := old(dev.tog) != hostTog;
            && (s.Success? <==> Fetches(timeout, late, xs))
            && (s.Success? ==> (dev.tog != tog) == LateAfter(timeout, late, xs))
    ensures !s.Success? ==> Received(dataBuf[..], was, answer, pBuf)
    ensures s.Success? ==> rx == answer[pBuf..][..Min(EP0_SIZE, |answer| - pBuf)]
    ensures s.Success? ==> Received(dataBuf[..], was, answer, pBuf + |rx|)
    ensures s.Success? ==> (short <==> |rx| < EP0_SIZE)
    ensures s.Success? && !short ==> Owes(dev, tog, answer[pBuf + |rx|..])
  {
    ghost var rest := answer[pBuf..];
    s, rx, tog := FetchPacket(dev, hostTog, timeout, xs, rest);
    short := |rx| == 0 || |rx| % EP0_SIZE != 0;
    if !s.Success? { return; }
    var rxLen := Min(|rx|, remLen);
    assert rest == rx + rest[|rx|..] && rest[|rx|..] == answer[pBuf + |rx|..];
    assert rx[..rxLen] == rx;
    StorePacket(rx[..rxLen], dataBuf, pBuf, was, answer, rest[|rx|..]);
  }

  /** The packets a host fetches that asked for `want` bytes and is given `len`. */
  function Asked(len: nat, want: nat): nat {
    if want == 0 then 0 else if len == want then (len + EP0_SIZE - 1) / EP0_SIZE else len / EP0_SIZE + 1
  }

  lemma AskedMore(len: nat, want: nat, k: nat)
    requires EP0_SIZE * k <= len <= want && EP0_SIZE * k < want
    ensures k < Asked(len, want)
    ensures len < EP0_SIZE * (k + 1) ==> Asked(len, want) == k + 1
  {
  }

  lemma AskedAll(len: nat, k: nat)
    requires len == EP0_SIZE * k
    ensures Asked(len, len) == k
  {
  }

  // The first `k` transactions deliver, and this is how they leave device and host.
  ghost predicate Delivered(timeout: nat, script: nat -> (nat -> Exchange), k: nat, late: bool) {
    late == Late(timeout, script, k) && forall i :: 0 <= i < k ==> Delivers(timeout, script, i)
  }

  lemma OneDelivered(timeout: nat, script: nat -> (nat -> Exchange), k: nat, late: bool)
    requires Delivered(timeout, script, k, late)
    ensures Delivers(timeout, script, k) <==> Fetches(timeout, late, script(k))
    ensures Delivers(timeout, script, k) ==> Delivered(timeout, script, k + 1, LateAfter(timeout, late, script(k)))
  {
  }

  /** Where a control read stands: the buffer has the first `n` bytes of the answer, the device
      owes the rest, and `wire` were the packets. */
  ghost predicate Underway(dev: Device, hostTog: bool, buf: seq<Byte>, was: seq<Byte>, answer: seq<Byte>, n: nat,
                           wire: seq<seq<Byte>>, timeout: nat, script: nat -> (nat -> Exchange))
    reads dev
  {
    && Framed(answer, n, wire) && Received(buf, was, answer, n)
    && Owes(dev, hostTog, answer[n..])
    && Delivered(timeout, script, |wire|, dev.tog != hostTog)
  }

  /** How the loop ends: with the answer, or with the packets before the transaction that did
      not deliver. */
  ghost predicate Ended(s: Status, retLen: nat, wire: seq<seq<Byte>>, answer: seq<Byte>, wLength: nat,
                        timeout: nat, script: nat -> (nat -> Exchange))
  {
    && wire <= Fragments(answer) && (forall i :: 0 <= i < |wire| ==> Delivers(timeout, script, i))
    && if s.Success? then retLen == |answer| && |wire| == Asked(|answer|, wLength)
       else retLen == EP0_SIZE * |wire| && |wire| < Asked(|answer|, wLength) && !Delivers(timeout, script, |wire|)
  }

  lemma AllFetched(answer: seq<Byte>, n: nat, wire: seq<seq<Byte>>,
                   timeout: nat, script: nat -> (nat -> Exchange), late: bool)
    requires Framed(answer, n, wire) && Delivered(timeout, script, |wire|, late) && n == |answer|
    ensures Ended(Success, n, wire, answer, n, timeout, script)
  {
    AskedAll(n, |wire|);
  }

  lemma FailureEnds(s: Status, answer: seq<Byte>, wLength: nat, n: nat, wire: seq<seq<Byte>>,
                    timeout: nat, script: nat -> (nat -> Exchange), late: bool)
    requires Framed(answer, n, wire) && |answer| <= wLength && n < wLength
    requires Delivered(timeout, script, |wire|, late) && !Fetches(timeout, late, script(|wire|)) && !s.Success?
    ensures Ended(s, n, wire, answer, wLength, timeout, script)
  {
    OneDelivered(timeout, script, |wire|, late);
    AskedMore(|answer|, wLength, |wire|);
  }

  lemma PacketCounts(answer: seq<Byte>, wLength: nat, n: nat, wire: seq<seq<Byte>>, rx: seq<Byte>,
                     timeout: nat, script: nat -> (nat -> Exchange), late: bool)
    requires Framed(answer, n, wire) && |answer| <= wLength && n < wLength
    requires rx == answer[n..][..Min(EP0_SIZE, |answer| - n)]
    requires Delivered(timeout, script, |wire|, late) && Fetches(timeout, late, script(|wire|))
    ensures n + |rx| <= |answer|
    ensures if |rx| < EP0_SIZE || n + |rx| == wLength then
              Ended(Success, n + |rx|, wire + [rx], answer, wLength, timeout, script)
            else
              && |rx| > 0 && Framed(answer, n + |rx|, wire + [rx])
              && Delivered(timeout, script, |wire + [rx]|, LateAfter(timeout, late, script(|wire|)))
  {
    OneDelivered(timeout, script, |wire|, late);
    NextFramed(answer, n, wire, rx);
    if |rx| < EP0_SIZE {
      AskedMore(|answer|, wLength, |wire|);
    } else if n + |rx| == wLength {
      AllFetched(answer, wLength, wire + [rx], timeout, script, LateAfter(timeout, late, script(|wire|)));
    }
  }

  /** One turn of the host's loop: `n` bytes are there in the end. */
  method ReceivePacket(dev: Device, hostTog: bool, dataBuf: array<Byte>, pBuf: nat, wLength: nat, timeout: nat,
                       script: nat -> (nat -> Exchange), ghost was: seq<Byte>, ghost answer: seq<Byte>,
                       wire: seq<seq<Byte>>)
    returns (s: Status, n: nat, tog: bool, packets: seq<seq<Byte>>, more: bool)
    requires Underway(dev, hostTog, dataBuf[..], was, answer, pBuf, wire, timeout, script)
    requires |answer| <= wLength <= |was| && |answer| <= DESCR_MAX && pBuf < wLength && timeout < NO_LIMIT
    modifies dev, dataBuf
    ensures Received(dataBuf[..], was, answer, n)
    ensures more ==> Underway(dev, tog, dataBuf[..], was, answer, n, packets, timeout, script) && pBuf < n < wLength
    ensures !more ==> Ended(s, n, packets, answer, wLength, timeout, script)
  {
    ghost var late := dev.tog != hostTog;
    var rx, short;
    s, rx, tog, short := StoreNext(dev, hostTog, dataBuf, pBuf, wLength - pBuf, timeout, script(|wire|), was, answer);
    n, packets, more := pBuf, wire, false;
    if s.Success? {
      PacketCounts(answer, wLength, pBuf, wire, rx, timeout, script, late);
      packets, n := wire + [rx], (pBuf + |rx|) % 256; // *pLen is a uint8_t
      assert n == pBuf + |rx|;
      more := !short && n < wLength;
    } else {
      FailureEnds(s, answer, wLength, pBuf, wire, timeout, script, late);
    }
  }

  /** The `while (RemLen)` loop. */
  method DataStage(dev: Device, wLength: nat, dataBuf: array<Byte>, timeout: nat,
                   script: nat -> (nat -> Exchange), ghost was: seq<Byte>, ghost answer: seq<Byte>)
    returns (s: Status, retLen: nat, wire: seq<seq<Byte>>)
    requires Underway(dev, true, dataBuf[..], was, answer, 0, [], timeout, script)
    requires |answer| <= wLength <= |was| && |answer| <= DESCR_MAX && timeout < NO_LIMIT
    modifies dev, dataBuf
    ensures Received(dataBuf[..], was, answer, retLen)
    ensures Ended(s, retLen, wire, answer, wLength, timeout, script)
  {
    var hostTog, more := true, wLength > 0; // the default is DATA1
    retLen, wire, s := 0, [], Success;
    if !more { AllFetched(answer, 0, wire, timeout, script, false); }
    while more
      invariant Received(dataBuf[..], was, answer, retLen)
      invariant if more then
          Underway(dev, hostTog, dataBuf[..], was, answer, retLen, wire, timeout, script) && retLen < wLength
        else Ended(s, retLen, wire, answer, wLength, timeout, script)
      decreases more, wLength - retLen
    {
      s, retLen, hostTog, wire, more :=
        ReceivePacket(dev, hostTog, dataBuf, retLen, wLength, timeout, script, was, answer, wire);
    }
  }

  /** The IN data stage of `U2HostCtrlTransfer`, whatever each transaction meets on the wire:
      `script(i)` are the exchanges of transaction `i`. It succeeds exactly when each of the
      transactions it needs delivers, and then the buffer holds the answer; otherwise it holds
      the packets before the one that failed. */
  method CtrlIn(dev: Device, descr: seq<Byte>, wLength: nat, dataBuf: array<Byte>,
                timeout: nat, script: nat -> (nat -> Exchange))
    returns (s: Status, retLen: nat, wire: seq<seq<Byte>>)
    requires |descr| <= DESCR_MAX && timeout < NO_LIMIT
    requires wLength <= dataBuf.Length
    modifies dev, dataBuf
    ensures var answer := Answer(descr, wLength);
            && Received(dataBuf[..], old(dataBuf[..]), answer, retLen)
            && Ended(s, retLen, wire, answer, wLength, timeout, script)
            && (s.Success? <==> forall i :: 0 <= i < Asked(|answer|, wLength) ==> Delivers(timeout, script, i))
  {
    dev.Setup(descr, wLength);
    ghost var answer := Answer(descr, wLength);
    assert answer[0..] == answer && [] + Fragments(answer) == Fragments(answer);
    s, retLen, wire := DataStage(dev, wLength, dataBuf, timeout, script, dataBuf[..], answer);
  }

  // --------------------------------------------------------- lost handshakes --

  /** `offered` are the packets the device still has to get acknowledged. Host and device flip
      their DATA0/DATA1 toggles on their own, when a packet is taken and when its ACK is seen. */
  datatype Wire = Wire(offered: seq<seq<Byte>>, deviceTog: bool, hostTog: bool, received: seq<seq<Byte>>)

  function Exchanged(w: Wire, x: Exchange): Wire {
    if !x.Arrives? || w.offered == [] then w
    else
      var taken := if w.hostTog == w.deviceTog
                   then w.(hostTog := !w.hostTog, received := w.received + [w.offered[0]])
                   else w; // OutOfStep: dropped and acknowledged
      if x.ackLost then taken else taken.(offered := w.offered[1..], deviceTog := !w.deviceTog)
  }

  function AllExchanged(w: Wire, xs: seq<Exchange>): Wire
    decreases |xs|
  {
    if xs == [] then w else AllExchanged(Exchanged(w, xs[0]), xs[1..])
  }

  // What the host has not got yet.
  ghost predicate Outstanding(w: Wire, rest: seq<seq<Byte>>) {
    if w.hostTog == w.deviceTog then rest == w.offered else w.offered != [] && rest == w.offered[1..]
  }

  lemma {:induction false} EachPacketOnce(w: Wire, xs: seq<Exchange>, all: seq<seq<Byte>>, rest: seq<seq<Byte>>)
    requires Outstanding(w, rest) && w.received + rest == all
    ensures var t := AllExchanged(w, xs); t.received <= all && (Outstanding(t, []) ==> t.received == all)
    decreases |xs|
  {
    if xs == [] {
      assert Outstanding(w, []) ==> rest == [];
    } else {
      var t := Exchanged(w, xs[0]);
      if t.received == w.received {
        EachPacketOnce(t, xs[1..], all, rest);
      } else {
        assert rest == [rest[0]] + rest[1..] && t.received == w.received + [rest[0]];
        assert t.received + rest[1..] == w.received + rest;
        EachPacketOnce(t, xs[1..], all, rest[1..]);
      }
    }
  }

  /** Whatever is lost on the wire, data or handshakes, the host takes the packets of the answer
      in order and each once; when none is outstanding it has exactly the answer. */
  lemma LossesAreHarmless(descr: seq<Byte>, want: nat, tog: bool, xs: seq<Exchange>)
    ensures var answer := Answer(descr, want);
            var w := AllExchanged(Wire(Fragments(answer), tog, tog, []), xs);
            && w.received <= Fragments(answer)
            && (Outstanding(w, []) ==> Reassembled(w.received, want) == answer)
  {
    var ps := Fragments(Answer(descr, want));
    assert [] + ps == ps;
    EachPacketOnce(Wire(ps, tog, tog, []), xs, ps, ps);
    ControlReadIsExact(descr, want);
  }
}
