/** The MQTT client of `mqttc.rs` (`mod v3`): packets built in place in `tx`, the stream read
    in chunks of any size into `rx`. Each method is tied to the byte sequences of
    `MqttPackets`. */
module MqttClient {
  import opened MqttPackets
  import opened Wrappers

  const TX_LEN: nat := 3072

  datatype Result = Ok | Io | Protocol | Refused(rc: nat)
  datatype Read = Err | Got(data: Bytes)
  datatype Received = Publish | Pingresp | Disconnect | Failed | Overlong | Crashed

  /** The transport. `input` is everything the peer will ever send; a read takes any part of
      it, none at the end of the stream, a write accepts any part of what it is given, and
      either may fail. */
  class Link {
    var input: Bytes
    var output: Bytes
    var broken: bool

    method Read(max: nat) returns (r: Read)
      requires max > 0
      modifies this`input, this`broken
      ensures r.Err? ==> broken
      ensures r.Got? ==> broken == old(broken) && |r.data| <= max && old(input) == r.data + input
      ensures r.Got? && r.data == [] ==> input == []
    {
      if * {
        broken := true;
        return Err;
      }
      if input == [] { return Got([]); }
      var n: nat :| 1 <= n <= max && n <= |input|;
      r := Got(input[..n]);
      input := input[n..];
    }

    method Write(data: Bytes) returns (ok: bool, n: nat)
      requires data != []
      modifies this`output, this`broken
      ensures n <= |data| && output == old(output) + data[..n]
      ensures if ok && n > 0 then broken == old(broken) else broken
    {
      n :| 0 <= n <= |data|;
      ok := n > 0;
      if !ok { broken := true; }
      output := output + data[..n];
    }

    method Flush() returns (ok: bool)
      modifies this`broken
      ensures if ok then broken == old(broken) else broken
    {
      ok := *;
      if !ok { broken := true; }
    }
  }

  lemma Flatten(pre: Bytes, a: Bytes, b: Bytes, c: Bytes, d: Bytes, e: Bytes)
    ensures pre + a + b + c + d + e == pre + (a + (b + (c + (d + e))))
  {
  }

  lemma VarintSize(n: nat)
    requires n < 0x4000
    ensures |Varint(n)| == if n < 128 then 1 else 2
  {
  }

  // ------------------------------------------------------ the remaining length --

  // `v << 7 * k`
  function ShiftedLeft(v: nat, k: nat): nat {
    if k == 0 then v else 128 * ShiftedLeft(v, k - 1)
  }

  // The length of which `l` is read behind the first `k` bytes, which say `rem`.
  function Behind(l: Length, rem: nat, k: nat): Length {
    match l
    case Length(v, n) => Length(rem + ShiftedLeft(v, k), k + n)
    case l => l
  }

  // `l`, the length being read, after `size` bytes: `b` was the last, they say `rem`.
  ghost predicate Pending(l: Length, b: int, input: Bytes, rem: nat, size: nat)
    requires size <= 4
  {
    l == if More(b) then Behind(ReadLength(input, 4 - size), rem, size) else Length(rem, size)
  }

  lemma {:induction false} ShiftsAdd(r: nat, v: nat, k: nat)
    ensures ShiftedLeft(r + 128 * v, k) == ShiftedLeft(r, k) + ShiftedLeft(v, k + 1)
  {
    if k == 0 {
      assert ShiftedLeft(v, 1) == 128 * ShiftedLeft(v, 0);
    } else {
      ShiftsAdd(r, v, k - 1);
    }
  }

  lemma BehindStep(s: Bytes, rem: nat, k: nat)
    requires k <= 3
    ensures s == [] ==> Behind(ReadLength(s, 4 - k), rem, k) == TooShort
    ensures s != [] ==>
              Behind(ReadLength(s, 4 - k), rem, k) ==
              if More(s[0]) then Behind(ReadLength(s[1..], 3 - k), rem + ShiftedLeft(Low7(s[0]), k), k + 1)
              else Length(rem + ShiftedLeft(Low7(s[0]), k), k + 1)
  {
    if s != [] {
      var l := ReadLength(s[1..], 3 - k);
      if More(s[0]) && l.Length? { ShiftsAdd(Low7(s[0]), l.value, k); }
    }
  }

  lemma PendingStep(l: Length, b: int, input: Bytes, rem: nat, size: nat)
    requires size < 4 && More(b) && Pending(l, b, input, rem, size)
    ensures input == [] ==> l == TooShort
    ensures input != [] ==> Pending(l, input[0], input[1..], rem + ShiftedLeft(Low7(input[0]), size), size + 1)
  {
    BehindStep(input, rem, size);
  }

  lemma FirstPending(first: int, input: Bytes)
    ensures Pending(ReadLength([first] + input, 4), first, input, Low7(first), 1)
  {
    BehindStep([first] + input, 0, 0);
    assert ([first] + input)[1..] == input;
  }

  lemma SamePieces(buf: Bytes, s: Bytes, n: nat, t: nat)
    requires t <= n <= |buf| && 2 + n <= |s| && buf[..n] == s[2..][..n]
    ensures buf[..t] == s[2..2 + t] && buf[t..n] == s[2 + t..2 + n]
  {
    var piece := s[2..2 + n];
    assert buf[..n] == s[2..][..n] == piece;
    assert buf[..t] == piece[..t] == s[2..2 + t];
    assert buf[t..n] == piece[t..] == s[2 + t..2 + n];
  }

  class Client {
    const link: Link
    const tx: array<int>
    const rx: array<int>
    var topicLen: nat
    var payloadLen: nat

    ghost predicate Valid() {
      tx.Length == TX_LEN && rx.Length == RX_LEN && tx != rx
    }

    constructor (link: Link)
      ensures Valid() && this.link == link && fresh(tx) && fresh(rx)
    {
      this.link := link;
      tx := new int[TX_LEN];
      rx := new int[RX_LEN];
      topicLen, payloadLen := 0, 0;
    }

    // ------------------------------------------------------------ building --

    method PutBytes(s: Bytes, pos: nat)
      requires Valid() && pos + |s| <= TX_LEN
      modifies tx
      ensures tx[..pos + |s|] == old(tx[..pos]) + s
    {
      ghost var was := tx[..pos];
      var i := 0;
      while i < |s|
        invariant i <= |s|
        invariant tx[..pos + i] == was + s[..i]
      {
        tx[pos + i] := s[i];
        i := i + 1;
      }
      assert s[..i] == s;
    }

    method PutStr(s: Bytes, pos: nat) returns (end: nat)
      requires Valid() && pos + 2 + |s| <= TX_LEN
      modifies tx
      ensures end == pos + 2 + |s| && tx[..end] == old(tx[..pos]) + Str(s)
    {
      ghost var was := tx[..pos];
      tx[pos] := |s| / 256 % 256;
      tx[pos + 1] := |s| % 256;
      assert tx[..pos + 2] == was + [|s| / 256 % 256, |s| % 256];
      PutBytes(s, pos + 2);
      end := pos + 2 + |s|;
      Assoc(was, [|s| / 256 % 256, |s| % 256], s);
    }

    /** The varint loop; what lies behind the bytes it writes stays. */
    method PutVarint(length: nat, pos: nat) returns (rp: nat)
      requires Valid() && pos + |Varint(length)| <= TX_LEN
      modifies tx
      ensures rp == pos + |Varint(length)|
      ensures tx[..rp] == old(tx[..pos]) + Varint(length)
      ensures tx[rp..] == old(tx[..])[rp..]
    {
      ghost var was, all := tx[..pos], tx[..];
      var n := length;
      rp := pos;
      assert was + Varint(length) == tx[..rp] + Varint(n);
      while true
        invariant rp + |Varint(n)| == pos + |Varint(length)|
        invariant pos <= rp && tx[..rp] + Varint(n) == was + Varint(length)
        invariant forall k :: rp <= k < TX_LEN ==> tx[k] == all[k]
        decreases n
      {
        var b, q := n % 128, n / 128;
        if q > 0 { b := b + 0x80; }
        ghost var head := tx[..rp];
        tx[rp] := b;
        rp := rp + 1;
        assert tx[..rp] == head + [b];
        if q == 0 { break; }
        Assoc(head, [b], Varint(q));
        n := q;
      }
    }

    /** `send`: short writes are completed and flushed, so the packet goes out whole or the link
        fails. */
    method Send(len: nat) returns (r: Result)
      requires Valid() && len <= TX_LEN
      modifies link
      ensures link.input == old(link.input)
      ensures r == Ok ==> link.broken == old(link.broken) && link.output == old(link.output) + tx[..len]
      ensures r != Ok ==> r == Io && link.broken
      ensures old(link.output) <= link.output <= old(link.output) + tx[..len]
    {
      ghost var packet, out := tx[..len], link.output;
      var left := tx[..len];
      while left != []
        invariant link.input == old(link.input) && link.broken == old(link.broken)
        invariant out <= link.output && link.output + left == out + packet
        decreases |left|
      {
        var ok, n := link.Write(left);
        Assoc(link.output[..|link.output| - n], left[..n], left[n..]);
        assert left == left[..n] + left[n..];
        if !ok || n == 0 {
          return Io;
        }
        left := left[n..];
      }
      assert link.output + [] == link.output;
      var ok := link.Flush();
      return if ok then Ok else Io;
    }

    method PublishMessage(topic: Bytes, payload: Bytes, retain: bool) returns (r: Result)
      requires Valid() && |PublishPacket(topic, payload, retain)| <= TX_LEN
      modifies tx, link
      ensures link.input == old(link.input)
      ensures r == Ok ==> link.output == old(link.output) + PublishPacket(topic, payload, retain)
      ensures r != Ok ==> r == Io && link.broken
    {
      var first, length := if retain then 0x31 else 0x30, 2 + |topic| + |payload|;
      tx[0] := first;
      assert tx[..1] == [first];
      var p := PutVarint(length, 1);
      p := PutStr(topic, p);
      PutBytes(payload, p);
      p := p + |payload|;
      Assoc([first] + Varint(length), Str(topic), payload);
      r := Send(p);
    }

    // --------------------------------------------------------- CONNECT, in place --

    method PutCredential(x: Bytes, pos: nat) returns (end: nat)
      requires Valid() && pos + |Credential(x)| <= TX_LEN
      modifies tx
      ensures end == pos + |Credential(x)| && tx[..end] == old(tx[..pos]) + Credential(x)
    {
      end := pos;
      if x != [] { end := PutStr(x, pos); }
    }

    method PutPayload(clientId: Bytes, willTopic: Bytes, user: Bytes, pass: Bytes, pos: nat) returns (p: nat)
      requires Valid() && pos + |ConnectPayload(clientId, willTopic, user, pass)| <= TX_LEN
      modifies tx
      ensures p == pos + |ConnectPayload(clientId, willTopic, user, pass)|
      ensures tx[..p] == old(tx[..pos]) + ConnectPayload(clientId, willTopic, user, pass)
    {
      ghost var pre := tx[..pos];
      p := PutStr(clientId, pos);
      p := PutStr(willTopic, p);
      p := PutStr(OFFLINE, p);
      p := PutCredential(user, p);
      p := PutCredential(pass, p);
      Flatten(pre, Str(clientId), Str(willTopic), Str(OFFLINE), Credential(user), Credential(pass));
    }

    // Protocol name and level, flags and keep-alive.
    method PutVariableHeader(user: Bytes, pass: Bytes, pos: nat) returns (p: nat)
      requires Valid() && pos + 10 <= TX_LEN
      modifies tx
      ensures p == pos + 10
      ensures tx[..p] == old(tx[..pos]) + (Str(MQTT) + [4, ConnectFlags(user, pass), 0, 60])
    {
      ghost var pre := tx[..pos];
      p := PutStr(MQTT, pos);
      var flags := 0x02 + 0x04 + 0x20;
      if user != [] { flags := flags + 0x80; }
      if pass != [] { flags := flags + 0x40; }
      PutBytes([4, flags, 0, 60], p);
      p := p + 4;
      Assoc(pre, Str(MQTT), [4, flags, 0, 60]);
    }

    /** The body behind the two bytes reserved for the remaining length. */
    method PutConnectBody(clientId: Bytes, willTopic: Bytes, user: Bytes, pass: Bytes) returns (p: nat)
      requires Valid() && 3 + |ConnectBody(clientId, willTopic, user, pass)| <= TX_LEN
      modifies tx
      ensures p == 3 + |ConnectBody(clientId, willTopic, user, pass)|
      ensures tx[..p] == old(tx[..3]) + ConnectBody(clientId, willTopic, user, pass)
    {
      ghost var pre := tx[..3];
      p := PutVariableHeader(user, pass, 3);
      p := PutPayload(clientId, willTopic, user, pass, p);
      Assoc(pre, Str(MQTT) + [4, ConnectFlags(user, pass), 0, 60], ConnectPayload(clientId, willTopic, user, pass));
    }

    /** `copy_within`: the body moves one byte to the left. */
    method ShiftLeft(from: nat, p: nat)
      requires Valid() && 0 < from <= p <= TX_LEN
      modifies tx
      ensures tx[from - 1..p - 1] == old(tx[from..p])
      ensures tx[..from - 1] == old(tx[..from - 1])
    {
      ghost var all := tx[..];
      var i := from;
      while i < p
        invariant from <= i <= p
        invariant forall k :: from <= k < i ==> tx[k - 1] == all[k]
        invariant forall k :: 0 <= k < TX_LEN && !(from - 1 <= k < i - 1) ==> tx[k] == all[k]
      {
        tx[i - 1] := tx[i];
        i := i + 1;
      }
      assert tx[from - 1..p - 1] == all[from..p];
    }

    /** `read_into`: exactly `n` bytes into `rx[0..n]`, in chunks of any size. */
    method ReadInto(n: nat) returns (r: Result)
      requires Valid() && n <= RX_LEN && !link.broken
      modifies rx, link`input, link`broken
      ensures r == Ok ==> !link.broken && n <= |old(link.input)|
      ensures r == Ok ==> rx[..n] == old(link.input)[..n] && link.input == old(link.input)[n..]
      ensures r != Ok ==> r == Io && (link.broken || |old(link.input)| < n)
    {
      ghost var input := link.input;
      var got := 0;
      while got < n
        invariant got <= n && !link.broken
        invariant input == rx[..got] + link.input
      {
        var c := link.Read(n - got);
        if c.Err? || c.data == [] { return Io; }
        ghost var head := rx[..got];
        var i := 0;
        while i < |c.data|
          invariant i <= |c.data| && rx[..got + i] == head + c.data[..i]
          modifies rx
        {
          rx[got + i] := c.data[i];
          i := i + 1;
        }
        assert c.data[..i] == c.data;
        got := got + |c.data|;
        Assoc(head, c.data, link.input);
      }
      return Ok;
    }

    method PutConnectLength(end: nat, ghost body: Bytes) returns (p: nat)
      requires Valid() && end == 3 + |body| <= TX_LEN
      requires tx[0] == 0x10 && tx[3..end] == body
      modifies tx
      ensures p <= TX_LEN && tx[..p] == [0x10] + Varint(|body|) + body
    {
      p := end;
      assert tx[..1] == [0x10];
      VarintSize(|body|);
      ghost var all := tx[..];
      var rp := PutVarint(p - 3, 1);
      assert tx[3..p] == tx[rp..][3 - rp..p - rp] == all[rp..][3 - rp..p - rp] == body;
      if rp - 1 == 1 {
        ghost var head := tx[..2];
        ShiftLeft(3, p);
        p := p - 1;
        assert tx[..p] == tx[..2] + tx[2..p];
      } else {
        assert tx[..p] == tx[..3] + tx[3..p];
      }
    }

    /** On success the bytes sent are the CONNECT packet, with a remaining length of one byte or
        two and no gap behind it, and the broker's four bytes said yes. */
    method Connect(clientId: Bytes, willTopic: Bytes, user: Bytes, pass: Bytes) returns (r: Result)
      requires Valid() && !link.broken
      requires 3 + |ConnectBody(clientId, willTopic, user, pass)| <= TX_LEN
      modifies tx, rx, link
      ensures r != Io ==> link.output == old(link.output) + ConnectPacket(clientId, willTopic, user, pass)
      ensures r == Io ==> link.broken || |old(link.input)| < 4
      ensures r != Io ==> var ack := old(link.input);
                          && |ack| >= 4 && link.input == ack[4..]
                          && r == if U8(ack[0]) != 0x20 || U8(ack[1]) != 0x02 then Protocol
                                  else if U8(ack[3]) != 0 then Refused(U8(ack[3])) else Ok
    {
      ghost var body := ConnectBody(clientId, willTopic, user, pass);
      ghost var input := link.input;
      tx[0] := 0x10;
      ghost var head := tx[..3];
      var p := PutConnectBody(clientId, willTopic, user, pass);
      assert tx[0] == tx[..p][0] == head[0] && tx[3..p] == tx[..p][3..];
      p := PutConnectLength(p, body);
      r := Send(p);
      if r != Ok { return; }
      r := ReadInto(4);
      if r != Ok { return; }
      assert forall k :: 0 <= k < 4 ==> rx[k] == rx[..4][k] == input[k];
      if U8(rx[0]) != 0x20 || U8(rx[1]) != 0x02 { return Protocol; }
      if U8(rx[3]) != 0 { return Refused(U8(rx[3])); }
      return Ok;
    }

    // ------------------------------------------------------------- reading --

    method Drain(count: nat) returns (r: Result)
      requires Valid() && !link.broken
      modifies rx, link`input, link`broken
      ensures r == Ok ==> !link.broken && count <= |old(link.input)| && link.input == old(link.input)[count..]
      ensures r != Ok ==> r == Io && (link.broken || |old(link.input)| < count)
    {
      ghost var input := link.input;
      var n := count;
      while n > 0
        invariant !link.broken && 0 <= n <= count && |input| >= count - n
        invariant link.input == input[count - n..]
      {
        var chunk := if n < RX_LEN then n else RX_LEN;
        r := ReadInto(chunk);
        if r != Ok { return; }
        n := n - chunk;
      }
      return Ok;
    }

    method ReadByte() returns (r: Result, b: int)
      requires Valid() && !link.broken
      modifies rx, link`input, link`broken
      ensures r == Ok ==> !link.broken && old(link.input) == [b] + link.input
      ensures r != Ok ==> r == Io && (link.broken || old(link.input) == [])
    {
      b := 0;
      r := ReadInto(1);
      if r == Ok {
        b := rx[0];
        assert rx[..1] == [b];
      }
    }

    /** The length bytes behind the first, as far as their continuation bits reach. */
    method ReadRemaining(first: int) returns (r: Result, rem: nat, tooLong: bool)
      requires Valid() && !link.broken
      modifies rx, link`input, link`broken
      ensures var l := ReadLength([first] + old(link.input), 4);
              && (r == Ok ==> !link.broken && if tooLong then l.TooLong? else l.Length? && l.value == rem)
              && (r == Ok && !tooLong ==> link.input == old(link.input)[l.size - 1..])
              && (r != Ok ==> r == Io && (link.broken || l.TooShort?))
    {
      ghost var input := link.input;
      ghost var l := ReadLength([first] + input, 4);
      FirstPending(first, input);
      r, rem, tooLong := Ok, Low7(first), false;
      var b, size := first, 1; // the shift is 7 * size
      while More(b)
        invariant !link.broken && r == Ok && !tooLong && 1 <= size <= 4
        invariant size - 1 <= |input| && link.input == input[size - 1..]
        invariant Pending(l, b, link.input, rem, size)
        decreases 4 - size
      {
        if size == 4 { return Ok, rem, true; }
        PendingStep(l, b, link.input, rem, size);
        r, b := ReadByte();
        if r != Ok { return; }
        rem := rem + ShiftedLeft(Low7(b), size);
        size := size + 1;
      }
    }

    function Topic(): Bytes
      reads this, rx
      requires Valid() && topicLen + payloadLen <= RX_LEN
    {
      rx[..topicLen]
    }

    function Payload(): Bytes
      reads this, rx
      requires Valid() && topicLen + payloadLen <= RX_LEN
    {
      rx[topicLen..topicLen + payloadLen]
    }

    /** `e` and the state it leaves are what `Parse` says of the stream. */
    ghost predicate Agrees(e: Received, p: Parsed)
      reads this, rx, link
      requires Valid()
    {
      match p
      case Message(t, m, rest) =>
        && e == Publish && link.input == rest
        && topicLen + payloadLen <= RX_LEN && Topic() == t && Payload() == m
      case Skipped(rest) => e == Pingresp && link.input == rest
      case Disconnected(rest) => e == Disconnect && link.input == rest
      case BadLength => e == Overlong
      case Crash => e == Crashed
      case Short => false
    }

    method RecvPublish(rem: nat) returns (e: Received)
      requires Valid() && !link.broken
      modifies this, rx, link`input, link`broken
      ensures e.Failed? ==> link.broken || ParseBody(0x3, rem, old(link.input)).Short?
      ensures !e.Failed? ==> Agrees(e, ParseBody(0x3, rem, old(link.input)))
      ensures !e.Failed? && !e.Overlong? && !e.Crashed? ==> !link.broken
    {
      ghost var s := link.input;
      var r := ReadInto(2);
      if r != Ok { return Failed; }
      assert rx[0] == rx[..2][0] == s[0] && rx[1] == rx[..2][1] == s[1];
      var t := U8(rx[0]) * 256 + U8(rx[1]);
      if 2 + t > rem || rem - 2 - t > RX_LEN {
        r := Drain(rem);
        return if r == Ok then Pingresp else Failed;
      }
      var total := rem - 2;
      if total > RX_LEN { return Crashed; }
      r := ReadInto(total);
      if r != Ok { return Failed; }
      topicLen := t;
      payloadLen := total - t;
      SamePieces(rx[..], s, total, t);
      return Publish;
    }

    method RecvBody(kind: nat, rem: nat) returns (e: Received)
      requires Valid() && !link.broken
      modifies this, rx, link`input, link`broken
      ensures e.Failed? ==> link.broken || ParseBody(kind, rem, old(link.input)).Short?
      ensures !e.Failed? ==> Agrees(e, ParseBody(kind, rem, old(link.input)))
      ensures !e.Failed? && !e.Overlong? && !e.Crashed? ==> !link.broken
    {
      if kind == 0x3 {
        e := RecvPublish(rem);
      } else if kind == 0xD {
        e := Pingresp;
      } else if kind == 0xE {
        e := Disconnect;
      } else {
        var r := Drain(rem);
        e := if r == Ok then Pingresp else Failed;
      }
    }

    /** `recv`: one packet, however the transport chops it up. It fails only on a broken link
        or at the end of the stream. */
    method Recv() returns (e: Received)
      requires Valid() && !link.broken
      modifies this, rx, link`input, link`broken
      ensures e.Failed? ==> link.broken || Parse(old(link.input)).Short?
      ensures !e.Failed? ==> Agrees(e, Parse(old(link.input)))
      ensures !e.Failed? && !e.Overlong? && !e.Crashed? ==> !link.broken
    {
      ghost var s := link.input;
      var r := ReadInto(2);
      if r != Ok { return Failed; }
      var b0, b1 := rx[0], rx[1];
      assert rx[..2] == [b0, b1] && s[..2] == [b0, b1];
      assert s[1..] == [b1] + s[2..];
      var rem, tooLong;
      r, rem, tooLong := ReadRemaining(b1);
      if r != Ok { return Failed; }
      if tooLong { return Overlong; }
      ghost var size := ReadLength(s[1..], 4).size;
      assert s[1 + size..] == s[2..][size - 1..];
      e := RecvBody(U8(b0) / 16, rem);
    }
  }

  /** `recv` over and over on a stream that starts with these packets, cut up in any way: the
      messages, in order and unchanged, whatever other packets stand between them, and then the
      rest of the stream; on a link that breaks, those before. */
  method ReceiveMessages(client: Client, ghost ps: seq<Packet>, ghost rest: Bytes, n: nat)
    returns (got: seq<(Bytes, Bytes)>, ok: bool)
    requires client.Valid() && !client.link.broken && n == |ps| && AllFit(ps)
    requires client.link.input == Stream(ps) + rest
    modifies client, client.rx, client.link`input, client.link`broken
    ensures ok ==> got == Contents(ps) && client.link.input == rest
    ensures !ok ==> client.link.broken && exists k :: 0 <= k < n && got == Contents(ps[..k])
  {
    got := [];
    var i := 0;
    while i < n
      invariant i <= n && !client.link.broken
      invariant client.link.input == Stream(ps[i..]) + rest
      invariant got == Contents(ps[..i])
    {
      FirstParses(ps[i..], rest);
      ContentsNext(ps, i);
      assert ps[i..][1..] == ps[i + 1..];
      var e := client.Recv();
      if e.Failed? { return got, false; }
      if e.Publish? {
        got := got + [(client.Topic(), client.Payload())];
      } else {
        assert got + [] == got;
      }
      i := i + 1;
    }
    assert ps[..n] == ps && Stream(ps[n..]) + rest == rest;
    return got, true;
  }
}
