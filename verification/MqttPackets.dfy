/** The MQTT 3.1.1 packets the node writes and reads (`mod v3` of `mqttc.rs`), as byte
    sequences. `PublishPacket` and `ConnectPacket` are what the client puts on the wire,
    `Parse` is what its `recv` makes of the stream, `DecodeConnect` is the reading section 3.1
    of MQTT 3.1.1 prescribes. */
module MqttPackets {
  import opened Wrappers

  const RX_LEN: nat := 2048

  type Bytes = seq<int> // each standing for its value modulo 256

  function U8(x: int): nat {
    x % 256
  }

  // ------------------------------------------------- remaining length, strings --

  function Varint(n: nat): Bytes {
    if n < 128 then [n] else [n % 128 + 128] + Varint(n / 128)
  }

  // A string with its 16-bit length (section 1.5.3).
  function Str(s: Bytes): Bytes {
    [|s| / 256 % 256, |s| % 256] + s
  }

  function Len16(hi: int, lo: int): nat {
    U8(hi) * 256 + U8(lo)
  }

  function Low7(b: int): nat {
    b % 128
  }

  // The continuation bit.
  predicate More(b: int) {
    U8(b) >= 128
  }

  datatype Length = Length(value: nat, size: nat) | TooShort | TooLong

  /** The remaining length at the head of `s`, in at most `left` bytes; section 2.2.3 allows
      four. */
  function ReadLength(s: Bytes, left: nat): (l: Length)
    ensures l.Length? ==> 0 < l.size <= |s|
  {
    if left == 0 then TooLong
    else if s == [] then TooShort
    else if !More(s[0]) then Length(Low7(s[0]), 1)
    else
      match ReadLength(s[1..], left - 1)
      case Length(v, k) => Length(Low7(s[0]) + 128 * v, k + 1)
      case l => l
  }

  // The lengths `left` bytes can hold are those below this.
  function LengthLimit(left: nat): nat {
    if left == 0 then 1 else 128 * LengthLimit(left - 1)
  }

  lemma LengthByte(m: nat)
    requires m < 128
    ensures !More(m) && Low7(m) == m && More(m + 128) && Low7(m + 128) == m
  {
  }

  lemma SplitLength(n: nat, limit: nat)
    requires n < 128 * limit
    ensures n % 128 + 128 * (n / 128) == n && n / 128 < limit
  {
  }

  lemma FirstByteReads(b: int, s: Bytes, left: nat)
    requires left > 0
    ensures ReadLength([b] + s, left)
            == if !More(b) then Length(Low7(b), 1)
               else
                 match ReadLength(s, left - 1)
                 case Length(v, k) => Length(Low7(b) + 128 * v, k + 1)
                 case l => l
  {
    assert ([b] + s)[1..] == s;
  }

  lemma {:induction false} VarintReads(n: nat, left: nat, rest: Bytes)
    requires left > 0 && n < LengthLimit(left)
    ensures ReadLength(Varint(n) + rest, left) == Length(n, |Varint(n)|)
    decreases n
  {
    if n < 128 {
      LengthByte(n);
      FirstByteReads(n, rest, left);
    } else {
      LengthByte(n % 128);
      SplitLength(n, LengthLimit(left - 1));
      VarintReads(n / 128, left - 1, rest);
      Assoc([n % 128 + 128], Varint(n / 128), rest);
      FirstByteReads(n % 128 + 128, Varint(n / 128) + rest, left);
    }
  }

  /** No encoding of a length is shorter than the one the client writes. */
  lemma {:induction false} VarintIsMinimal(s: Bytes, left: nat)
    requires ReadLength(s, left).Length?
    ensures |Varint(ReadLength(s, left).value)| <= ReadLength(s, left).size
    decreases left
  {
    if !More(s[0]) {
    } else {
      VarintIsMinimal(s[1..], left - 1);
    }
  }

  /** Past the type byte and the remaining length the body begins. */
  lemma HeaderReads(first: int, n: nat, body: Bytes)
    requires n < 0x1000_0000
    ensures var s := [first] + Varint(n) + body;
            && s[0] == first && |s| == 1 + |Varint(n)| + |body| >= 2
            && ReadLength(s[1..], 4) == Length(n, |Varint(n)|)
            && s[1 + |Varint(n)|..] == body
  {
    var s := [first] + Varint(n) + body;
    assert LengthLimit(4) == 128 * LengthLimit(3) == 128 * 128 * LengthLimit(2);
    assert s[1..] == Varint(n) + body;
    VarintReads(n, 4, body);
  }

  // ------------------------------------------------------------------ PUBLISH --

  function PublishPacket(topic: Bytes, payload: Bytes, retain: bool): Bytes {
    [if retain then 0x31 else 0x30] + Varint(2 + |topic| + |payload|) + (Str(topic) + payload)
  }

  /** One call of `recv` on the stream `s`. `Skipped` is the event the caller ignores; `Crash`
      is an index past the end of the receive buffer. */
  datatype Parsed =
    | Message(topic: Bytes, payload: Bytes, rest: Bytes)
    | Skipped(rest: Bytes)
    | Disconnected(rest: Bytes)
    | Short
    | BadLength
    | Crash

  function Drained(n: nat, s: Bytes): Parsed {
    if |s| < n then Short else Skipped(s[n..])
  }

  function ParseBody(kind: nat, rem: nat, s: Bytes): Parsed {
    if kind == 0x3 then
      if |s| < 2 then Short
      else
        var t := Len16(s[0], s[1]);
        if 2 + t > rem || rem - 2 - t > RX_LEN then Drained(rem, s[2..])
        else if rem - 2 > RX_LEN then Crash
        else if |s| < rem then Short
        else Message(s[2..2 + t], s[2 + t..rem], s[rem..])
    else if kind == 0xD then Skipped(s)
    else if kind == 0xE then Disconnected(s)
    else Drained(rem, s)
  }

  function Parse(s: Bytes): Parsed {
    if |s| < 2 then Short
    else
      match ReadLength(s[1..], 4)
      case Length(rem, k) => ParseBody(U8(s[0]) / 16, rem, s[1 + k..])
      case TooShort => Short
      case TooLong => BadLength
  }

  lemma LengthSplits(n: nat)
    requires n < 0x1_0000
    ensures Len16(n / 256 % 256, n % 256) == n
  {
  }

  lemma ParsePublishBody(topic: Bytes, payload: Bytes, rest: Bytes)
    requires |topic| < 0x1_0000
    ensures ParseBody(3, 2 + |topic| + |payload|, Str(topic) + payload + rest) ==
            if |topic| + |payload| <= RX_LEN then Message(topic, payload, rest)
            else if |payload| > RX_LEN then Drained(2, rest)
            else Crash
  {
    var n := 2 + |topic| + |payload|;
    var s := Str(topic) + payload + rest;
    LengthSplits(|topic|);
    assert s[0] == |topic| / 256 % 256 && s[1] == |topic| % 256;
    assert s[2..2 + |topic|] == topic;
    assert s[2 + |topic|..n] == payload;
    assert s[n..] == rest;
    if |payload| > RX_LEN && |rest| >= 2 { assert s[2..][n..] == rest[2..]; }
  }

  /** What the receiver makes of any packet the sender can build: up to 2048 bytes of topic
      and payload together come back as they were sent, and the stream is at the next packet.
      A longer payload takes the first two bytes of the next packet with it, and a payload
      that fits beside a topic that does not crashes the receiver. */
  lemma ParsePublish(topic: Bytes, payload: Bytes, retain: bool, rest: Bytes)
    requires |topic| < 0x1_0000 && |payload| < 0x100_0000
    ensures Parse(PublishPacket(topic, payload, retain) + rest) ==
            if |topic| + |payload| <= RX_LEN then Message(topic, payload, rest)
            else if |payload| > RX_LEN then Drained(2, rest)
            else Crash
  {
    var first := if retain then 0x31 else 0x30;
    var body := Str(topic) + payload + rest;
    HeaderReads(first, 2 + |topic| + |payload|, body);
    ParsePublishBody(topic, payload, rest);
    Assoc([first] + Varint(2 + |topic| + |payload|), Str(topic) + payload, rest);
  }

  /** Every other packet is passed over to its last byte, and the stream is at the next one; of a
      PINGRESP or DISCONNECT only the header is read, so that they must be empty, as section 3.13
      and section 3.14 say they are. */
  lemma ParseOther(first: int, body: Bytes, rest: Bytes)
    requires U8(first) / 16 != 3 && |body| < 0x1000_0000
    ensures Parse([first] + Varint(|body|) + body + rest) ==
            match U8(first) / 16
            case 0xD => Skipped(body + rest)
            case 0xE => Disconnected(body + rest)
            case _ => Skipped(rest)
  {
    HeaderReads(first, |body|, body + rest);
    Assoc([first] + Varint(|body|), body, rest);
    assert (body + rest)[|body|..] == rest;
  }

  /** What a broker sends: a message, or a packet of another type with its first byte and body. */
  datatype Packet = Msg(topic: Bytes, payload: Bytes, retain: bool) | Other(first: int, body: Bytes)

  function Wire(p: Packet): Bytes {
    match p
    case Msg(topic, payload, retain) => PublishPacket(topic, payload, retain)
    case Other(first, body) => [first] + Varint(|body|) + body
  }

  /** A message fits the receive buffer; another packet is no message, does not end the session and,
      if it is a PINGRESP, has no body. */
  predicate Fits(p: Packet) {
    match p
    case Msg(topic, payload, _) => |topic| + |payload| <= RX_LEN
    case Other(first, body) =>
      && |body| < 0x1000_0000 && U8(first) / 16 != 0x3 && U8(first) / 16 != 0xE
      && (U8(first) / 16 == 0xD ==> body == [])
  }

  predicate AllFit(ps: seq<Packet>) {
    forall i :: 0 <= i < |ps| ==> Fits(ps[i])
  }

  function Stream(ps: seq<Packet>): Bytes {
    if ps == [] then [] else Wire(ps[0]) + Stream(ps[1..])
  }

  // What a packet brings the caller.
  function Brings(p: Packet): seq<(Bytes, Bytes)> {
    if p.Msg? then [(p.topic, p.payload)] else []
  }

  function Contents(ps: seq<Packet>): seq<(Bytes, Bytes)> {
    if ps == [] then [] else Brings(ps[0]) + Contents(ps[1..])
  }

  lemma {:induction false} ContentsNext(ps: seq<Packet>, i: nat)
    requires i < |ps|
    ensures Contents(ps[..i + 1]) == Contents(ps[..i]) + Brings(ps[i])
  {
    assert ps[..i + 1][1..] == ps[1..][..i];
    if i == 0 {
      assert Contents(ps[..1]) == Brings(ps[0]) + [] && Contents(ps[..0]) == [];
    } else {
      ContentsNext(ps[1..], i - 1);
      assert ps[..i][1..] == ps[1..][..i - 1];
      Assoc(Brings(ps[0]), Contents(ps[1..][..i - 1]), Brings(ps[i]));
    }
  }

  /** `n` calls of `recv`, the messages of which are kept; it stops at what is no packet, or the
      last one. */
  function ReceiveAll(s: Bytes, n: nat): (seq<(Bytes, Bytes)>, Bytes) {
    if n == 0 then ([], s)
    else
      match Parse(s)
      case Message(t, p, rest) =>
        var (ms, end) := ReceiveAll(rest, n - 1);
        ([(t, p)] + ms, end)
      case Skipped(rest) => ReceiveAll(rest, n - 1)
      case _ => ([], s)
  }

  lemma FirstParses(ps: seq<Packet>, rest: Bytes)
    requires ps != [] && Fits(ps[0])
    ensures var more := Stream(ps[1..]) + rest;
            Parse(Stream(ps) + rest) ==
            match ps[0]
            case Msg(topic, payload, _) => Message(topic, payload, more)
            case Other(_, _) => Skipped(more)
  {
    var more := Stream(ps[1..]) + rest;
    Assoc(Wire(ps[0]), Stream(ps[1..]), rest);
    match ps[0]
    case Msg(topic, payload, retain) => ParsePublish(topic, payload, retain, more);
    case Other(first, body) =>
      ParseOther(first, body, more);
      assert [] + more == more;
  }

  /** Any sequence of packets, each message within the receive buffer and any packets of other types
      in between, is received message by message and consumed to the byte. */
  lemma {:induction false} ReceivesEveryMessage(ps: seq<Packet>, rest: Bytes)
    requires AllFit(ps)
    ensures ReceiveAll(Stream(ps) + rest, |ps|) == (Contents(ps), rest)
  {
    if ps == [] {
      assert Stream(ps) + rest == rest;
    } else {
      FirstParses(ps, rest);
      ReceivesEveryMessage(ps[1..], rest);
      assert [] + Contents(ps[1..]) == Contents(ps[1..]);
    }
  }

  lemma {:induction false} LengthCut(n: nat, left: nat, k: nat)
    requires n < LengthLimit(left) && left > 0 && k < |Varint(n)|
    ensures ReadLength(Varint(n)[..k], left) == TooShort
    decreases n
  {
    if n >= 128 && k > 0 {
      SplitLength(n, LengthLimit(left - 1));
      LengthByte(n % 128);
      LengthCut(n / 128, left - 1, k - 1);
      assert Varint(n)[..k] == [n % 128 + 128] + Varint(n / 128)[..k - 1];
      FirstByteReads(n % 128 + 128, Varint(n / 128)[..k - 1], left);
    }
  }

  lemma BodyCut(p: Packet, s: Bytes)
    requires Fits(p) && s < Body(p)
    ensures ParseBody(U8(First(p)) / 16, |Body(p)|, s) == Short
  {
    if p.Msg? && |s| >= 2 {
      LengthSplits(|p.topic|);
      assert s[0] == Body(p)[0] && s[1] == Body(p)[1];
    }
  }

  function First(p: Packet): int {
    match p
    case Msg(_, _, retain) => if retain then 0x31 else 0x30
    case Other(first, _) => first
  }

  function Body(p: Packet): Bytes {
    match p
    case Msg(topic, payload, _) => Str(topic) + payload
    case Other(_, body) => body
  }

  // In the header, or in the body.
  lemma CutAt(first: int, len: Bytes, body: Bytes, n: nat)
    requires 0 < n < 1 + |len| + |body|
    ensures var s := ([first] + len + body)[..n];
            if n <= |len| then s == [first] + len[..n - 1]
            else s == [first] + len + body[..n - 1 - |len|] && body[..n - 1 - |len|] < body
  {
  }

  lemma HeaderCut(first: int, n: nat, k: nat)
    requires n < 0x1000_0000 && k < |Varint(n)|
    ensures Parse([first] + Varint(n)[..k]) == Short
  {
    assert LengthLimit(4) == 128 * LengthLimit(3) == 128 * 128 * LengthLimit(2);
    LengthCut(n, 4, k);
    assert ([first] + Varint(n)[..k])[1..] == Varint(n)[..k];
  }

  /** A packet that is cut off is never taken for a whole one. */
  lemma CutIsShort(p: Packet, n: nat)
    requires Fits(p) && n < |Wire(p)|
    ensures Parse(Wire(p)[..n]) == Short
  {
    var len := Varint(|Body(p)|);
    if n > 0 {
      CutAt(First(p), len, Body(p), n);
      if n <= |len| {
        HeaderCut(First(p), |Body(p)|, n - 1);
      } else {
        var s := Body(p)[..n - 1 - |len|];
        HeaderReads(First(p), |Body(p)|, s);
        BodyCut(p, s);
      }
    }
  }

  lemma NoBody(first: int, rest: Bytes)
    ensures [first, 0] + rest == [first] + Varint(0) + [] + rest
  {
    assert Varint(0) == [0];
  }

  lemma EmptyDisconnect(rest: Bytes)
    ensures Parse([0xE0, 0] + rest) == Disconnected(rest)
  {
    NoBody(0xE0, rest);
    ParseOther(0xE0, [], rest);
    assert [] + rest == rest;
  }

  /** A DISCONNECT behind them is seen as such. */
  lemma DisconnectIsSeen(ps: seq<Packet>, last: Bytes, rest: Bytes)
    requires AllFit(ps) && last == [0xE0, 0] + rest
    ensures Parse(ReceiveAll(Stream(ps) + last, |ps|).1) == Disconnected(rest)
  {
    ReceivesEveryMessage(ps, last);
    EmptyDisconnect(rest);
  }

  // ------------------------------------------------------------------ CONNECT --

  const MQTT: Bytes := [0x4D, 0x51, 0x54, 0x54]
  const OFFLINE: Bytes := [0x6F, 0x66, 0x66, 0x6C, 0x69, 0x6E, 0x65]

  function ConnectFlags(user: Bytes, pass: Bytes): nat {
    0x26 + (if user != [] then 0x80 else 0) + (if pass != [] then 0x40 else 0)
  }

  // A field that is left out when empty.
  function Credential(x: Bytes): Bytes {
    if x != [] then Str(x) else []
  }

  function ConnectPayload(clientId: Bytes, willTopic: Bytes, user: Bytes, pass: Bytes): Bytes {
    Str(clientId) + (Str(willTopic) + (Str(OFFLINE) + (Credential(user) + Credential(pass))))
  }

  function ConnectBody(clientId: Bytes, willTopic: Bytes, user: Bytes, pass: Bytes): Bytes {
    Str(MQTT) + [4, ConnectFlags(user, pass), 0, 60] + ConnectPayload(clientId, willTopic, user, pass)
  }

  function ConnectPacket(clientId: Bytes, willTopic: Bytes, user: Bytes, pass: Bytes): Bytes {
    var body := ConnectBody(clientId, willTopic, user, pass);
    [0x10] + Varint(|body|) + body
  }

  datatype Connect = Connect(clientId: Bytes, cleanSession: bool, keepAlive: nat,
                             will: Option<Will>, user: Option<Bytes>, pass: Option<Bytes>)
  datatype Will = Will(topic: Bytes, message: Bytes, qos: nat, retain: bool)

  datatype Taken = NoStr | Taken(str: Bytes, rest: Bytes)

  // A string at the head of `s` and what follows it.
  function TakeStr(s: Bytes): Taken {
    if |s| < 2 then NoStr
    else
      var n := Len16(s[0], s[1]);
      if |s| < 2 + n then NoStr else Taken(s[2..2 + n], s[2 + n..])
  }

  datatype Flags = Flags(reserved: bool, clean: bool, will: bool, qos: nat, retain: bool, pass: bool, user: bool)

  // The connect flags byte (section 3.1.2.3).
  function ReadFlags(b: nat): Flags {
    Flags(b % 2 == 1, b / 2 % 2 == 1, b / 4 % 2 == 1, b / 8 % 4, b / 32 % 2 == 1, b / 64 % 2 == 1, b / 128 % 2 == 1)
  }

  lemma FlagsRead(user: Bytes, pass: Bytes)
    ensures ReadFlags(U8(ConnectFlags(user, pass))) == Flags(false, true, true, 0, true, pass != [], user != [])
  {
  }

  function DecodePass(c: Connect, flags: Flags, s: Bytes): Option<Connect> {
    if !flags.pass then (if s == [] then Some(c) else None)
    else
      match TakeStr(s)
      case NoStr => None
      case Taken(pass, s1) => if s1 == [] then Some(c.(pass := Some(pass))) else None
  }

  function DecodeUser(c: Connect, flags: Flags, s: Bytes): Option<Connect> {
    if !flags.user then DecodePass(c, flags, s)
    else
      match TakeStr(s)
      case NoStr => None
      case Taken(user, s1) => DecodePass(c.(user := Some(user)), flags, s1)
  }

  function DecodeWill(c: Connect, flags: Flags, s: Bytes): Option<Connect> {
    match TakeStr(s)
    case NoStr => None
    case Taken(topic, s1) =>
      match TakeStr(s1)
      case NoStr => None
      case Taken(message, s2) =>
        DecodeUser(c.(will := Some(Will(topic, message, flags.qos, flags.retain))), flags, s2)
  }

  function DecodePayload(flags: Flags, keepAlive: nat, s: Bytes): Option<Connect> {
    match TakeStr(s)
    case NoStr => None
    case Taken(clientId, s1) =>
      var c := Connect(clientId, flags.clean, keepAlive, None, None, None);
      if flags.will then DecodeWill(c, flags, s1) else DecodeUser(c, flags, s1)
  }

  function DecodeConnectBody(s: Bytes): Option<Connect> {
    if |s| < 10 || s[..7] != Str(MQTT) + [4] then None
    else
      var flags := ReadFlags(U8(s[7]));
      if flags.reserved || flags.qos == 3 then None
      else if !flags.will && (flags.qos != 0 || flags.retain) then None
      else if flags.pass && !flags.user then None
      else DecodePayload(flags, Len16(s[8], s[9]), s[10..])
  }

  /** A CONNECT packet as section 3.1 reads it: fixed header 0x10, exact remaining length,
      protocol name and level, reserved flag clear, will QoS and retain only with a will, no
      password without a user name, the payload fields in order and nothing after them. */
  function DecodeConnect(s: Bytes): Option<Connect> {
    if |s| < 2 || U8(s[0]) != 0x10 then None
    else
      match ReadLength(s[1..], 4)
      case Length(rem, k) => if |s| == 1 + k + rem then DecodeConnectBody(s[1 + k..]) else None
      case _ => None
  }

  lemma StrReads(x: Bytes, rest: Bytes)
    requires |x| < 0x1_0000
    ensures TakeStr(Str(x) + rest) == Taken(x, rest)
  {
    var s := Str(x) + rest;
    LengthSplits(|x|);
    assert s[0] == |x| / 256 % 256 && s[1] == |x| % 256;
    assert s[2..2 + |x|] == x && s[2 + |x|..] == rest;
  }

  function Given(x: Bytes): Option<Bytes> {
    if x == [] then None else Some(x)
  }

  lemma CredentialsDecode(c: Connect, flags: Flags, user: Bytes, pass: Bytes)
    requires c.user == None && c.pass == None && |user| < 0x1_0000 && |pass| < 0x1_0000
    requires flags.user == (user != []) && flags.pass == (pass != [])
    ensures DecodeUser(c, flags, Credential(user) + Credential(pass))
            == Some(c.(user := Given(user), pass := Given(pass)))
  {
    StrReads(user, Credential(pass));
    StrReads(pass, []);
    assert [] + Credential(pass) == Credential(pass) == Credential(pass) + [];
  }

  function Asked(clientId: Bytes, willTopic: Bytes, user: Bytes, pass: Bytes): Connect {
    Connect(clientId, true, 60, Some(Will(willTopic, OFFLINE, 0, true)), Given(user), Given(pass))
  }

  lemma PayloadDecodes(flags: Flags, clientId: Bytes, willTopic: Bytes, user: Bytes, pass: Bytes)
    requires |clientId| < 0x1_0000 && |willTopic| < 0x1_0000 && |user| < 0x1_0000 && |pass| < 0x1_0000
    requires flags == Flags(false, true, true, 0, true, pass != [], user != [])
    ensures DecodePayload(flags, 60, ConnectPayload(clientId, willTopic, user, pass))
            == Some(Asked(clientId, willTopic, user, pass))
  {
    var s3 := Credential(user) + Credential(pass);
    var s2 := Str(OFFLINE) + s3;
    var s1 := Str(willTopic) + s2;
    StrReads(clientId, s1);
    StrReads(willTopic, s2);
    StrReads(OFFLINE, s3);
    CredentialsDecode(Asked(clientId, willTopic, [], []), flags, user, pass);
  }

  lemma ConnectBodySplits(flags: nat, payload: Bytes)
    ensures var s := Str(MQTT) + [4, flags, 0, 60] + payload;
            && |s| >= 10 && s[..7] == Str(MQTT) + [4]
            && s[7] == flags && Len16(s[8], s[9]) == 60 && s[10..] == payload
  {
    var s := Str(MQTT) + [4, flags, 0, 60] + payload;
    assert s[8] == 0 && s[9] == 60;
  }

  lemma ConnectBodyDecodes(clientId: Bytes, willTopic: Bytes, user: Bytes, pass: Bytes)
    requires |clientId| < 0x1_0000 && |willTopic| < 0x1_0000 && |user| < 0x1_0000 && |pass| < 0x1_0000
    ensures DecodeConnectBody(ConnectBody(clientId, willTopic, user, pass))
            == if pass != [] && user == [] then None else Some(Asked(clientId, willTopic, user, pass))
  {
    FlagsRead(user, pass);
    PayloadDecodes(ReadFlags(U8(ConnectFlags(user, pass))), clientId, willTopic, user, pass);
    ConnectBodySplits(ConnectFlags(user, pass), ConnectPayload(clientId, willTopic, user, pass));
  }

  /** The packet `connect` sends says, to any broker that reads section 3.1, exactly the client
      id, the will and the credentials given; with a password but no user name it is no
      CONNECT packet at all. */
  lemma ConnectDecodes(clientId: Bytes, willTopic: Bytes, user: Bytes, pass: Bytes)
    requires |clientId| < 0x1_0000 && |willTopic| < 0x1_0000 && |user| < 0x1_0000 && |pass| < 0x1_0000
    ensures DecodeConnect(ConnectPacket(clientId, willTopic, user, pass))
            == if pass != [] && user == [] then None else Some(Asked(clientId, willTopic, user, pass))
  {
    var body := ConnectBody(clientId, willTopic, user, pass);
    HeaderReads(0x10, |body|, body);
    ConnectBodyDecodes(clientId, willTopic, user, pass);
  }
}
