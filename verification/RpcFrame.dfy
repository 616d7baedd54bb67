/** The RPC text of the broker and the node: `Bridge.rpc` in `atnode_broker.py` builds
    "<reqid> <method> <query>", `run_client` in `mqttc.rs` takes it apart, `query_get` and
    `url_decode` in `api.rs` read the query, and `Bridge` pairs answers with calls. Texts are
    byte strings; the chars of a `string` stand for bytes. */
module RpcFrame {
  import opened Wrappers

  const PAYLOAD_MAX: nat := 512
  const VALUE_MAX: nat := 256

  datatype Param = Param(key: string, value: string)
  datatype Frame = Frame(reqid: string, procedure: string, query: string)

  predicate Bytes(s: string) {
    forall i :: 0 <= i < |s| ==> s[i] < 256 as char
  }

  predicate Ascii(s: string) {
    forall i :: 0 <= i < |s| ==> s[i] < 128 as char
  }

  // ----------------------------------------------------------------- the broker --

  predicate Unreserved(c: char) {
    'a' <= c <= 'z' || 'A' <= c <= 'Z' || '0' <= c <= '9' || c == '_' || c == '.' || c == '-' || c == '~'
  }

  function HexDigit(n: nat): char
    requires n < 16
  {
    if n < 10 then ('0' as int + n) as char else ('A' as int + n - 10) as char
  }

  /** One byte of `quote_plus` (section 2.1 of RFC 3986, and '+' for a space). */
  function QuoteChar(c: char): string
    requires c < 256 as char
  {
    if Unreserved(c) then [c]
    else if c == ' ' then "+"
    else ['%', HexDigit(c as int / 16), HexDigit(c as int % 16)]
  }

  function Quote(s: string): string
    requires Bytes(s)
  {
    if s == "" then "" else QuoteChar(s[0]) + Quote(s[1..])
  }

  ghost predicate ByteParams(ps: seq<Param>) {
    forall i :: 0 <= i < |ps| ==> Bytes(ps[i].key) && Bytes(ps[i].value)
  }

  function Pair(p: Param): string
    requires Bytes(p.key) && Bytes(p.value)
  {
    Quote(p.key) + "=" + Quote(p.value)
  }

  /** `urlencode`. */
  function Query(ps: seq<Param>): string
    requires ByteParams(ps)
  {
    if ps == [] then ""
    else if |ps| == 1 then Pair(ps[0])
    else Pair(ps[0]) + "&" + Query(ps[1..])
  }

  function Command(f: Frame): string {
    f.reqid + " " + f.procedure + " " + f.query
  }

  // ------------------------------------------------------------------- the node --

  function Find(s: string, c: char): (i: nat)
    ensures i <= |s| && c !in s[..i] && (i < |s| ==> s[i] == c)
    ensures forall k :: 0 <= k < i ==> s[k] != c
  {
    if s == "" || s[0] == c then 0 else Find(s[1..], c) + 1
  }

  function SplitRest(reqid: string, rest: string): Frame {
    var sp2 := Find(rest, ' ');
    if sp2 == |rest| then Frame(reqid, rest, "") else Frame(reqid, rest[..sp2], rest[sp2 + 1..])
  }

  /** The text after the first `PAYLOAD_MAX` bytes is ignored; without a space it is no command. */
  function Split(text: string): Option<Frame> {
    var t := if |text| <= PAYLOAD_MAX then text else text[..PAYLOAD_MAX];
    var sp1 := Find(t, ' ');
    if sp1 == |t| then None else Some(SplitRest(t[..sp1], t[sp1 + 1..]))
  }

  function HexValue(c: char): Option<nat> {
    if '0' <= c <= '9' then Some(c as int - '0' as int)
    else if 'a' <= c <= 'f' then Some(c as int - 'a' as int + 10)
    else if 'A' <= c <= 'F' then Some(c as int - 'A' as int + 10)
    else None
  }

  /** `u8::from_str_radix(ab, 16)`; a leading '+' is a sign. */
  function FromStrRadix(a: char, b: char): Option<nat> {
    if a == '+' then HexValue(b)
    else
      match HexValue(a)
      case None => None
      case Some(h) =>
        match HexValue(b)
        case None => None
        case Some(l) => Some(16 * h + l)
  }

  // The two bytes of a character from 128 to 255 in UTF-8.
  function Lead(c: char): char {
    (0xC0 + c as int % 256 / 64) as char
  }

  function Trail(c: char): char {
    (0x80 + c as int % 64) as char
  }

  function Encoded(c: char): string {
    if c < 128 as char then [c] else [Lead(c), Trail(c)]
  }

  /** The bytes in the device's string, whose characters are below 256. */
  function Utf8(s: string): string {
    if s == "" then "" else Utf8(s[..|s| - 1]) + Encoded(s[|s| - 1])
  }

  // `heapless::String::push` drops what does not fit.
  function Push(out: string, c: char): string {
    if |Utf8(out)| + |Encoded(c)| <= VALUE_MAX then out + [c] else out
  }

  function PushAll(out: string, s: string): string
    decreases |s|
  {
    if s == "" then out else PushAll(Push(out, s[0]), s[1..])
  }

  // `v as char`
  function Char(v: nat): char {
    if v < 256 then v as char else 0 as char
  }

  /** What `url_decode` adds to `out` for the rest `s` of its input. */
  function DecodeFrom(out: string, s: string): string
    decreases |s|
  {
    if s == "" then out
    else if s[0] == '%' && |s| > 2 then
      match FromStrRadix(s[1], s[2])
      case Some(v) => DecodeFrom(Push(out, Char(v)), s[3..])
      case None => DecodeFrom(Push(out, '%'), s[1..])
    else DecodeFrom(Push(out, if s[0] == '+' then ' ' else s[0]), s[1..])
  }

  // A byte inside a UTF-8 character.
  predicate Inner(c: char) {
    0x80 as char <= c < 0xC0 as char
  }

  /** The two characters behind a '%' are a slice of a `str`, which has to end where a character
      does. */
  predicate Panics(s: string) {
    exists i :: 0 <= i < |s| - 3 && s[i] == '%' && Inner(s[i + 3])
  }

  datatype Outcome = Text(text: string) | Panic

  function Decode(s: string): Outcome {
    if Panics(s) then Panic else Text(DecodeFrom("", s))
  }

  // The first value with that key, both as spelled in the query.
  function RawValue(query: string, key: string): Option<string>
    decreases |query|
  {
    var end := Find(query, '&');
    var pair := query[..end];
    var eq := Find(pair, '=');
    if eq < |pair| && pair[..eq] == key then Some(pair[eq + 1..])
    else if end == |query| then None
    else RawValue(query[end + 1..], key)
  }

  /** `query_get`. */
  function QueryGet(query: string, key: string): Outcome {
    match RawValue(query, key)
    case None => Text("")
    case Some(raw) => Decode(raw)
  }

  // ------------------------------------------------------------------- one escape --

  lemma DigitBack(n: nat)
    requires n < 16
    ensures HexValue(HexDigit(n)) == Some(n) && HexDigit(n) != '+' && HexDigit(n) < 128 as char
  {
  }

  lemma HexBack(c: char)
    requires c < 256 as char && !Unreserved(c) && c != ' '
    ensures var q := QuoteChar(c); q[0] == '%' && |q| == 3 && FromStrRadix(q[1], q[2]) == Some(c as int)
  {
    DigitBack(c as int / 16);
    DigitBack(c as int % 16);
  }

  /** The three bytes of an escape become one character exactly when the second digit is a hex
      digit and the first is one or, which RFC 3986 does not know, a plus sign; otherwise the
      '%' stands for itself. */
  lemma EscapeReadsIff(out: string, a: char, b: char, rest: string)
    ensures FromStrRadix(a, b).Some? <==> HexValue(b).Some? && (a == '+' || HexValue(a).Some?)
    ensures DecodeFrom(out, ['%', a, b] + rest)
            == if FromStrRadix(a, b).Some? then DecodeFrom(Push(out, Char(FromStrRadix(a, b).value)), rest)
               else DecodeFrom(Push(out, '%'), [a, b] + rest)
  {
    var s := ['%', a, b] + rest;
    assert s[1] == a && s[2] == b && s[3..] == rest && s[1..] == [a, b] + rest;
  }

  /** So "%+" before any hex digit is that digit's control character, not a '%' and a space. */
  lemma PlusIsASign(out: string, d: char, rest: string)
    requires HexValue(d).Some?
    ensures DecodeFrom(out, ['%', '+', d] + rest) == DecodeFrom(Push(out, Char(HexValue(d).value)), rest)
    ensures HexValue(d).value < 16
  {
    EscapeReadsIff(out, '+', d, rest);
  }

  // ---------------------------------------------------------------- quoting undone --

  lemma CharDecodes(out: string, c: char, rest: string)
    requires c < 256 as char
    ensures DecodeFrom(out, QuoteChar(c) + rest) == DecodeFrom(Push(out, c), rest)
  {
    var q := QuoteChar(c);
    if Unreserved(c) || c == ' ' {
      assert (q + rest)[0] == q[0] && (q + rest)[1..] == rest;
    } else {
      HexBack(c);
      assert q == ['%', q[1], q[2]];
      EscapeReadsIff(out, q[1], q[2], rest);
    }
  }

  /** Whatever bytes are quoted, the decoder pushes each of them as one character. */
  lemma {:induction false} QuotedBytesArePushed(out: string, v: string)
    requires Bytes(v)
    ensures DecodeFrom(out, Quote(v)) == PushAll(out, v)
    decreases |v|
  {
    if v == "" {
    } else {
      CharDecodes(out, v[0], Quote(v[1..]));
      QuotedBytesArePushed(Push(out, v[0]), v[1..]);
    }
  }

  lemma {:induction false} QuoteIsAscii(v: string)
    requires Bytes(v)
    ensures Ascii(Quote(v))
  {
    if v == "" {
    } else {
      QuoteIsAscii(v[1..]);
      DigitBack(v[0] as int / 16);
      DigitBack(v[0] as int % 16);
    }
  }

  // And its slices end where characters do.
  lemma QuotedDecodes(v: string)
    requires Bytes(v)
    ensures Decode(Quote(v)) == Text(PushAll("", v))
  {
    QuotedBytesArePushed("", v);
    QuoteIsAscii(v);
  }

  // ----------------------------------------------- what the device's buffer makes of it --

  // The same pushes, on the bytes of the device's string.
  function PushBytes(t: string, c: char): string {
    if |t| + |Encoded(c)| <= VALUE_MAX then t + Encoded(c) else t
  }

  function Fill(t: string, s: string): string
    decreases |s|
  {
    if s == "" then t else Fill(PushBytes(t, s[0]), s[1..])
  }

  lemma {:induction false} FillIs(out: string, s: string)
    ensures Utf8(PushAll(out, s)) == Fill(Utf8(out), s)
    decreases |s|
  {
    if s == "" {
    } else {
      assert (out + [s[0]])[..|out|] == out;
      FillIs(Push(out, s[0]), s[1..]);
    }
  }

  lemma {:induction false} FillSplits(t: string, a: string, b: string)
    ensures Fill(t, a + b) == Fill(Fill(t, a), b)
    decreases |a|
  {
    if a == "" {
      assert a + b == b;
    } else {
      assert (a + b)[0] == a[0] && (a + b)[1..] == a[1..] + b;
      FillSplits(PushBytes(t, a[0]), a[1..], b);
    }
  }

  lemma {:induction false} FillGrows(t: string, s: string)
    requires |t| <= VALUE_MAX
    ensures t <= Fill(t, s) && |Fill(t, s)| <= VALUE_MAX
    decreases |s|
  {
    if s == "" {
    } else {
      FillGrows(PushBytes(t, s[0]), s[1..]);
    }
  }

  function Fits(s: string): string {
    if |s| <= VALUE_MAX then s else s[..VALUE_MAX]
  }

  lemma {:induction false} FillAscii(t: string, s: string)
    requires |t| <= VALUE_MAX && Ascii(s)
    ensures Fill(t, s) == Fits(t + s)
    decreases |s|
  {
    if s == "" {
      assert t + s == t;
    } else {
      FillAscii(PushBytes(t, s[0]), s[1..]);
      if |t| < VALUE_MAX {
        assert t + [s[0]] + s[1..] == t + s;
      } else {
        assert Fits(t + s[1..]) == t == Fits(t + s);
      }
    }
  }

  predicate High(s: string) {
    forall i :: 0 <= i < |s| ==> s[i] >= 128 as char
  }

  // Pairs of bytes, as long as there is room for both.
  lemma {:induction false} FillHigh(t: string, s: string)
    requires High(s) && |t| + 2 * |s| <= VALUE_MAX
    ensures Fill(t, s) == t + Utf8(s) && |Utf8(s)| == 2 * |s|
  {
    if s == "" {
      assert t + Utf8(s) == t;
    } else {
      var before, last := s[..|s| - 1], s[|s| - 1];
      FillHigh(t, before);
      assert s == before + [last];
      FillSplits(t, before, [last]);
      assert [last][1..] == "";
      assert t + Utf8(before) + Encoded(last) == t + (Utf8(before) + Encoded(last));
    }
  }

  lemma {:induction false} FillFull(t: string, s: string)
    requires High(s) && VALUE_MAX - 1 <= |t|
    ensures Fill(t, s) == t
    decreases |s|
  {
    if s == "" {
    } else {
      FillFull(t, s[1..]);
    }
  }

  // How many ASCII bytes lead.
  function AsciiRun(v: string): (p: nat)
    ensures p <= |v| && Ascii(v[..p])
    ensures p < |v| ==> v[p] >= 128 as char
    ensures p == |v| <==> Ascii(v)
  {
    if v == "" || v[0] >= 128 as char then 0 else
      var p := AsciiRun(v[1..]) + 1;
      assert v[..p] == [v[0]] + v[1..][..p - 1];
      p
  }

  /** The one sequence of bytes that UTF-8 makes of itself when each byte is taken for a
      character: C3 83 C2 83 C3 82 ... */
  function Echo(i: nat): (c: char)
    ensures 128 as char <= c < 256 as char
  {
    if i == 0 then 0xC3 as char else if i % 2 == 0 then Lead(Echo(i / 2)) else Trail(Echo(i / 2))
  }

  lemma EchoDoubles(i: nat)
    ensures Encoded(Echo(i)) == [Echo(2 * i), Echo(2 * i + 1)]
  {
    assert (2 * i + 1) / 2 == i && 2 * i / 2 == i;
  }

  predicate Echoes(s: string) {
    forall i :: 0 <= i < |s| ==> s[i] == Echo(i)
  }

  // How many bytes behind the first `p` the buffer takes in pairs.
  function PairRoom(p: nat): (n: nat)
    requires p <= VALUE_MAX
    ensures n % 2 == 0 && VALUE_MAX - 1 <= p + n <= VALUE_MAX
  {
    (VALUE_MAX - p) / 2 * 2
  }

  // `w`, behind `a`, is those bytes up to the end of the buffer, and at most one of ASCII.
  predicate MirrorsBehind(a: string, w: string) {
    && |a| + |w| <= VALUE_MAX && PairRoom(|a|) <= |w|
    && Echoes(w[..PairRoom(|a|)]) && Ascii(w[PairRoom(|a|)..])
  }

  /** A text that is ASCII for a while, and from then on those bytes until the buffer is full. */
  predicate Mirrors(v: string) {
    var p := AsciiRun(v);
    p < |v| && MirrorsBehind(v[..p], v[p..])
  }

  lemma EchoesAreHigh(e: string)
    requires Echoes(e)
    ensures High(e)
  {
  }

  lemma NextPair(e: string, i: nat)
    requires Echoes(e) && 2 * i + 2 <= |e|
    ensures e[..2 * i] + Encoded(e[i]) == e[..2 * i + 2]
  {
    EchoDoubles(i);
  }

  lemma {:induction false} EchoPrefix(e: string, h: string)
    requires Echoes(e) && 2 * |h| <= |e| && h <= e
    ensures Utf8(h) == e[..2 * |h|]
  {
    if h == "" {
    } else {
      var before, i := h[..|h| - 1], |h| - 1;
      EchoPrefix(e, before);
      NextPair(e, i);
      assert Utf8(h) == Utf8(before) + Encoded(h[i]) && h[i] == e[i];
    }
  }

  // The first half is pushed and makes the whole, the second half finds no room.
  lemma HalvesFill(a: string, h: string, r: string)
    requires High(h) && High(r) && Utf8(h) == h + r
    requires |a| + 2 * |h| <= VALUE_MAX && VALUE_MAX - 1 <= |a| + |h| + |r|
    ensures Fill(a, h + r) == a + (h + r)
  {
    FillSplits(a, h, r);
    FillHigh(a, h);
    FillFull(a + (h + r), r);
  }

  lemma HalfEncodes(h: string, r: string)
    requires Echoes(h + r) && |h| == |r|
    ensures High(h) && High(r) && Utf8(h) == h + r
  {
    var e := h + r;
    EchoesAreHigh(e);
    assert forall i :: 0 <= i < |r| ==> r[i] == e[|h| + i];
    EchoPrefix(e, h);
  }

  lemma EchoFills(a: string, e: string)
    requires Echoes(e) && |e| % 2 == 0 && VALUE_MAX - 1 <= |a| + |e| <= VALUE_MAX
    ensures Fill(a, e) == a + e
  {
    var h, r := e[..|e| / 2], e[|e| / 2..];
    assert e == h + r;
    HalfEncodes(h, r);
    HalvesFill(a, h, r);
  }

  lemma StartsAscii(a: string, w: string)
    requires Ascii(a) && |a| <= VALUE_MAX
    ensures Fill("", a + w) == Fill(a, w)
  {
    FillSplits("", a, w);
    FillAscii("", a);
    assert "" + a == a;
  }

  lemma LastByteArrivesIff(t: string, z: string)
    requires VALUE_MAX - 1 <= |t| && |t| + |z| <= VALUE_MAX
    ensures Fill(t, z) == t + z <==> Ascii(z)
  {
    if z == "" {
      assert t + z == t;
    } else {
      assert z == [z[0]] && z[1..] == "";
    }
  }

  lemma PartsArriveIff(a: string, e: string, z: string)
    requires Ascii(a) && Echoes(e) && |e| % 2 == 0 && VALUE_MAX - 1 <= |a| + |e|
    requires |a| + |e| + |z| <= VALUE_MAX
    ensures Fill("", a + (e + z)) == a + (e + z) <==> Ascii(z)
  {
    Assoc(a, e, z);
    StartsAscii(a, e + z);
    FillSplits(a, e, z);
    EchoFills(a, e);
    LastByteArrivesIff(a + e, z);
  }

  lemma LastPair(h: string)
    requires h != "" && High(h) && 2 * |h| <= VALUE_MAX
    ensures |Utf8(h)| == 2 * |h|
    ensures [Utf8(h)[2 * |h| - 2], Utf8(h)[2 * |h| - 1]] == Encoded(h[|h| - 1])
  {
    FillHigh("", h[..|h| - 1]);
    FillHigh("", h);
  }

  lemma SamePrefix(a: string, u: string, w: string)
    requires a + u <= a + w
    ensures u <= w
  {
    assert (a + u)[|a|..] == u && (a + w)[|a|..] == w;
    assert |u| <= |w| && forall j :: 0 <= j < |u| ==> u[j] == (a + u)[|a| + j] == (a + w)[|a| + j] == w[j];
  }

  lemma Begins(a: string, h: string, r: string)
    requires Ascii(a) && High(h) && |a| + 2 * |h| <= VALUE_MAX
    ensures a + Utf8(h) <= Fill("", a + (h + r)) && |Utf8(h)| == 2 * |h|
  {
    StartsAscii(a, h + r);
    FillSplits(a, h, r);
    FillHigh(a, h);
    FillGrows(a + Utf8(h), r);
  }

  lemma EncodesAsEcho(w: string, i: nat)
    requires 2 * i + 2 <= |w| && Bytes(w) && Echoes(w[..2 * i])
    requires w[2 * i] == Lead(w[i]) && w[i] >= 128 as char
    ensures w[i] == Echo(i)
  {
    if i > 0 { assert w[i] == w[..2 * i][i]; }
  }

  lemma ForcedPair(w: string, i: nat)
    requires 2 * i + 2 <= |w| && Bytes(w) && w[0] >= 128 as char && Echoes(w[..2 * i])
    requires [w[2 * i], w[2 * i + 1]] == Encoded(w[i]) && w[i] >= 128 as char
    ensures Echoes(w[..2 * i + 2])
  {
    assert Encoded(w[i])[0] == w[2 * i];
    EncodesAsEcho(w, i);
    EchoDoubles(i);
    assert w[..2 * i + 2] == w[..2 * i] + Encoded(w[i]);
  }

  lemma FrontIsHigh(w: string, k: nat)
    requires w != "" && w[0] >= 128 as char && 0 < k && 2 * (k - 1) <= |w| && Echoes(w[..2 * (k - 1)])
    ensures k <= |w| && High(w[..k])
  {
    forall j | 0 < j < k ensures w[j] >= 128 as char {
      assert w[j] == w[..2 * (k - 1)][j];
    }
  }

  lemma HalfStarts(a: string, w: string, k: nat)
    requires Ascii(a) && k <= |w| && High(w[..k]) && |a| + 2 * k <= VALUE_MAX && Fill("", a + w) == a + w
    ensures Utf8(w[..k]) <= w && |Utf8(w[..k])| == 2 * k
  {
    Begins(a, w[..k], w[k..]);
    assert w == w[..k] + w[k..];
    SamePrefix(a, Utf8(w[..k]), w);
  }

  // If the text is to come out as it went in, each byte forces two.
  lemma {:induction false} EchoForced(a: string, w: string, k: nat)
    requires Ascii(a) && w != "" && w[0] >= 128 as char && Bytes(w)
    requires Fill("", a + w) == a + w && |a| + 2 * k <= VALUE_MAX
    ensures 2 * k <= |w| && Echoes(w[..2 * k])
  {
    if k == 0 {
    } else {
      EchoForced(a, w, k - 1);
      FrontIsHigh(w, k);
      HalfStarts(a, w, k);
      LastPair(w[..k]);
      ForcedPair(w, k - 1);
    }
  }

  lemma TailArrivesIff(a: string, w: string)
    requires Ascii(a) && Bytes(w) && w != "" && w[0] >= 128 as char && |a| + |w| <= VALUE_MAX
    ensures Fill("", a + w) == a + w <==> MirrorsBehind(a, w)
  {
    var n := PairRoom(|a|);
    if Fill("", a + w) == a + w { EchoForced(a, w, n / 2); }
    if n <= |w| && Echoes(w[..n]) {
      assert w == w[..n] + w[n..];
      PartsArriveIff(a, w[..n], w[n..]);
    }
  }

  lemma MirrorIff(v: string)
    requires Bytes(v) && !Ascii(v)
    ensures Fill("", v) == v <==> Mirrors(v)
  {
    FillGrows("", v);
    var p := AsciiRun(v);
    var a, w := v[..p], v[p..];
    assert v == a + w && w[0] == v[p];
    if |v| <= VALUE_MAX { TailArrivesIff(a, w); }
  }

  /** The value the device holds is, byte for byte, the one that was sent exactly when that was
      ASCII and no longer than the buffer, but for the texts that mirror themselves. An ASCII
      value is cut to the buffer. */
  lemma ValueArrivesIff(v: string)
    requires Bytes(v)
    ensures Decode(Quote(v)).Text?
    ensures Utf8(Decode(Quote(v)).text) == v <==> |v| <= VALUE_MAX && (Ascii(v) || Mirrors(v))
    ensures Ascii(v) ==> Utf8(Decode(Quote(v)).text) == Fits(v)
    ensures |v| < VALUE_MAX - 1 ==> !Mirrors(v)
  {
    QuotedDecodes(v);
    FillIs("", v);
    FillGrows("", v);
    assert "" + v == v;
    if Ascii(v) {
      FillAscii("", v);
    } else {
      MirrorIff(v);
    }
  }

  // ------------------------------------------------------------------- the query --

  // Quoted text contains no separator.
  lemma {:induction false} QuoteAvoids(s: string, c: char)
    requires Bytes(s) && (c == '&' || c == '=' || c == ' ')
    ensures c !in Quote(s)
  {
    if s == "" {
    } else {
      QuoteAvoids(s[1..], c);
      assert c !in QuoteChar(s[0]) by {
        assert forall n: nat :: n < 16 ==> HexDigit(n) != c;
      }
    }
  }

  predicate Plain(s: string) {
    forall i :: 0 <= i < |s| ==> Unreserved(s[i])
  }

  lemma {:induction false} PlainQuoted(s: string)
    requires Bytes(s) && (Plain(s) || Plain(Quote(s)))
    ensures Quote(s) == s
  {
    if s == "" {
    } else {
      var q, tail := QuoteChar(s[0]), Quote(s[1..]);
      if Plain(Quote(s)) {
        assert Unreserved(Quote(s)[0]);
        forall i | 0 <= i < |tail| ensures Unreserved(tail[i]) {
          assert Quote(s)[|q| + i] == tail[i];
        }
      } else {
        assert Unreserved(s[0]);
      }
      PlainQuoted(s[1..]);
    }
  }

  // Whatever other keys a query has, a plain key is spelled like no other.
  lemma PlainKeyMatches(k: string, key: string)
    requires Bytes(k) && Plain(key)
    ensures Quote(k) == key <==> k == key
  {
    PlainQuoted(key);
    if Quote(k) == key { PlainQuoted(k); }
  }

  lemma {:induction false} FindAt(a: string, c: char, rest: string)
    requires c !in a
    ensures Find(a + [c] + rest, c) == |a| && Find(a, c) == |a|
  {
    if a == "" {
      assert (a + [c] + rest)[0] == c;
    } else {
      FindAt(a[1..], c, rest);
      assert (a + [c] + rest)[1..] == a[1..] + [c] + rest;
    }
  }

  lemma PairFinds(p: Param)
    requires Bytes(p.key) && Bytes(p.value)
    ensures '&' !in Pair(p) && Find(Pair(p), '=') == |Quote(p.key)|
  {
    QuoteAvoids(p.key, '&');
    QuoteAvoids(p.value, '&');
    QuoteAvoids(p.key, '=');
    FindAt(Quote(p.key), '=', Quote(p.value));
  }

  lemma PairReads(p: Param, key: string)
    requires Bytes(p.key) && Bytes(p.value) && Plain(key)
    ensures Pair(p)[..|Quote(p.key)|] == key <==> p.key == key
    ensures Pair(p)[|Quote(p.key)| + 1..] == Quote(p.value)
  {
    assert Pair(p)[..|Quote(p.key)|] == Quote(p.key);
    PlainKeyMatches(p.key, key);
  }

  function Lookup(ps: seq<Param>, key: string): Option<string> {
    if ps == [] then None else if ps[0].key == key then Some(ps[0].value) else Lookup(ps[1..], key)
  }

  lemma {:induction false} RawValueFinds(ps: seq<Param>, key: string)
    requires ByteParams(ps) && Plain(key)
    ensures match Lookup(ps, key)
            case None => RawValue(Query(ps), key) == None
            case Some(v) => Bytes(v) && RawValue(Query(ps), key) == Some(Quote(v))
  {
    if ps == [] {
    } else {
      var p, query := ps[0], Query(ps);
      var pair := Pair(p);
      PairFinds(p);
      if |ps| == 1 {
        FindAt(pair, '&', "");
        assert query[..|pair|] == pair && ps[1..] == [];
      } else {
        FindAt(pair, '&', Query(ps[1..]));
        assert query == pair + ['&'] + Query(ps[1..]);
        assert query[..|pair|] == pair && query[|pair| + 1..] == Query(ps[1..]);
        RawValueFinds(ps[1..], key);
      }
      PairReads(p, key);
    }
  }

  /** `query_get` finds the value of every key that needs no quoting, among any other
      parameters, and takes it byte by byte; a key that is not there has the empty value. */
  lemma QueryGetFinds(ps: seq<Param>, key: string)
    requires ByteParams(ps) && Plain(key)
    ensures QueryGet(Query(ps), key)
            == match Lookup(ps, key) case None => Text("") case Some(v) => Text(PushAll("", v))
  {
    RawValueFinds(ps, key);
    match Lookup(ps, key)
    case None =>
    case Some(v) => QuotedDecodes(v);
  }

  // -------------------------------------------------------------------- the frame --

  // Where the first field ends.
  lemma FieldCut(a: string, rest: string)
    ensures var text := a + " " + rest; var sp := Find(text, ' ');
            && sp < |text|
            && (' ' !in a ==> text[..sp] == a && text[sp + 1..] == rest)
  {
    var text := a + " " + rest;
    assert text == a + [' '] + rest;
    assert text[|a|] == ' ';
    if ' ' !in a { FindAt(a, ' ', rest); }
  }

  lemma RestSplitsBack(reqid: string, procedure: string, query: string)
    requires ' ' !in procedure
    ensures SplitRest(reqid, procedure + " " + query) == Frame(reqid, procedure, query)
  {
    FieldCut(procedure, query);
  }

  lemma SplitsBack(f: Frame)
    requires |Command(f)| <= PAYLOAD_MAX && ' ' !in f.reqid && ' ' !in f.procedure
    ensures Split(Command(f)) == Some(f)
  {
    var rest := f.procedure + " " + f.query;
    assert Command(f) == f.reqid + " " + rest;
    FieldCut(f.reqid, rest);
    RestSplitsBack(f.reqid, f.procedure, f.query);
  }

  // The first two fields that come out never contain a space.
  lemma FieldsLackSpaces(text: string)
    requires |text| <= PAYLOAD_MAX
    ensures var got := Split(text); got.Some? ==> ' ' !in got.value.reqid && ' ' !in got.value.procedure
  {
    var sp1 := Find(text, ' ');
    if sp1 < |text| {
      var rest := text[sp1 + 1..];
      assert rest[..|rest|] == rest;
    }
  }

  /** A command within the limit comes apart as it was put together exactly when neither the id
      nor the procedure has a space in it. */
  lemma SplitIff(f: Frame)
    requires |Command(f)| <= PAYLOAD_MAX
    ensures Split(Command(f)) == Some(f) <==> ' ' !in f.reqid && ' ' !in f.procedure
  {
    if ' ' !in f.reqid && ' ' !in f.procedure {
      SplitsBack(f);
    } else {
      FieldsLackSpaces(Command(f));
    }
  }

  /** From the broker's parameters to the device's: the call arrives as made, and each ASCII
      value up to the buffer. */
  lemma CallArrives(reqid: string, procedure: string, ps: seq<Param>, key: string)
    requires ByteParams(ps) && Plain(key) && ' ' !in reqid && ' ' !in procedure
    requires |Command(Frame(reqid, procedure, Query(ps)))| <= PAYLOAD_MAX
    ensures var got := Split(Command(Frame(reqid, procedure, Query(ps))));
            && got.Some? && got.value.reqid == reqid && got.value.procedure == procedure
            && match Lookup(ps, key)
               case None => QueryGet(got.value.query, key) == Text("")
               case Some(v) =>
                 && QueryGet(got.value.query, key) == Text(PushAll("", v))
                 && (Ascii(v) ==> Utf8(PushAll("", v)) == Fits(v))
  {
    SplitIff(Frame(reqid, procedure, Query(ps)));
    QueryGetFinds(ps, key);
    RawValueFinds(ps, key);
    match Lookup(ps, key)
    case None =>
    case Some(v) =>
      QuotedDecodes(v);
      ValueArrivesIff(v);
  }

  // ----------------------------------------------------------------- the loops of api.rs --

  /** What the loop pushes at `i`, and how far it goes. */
  function Piece(s: string, i: nat): (p: (char, nat))
    requires i < |s|
    ensures i < i + p.1 <= |s|
  {
    if s[i] == '%' && i + 2 < |s| then
      match FromStrRadix(s[i + 1], s[i + 2])
      case Some(v) => (Char(v), 3)
      case None => ('%', 1)
    else (if s[i] == '+' then ' ' else s[i], 1)
  }

  lemma DecodeStep(out: string, s: string, i: nat)
    requires i < |s|
    ensures DecodeFrom(out, s[i..]) == DecodeFrom(Push(out, Piece(s, i).0), s[i + Piece(s, i).1..])
  {
    var t := s[i..];
    assert t[1..] == s[i + 1..] && (i + 2 < |s| ==> t[3..] == s[i + 3..]);
  }

  predicate PanicsAt(s: string, i: nat)
    requires i < |s|
  {
    i < |s| - 3 && s[i] == '%' && Inner(s[i + 3])
  }

  // No '%' before `i` panics.
  predicate Sound(s: string, i: nat)
    requires i <= |s|
  {
    forall j :: 0 <= j < i ==> !PanicsAt(s, j)
  }

  // What an escape skips is no '%'.
  lemma SoundStep(s: string, i: nat)
    requires i < |s| && Sound(s, i) && !PanicsAt(s, i)
    ensures Sound(s, i + Piece(s, i).1)
  {
  }

  lemma PanicsIff(s: string, i: nat)
    requires i <= |s|
    ensures i < |s| && PanicsAt(s, i) ==> Panics(s)
    ensures Sound(s, |s|) ==> !Panics(s)
  {
    if Panics(s) {
      var j :| 0 <= j < |s| - 3 && s[j] == '%' && Inner(s[j + 3]);
      assert PanicsAt(s, j);
    }
  }

  // What the loop has made of what is before `i`.
  predicate DecodedUpTo(s: string, i: nat, out: string) {
    i <= |s| && Sound(s, i) && DecodeFrom(out, s[i..]) == DecodeFrom("", s)
  }

  lemma DecodesFromStart(s: string)
    ensures DecodedUpTo(s, 0, "")
  {
    assert s[0..] == s;
  }

  lemma DecodesOn(s: string, i: nat, out: string)
    requires DecodedUpTo(s, i, out)
    ensures i == |s| ==> Decode(s) == Text(out)
    ensures i < |s| && PanicsAt(s, i) ==> Decode(s) == Panic
    ensures i < |s| && !PanicsAt(s, i) ==> DecodedUpTo(s, i + Piece(s, i).1, Push(out, Piece(s, i).0))
  {
    PanicsIff(s, i);
    if i < |s| && !PanicsAt(s, i) {
      DecodeStep(out, s, i);
      SoundStep(s, i);
    }
  }

  method NextPiece(input: string, i: nat) returns (c: char, n: nat)
    requires i < |input|
    ensures (c, n) == Piece(input, i)
  {
    c, n := if input[i] == '+' then ' ' else input[i], 1;
    if input[i] == '%' && i + 2 < |input| {
      var v := FromStrRadix(input[i + 1], input[i + 2]);
      if v.Some? {
        c, n := Char(v.value), 3;
      }
    }
  }

  /** The loop panics where it comes to such a '%', and it comes to every '%'. */
  method UrlDecode(input: string) returns (r: Outcome)
    ensures r == Decode(input)
  {
    var out, i := "", 0;
    DecodesFromStart(input);
    while i < |input|
      invariant DecodedUpTo(input, i, out)
    {
      DecodesOn(input, i, out);
      if PanicsAt(input, i) { return Panic; }
      var c, n := NextPiece(input, i);
      out, i := Push(out, c), i + n;
    }
    DecodesOn(input, i, out);
    return Text(out);
  }

  method GetValue(query: string, key: string) returns (r: Outcome)
    ensures r == QueryGet(query, key)
  {
    var rest := query;
    while true
      invariant RawValue(rest, key) == RawValue(query, key)
      decreases |rest|
    {
      var end := Find(rest, '&');
      var pair := rest[..end];
      var eq := Find(pair, '=');
      if eq < |pair| && pair[..eq] == key {
        r := UrlDecode(pair[eq + 1..]);
        return;
      }
      if end == |rest| { return Text(""); }
      rest := rest[end + 1..];
    }
  }

  // ------------------------------------------------------------------- correlation --

  /** What happens to `Bridge.pending`, in any order from any threads: a call registers its id,
      an answer arrives for an id, a call whose event is set takes its entry out. */
  datatype Event = Register(id: string) | Answer(id: string, data: string) | Finish(id: string)

  type Pending = map<string, Option<string>>

  function Handle(pending: Pending, e: Event): Pending {
    match e
    case Register(id) => pending[id := None]
    case Answer(id, data) => if id in pending then pending[id := Some(data)] else pending
    case Finish(id) => pending - {id}
  }

  function HandleAll(pending: Pending, es: seq<Event>): Pending
    decreases |es|
  {
    if es == [] then pending else HandleAll(Handle(pending, es[0]), es[1..])
  }

  // The last answer with this id, if any.
  function LastAnswer(es: seq<Event>, id: string, before: Option<string>): Option<string>
    decreases |es|
  {
    if es == [] then before
    else LastAnswer(es[1..], id, if es[0].Answer? && es[0].id == id then Some(es[0].data) else before)
  }

  predicate CallOf(e: Event, id: string) {
    (e.Register? || e.Finish?) && e.id == id
  }

  lemma {:induction false} StaysPending(pending: Pending, id: string, es: seq<Event>)
    requires id in pending && forall i :: 0 <= i < |es| ==> !CallOf(es[i], id)
    ensures var p := HandleAll(pending, es);
            id in p && p[id] == LastAnswer(es, id, pending[id])
    decreases |es|
  {
    if es == [] {
    } else {
      StaysPending(Handle(pending, es[0]), id, es[1..]);
    }
  }

  /** A call with a fresh id gets the last answer that carried its id since it registered, or
      none, whatever calls with other ids do meanwhile. */
  lemma AnswersMatch(pending: Pending, id: string, es: seq<Event>)
    requires forall i :: 0 <= i < |es| ==> !CallOf(es[i], id)
    ensures var p := HandleAll(Handle(pending, Register(id)), es);
            id in p && p[id] == LastAnswer(es, id, None)
  {
    StaysPending(Handle(pending, Register(id)), id, es);
  }

  lemma {:induction false} LeavesOthers(pending: Pending, with: Pending, id: string, es: seq<Event>)
    requires id !in pending && id in with && with - {id} == pending
    requires forall i :: 0 <= i < |es| ==> !CallOf(es[i], id)
    ensures id !in HandleAll(pending, es) && id in HandleAll(with, es)
    ensures HandleAll(with, es) - {id} == HandleAll(pending, es)
    decreases |es|
  {
    if es == [] {
    } else {
      var p, w := Handle(pending, es[0]), Handle(with, es[0]);
      assert w - {id} == p;
      LeavesOthers(p, w, id, es[1..]);
    }
  }

  /** When it has ended, answered or not, the table is as if it had never been made: no other call
      has lost or gained an answer by it, and one that comes too late is ignored. */
  lemma CallLeavesNoTrace(pending: Pending, id: string, es: seq<Event>, late: string)
    requires id !in pending && forall i :: 0 <= i < |es| ==> !CallOf(es[i], id)
    ensures var p := Handle(HandleAll(Handle(pending, Register(id)), es), Finish(id));
            p == HandleAll(pending, es) == Handle(p, Answer(id, late))
  {
    var with := Handle(pending, Register(id));
    assert with - {id} == pending;
    LeavesOthers(pending, with, id, es);
  }

  class Bridge {
    var pending: Pending

    constructor ()
      ensures pending == map[]
    {
      pending := map[];
    }

    method Register(id: string)
      modifies this
      ensures pending == Handle(old(pending), Event.Register(id))
    {
      pending := pending[id := None];
    }

    /** An answer to a call nobody waits for is ignored. */
    method OnMessage(id: string, data: string) returns (wakes: bool)
      modifies this
      ensures pending == Handle(old(pending), Answer(id, data)) && wakes == (id in old(pending))
    {
      wakes := id in pending;
      if wakes { pending := pending[id := Some(data)]; }
    }

    /** After the wait: an answer only if the event was set. */
    method Finish(id: string, ok: bool) returns (resp: Option<string>)
      requires id in pending
      modifies this
      ensures pending == Handle(old(pending), Event.Finish(id))
      ensures resp == if ok then old(pending)[id] else None
    {
      resp := if ok then pending[id] else None;
      pending := pending - {id};
    }
  }
}
