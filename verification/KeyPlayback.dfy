/** The playback timer of `at_cmds.c`: AT+TAP, AT+KEY_SEQ and AT+KEY_STR share one timer event,
    and any of them can arrive at any moment of a playback. */
module KeyPlayback {
  import opened AtLine
  import opened KeyText
  import opened Wrappers

  const KEYSTR_MAX: nat := 96
  const SEQ_MAX_REPORTS: nat := 8

  /** `queue` is `seq_buf[..seq_count]`, `text` what KEY_STR copied, `kidx` and `sidx` the two
      indices, `pending` whether the event is armed, `sent` every report so far. */
  datatype State = State(active: bool, text: string, kidx: nat, queue: seq<Report>, sidx: nat,
                         pending: bool, sent: seq<Report>)

  datatype Event = TapKey(r: Report) | KeySeq(rs: seq<Report>) | KeyStr(text: string) | Tick

  const IDLE := State(false, "", 0, [], 0, false, [])

  // Even ticks press, odd ones release.
  function KeyTick(k: Option<Key>, kidx: nat): seq<Report> {
    if kidx % 2 == 1 then [RELEASE]
    else
      match k
      case None => []
      case Some(key) => [Press(key)]
  }

  function CharTick(text: string, kidx: nat): seq<Report>
    requires kidx / 2 < |text|
  {
    KeyTick(AsciiToHid(text[kidx / 2]), kidx)
  }

  /** `kb_seq_process_event`. */
  function Timer(s: State): State {
    if s.active then
      if s.kidx / 2 >= |s.text| then s.(active := false, pending := false)
      else s.(kidx := s.kidx + 1, sent := s.sent + CharTick(s.text, s.kidx))
    else if s.sidx < |s.queue| then
      s.(sidx := s.sidx + 1, sent := s.sent + [s.queue[s.sidx]], pending := s.sidx + 1 < |s.queue|)
    else s.(pending := false)
  }

  function Step(s: State, e: Event): State {
    match e
    case TapKey(r) => s.(queue := [r, RELEASE], sidx := 0, pending := true)
    case KeySeq(rs) => s.(queue := rs, sidx := 0, pending := true)
    case KeyStr(t) => s.(active := true, text := t, kidx := 0, pending := true)
    case Tick => if s.pending then Timer(s) else s
  }

  function Run(s: State, es: seq<Event>): State
    decreases |es|
  {
    if es == [] then s else Run(Step(s, es[0]), es[1..])
  }

  // -------------------------------------------------------------- no stuck keys --

  function Last(sent: seq<Report>): Report {
    if sent == [] then RELEASE else sent[|sent| - 1]
  }

  predicate AllUp(s: State) {
    Last(s.sent) == RELEASE
  }

  ghost predicate Inv(s: State) {
    && (s.active ==> s.pending && s.text != "" && s.kidx <= 2 * |s.text|
                     && (s.kidx > 0 && s.kidx % 2 == 0 ==> AllUp(s)))
    && (!s.active && s.pending ==> s.sidx < |s.queue| && s.queue[|s.queue| - 1] == RELEASE)
    && (!s.pending ==> AllUp(s))
  }

  /** What the commands guarantee: the tokenizer leaves no empty text; a batch that does not end
      with a release asks for held keys. */
  predicate Releases(e: Event) {
    && (e.KeyStr? ==> e.text != "")
    && (e.KeySeq? ==> e.rs != [] && e.rs[|e.rs| - 1] == RELEASE)
  }

  lemma StepKeepsInv(s: State, e: Event)
    requires Inv(s) && Releases(e)
    ensures Inv(Step(s, e))
  {
  }

  /** Whenever the timer is not armed, the last report was all-zero: over all runs, with the
      commands issued at any moment. */
  lemma {:induction false} NoStuckKey(s: State, es: seq<Event>)
    requires Inv(s) && forall i :: 0 <= i < |es| ==> Releases(es[i])
    ensures Inv(Run(s, es))
    ensures !Run(s, es).pending ==> AllUp(Run(s, es))
    decreases |es|
  {
    if es == [] {
    } else {
      StepKeepsInv(s, es[0]);
      NoStuckKey(Step(s, es[0]), es[1..]);
    }
  }

  /** The tokenizer's part in this: a text command that could be empty would, between the press
      and the release of a tap, leave the key down for good. */
  lemma EmptyTextSticks(k: Key)
    requires k.code > 0
    ensures var s := Run(IDLE, [TapKey(Press(k)), Tick, KeyStr(""), Tick]);
            !s.pending && !AllUp(s) && s.sent == [Press(k)]
  {
    var s1 := Step(Step(IDLE, TapKey(Press(k))), Tick);
    var es := [TapKey(Press(k)), Tick, KeyStr(""), Tick];
    assert es[1..][1..] == [KeyStr(""), Tick];
    assert Press(k).keys[0] != RELEASE.keys[0];
    assert Run(IDLE, es) == Run(s1, [KeyStr(""), Tick]) == Run(Step(s1, KeyStr("")), [Tick]);
  }

  // ------------------------------------------------------------- what gets played --

  // What is left of a text: whole characters, behind the release of one that is down.
  function Rest(text: string, kidx: nat): seq<Report> {
    if kidx / 2 >= |text| then []
    else if kidx % 2 == 0 then KeyStrReports(text[kidx / 2..])
    else [RELEASE] + KeyStrReports(text[kidx / 2 + 1..])
  }

  /** The reports still to come if nothing but ticks follows. */
  function Remaining(s: State): seq<Report> {
    if !s.pending then []
    else if s.active then Rest(s.text, s.kidx)
    else if s.sidx < |s.queue| then s.queue[s.sidx..] else []
  }

  function TicksLeft(s: State): nat {
    if !s.pending then 0
    else if s.active then if s.kidx / 2 < |s.text| then 2 * |s.text| - s.kidx + 1 else 1
    else if s.sidx < |s.queue| then |s.queue| - s.sidx else 1
  }

  function Finish(s: State): State
    decreases TicksLeft(s)
  {
    if !s.pending then s else Finish(Step(s, Tick))
  }

  lemma NextChar(text: string, i: nat)
    requires i < |text|
    ensures KeyStrReports(text[i..]) == CharReports(text[i]) + KeyStrReports(text[i + 1..])
  {
    assert text[i..][1..] == text[i + 1..];
  }

  lemma PressTick(k: Option<Key>, kidx: nat, rest: seq<Report>)
    requires kidx % 2 == 0
    ensures KeyReports(k) + rest == KeyTick(k, kidx) + ([RELEASE] + rest)
  {
    Assoc(KeyTick(k, kidx), [RELEASE], rest);
    assert KeyTick(k, kidx) + [RELEASE] == KeyReports(k);
  }

  /** Each tick sends what comes first of the rest. */
  lemma TickIsNext(text: string, kidx: nat)
    requires kidx / 2 < |text|
    ensures Rest(text, kidx) == CharTick(text, kidx) + Rest(text, kidx + 1)
  {
    var i := kidx / 2;
    if kidx % 2 == 0 {
      assert (kidx + 1) / 2 == i;
      NextChar(text, i);
      PressTick(AsciiToHid(text[i]), kidx, KeyStrReports(text[i + 1..]));
    } else {
      assert (kidx + 1) / 2 == i + 1;
    }
  }

  // A tick sends `now`, and leaves `rest` of `now + rest`.
  predicate Sends(s: State, now: seq<Report>, rest: seq<Report>) {
    && Remaining(s) == now + rest
    && Step(s, Tick).sent == s.sent + now && Remaining(Step(s, Tick)) == rest
  }

  lemma SentAndLeft(s: State, now: seq<Report>, rest: seq<Report>)
    requires Sends(s, now, rest)
    ensures Step(s, Tick).sent + Remaining(Step(s, Tick)) == s.sent + Remaining(s)
  {
    Assoc(s.sent, now, rest);
  }

  lemma TextTick(s: State)
    requires s.pending && s.active && s.kidx / 2 < |s.text|
    ensures Sends(s, CharTick(s.text, s.kidx), Rest(s.text, s.kidx + 1))
  {
    TickIsNext(s.text, s.kidx);
  }

  lemma QueueTick(s: State)
    requires s.pending && !s.active && s.sidx < |s.queue|
    ensures Sends(s, [s.queue[s.sidx]], s.queue[s.sidx + 1..])
  {
  }

  lemma TickPlays(s: State)
    requires s.pending
    ensures Step(s, Tick).sent + Remaining(Step(s, Tick)) == s.sent + Remaining(s)
  {
    if s.active {
      if s.kidx / 2 < |s.text| {
        TextTick(s);
        SentAndLeft(s, CharTick(s.text, s.kidx), Rest(s.text, s.kidx + 1));
      }
    } else if s.sidx < |s.queue| {
      QueueTick(s);
      SentAndLeft(s, [s.queue[s.sidx]], s.queue[s.sidx + 1..]);
    }
  }

  lemma {:induction false} FinishPlays(s: State)
    ensures !Finish(s).pending && Finish(s).sent == s.sent + Remaining(s)
    decreases TicksLeft(s)
  {
    if !s.pending {
      assert s.sent + [] == s.sent;
    } else {
      TickPlays(s);
      FinishPlays(Step(s, Tick));
    }
  }

  /** A text command left alone plays its whole text, whatever was going on: a host with every
      key up types the characters it has keys for. */
  lemma TextPlays(s: State, t: string)
    ensures Finish(Step(s, KeyStr(t))).sent == s.sent + KeyStrReports(t)
    ensures AllUp(s) ==> HostTypes(Last(s.sent), KeyStrReports(t)) == Mapped(t)
  {
    FinishPlays(Step(s, KeyStr(t)));
    assert t[0..] == t;
    KeyStrTypesIff(RELEASE, t);
  }

  /** The Rust engine and the CH582 make a host type the same. */
  lemma EnginesAgree(t: string)
    ensures HostTypes(RELEASE, KeyStrReports(t)) == HostTypes(RELEASE, TextReports(t)) == Mapped(t)
  {
    KeyStrTypesIff(RELEASE, t);
    TextTypesIff(RELEASE, t);
  }

  /** A tap left alone is played unless a text is being typed; then only the text is. */
  lemma TapPlaysIff(s: State, r: Report)
    requires Inv(s)
    ensures Finish(Step(s, TapKey(r))).sent == s.sent + if s.active then Remaining(s) else [r, RELEASE]
  {
    FinishPlays(Step(s, TapKey(r)));
    assert [r, RELEASE][0..] == [r, RELEASE];
  }

  /** A batch likewise: every report of it, in order, unless a text is being typed. */
  lemma BatchPlaysIff(s: State, rs: seq<Report>)
    requires Inv(s) && rs != []
    ensures Finish(Step(s, KeySeq(rs))).sent == s.sent + if s.active then Remaining(s) else rs
  {
    FinishPlays(Step(s, KeySeq(rs)));
    assert rs[0..] == rs;
  }

  // Equal but for a queue that is not being played.
  predicate SameOutput(s: State, t: State) {
    && s.(queue := t.queue, sidx := t.sidx) == t
    && (s.active || !s.pending)
  }

  lemma {:induction false} InStep(s: State, t: State, es: seq<Event>)
    requires s == t || SameOutput(s, t)
    ensures Run(s, es).sent == Run(t, es).sent
    decreases |es|
  {
    if es == [] {
    } else {
      InStep(Step(s, es[0]), Step(t, es[0]), es[1..]);
    }
  }

  /** Such a tap or batch is lost for good: whatever follows, ticks, texts, taps or batches, the
      reports are those of the run without it. */
  lemma LostDuringText(s: State, e: Event, es: seq<Event>)
    requires Inv(s) && s.active && (e.TapKey? || e.KeySeq?)
    ensures Run(Step(s, e), es).sent == Run(s, es).sent
  {
    InStep(s, Step(s, e), es);
  }

  // ---------------------------------------------------------------- the text argument --

  /** The copy with its escapes; characters past the limit are cut off. */
  function Unescape(p: string, room: nat): string
    decreases |p|
  {
    if p == "" || room == 0 then ""
    else if p[0] == '\\' && |p| > 1 && p[1] == 'n' then ['\n'] + Unescape(p[2..], room - 1)
    else if p[0] == '\\' && |p| > 1 && p[1] == 't' then ['\t'] + Unescape(p[2..], room - 1)
    else if p[0] == '\\' && |p| > 1 && p[1] == '\\' then ['\\'] + Unescape(p[2..], room - 1)
    else [p[0]] + Unescape(p[1..], room - 1)
  }

  function Spelled(c: char): string {
    match c
    case '\n' => "\\n"
    case '\t' => "\\t"
    case '\\' => "\\\\"
    case c => [c]
  }

  /** How a sender spells a text. */
  function Escape(t: string): string {
    if t == "" then "" else Spelled(t[0]) + Escape(t[1..])
  }

  lemma SpelledReads(c: char, p: string, room: nat)
    requires room > 0
    ensures Unescape(Spelled(c) + p, room) == [c] + Unescape(p, room - 1)
  {
    assert (Spelled(c) + p)[|Spelled(c)|..] == p;
  }

  // `t`, cut off at `room`, and behind it `q` if there is room.
  function Fill(t: string, q: string, room: nat): string {
    if |t| <= room then t + q else t[..room]
  }

  lemma FillNext(t: string, q: string, room: nat)
    requires t != "" && room > 0
    ensures [t[0]] + Fill(t[1..], q, room - 1) == Fill(t, q, room)
  {
    assert t == [t[0]] + t[1..];
    if |t| <= room { Assoc([t[0]], t[1..], q); }
  }

  function RoomLeft(t: string, room: nat): nat {
    if |t| <= room then room - |t| else 0
  }

  lemma SpelledFirst(t: string, p: string, room: nat)
    requires t != "" && room > 0
    ensures Unescape(Escape(t) + p, room) == [t[0]] + Unescape(Escape(t[1..]) + p, room - 1)
  {
    Assoc(Spelled(t[0]), Escape(t[1..]), p);
    SpelledReads(t[0], Escape(t[1..]) + p, room);
  }

  /** Every text arrives as it was meant, up to the limit, whatever follows it. */
  lemma {:induction false} EscapesRead(t: string, p: string, room: nat)
    ensures Unescape(Escape(t) + p, room) == Fill(t, Unescape(p, RoomLeft(t, room)), room)
  {
    if t == "" {
      assert "" + p == p && "" + Unescape(p, room) == Unescape(p, room);
    } else if room == 0 {
    } else {
      SpelledFirst(t, p, room);
      EscapesRead(t[1..], p, room - 1);
      FillNext(t, Unescape(p, RoomLeft(t, room)), room);
    }
  }

  lemma TextIsLeft(p: string)
    requires p != ""
    ensures Unescape(p, KEYSTR_MAX) != ""
  {
  }

  /** What the tokenizer hands to AT+KEY_STR is never an empty text, whatever the line. */
  lemma LinesRelease(buf: string)
    ensures |Args(buf)| > 1 ==> Releases(KeyStr(Unescape(Args(buf)[1], KEYSTR_MAX)))
  {
    if |Args(buf)| > 1 { TextIsLeft(Args(buf)[1]); }
  }

  const KEY_STR := "AT+KEY_STR"

  /** The text that is typed when a line has been sent, if it was one text command. */
  function TextTaken(commands: seq<seq<string>>): Option<string> {
    if |commands| == 1 && |commands[0]| > 1 && commands[0][0] == KEY_STR then
      Some(Unescape(commands[0][1], KEYSTR_MAX))
    else None
  }

  // A carriage return with a zero byte behind it would end the line.
  predicate Carried(ch: Channel, t: string, i: nat)
    requires i < |t|
  {
    && t[i] != ',' && t[i] != '\0'
    && (t[i] == '\r' ==> ch.Uart? && (i + 1 == |t| || t[i + 1] != '\0'))
  }

  predicate Plain(ch: Channel, t: string) {
    forall i :: 0 <= i < |t| ==> t[i] != ',' && t[i] != '\0' && (ch.Cdc? ==> t[i] != '\r')
  }

  lemma {:induction false} EscapeJoin(a: string, b: string)
    ensures Escape(a + b) == Escape(a) + Escape(b)
  {
    if a == "" {
      assert a + b == b;
    } else {
      assert (a + b)[1..] == a[1..] + b;
      EscapeJoin(a[1..], b);
      Assoc(Spelled(a[0]), Escape(a[1..]), Escape(b));
    }
  }

  lemma {:induction false} EscapeLength(t: string)
    ensures |t| <= |Escape(t)| <= 2 * |t|
  {
    if t == "" {
    } else {
      EscapeLength(t[1..]);
    }
  }

  lemma {:induction false} EscapeKeeps(ch: Channel, t: string)
    ensures '\n' !in Escape(t)
    ensures Plain(ch, t) ==> Clean(ch, Escape(t)) && ',' !in Escape(t)
  {
    if t == "" {
    } else {
      EscapeKeeps(ch, t[1..]);
    }
  }

  lemma {:induction false} OnlyEscapesAdd(p: string, room: nat, i: nat)
    requires i < |Unescape(p, room)|
    ensures var c := Unescape(p, room)[i]; c in p || c == '\n' || c == '\t' || c == '\\'
    decreases |p|
  {
    var n := if p[0] == '\\' && |p| > 1 && (p[1] == 'n' || p[1] == 't' || p[1] == '\\') then 2 else 1;
    if i > 0 {
      OnlyEscapesAdd(p[n..], room - 1, i - 1);
    }
  }

  // No argument of a command brings a text these characters.
  lemma TakenIsPlain(ch: Channel, cmd: string, u: string)
    requires TextTaken(Received(ch, cmd)) == Some(u)
    ensures u != "" && Plain(ch, u)
  {
    var argv := Received(ch, cmd)[0];
    assert Received(ch, cmd) == [argv];
    NothingElseArrives(ch, cmd, argv);
    assert Field(ch, argv[1..][0]);
    TextIsLeft(argv[1]);
    forall i | 0 <= i < |u| ensures u[i] != ',' && u[i] != '\0' && (ch.Cdc? ==> u[i] != '\r') {
      OnlyEscapesAdd(argv[1], KEYSTR_MAX, i);
    }
  }

  lemma FirstSpelled(t: string)
    requires t != ""
    ensures Escape(t) != "" && (Escape(t)[0] == '\0' <==> t[0] == '\0')
  {
  }

  lemma LastSpelled(t: string)
    requires t != ""
    ensures Escape(t) == Escape(t[..|t| - 1]) + Spelled(t[|t| - 1])
  {
    var a, c := t[..|t| - 1], t[|t| - 1];
    assert t == a + [c];
    EscapeJoin(a, [c]);
    assert Escape([c]) == Spelled(c) + "" == Spelled(c);
  }

  lemma LastReturn(t: string)
    requires t != ""
    ensures Escape(t) != "" && (Escape(t)[|Escape(t)| - 1] == '\r' <==> t[|t| - 1] == '\r')
  {
    LastSpelled(t);
  }

  lemma TakesArg(ch: Channel, cmd: string, a: string, more: seq<string>)
    requires Received(ch, cmd) == [[KEY_STR, a] + more]
    ensures TextTaken(Received(ch, cmd)) == Some(Unescape(a, KEYSTR_MAX))
  {
    var argv := [KEY_STR, a] + more;
    assert argv[0] == KEY_STR && argv[1] == a;
  }

  lemma TakesText(u: string, y: string)
    requires |u| <= KEYSTR_MAX && (y == "" || |u| == KEYSTR_MAX)
    ensures Unescape(Escape(u) + y, KEYSTR_MAX) == u
  {
    EscapesRead(u, y, KEYSTR_MAX);
    assert u + "" == u;
  }

  lemma SpelledField(ch: Channel, u: string)
    requires u != "" && Plain(ch, u) && |u| <= KEYSTR_MAX
    ensures Field(ch, Escape(u)) && |Escape(u)| <= 2 * KEYSTR_MAX
  {
    EscapeKeeps(ch, u);
    EscapeLength(u);
  }

  lemma ReturnBefore(u: string, v: string)
    requires u != "" && (u[|u| - 1] == '\r' && v != "" ==> v[0] != '\0')
    ensures Escape(u) != ""
    ensures Escape(u)[|Escape(u)| - 1] == '\r' && Escape(v) != "" ==> Escape(v)[0] != '\0'
    ensures v == "" ==> Escape(v) == ""
  {
    LastReturn(u);
    if v != "" { FirstSpelled(v); }
  }

  const NAME_MAX: nat := 32

  lemma SpelledComes(ch: Channel, name: string, u: string, v: string) returns (y: string, more: seq<string>)
    requires Name(ch, name) && |name| <= NAME_MAX
    requires u != "" && Plain(ch, u) && |u| <= KEYSTR_MAX
    requires u[|u| - 1] == '\r' && v != "" ==> v[0] != '\0'
    ensures Received(ch, name + "=" + Escape(u) + Escape(v)) == [[name, Escape(u) + y] + more]
    ensures v == "" ==> y == ""
  {
    SpelledField(ch, u);
    EscapeKeeps(ch, v);
    ReturnBefore(u, v);
    y, more := FieldComes(ch, name, Escape(u), Escape(v));
  }

  // The first 96 characters of a text, and the others.
  lemma PlainArrives(ch: Channel, u: string, v: string)
    requires u != "" && Plain(ch, u) && |u| <= KEYSTR_MAX && (v != "" ==> |u| == KEYSTR_MAX)
    requires u[|u| - 1] == '\r' && v != "" ==> v[0] != '\0'
    ensures TextTaken(Received(ch, KEY_STR + "=" + Escape(u) + Escape(v))) == Some(u)
  {
    var y, more := SpelledComes(ch, KEY_STR, u, v);
    TakesText(u, y);
    TakesArg(ch, KEY_STR + "=" + Escape(u) + Escape(v), Escape(u) + y, more);
  }

  lemma SpelledReturn(name: string, b: string, v: string)
    requires Name(Uart, name) && |name| <= NAME_MAX
    requires b != "" && Plain(Uart, b) && |b| <= KEYSTR_MAX && v != "" && v[0] == '\0'
    ensures Received(Uart, name + "=" + Escape(b + "\r") + Escape(v)) == [[name, Escape(b)]]
  {
    SpelledField(Uart, b);
    EscapeKeeps(Uart, v);
    FirstSpelled(v);
    EscapeJoin(b, "\r");
    assert Escape("\r") == "\r";
    ReturnIsLost(name, Escape(b), Escape(v));
    Assoc(name + "=", Escape(b), "\r");
  }

  lemma ReturnDropped(b: string, v: string)
    requires Plain(Uart, b) && 0 < |b| < KEYSTR_MAX && v != "" && v[0] == '\0'
    ensures TextTaken(Received(Uart, KEY_STR + "=" + Escape(b + "\r") + Escape(v))) == Some(b)
  {
    SpelledReturn(KEY_STR, b, v);
    assert [KEY_STR, Escape(b)] + [] == [KEY_STR, Escape(b)];
    TakesArg(Uart, KEY_STR + "=" + Escape(b + "\r") + Escape(v), Escape(b), []);
    TakesText(b, "");
    assert Escape(b) + "" == Escape(b);
  }

  lemma Halved(t: string)
    ensures var u := UpTo(t, KEYSTR_MAX);
            KEY_STR + "=" + Escape(t) == KEY_STR + "=" + Escape(u) + Escape(t[|u|..])
  {
    var u := UpTo(t, KEYSTR_MAX);
    assert t == u + t[|u|..];
    EscapeJoin(u, t[|u|..]);
    Assoc(KEY_STR + "=", Escape(u), Escape(t[|u|..]));
  }

  // The last character that is typed is not lost with the ones behind it.
  predicate LastKept(t: string) {
    |t| <= KEYSTR_MAX || t[KEYSTR_MAX - 1] != '\r' || t[KEYSTR_MAX] != '\0'
  }

  lemma UpToArrives(ch: Channel, t: string)
    requires t != "" && Plain(ch, UpTo(t, KEYSTR_MAX)) && LastKept(t)
    ensures TextTaken(Received(ch, KEY_STR + "=" + Escape(t))) == Some(UpTo(t, KEYSTR_MAX))
  {
    Halved(t);
    PlainArrives(ch, UpTo(t, KEYSTR_MAX), t[|UpTo(t, KEYSTR_MAX)|..]);
  }

  lemma UpToIsCut(ch: Channel, t: string)
    requires Plain(ch, UpTo(t, KEYSTR_MAX)) && !LastKept(t)
    ensures TextTaken(Received(ch, KEY_STR + "=" + Escape(t))) == Some(t[..KEYSTR_MAX - 1])
  {
    Halved(t);
    var b := t[..KEYSTR_MAX - 1];
    assert UpTo(t, KEYSTR_MAX) == b + "\r" && UpTo(t, KEYSTR_MAX)[KEYSTR_MAX - 1] == '\r';
    ReturnDropped(b, t[KEYSTR_MAX..]);
  }

  predicate AllCarried(ch: Channel, t: string) {
    forall i :: 0 <= i < |t| && i < KEYSTR_MAX ==> Carried(ch, t, i)
  }

  lemma CarriedIff(ch: Channel, t: string)
    ensures AllCarried(ch, t)
            <==> Plain(ch, UpTo(t, KEYSTR_MAX)) && LastKept(t)
  {
    var u := UpTo(t, KEYSTR_MAX);
    assert forall i :: 0 <= i < |u| ==> u[i] == t[i];
    if AllCarried(ch, t) {
      forall i | 0 <= i < |u| ensures u[i] != ',' && u[i] != '\0' && (ch.Cdc? ==> u[i] != '\r') {
        assert Carried(ch, t, i);
      }
      if |t| > KEYSTR_MAX { assert Carried(ch, t, KEYSTR_MAX - 1); }
    } else {
      var i :| 0 <= i < |t| && i < KEYSTR_MAX && !Carried(ch, t, i);
      assert i + 1 < |u| ==> u[i + 1] == t[i + 1];
    }
  }

  /** A text spelled with the escapes and sent as a line over either channel is what is typed,
      up to its first 96 characters, exactly when it is not empty and these can be carried;
      nothing behind them matters. */
  lemma TextLineArrivesIff(ch: Channel, t: string)
    ensures TextTaken(Received(ch, KEY_STR + "=" + Escape(t))) == Some(UpTo(t, KEYSTR_MAX))
            <==> t != "" && AllCarried(ch, t)
  {
    CarriedIff(ch, t);
    if TextTaken(Received(ch, KEY_STR + "=" + Escape(t))) == Some(UpTo(t, KEYSTR_MAX)) {
      TakenIsPlain(ch, KEY_STR + "=" + Escape(t), UpTo(t, KEYSTR_MAX));
    }
    if t != "" && Plain(ch, UpTo(t, KEYSTR_MAX)) {
      if LastKept(t) { UpToArrives(ch, t); } else { UpToIsCut(ch, t); }
    }
  }

  /** From the line to the host: what comes of such a text in any state with the keys up. */
  lemma TextLineTypes(ch: Channel, t: string, s: State)
    requires t != "" && AllCarried(ch, t) && AllUp(s)
    ensures var taken := TextTaken(Received(ch, KEY_STR + "=" + Escape(t)));
            var reports := KeyStrReports(UpTo(t, KEYSTR_MAX));
            && taken.Some? && Finish(Step(s, KeyStr(taken.value))).sent == s.sent + reports
            && HostTypes(Last(s.sent), reports) == Mapped(UpTo(t, KEYSTR_MAX))
  {
    TextLineArrivesIff(ch, t);
    TextPlays(s, UpTo(t, KEYSTR_MAX));
  }

  // ------------------------------------------------------------------- the program --

  class Keyboard {
    var keystrActive: bool
    var keystrBuf: string
    var keystrIdx: nat
    var seqBuf: seq<Report>
    var seqCount: nat
    var seqIdx: nat
    var armed: bool
    var sent: seq<Report>

    predicate Valid()
      reads this
    {
      |seqBuf| == SEQ_MAX_REPORTS && seqCount <= SEQ_MAX_REPORTS
    }

    function View(): State
      reads this
      requires Valid()
    {
      State(keystrActive, keystrBuf, keystrIdx, seqBuf[..seqCount], seqIdx, armed, sent)
    }

    constructor ()
      ensures Valid() && View() == IDLE
    {
      keystrActive, keystrBuf, keystrIdx := false, "", 0;
      seqBuf, seqCount, seqIdx := seq(SEQ_MAX_REPORTS, _ => RELEASE), 0, 0;
      armed, sent := false, [];
    }

    method AtTap(r: Report)
      requires Valid()
      modifies this
      ensures Valid() && View() == Step(old(View()), TapKey(r))
    {
      seqBuf := seqBuf[0 := r][1 := RELEASE];
      seqCount := 2;
      seqIdx := 0;
      armed := true;
    }

    method AtKeySeq(rs: seq<Report>) returns (ok: bool)
      requires Valid()
      modifies this
      ensures Valid() && ok == (1 <= |rs| <= SEQ_MAX_REPORTS)
      ensures View() == if ok then Step(old(View()), KeySeq(rs)) else old(View())
    {
      if rs == [] || |rs| > SEQ_MAX_REPORTS { return false; }
      var i := 0;
      while i < |rs|
        invariant i <= |rs| && |seqBuf| == SEQ_MAX_REPORTS && seqBuf[..i] == rs[..i]
        modifies this`seqBuf
      {
        seqBuf := seqBuf[i := rs[i]];
        i := i + 1;
      }
      assert rs[..i] == rs;
      seqCount := |rs|;
      seqIdx := 0;
      armed := true;
      return true;
    }

    method AtKeyStr(arg: string) returns (truncated: bool)
      requires Valid()
      modifies this
      ensures Valid() && View() == Step(old(View()), KeyStr(Unescape(arg, KEYSTR_MAX)))
      ensures truncated <==> Unescape(arg, KEYSTR_MAX) != Unescape(arg, KEYSTR_MAX + 1)
      ensures arg != "" ==> Releases(KeyStr(Unescape(arg, KEYSTR_MAX)))
    {
      var p, text := arg, "";
      while p != "" && |text| < KEYSTR_MAX
        invariant |text| <= KEYSTR_MAX
        invariant Unescape(arg, KEYSTR_MAX) == text + Unescape(p, KEYSTR_MAX - |text|)
        invariant Unescape(arg, KEYSTR_MAX + 1) == text + Unescape(p, KEYSTR_MAX + 1 - |text|)
        decreases |p|
        modifies {}
      {
        ghost var was := text;
        if p[0] == '\\' && |p| > 1 && p[1] == 'n' {
          text, p := text + ['\n'], p[2..];
        } else if p[0] == '\\' && |p| > 1 && p[1] == 't' {
          text, p := text + ['\t'], p[2..];
        } else if p[0] == '\\' && |p| > 1 && p[1] == '\\' {
          text, p := text + ['\\'], p[2..];
        } else {
          text, p := text + [p[0]], p[1..];
        }
        Assoc(was, [text[|text| - 1]], Unescape(p, KEYSTR_MAX - |text|));
        Assoc(was, [text[|text| - 1]], Unescape(p, KEYSTR_MAX + 1 - |text|));
      }
      truncated := p != "";
      keystrBuf := text;
      keystrIdx := 0;
      keystrActive := true;
      armed := true;
    }

    method ProcessEvent()
      requires Valid() && armed
      modifies this
      ensures Valid() && View() == Step(old(View()), Tick)
    {
      armed := false;
      if keystrActive {
        var ci := keystrIdx / 2;
        if ci >= |keystrBuf| {
          keystrActive := false;
          return;
        }
        if keystrIdx % 2 == 1 {
          sent := sent + [RELEASE];
        } else {
          var mapped, mods, key := KeystrMap(keystrBuf[ci]);
          if mapped { sent := sent + [Press(Key(mods, key))]; }
        }
        keystrIdx := keystrIdx + 1;
        armed := true;
        return;
      }
      if seqIdx < seqCount {
        sent := sent + [seqBuf[seqIdx]];
        seqIdx := seqIdx + 1;
        if seqIdx < seqCount { armed := true; }
      }
    }
  }
}
