/** From the characters of a serial channel to the arguments of a command, as `at_parser.c` does
    it: one line buffer, and `strtok_r` in place. */
module AtLine {
  import opened Wrappers

  const AT_LINE_MAX: nat := 1024
  const AT_ARGV_MAX: nat := 66

  datatype Cut = NoToken | Token(token: string, rest: string)

  function Span(s: string, d: char): (n: nat)
    ensures n <= |s| && d !in s[..n] && (n < |s| ==> s[n] == d)
    ensures s != "" && s[0] != d ==> n > 0
    ensures n == |s| <==> d !in s
  {
    if s == "" || s[0] == d then 0
    else
      var n := Span(s[1..], d) + 1;
      assert s[..n] == [s[0]] + s[1..][..n - 1] && s == [s[0]] + s[1..];
      n
  }

  /** `strtok_r` with one delimiter: leading delimiters are skipped, the one behind the token is
      eaten. */
  function StrTok(s: string, d: char): (c: Cut)
    ensures c.Token? ==> c.token != "" && d !in c.token && |c.rest| < |s|
    ensures c.Token? && c.rest != "" ==> |c.token| + 1 + |c.rest| <= |s|
    ensures c.Token? ==> |c.token| <= |s|
    ensures c.NoToken? <==> forall i :: 0 <= i < |s| ==> s[i] == d
  {
    if s == "" then NoToken
    else if s[0] == d then StrTok(s[1..], d)
    else
      var n := Span(s, d);
      if n == |s| then Token(s, "") else Token(s[..n], s[n + 1..])
  }

  function Tokens(s: string, d: char): (ts: seq<string>)
    ensures forall i :: 0 <= i < |ts| ==> ts[i] != "" && d !in ts[i]
    decreases |s|
  {
    match StrTok(s, d)
    case NoToken => []
    case Token(t, rest) => [t] + Tokens(rest, d)
  }

  // One carriage return at the end is dropped.
  function Chomp(line: string): string {
    if line != "" && line[|line| - 1] == '\r' then line[..|line| - 1] else line
  }

  // What the string functions see of a buffer.
  function CString(s: string): string {
    s[..Span(s, '\0')]
  }

  function UpTo<T>(s: seq<T>, n: nat): seq<T> {
    if |s| <= n then s else s[..n]
  }

  /** What is before the first '=', then the fields between commas. */
  function Split(line: string): (argv: seq<string>)
    ensures |argv| <= AT_ARGV_MAX
    ensures forall i :: 0 <= i < |argv| ==> argv[i] != ""
    ensures forall i :: 1 <= i < |argv| ==> ',' !in argv[i]
  {
    match StrTok(line, '=')
    case NoToken => []
    case Token(name, rest) => [name] + UpTo(Tokens(rest, ','), AT_ARGV_MAX - 1)
  }

  /** `at_argv` of what is in the line buffer. */
  function Args(buf: string): seq<string> {
    Split(Chomp(CString(buf)))
  }

  function Join(fs: seq<string>): string {
    if fs == [] then "" else if |fs| == 1 then fs[0] else fs[0] + "," + Join(fs[1..])
  }

  lemma {:induction false} SpanJoin(a: string, x: string, d: char)
    requires d !in a
    ensures Span(a + x, d) == |a| + Span(x, d)
  {
    if a == "" {
      assert a + x == x;
    } else {
      assert a[0] in a && (a + x)[1..] == a[1..] + x;
      SpanJoin(a[1..], x, d);
    }
  }

  lemma CStringJoin(h: string, w: string)
    requires '\0' !in h
    ensures CString(h + w) == h + CString(w)
  {
    SpanJoin(h, w, '\0');
  }

  lemma CStringStep(s: string)
    requires s != ""
    ensures CString(s) == if s[0] == '\0' then "" else [s[0]] + CString(s[1..])
  {
  }

  lemma {:induction false} ZeroEnds(line: string, z: string)
    requires z != "" && z[0] == '\0'
    ensures CString(line + z) == CString(line)
  {
    if line == "" {
      assert line + z == z;
    } else {
      assert (line + z)[1..] == line[1..] + z;
      ZeroEnds(line[1..], z);
      CStringStep(line);
      CStringStep(line + z);
    }
  }

  // A token that begins with `a` goes on up to the next delimiter.
  lemma CutIn(a: string, x: string, d: char)
    requires a != "" && d !in a
    ensures var c := StrTok(a + x, d); c.Token? && c.token == a + x[..Span(x, d)]
  {
    SpanJoin(a, x, d);
    assert a[0] in a && (a + x)[0] == a[0];
  }

  lemma CutAt(a: string, d: char, rest: string)
    requires a != "" && d !in a
    ensures StrTok(a + [d] + rest, d) == Token(a, rest)
  {
    var s := a + [d] + rest;
    SpanJoin(a, [d] + rest, d);
    assert s == a + ([d] + rest) && a[0] in a && s[0] == a[0];
    assert s[..|a|] == a && s[|a| + 1..] == rest;
  }

  lemma CutWhole(a: string, d: char)
    requires a != "" && d !in a
    ensures StrTok(a, d) == Token(a, "")
  {
    assert a[0] in a;
  }

  // ------------------------------------------------------------- the line buffer --

  datatype Channel = Uart | Cdc

  /** `at_line[..at_line_len]`, and the arguments of the commands run so far. */
  datatype Lines = Lines(line: string, commands: seq<seq<string>>)

  // A line without a name is no command.
  function Runs(buf: string): seq<seq<string>> {
    var argv := Args(buf);
    if argv == [] then [] else [argv]
  }

  function Take(ch: Channel, p: Lines, c: char): Lines {
    if c == '\n' then Lines("", p.commands + Runs(p.line))
    else if (ch.Cdc? && c == '\r') || |p.line| >= AT_LINE_MAX - 1 then p
    else p.(line := p.line + [c])
  }

  lemma TakeIn(ch: Channel, line: string, commands: seq<seq<string>>, c: char)
    ensures var p := Take(ch, Lines(line, []), c);
            Take(ch, Lines(line, commands), c) == Lines(p.line, commands + p.commands)
  {
  }

  function TakeAll(ch: Channel, p: Lines, input: string): Lines
    decreases |input|
  {
    if input == "" then p else TakeAll(ch, Take(ch, p, input[0]), input[1..])
  }

  /** The commands that come of `cmd` sent as a line. */
  function Received(ch: Channel, cmd: string): seq<seq<string>> {
    TakeAll(ch, Lines("", []), cmd + "\r\n").commands
  }

  predicate Stored(ch: Channel, c: char) {
    c != '\n' && !(ch.Cdc? && c == '\r')
  }

  predicate Clean(ch: Channel, s: string) {
    forall i :: 0 <= i < |s| ==> Stored(ch, s[i]) && s[i] != '\0'
  }

  predicate Field(ch: Channel, f: string) {
    f != "" && ',' !in f && Clean(ch, f)
  }

  predicate Fields(ch: Channel, fs: seq<string>) {
    forall i :: 0 <= i < |fs| ==> Field(ch, fs[i])
  }

  predicate Name(ch: Channel, name: string) {
    name != "" && '=' !in name && Clean(ch, name)
  }

  // A line that fills the buffer loses its carriage return, and then one at its end.
  predicate Fits(cmd: string) {
    cmd != "" && |cmd| < AT_LINE_MAX && (|cmd| == AT_LINE_MAX - 1 ==> cmd[|cmd| - 1] != '\r')
  }

  // ---------------------------------------------------------- arguments are fields --

  lemma {:induction false} StrTokClean(ch: Channel, s: string, d: char)
    requires Clean(ch, s)
    ensures var c := StrTok(s, d); c.Token? ==> Clean(ch, c.token) && Clean(ch, c.rest)
  {
    if s != "" && s[0] == d { StrTokClean(ch, s[1..], d); }
  }

  lemma {:induction false} TokensClean(ch: Channel, s: string, n: nat)
    requires Clean(ch, s)
    ensures Fields(ch, UpTo(Tokens(s, ','), n))
    decreases |s|
  {
    var c := StrTok(s, ',');
    if c.NoToken? || n == 0 {
    } else {
      StrTokClean(ch, s, ',');
      TokensClean(ch, c.rest, n - 1);
      var ts := UpTo(Tokens(c.rest, ','), n - 1);
      assert UpTo(Tokens(s, ','), n) == [c.token] + ts;
    }
  }

  predicate Sound(ch: Channel, argv: seq<string>) {
    argv != [] && Fields(ch, argv[1..])
  }

  ghost predicate AllSound(ch: Channel, p: Lines) {
    && (forall i :: 0 <= i < |p.line| ==> Stored(ch, p.line[i]))
    && (forall k :: 0 <= k < |p.commands| ==> Sound(ch, p.commands[k]))
  }

  lemma ArgsSound(ch: Channel, buf: string)
    requires forall i :: 0 <= i < |buf| ==> Stored(ch, buf[i])
    ensures Args(buf) != [] ==> Sound(ch, Args(buf))
  {
    var line := Chomp(CString(buf));
    assert Clean(ch, line) by {
      forall i | 0 <= i < |line| ensures Stored(ch, line[i]) && line[i] != '\0' {
        assert line[i] == CString(buf)[i] == buf[i] && CString(buf)[i] in CString(buf);
      }
    }
    StrTokClean(ch, line, '=');
    if StrTok(line, '=').Token? { TokensClean(ch, StrTok(line, '=').rest, AT_ARGV_MAX - 1); }
  }

  lemma TakeSound(ch: Channel, p: Lines, c: char)
    requires AllSound(ch, p)
    ensures AllSound(ch, Take(ch, p, c))
  {
    if c == '\n' { ArgsSound(ch, p.line); }
  }

  lemma {:induction false} CommandsSound(ch: Channel, p: Lines, input: string)
    requires AllSound(ch, p)
    ensures AllSound(ch, TakeAll(ch, p, input))
    decreases |input|
  {
    if input == "" {
    } else {
      TakeSound(ch, p, input[0]);
      CommandsSound(ch, Take(ch, p, input[0]), input[1..]);
    }
  }

  lemma {:induction false} TokensFit(s: string, n: nat)
    ensures |Join(UpTo(Tokens(s, ','), n))| <= |s|
    decreases |s|
  {
    var c := StrTok(s, ',');
    if c.NoToken? || n == 0 {
    } else {
      var ts := UpTo(Tokens(c.rest, ','), n - 1);
      TokensFit(c.rest, n - 1);
      assert UpTo(Tokens(s, ','), n) == [c.token] + ts;
      assert ([c.token] + ts)[1..] == ts;
      assert ts != [] ==> c.rest != "";
    }
  }

  lemma SplitFits(line: string)
    ensures var argv := Split(line); |argv| > 1 ==> |argv[0]| + 1 + |Join(argv[1..])| <= |line|
  {
    var c := StrTok(line, '=');
    if c.Token? {
      TokensFit(c.rest, AT_ARGV_MAX - 1);
      assert Split(line)[1..] == UpTo(Tokens(c.rest, ','), AT_ARGV_MAX - 1);
    }
  }

  // ------------------------------------------------------------- what a line becomes --

  function Kept(ch: Channel, s: string): string {
    if s == "" then "" else (if Stored(ch, s[0]) then [s[0]] else "") + Kept(ch, s[1..])
  }

  lemma {:induction false} KeptJoin(ch: Channel, a: string, b: string)
    ensures Kept(ch, a + b) == Kept(ch, a) + Kept(ch, b)
  {
    if a == "" {
      assert a + b == b;
    } else {
      assert (a + b)[1..] == a[1..] + b;
      KeptJoin(ch, a[1..], b);
      Assoc(if Stored(ch, a[0]) then [a[0]] else "", Kept(ch, a[1..]), Kept(ch, b));
    }
  }

  lemma {:induction false} KeptClean(ch: Channel, s: string)
    requires Clean(ch, s)
    ensures Kept(ch, s) == s
  {
    if s == "" {
    } else {
      KeptClean(ch, s[1..]);
    }
  }

  lemma {:induction false} Buffered(ch: Channel, p: Lines, s: string)
    requires '\n' !in s && |p.line| < AT_LINE_MAX
    ensures TakeAll(ch, p, s) == p.(line := UpTo(p.line + Kept(ch, s), AT_LINE_MAX - 1))
    decreases |s|
  {
    if s == "" {
      assert p.line + Kept(ch, s) == p.line;
    } else {
      assert s[0] in s && forall c :: c in s[1..] ==> c in s;
      Buffered(ch, Take(ch, p, s[0]), s[1..]);
      if Stored(ch, s[0]) { Assoc(p.line, [s[0]], Kept(ch, s[1..])); }
    }
  }

  lemma {:induction false} TakeJoin(ch: Channel, p: Lines, a: string, b: string)
    ensures TakeAll(ch, p, a + b) == TakeAll(ch, TakeAll(ch, p, a), b)
    decreases |a|
  {
    if a == "" {
      assert a + b == b;
    } else {
      assert (a + b)[1..] == a[1..] + b;
      TakeJoin(ch, Take(ch, p, a[0]), a[1..], b);
    }
  }

  // The line that is taken apart when `cmd` has been sent.
  function LineOf(ch: Channel, cmd: string): string {
    Chomp(CString(UpTo(Kept(ch, cmd + "\r"), AT_LINE_MAX - 1)))
  }

  lemma OneLine(ch: Channel, cmd: string)
    requires '\n' !in cmd
    ensures Received(ch, cmd) == if Split(LineOf(ch, cmd)) == [] then [] else [Split(LineOf(ch, cmd))]
  {
    var empty, line := Lines("", []), cmd + "\r";
    assert cmd + "\r\n" == line + "\n";
    TakeJoin(ch, empty, line, "\n");
    Buffered(ch, empty, line);
    assert "" + Kept(ch, line) == Kept(ch, line);
    var p := TakeAll(ch, empty, line);
    assert TakeAll(ch, p, "\n") == Take(ch, p, '\n');
  }

  lemma ChompJoin(h: string, r: string)
    ensures Chomp(h + r) == if r == "" then Chomp(h) else h + Chomp(r)
  {
    if r == "" {
      assert h + r == h;
    } else {
      assert (h + r)[..|h + r| - 1] == h + r[..|r| - 1];
    }
  }

  lemma RunsAs(ch: Channel, h: string, x: string, line: string, argv: seq<string>)
    requires Clean(ch, h) && '\n' !in x && LineOf(ch, h + x) == line && Split(line) == argv != []
    ensures Received(ch, h + x) == [argv]
  {
    OneLine(ch, h + x);
  }

  // What is behind the first characters of a line.
  function Tail(ch: Channel, x: string, room: nat): string {
    CString(UpTo(Kept(ch, x + "\r"), room))
  }

  lemma CutOff(ch: Channel, h: string, x: string)
    requires Clean(ch, h) && h != "" && |h| < AT_LINE_MAX - 1
    ensures LineOf(ch, h + x) == Chomp(h + Tail(ch, x, AT_LINE_MAX - 1 - |h|))
  {
    assert h + x + "\r" == h + (x + "\r");
    KeptJoin(ch, h, x + "\r");
    KeptClean(ch, h);
    var w := UpTo(Kept(ch, x + "\r"), AT_LINE_MAX - 1 - |h|);
    assert UpTo(h + Kept(ch, x + "\r"), AT_LINE_MAX - 1) == h + w;
    CStringJoin(h, w);
  }

  lemma BufferOf(ch: Channel, cmd: string)
    requires Clean(ch, cmd)
    ensures var buf := UpTo(Kept(ch, cmd + "\r"), AT_LINE_MAX - 1);
            if |cmd| >= AT_LINE_MAX - 1 then buf == cmd[..AT_LINE_MAX - 1]
            else buf == cmd + Kept(ch, "\r")
  {
    KeptJoin(ch, cmd, "\r");
    KeptClean(ch, cmd);
  }

  lemma CleanWhole(ch: Channel, s: string)
    requires Clean(ch, s)
    ensures CString(s) == s && (ch.Cdc? ==> Chomp(s) == s)
  {
    CStringJoin(s, "");
    assert s + "" == s;
  }

  lemma CleanLine(ch: Channel, cmd: string)
    requires Clean(ch, cmd) && cmd != ""
    ensures if Fits(cmd) then LineOf(ch, cmd) == cmd else |LineOf(ch, cmd)| < |cmd|
  {
    BufferOf(ch, cmd);
    if |cmd| >= AT_LINE_MAX - 1 {
      CleanWhole(ch, cmd[..AT_LINE_MAX - 1]);
    } else if ch.Cdc? {
      assert cmd + "" == cmd;
      CleanWhole(ch, cmd);
    } else {
      CStringJoin(cmd, "\r");
      assert Chomp(cmd + "\r") == cmd;
    }
  }

  // ------------------------------------------------------------------ what arrives --

  lemma NextToken(a: string, rest: string)
    requires a != "" && ',' !in a
    ensures Tokens(a + "," + rest, ',') == [a] + Tokens(rest, ',') && Tokens(a, ',') == [a]
  {
    CutAt(a, ',', rest);
    CutWhole(a, ',');
    assert Tokens("", ',') == [];
  }

  lemma {:induction false} FieldsCome(fs: seq<string>)
    requires forall i :: 0 <= i < |fs| ==> fs[i] != "" && ',' !in fs[i]
    ensures Tokens(Join(fs), ',') == fs
  {
    if fs == [] {
    } else {
      NextToken(fs[0], Join(fs[1..]));
      FieldsCome(fs[1..]);
      assert fs == [fs[0]] + fs[1..];
    }
  }

  lemma {:induction false} JoinClean(ch: Channel, fs: seq<string>)
    requires Fields(ch, fs)
    ensures Clean(ch, Join(fs))
  {
    if fs == [] {
    } else {
      JoinClean(ch, fs[1..]);
    }
  }

  lemma SplitJoined(name: string, fs: seq<string>)
    requires name != "" && '=' !in name && |fs| < AT_ARGV_MAX
    requires forall i :: 0 <= i < |fs| ==> fs[i] != "" && ',' !in fs[i]
    ensures Split(name + "=" + Join(fs)) == [name] + fs
  {
    CutAt(name, '=', Join(fs));
    FieldsCome(fs);
  }

  lemma NothingElseArrives(ch: Channel, cmd: string, argv: seq<string>)
    requires argv != [] && Received(ch, cmd) == [argv]
    ensures Fields(ch, argv[1..])
  {
    CommandsSound(ch, Lines("", []), cmd + "\r\n");
    assert Received(ch, cmd)[0] == argv;
  }

  lemma CommandClean(ch: Channel, name: string, fs: seq<string>)
    requires Name(ch, name) && Fields(ch, fs)
    ensures Clean(ch, name + "=" + Join(fs))
  {
    JoinClean(ch, fs);
  }

  lemma RunsIff(ch: Channel, cmd: string, argv: seq<string>)
    requires Clean(ch, cmd) && argv != []
    ensures Received(ch, cmd) == [argv] <==> Split(LineOf(ch, cmd)) == argv
  {
    OneLine(ch, cmd);
    assert [argv][0] == argv;
  }

  lemma CommandTooLong(line: string, name: string, fs: seq<string>)
    requires fs != [] && |line| < |name| + 1 + |Join(fs)|
    ensures Split(line) != [name] + fs
  {
    SplitFits(line);
    assert ([name] + fs)[1..] == fs;
  }

  lemma CleanSplitsIff(ch: Channel, name: string, fs: seq<string>)
    requires Name(ch, name) && 0 < |fs| < AT_ARGV_MAX && Fields(ch, fs)
    ensures var cmd := name + "=" + Join(fs); Split(LineOf(ch, cmd)) == [name] + fs <==> Fits(cmd)
  {
    var cmd := name + "=" + Join(fs);
    CommandClean(ch, name, fs);
    CleanLine(ch, cmd);
    if Fits(cmd) {
      SplitJoined(name, fs);
    } else {
      CommandTooLong(LineOf(ch, cmd), name, fs);
    }
  }

  /** Sent as a line, a command with up to 65 fields reaches its handler as it was meant, and
      nothing else is run, exactly when it fits the buffer and no field is empty or has a
      comma, a zero byte, a line feed or, over USB, a carriage return in it. An '=' does no
      harm. */
  lemma FieldsArriveIff(ch: Channel, name: string, fs: seq<string>)
    requires Name(ch, name) && 0 < |fs| < AT_ARGV_MAX
    ensures var cmd := name + "=" + Join(fs);
            Received(ch, cmd) == [[name] + fs] <==> Fields(ch, fs) && Fits(cmd)
  {
    var cmd, argv := name + "=" + Join(fs), [name] + fs;
    assert argv[1..] == fs;
    if Received(ch, cmd) == [argv] { NothingElseArrives(ch, cmd, argv); }
    if Fields(ch, fs) {
      CommandClean(ch, name, fs);
      RunsIff(ch, cmd, argv);
      CleanSplitsIff(ch, name, fs);
    }
  }

  /** A command without arguments reaches its handler by its name alone, exactly when it fits; an
      empty line runs nothing. */
  lemma NameArrivesIff(ch: Channel, name: string)
    requires Name(ch, name)
    ensures Received(ch, name) == [[name]] <==> Fits(name)
    ensures Received(ch, "") == []
  {
    var line := LineOf(ch, name);
    CleanLine(ch, name);
    RunsIff(ch, name, [name]);
    CutWhole(name, '=');
    if Split(line) == [name] {
      assert Split(line)[0] == name && |name| <= |line|;
    }
    OneLine(ch, "");
    NoTail(ch, AT_LINE_MAX - 1);
    assert LineOf(ch, "") == Chomp(Tail(ch, "", AT_LINE_MAX - 1)) == "";
  }

  lemma UpToCons<T>(argv: seq<T>, x: T, xs: seq<T>, n: nat)
    requires n > 0
    ensures argv + UpTo([x] + xs, n) == argv + [x] + UpTo(xs, n - 1)
  {
    assert UpTo([x] + xs, n) == [x] + UpTo(xs, n - 1);
  }

  lemma NoTail(ch: Channel, room: nat)
    requires room > 0
    ensures Tail(ch, "", room) == if ch.Uart? then "\r" else ""
  {
    assert "" + "\r" == "\r";
    if ch.Uart? {
      KeptClean(ch, "\r");
      CleanWhole(ch, "\r");
    } else {
      assert "\r"[1..] == "";
    }
  }

  lemma TailStarts(x: string, room: nat)
    requires x != "" && '\n' !in x && room > 0
    ensures Tail(Uart, x, room) == "" <==> x[0] == '\0'
  {
    assert x[0] in x && (x + "\r")[0] == x[0];
    var k := Kept(Uart, x + "\r");
    assert k[0] == x[0];
    CStringStep(UpTo(k, room));
  }

  lemma Tacked(ch: Channel, h: string, r: string)
    requires Clean(ch, h) && h != ""
    requires ch.Uart? && h[|h| - 1] == '\r' ==> r != ""
    ensures Chomp(h + r) == h + Chomp(r)
  {
    ChompJoin(h, r);
    if r == "" { assert h + Chomp(r) == h; }
  }

  lemma TailBehind(ch: Channel, h: string, x: string, room: nat)
    requires Clean(ch, h) && h != "" && '\n' !in x && room > 0
    requires h[|h| - 1] == '\r' && x != "" ==> x[0] != '\0'
    ensures ch.Uart? && h[|h| - 1] == '\r' ==> Tail(ch, x, room) != ""
    ensures x == "" ==> Chomp(Tail(ch, x, room)) == ""
  {
    if x == "" {
      NoTail(ch, room);
    } else if ch.Uart? {
      TailStarts(x, room);
    }
  }

  lemma RestOfLine(ch: Channel, h: string, x: string) returns (q: string)
    requires Clean(ch, h) && h != "" && |h| < AT_LINE_MAX - 1 && '\n' !in x
    requires h[|h| - 1] == '\r' && x != "" ==> x[0] != '\0'
    ensures LineOf(ch, h + x) == h + q && (x == "" ==> q == "")
  {
    var r := Tail(ch, x, AT_LINE_MAX - 1 - |h|);
    q := Chomp(r);
    CutOff(ch, h, x);
    TailBehind(ch, h, x, AT_LINE_MAX - 1 - |h|);
    Tacked(ch, h, r);
  }

  lemma FirstField(name: string, a: string, q: string) returns (y: string, more: seq<string>)
    requires name != "" && '=' !in name && a != "" && ',' !in a
    ensures Split(name + "=" + a + q) == [name, a + y] + more && (q == "" ==> y == "")
  {
    assert name + "=" + a + q == name + "=" + (a + q);
    CutAt(name, '=', a + q);
    CutIn(a, q, ',');
    y := q[..Span(q, ',')];
    var ts := Tokens(StrTok(a + q, ',').rest, ',');
    more := UpTo(ts, AT_ARGV_MAX - 2);
    UpToCons([name], a + y, ts, AT_ARGV_MAX - 1);
    assert [name] + [a + y] == [name, a + y];
  }

  /** Whatever stands behind a field that is good for one, the field comes first. */
  lemma FieldComes(ch: Channel, name: string, a: string, x: string) returns (y: string, more: seq<string>)
    requires Name(ch, name) && Field(ch, a) && |name| + |a| < AT_LINE_MAX - 2 && '\n' !in x
    requires a[|a| - 1] == '\r' && x != "" ==> x[0] != '\0'
    ensures Received(ch, name + "=" + a + x) == [[name, a + y] + more] && (x == "" ==> y == "")
  {
    var h := name + "=" + a;
    var q := RestOfLine(ch, h, x);
    y, more := FirstField(name, a, q);
    RunsAs(ch, h, x, h + q, [name, a + y] + more);
  }

  lemma ReturnCut(cmd: string, x: string)
    requires Clean(Uart, cmd) && |cmd| < AT_LINE_MAX - 2
    requires '\n' !in x && x != "" && x[0] == '\0'
    ensures LineOf(Uart, cmd + "\r" + x) == cmd
  {
    var h := cmd + "\r";
    CutOff(Uart, h, x);
    TailStarts(x, AT_LINE_MAX - 1 - |h|);
    ChompJoin(h, "");
    ChompJoin(cmd, "\r");
    assert cmd + "" == cmd;
  }

  lemma OneField(name: string, b: string)
    requires name != "" && '=' !in name && b != "" && ',' !in b
    ensures Split(name + "=" + b) == [name, b]
  {
    assert Join([b]) == b && [name] + [b] == [name, b];
    SplitJoined(name, [b]);
  }

  /** A carriage return with a zero byte behind it is taken for the end of the line. */
  lemma ReturnIsLost(name: string, b: string, x: string)
    requires Name(Uart, name) && Field(Uart, b) && |name| + |b| < AT_LINE_MAX - 3
    requires '\n' !in x && x != "" && x[0] == '\0'
    ensures Received(Uart, name + "=" + b + "\r" + x) == [[name, b]]
  {
    var cmd := name + "=" + b;
    ReturnCut(cmd, x);
    OneField(name, b);
    RunsAs(Uart, cmd + "\r", x, cmd, [name, b]);
  }

  /** The token loop of `at_process_line`. */
  method Tokenize(buf: string) returns (argv: seq<string>)
    ensures argv == Args(buf)
  {
    argv := [];
    var line := Chomp(CString(buf));
    var cut := StrTok(line, '=');
    if cut.NoToken? { return; }
    argv := [cut.token];
    var arg := StrTok(cut.rest, ',');
    ghost var left := cut.rest;
    while arg.Token? && |argv| < AT_ARGV_MAX
      invariant 1 <= |argv| <= AT_ARGV_MAX && arg == StrTok(left, ',')
      invariant Split(line) == argv + UpTo(Tokens(left, ','), AT_ARGV_MAX - |argv|)
      decreases |left|
    {
      UpToCons(argv, arg.token, Tokens(arg.rest, ','), AT_ARGV_MAX - |argv|);
      argv := argv + [arg.token];
      left := arg.rest;
      arg := StrTok(arg.rest, ',');
    }
  }

  /** The line buffer, one for both channels. */
  class Parser {
    var atLine: array<char>
    var atLineLen: nat

    ghost predicate Valid()
      reads this
    {
      atLine.Length == AT_LINE_MAX && atLineLen < AT_LINE_MAX
    }

    ghost function Line(): string
      reads this, atLine
      requires Valid()
    {
      atLine[..atLineLen]
    }

    constructor ()
      ensures Valid() && Line() == "" && fresh(atLine)
    {
      atLine := new char[AT_LINE_MAX];
      atLineLen := 0;
    }

    method EndLine() returns (argv: seq<string>)
      requires Valid()
      modifies this`atLineLen, atLine
      ensures Valid() && Line() == "" && argv == Args(old(Line()))
    {
      ghost var line := Line();
      atLine[atLineLen] := '\0';
      ghost var z := atLine[atLineLen..];
      assert atLine[..] == line + z;
      ZeroEnds(line, z);
      atLineLen := 0;
      argv := Tokenize(atLine[..]);
    }

    /** One turn of the loops in `AT_Poll`. */
    method Store(ch: Channel, c: char) returns (commands: seq<seq<string>>)
      requires Valid()
      modifies this`atLineLen, atLine
      ensures Valid() && Lines(Line(), commands) == Take(ch, Lines(old(Line()), []), c)
    {
      commands := [];
      if c == '\n' {
        var argv := EndLine();
        if argv != [] { commands := [argv]; }
      } else if !(ch.Cdc? && c == '\r') && atLineLen < AT_LINE_MAX - 1 {
        atLine[atLineLen] := c;
        atLineLen := atLineLen + 1;
      }
    }

    /** `AT_Poll`: the characters one channel has received are stored, and each line feed runs
        a command. */
    method Poll(ch: Channel, input: string) returns (commands: seq<seq<string>>)
      requires Valid()
      modifies this`atLineLen, atLine
      ensures Valid() && Lines(Line(), commands) == TakeAll(ch, Lines(old(Line()), []), input)
    {
      commands := [];
      var i := 0;
      while i < |input|
        invariant i <= |input| && Valid()
        invariant TakeAll(ch, Lines(Line(), commands), input[i..]) == TakeAll(ch, Lines(old(Line()), []), input)
      {
        assert input[i..][1..] == input[i + 1..];
        TakeIn(ch, Line(), commands, input[i]);
        var run := Store(ch, input[i]);
        commands := commands + run;
        i := i + 1;
      }
    }
  }
}
