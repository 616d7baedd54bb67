/** Text as HID keyboard reports: the US-layout tables of `kb.rs` and `at_cmds.c`, the report
    stream of the Rust engine, and what a host makes of a stream. */
module KeyText {
  import opened Wrappers

  datatype Report = Report(mods: nat, keys: seq<nat>) // six key codes, 0 for none
  datatype Key = Key(mods: nat, code: nat)

  const RELEASE := Report(0, [0, 0, 0, 0, 0, 0])

  function Press(k: Key): Report {
    Report(k.mods, [k.code, 0, 0, 0, 0, 0])
  }

  // ----------------------------------------------------------------- the tables --

  /** `ascii_to_hid` of the Rust engine. */
  function AsciiToHid(ch: char): Option<Key> {
    var c := ch as int;
    if 'a' <= ch <= 'z' then Some(Key(0, c - 'a' as int + 0x04))
    else if 'A' <= ch <= 'Z' then Some(Key(2, c - 'A' as int + 0x04))
    else if '1' <= ch <= '9' then Some(Key(0, c - '1' as int + 0x1E))
    else
      match ch
      case '0' => Some(Key(0, 0x27))
      case '!' => Some(Key(2, 0x1E))
      case '@' => Some(Key(2, 0x1F))
      case '#' => Some(Key(2, 0x20))
      case '$' => Some(Key(2, 0x21))
      case '%' => Some(Key(2, 0x22))
      case '^' => Some(Key(2, 0x23))
      case '&' => Some(Key(2, 0x24))
      case '*' => Some(Key(2, 0x25))
      case '(' => Some(Key(2, 0x26))
      case ')' => Some(Key(2, 0x27))
      case ' ' => Some(Key(0, 0x2C))
      case '\n' => Some(Key(0, 0x28))
      case '\t' => Some(Key(0, 0x2B))
      case '-' => Some(Key(0, 0x2D))
      case '_' => Some(Key(2, 0x2D))
      case '=' => Some(Key(0, 0x2E))
      case '+' => Some(Key(2, 0x2E))
      case '[' => Some(Key(0, 0x2F))
      case '{' => Some(Key(2, 0x2F))
      case ']' => Some(Key(0, 0x30))
      case '}' => Some(Key(2, 0x30))
      case '\\' => Some(Key(0, 0x31))
      case '|' => Some(Key(2, 0x31))
      case ';' => Some(Key(0, 0x33))
      case ':' => Some(Key(2, 0x33))
      case '\'' => Some(Key(0, 0x34))
      case '"' => Some(Key(2, 0x34))
      case '`' => Some(Key(0, 0x35))
      case '~' => Some(Key(2, 0x35))
      case ',' => Some(Key(0, 0x36))
      case '<' => Some(Key(2, 0x36))
      case '.' => Some(Key(0, 0x37))
      case '>' => Some(Key(2, 0x37))
      case '/' => Some(Key(0, 0x38))
      case '?' => Some(Key(2, 0x38))
      case _ => None
  }

  /** The same table as a host's US layout has it: by key code, one character without and one
      with shift. */
  function Legend(code: nat): Option<(char, char)> {
    if 0x04 <= code <= 0x1D then Some(((code + 0x5D) as char, (code + 0x3D) as char))
    else
      match code
      case 0x1E => Some(('1', '!'))
      case 0x1F => Some(('2', '@'))
      case 0x20 => Some(('3', '#'))
      case 0x21 => Some(('4', '$'))
      case 0x22 => Some(('5', '%'))
      case 0x23 => Some(('6', '^'))
      case 0x24 => Some(('7', '&'))
      case 0x25 => Some(('8', '*'))
      case 0x26 => Some(('9', '('))
      case 0x27 => Some(('0', ')'))
      case 0x28 => Some(('\n', '\n'))
      case 0x2B => Some(('\t', '\t'))
      case 0x2C => Some((' ', ' '))
      case 0x2D => Some(('-', '_'))
      case 0x2E => Some(('=', '+'))
      case 0x2F => Some(('[', '{'))
      case 0x30 => Some((']', '}'))
      case 0x31 => Some(('\\', '|'))
      case 0x33 => Some((';', ':'))
      case 0x34 => Some(('\'', '"'))
      case 0x35 => Some(('`', '~'))
      case 0x36 => Some((',', '<'))
      case 0x37 => Some(('.', '>'))
      case 0x38 => Some(('/', '?'))
      case _ => None
  }

  // What a host types for a key.
  function Typed(k: Key): string {
    match Legend(k.code)
    case None => ""
    case Some(pair) => if k.mods == 2 then [pair.1] else [pair.0]
  }

  /** The engine's table and the host's are inverse to each other. */
  lemma TablesInverse(ch: char)
    ensures AsciiToHid(ch).Some? ==> Typed(AsciiToHid(ch).value) == [ch] && AsciiToHid(ch).value.code > 0
  {
  }

  lemma EveryLegendReached(code: nat, shift: bool)
    ensures var k := Key(if shift then 2 else 0, code);
            Legend(code).Some? && !(shift && code in {0x28, 0x2B, 0x2C}) ==> AsciiToHid(Typed(k)[0]) == Some(k)
  {
  }

  /** `keystr_map` of the CH582 agrees with the Rust table on every character. */
  method KeystrMap(c: char) returns (mapped: bool, mods: nat, key: nat)
    ensures AsciiToHid(c) == if mapped then Some(Key(mods, key)) else None
  {
    mods, key := 0, 0;
    if 'a' <= c <= 'z' { return true, mods, c as int - 'a' as int + 4; }
    if 'A' <= c <= 'Z' { return true, 2, c as int - 'A' as int + 4; }
    if '1' <= c <= '9' { return true, mods, c as int - '1' as int + 30; }
    if c == '0' { return true, mods, 39; }
    match c {
      case ' ' => return true, mods, 44;
      case '\t' => return true, mods, 43;
      case '\n' => return true, mods, 40;
      case '-' => return true, mods, 45;
      case '=' => return true, mods, 46;
      case '[' => return true, mods, 47;
      case ']' => return true, mods, 48;
      case '\\' => return true, mods, 49;
      case ';' => return true, mods, 51;
      case '\'' => return true, mods, 52;
      case '`' => return true, mods, 53;
      case ',' => return true, mods, 54;
      case '.' => return true, mods, 55;
      case '/' => return true, mods, 56;
      case _ =>
    }
    var sym := "!@#$%^&*()";
    var i := 0;
    while i < |sym|
      invariant i <= |sym| && forall k :: 0 <= k < i ==> c != sym[k]
    {
      if c == sym[i] { return true, 2, if i == 9 then 39 else 30 + i; }
      i := i + 1;
    }
    assert c != sym[0] && c != sym[1] && c != sym[2] && c != sym[3] && c != sym[4];
    assert c != sym[5] && c != sym[6] && c != sym[7] && c != sym[8] && c != sym[9];
    mods := 2;
    match c {
      case '_' => return true, mods, 45;
      case '+' => return true, mods, 46;
      case '{' => return true, mods, 47;
      case '}' => return true, mods, 48;
      case '|' => return true, mods, 49;
      case ':' => return true, mods, 51;
      case '"' => return true, mods, 52;
      case '~' => return true, mods, 53;
      case '<' => return true, mods, 54;
      case '>' => return true, mods, 55;
      case '?' => return true, mods, 56;
      case _ =>
    }
    return false, mods, key;
  }

  // ------------------------------------------------------------------- the streams --

  /** The text with the characters no key types left out. */
  function Mapped(s: string): string {
    if s == "" then "" else (if AsciiToHid(s[0]).Some? then [s[0]] else "") + Mapped(s[1..])
  }

  function TapReports(c: char): seq<Report> {
    match AsciiToHid(c)
    case None => []
    case Some(k) => [Press(k), RELEASE]
  }

  /** The Rust engine's reports for a text: a press and a release for each mapped character. */
  function TextReports(s: string): seq<Report> {
    if s == "" then [] else TapReports(s[0]) + TextReports(s[1..])
  }

  function KeyReports(k: Option<Key>): seq<Report> {
    match k
    case None => [RELEASE]
    case Some(key) => [Press(key), RELEASE]
  }

  function CharReports(c: char): seq<Report> {
    KeyReports(AsciiToHid(c))
  }

  /** The CH582's: an unmapped character still gets its release. */
  function KeyStrReports(s: string): seq<Report> {
    if s == "" then [] else CharReports(s[0]) + KeyStrReports(s[1..])
  }

  /** A host types what is newly pressed: key codes of a report that the one before did not
      have. */
  function NewlyTyped(before: Report, r: Report, i: nat): string
    requires i <= |r.keys|
    decreases |r.keys| - i
  {
    if i == |r.keys| then ""
    else (if r.keys[i] == 0 || r.keys[i] in before.keys then "" else Typed(Key(r.mods, r.keys[i])))
         + NewlyTyped(before, r, i + 1)
  }

  function HostTypes(before: Report, rs: seq<Report>): string
    decreases |rs|
  {
    if rs == [] then "" else NewlyTyped(before, rs[0], 0) + HostTypes(rs[0], rs[1..])
  }

  lemma {:induction false} NoKeys(before: Report, r: Report, i: nat)
    requires i <= |r.keys| && forall j :: i <= j < |r.keys| ==> r.keys[j] == 0
    ensures NewlyTyped(before, r, i) == ""
    decreases |r.keys| - i
  {
    if i == |r.keys| {
    } else {
      NoKeys(before, r, i + 1);
    }
  }

  lemma NothingNew(before: Report)
    ensures NewlyTyped(before, RELEASE, 0) == ""
  {
    assert forall i :: 0 <= i < 6 ==> RELEASE.keys[i] == 0;
    NoKeys(before, RELEASE, 0);
  }

  lemma PressTypes(before: Report, k: Key)
    requires k.code > 0
    ensures NewlyTyped(before, Press(k), 0) == if k.code in before.keys then "" else Typed(k)
  {
    var r := Press(k);
    assert r.keys[0] == k.code && forall j :: 1 <= j < 6 ==> r.keys[j] == 0;
    NoKeys(before, r, 1);
  }

  lemma Released(before: Report, rest: seq<Report>)
    ensures HostTypes(before, [RELEASE] + rest) == HostTypes(RELEASE, rest)
  {
    assert ([RELEASE] + rest)[1..] == rest;
    NothingNew(before);
  }

  lemma TapTypes(before: Report, k: Key, rest: seq<Report>)
    requires k.code > 0
    ensures HostTypes(before, [Press(k), RELEASE] + rest)
            == (if k.code in before.keys then "" else Typed(k)) + HostTypes(RELEASE, rest)
  {
    var rs := [Press(k), RELEASE] + rest;
    assert rs[0] == Press(k) && rs[1..] == [RELEASE] + rest;
    PressTypes(before, k);
    Released(Press(k), rest);
  }

  lemma CharTypes(before: Report, c: char, rest: seq<Report>)
    requires AsciiToHid(c).Some?
    ensures HostTypes(before, TapReports(c) + rest)
            == (if AsciiToHid(c).value.code in before.keys then "" else [c]) + HostTypes(RELEASE, rest)
  {
    TablesInverse(c);
    TapTypes(before, AsciiToHid(c).value, rest);
  }

  function FirstKey(s: string): nat
    requires Mapped(s) != ""
  {
    if AsciiToHid(s[0]).Some? then AsciiToHid(s[0]).value.code else FirstKey(s[1..])
  }

  // The key the first mapped character needs is up.
  predicate FirstKeyUp(before: Report, s: string) {
    Mapped(s) != "" ==> FirstKey(s) !in before.keys
  }

  lemma {:induction false} FirstKeyReal(s: string)
    requires Mapped(s) != ""
    ensures FirstKey(s) > 0
  {
    if AsciiToHid(s[0]).Some? { TablesInverse(s[0]); } else { FirstKeyReal(s[1..]); }
  }

  lemma MappedKeyUp(s: string)
    ensures FirstKeyUp(RELEASE, s)
  {
    if Mapped(s) != "" { FirstKeyReal(s); }
  }

  /** For every text a host types exactly its mapped characters from the Rust engine's reports,
      provided the first one's key was not already held down, and only then. */
  lemma {:induction false} TextTypesIff(before: Report, s: string)
    ensures HostTypes(before, TextReports(s)) == Mapped(s) <==> FirstKeyUp(before, s)
    ensures HostTypes(RELEASE, TextReports(s)) == Mapped(s)
    decreases |s|, before != RELEASE
  {
    if s == "" {
    } else {
      if before != RELEASE {
        TextTypesIff(RELEASE, s);
        TextTypesIff(before, s[1..]);
      } else {
        TextTypesIff(RELEASE, s[1..]);
      }
      MappedKeyUp(s);
      if AsciiToHid(s[0]).Some? {
        CharTypes(before, s[0], TextReports(s[1..]));
        CharTypes(RELEASE, s[0], TextReports(s[1..]));
      } else {
        assert TextReports(s) == TextReports(s[1..]);
      }
    }
  }

  // What a character of the CH582's playback makes a host type.
  function TypedOrLost(before: Report, c: char): string {
    match AsciiToHid(c)
    case None => ""
    case Some(k) => if k.code in before.keys then "" else [c]
  }

  lemma KeyStrCharTypes(before: Report, c: char, rest: seq<Report>)
    ensures HostTypes(before, CharReports(c) + rest) == TypedOrLost(before, c) + HostTypes(RELEASE, rest)
  {
    if AsciiToHid(c).Some? {
      CharTypes(before, c, rest);
    } else {
      Released(before, rest);
    }
  }

  lemma KeysUp(c: char)
    ensures TypedOrLost(RELEASE, c) == Mapped([c])
  {
    TablesInverse(c);
    assert [c][1..] == "";
  }

  /** The same of the CH582's reports, where an unmapped first character releases every key. */
  lemma {:induction false} KeyStrTypesIff(before: Report, s: string)
    ensures HostTypes(RELEASE, KeyStrReports(s)) == Mapped(s)
    ensures HostTypes(before, KeyStrReports(s)) == Mapped(s)
            <==> (s == "" || AsciiToHid(s[0]).None? || AsciiToHid(s[0]).value.code !in before.keys)
    decreases |s|
  {
    if s == "" {
    } else {
      KeyStrTypesIff(RELEASE, s[1..]);
      KeyStrCharTypes(before, s[0], KeyStrReports(s[1..]));
      KeyStrCharTypes(RELEASE, s[0], KeyStrReports(s[1..]));
      KeysUp(s[0]);
    }
  }

  // ------------------------------------------------------------------ the Rust engine --

  datatype Op = Hold(r: Report) | Tap(mods: nat, key: nat) | Text(s: string) | Seq(reports: seq<Report>)

  function OpReports(op: Op): seq<Report> {
    match op
    case Hold(r) => [r]
    case Tap(mods, key) => [Press(Key(mods, key)), RELEASE]
    case Text(s) => TextReports(s)
    case Seq(reports) => reports
  }

  function AllReports(ops: seq<Op>): seq<Report> {
    if ops == [] then [] else OpReports(ops[0]) + AllReports(ops[1..])
  }

  function AllTexts(ops: seq<Op>): string
    requires forall i :: 0 <= i < |ops| ==> ops[i].Text?
  {
    if ops == [] then "" else ops[0].s + AllTexts(ops[1..])
  }

  lemma {:induction false} TextReportsJoin(s: string, t: string)
    ensures TextReports(s + t) == TextReports(s) + TextReports(t)
  {
    if s == "" {
      assert s + t == t;
    } else {
      assert (s + t)[1..] == s[1..] + t && (s + t)[0] == s[0];
      TextReportsJoin(s[1..], t);
      Assoc(TapReports(s[0]), TextReports(s[1..]), TextReports(t));
    }
  }

  lemma TextReportsNext(s: string, i: nat)
    requires i < |s|
    ensures TextReports(s[..i + 1]) == TextReports(s[..i]) + TapReports(s[i])
  {
    assert s[..i + 1] == s[..i] + [s[i]];
    TextReportsJoin(s[..i], [s[i]]);
    assert TextReports([s[i]]) == TapReports(s[i]) + TextReports("");
  }

  /** Texts queued behind each other are typed as one, whatever their lengths. */
  lemma {:induction false} QueuedTextsType(ops: seq<Op>)
    requires forall i :: 0 <= i < |ops| ==> ops[i].Text?
    ensures AllReports(ops) == TextReports(AllTexts(ops))
    ensures HostTypes(RELEASE, AllReports(ops)) == Mapped(AllTexts(ops))
  {
    if ops == [] {
    } else {
      QueuedTextsType(ops[1..]);
      TextReportsJoin(ops[0].s, AllTexts(ops[1..]));
    }
    TextTypesIff(RELEASE, AllTexts(ops));
  }

  // ------------------------------------------------------- any queue of operations --

  // What a host types for an operation, given the report before it.
  function OpTyped(before: Report, op: Op): string {
    match op
    case Hold(r) => NewlyTyped(before, r, 0)
    case Tap(mods, key) => if key in before.keys then "" else Typed(Key(mods, key))
    case Text(s) => if FirstKeyUp(before, s) then Mapped(s) else Mapped(s)[1..]
    case Seq(reports) => HostTypes(before, reports)
  }

  function LastReport(before: Report, rs: seq<Report>): Report {
    if rs == [] then before else rs[|rs| - 1]
  }

  // What it leaves pressed.
  function OpLeaves(before: Report, op: Op): Report {
    match op
    case Hold(r) => r
    case Tap(_, _) => RELEASE
    case Text(s) => if Mapped(s) == "" then before else RELEASE
    case Seq(reports) => LastReport(before, reports)
  }

  function AllTyped(before: Report, ops: seq<Op>): string
    decreases |ops|
  {
    if ops == [] then "" else OpTyped(before, ops[0]) + AllTyped(OpLeaves(before, ops[0]), ops[1..])
  }

  lemma {:induction false} TypesOn(before: Report, a: seq<Report>, b: seq<Report>)
    ensures HostTypes(before, a + b) == HostTypes(before, a) + HostTypes(LastReport(before, a), b)
    decreases |a|
  {
    if a == [] {
      assert a + b == b;
    } else {
      assert (a + b)[1..] == a[1..] + b;
      TypesOn(a[0], a[1..], b);
      Assoc(NewlyTyped(before, a[0], 0), HostTypes(a[0], a[1..]), HostTypes(LastReport(before, a), b));
    }
  }

  lemma KeyTapTypes(before: Report, k: Key, rest: seq<Report>)
    ensures HostTypes(before, [Press(k), RELEASE] + rest)
            == (if k.code in before.keys then "" else Typed(k)) + HostTypes(RELEASE, rest)
  {
    if k.code > 0 {
      TapTypes(before, k, rest);
    } else {
      var rs := [Press(k), RELEASE] + rest;
      assert rs[0] == Press(k) && rs[1..] == [RELEASE] + rest;
      NoKeys(before, Press(k), 0);
      Released(Press(k), rest);
    }
  }

  lemma {:induction false} TextTypes(before: Report, s: string, rest: seq<Report>)
    ensures HostTypes(before, TextReports(s) + rest)
            == OpTyped(before, Text(s)) + HostTypes(OpLeaves(before, Text(s)), rest)
    decreases |s|
  {
    if s == "" {
      assert TextReports(s) + rest == rest && "" + HostTypes(before, rest) == HostTypes(before, rest);
    } else if AsciiToHid(s[0]).None? {
      assert TextReports(s) == TextReports(s[1..]) && Mapped(s) == Mapped(s[1..]);
      TextTypes(before, s[1..], rest);
    } else {
      var c, more := s[0], TextReports(s[1..]) + rest;
      Assoc(TapReports(c), TextReports(s[1..]), rest);
      CharTypes(before, c, more);
      TextTypes(RELEASE, s[1..], rest);
      MappedKeyUp(s[1..]);
      assert Mapped(s) == [c] + Mapped(s[1..]) && Mapped(s)[1..] == Mapped(s[1..]);
      Assoc([c], Mapped(s[1..]), HostTypes(RELEASE, rest));
      assert "" + HostTypes(RELEASE, more) == HostTypes(RELEASE, more);
    }
  }

  lemma OpTypes(before: Report, op: Op, rest: seq<Report>)
    ensures HostTypes(before, OpReports(op) + rest) == OpTyped(before, op) + HostTypes(OpLeaves(before, op), rest)
  {
    match op
    case Hold(r) => assert ([r] + rest)[1..] == rest;
    case Tap(mods, key) => KeyTapTypes(before, Key(mods, key), rest);
    case Text(s) => TextTypes(before, s, rest);
    case Seq(reports) => TypesOn(before, reports, rest);
  }

  /** Any queue of operations is typed operation by operation: a tap types its key and leaves none
      pressed, a text its mapped characters, but for a first one whose key was held. */
  lemma {:induction false} QueueTypes(before: Report, ops: seq<Op>)
    ensures HostTypes(before, AllReports(ops)) == AllTyped(before, ops)
    decreases |ops|
  {
    if ops == [] {
    } else {
      OpTypes(before, ops[0], AllReports(ops[1..]));
      QueueTypes(OpLeaves(before, ops[0]), ops[1..]);
    }
  }

  /** `OPS` and the reports emitted so far. */
  class Engine {
    const CAPACITY: nat := 4
    var ops: seq<Op>
    var sent: seq<Report>

    method Post(op: Op) returns (ok: bool)
      modifies this`ops
      ensures ok == (|old(ops)| < CAPACITY)
      ensures ops == if ok then old(ops) + [op] else old(ops)
    {
      ok := |ops| < CAPACITY;
      if ok { ops := ops + [op]; }
    }

    method Emit(r: Report)
      modifies this`sent
      ensures sent == old(sent) + [r]
    {
      sent := sent + [r];
    }

    method PlayText(s: string)
      modifies this`sent
      ensures sent == old(sent) + TextReports(s)
    {
      ghost var was := sent;
      var i := 0;
      while i < |s|
        invariant i <= |s| && sent == was + TextReports(s[..i])
      {
        TextReportsNext(s, i);
        var k := AsciiToHid(s[i]);
        Assoc(was, TextReports(s[..i]), TapReports(s[i]));
        if k.Some? {
          Emit(Press(k.value));
          Emit(RELEASE);
        }
        i := i + 1;
      }
      assert s[..i] == s;
    }

    /** One turn of the engine task. */
    method PlayNext()
      requires ops != []
      modifies this
      ensures ops == old(ops)[1..] && sent == old(sent) + OpReports(old(ops)[0])
    {
      var op := ops[0];
      ops := ops[1..];
      match op {
        case Hold(r) => Emit(r);
        case Tap(mods, key) =>
          Emit(Press(Key(mods, key)));
          Emit(RELEASE);
        case Text(s) => PlayText(s);
        case Seq(reports) =>
          var i := 0;
          while i < |reports|
            invariant i <= |reports| && sent == old(sent) + reports[..i] && ops == old(ops)[1..]
          {
            Emit(reports[i]);
            i := i + 1;
          }
          assert reports[..i] == reports;
      }
    }
  }
}
