/** How the manager in `rathole.rs` reads a standby's four-byte command, in pieces of any size,
    over many standbys of one session. */
module RatholeStandby {
  import opened Wrappers

  type Bytes = seq<bv8>

  const COMMAND_LEN: nat := 4

  /** A command acted on: the four bytes taken for it, and all that was read from the standby
      that was current. What the standby sends behind `read` goes to the visitor's session. */
  datatype Decision = Decision(command: Bytes, read: Bytes)

  datatype Event = Filled | Data(chunk: Bytes) | Lost

  /** `dcmd` is `dcmd[..dlen]`, `read` what came from the current standby. */
  datatype State = State(standby: bool, dcmd: Bytes, read: Bytes, decided: seq<Decision>)

  const START := State(false, [], [], [])

  // The read is into `dcmd[dlen..]`, and never empty.
  predicate Fits(s: State, chunk: Bytes) {
    chunk != [] && |s.dcmd| + |chunk| <= COMMAND_LEN
  }

  function Step(s: State, e: Event): State {
    match e
    case Filled => if s.standby then s else s.(standby := true, read := [])
    case Data(chunk) =>
      if !s.standby || !Fits(s, chunk) then s
      else
        var dcmd, read := s.dcmd + chunk, s.read + chunk;
        if |dcmd| == COMMAND_LEN then State(false, [], [], s.decided + [Decision(dcmd, read)])
        else s.(dcmd := dcmd, read := read)
    case Lost => if s.standby then s.(standby := false, read := []) else s // `dlen` stays
  }

  function Run(s: State, es: seq<Event>): State
    decreases |es|
  {
    if es == [] then s else Run(Step(s, es[0]), es[1..])
  }

  predicate Aligned(d: Decision) {
    d.command == d.read
  }

  // A standby goes away with one to three bytes of its command read.
  predicate MidCommand(s: State, e: Event) {
    e.Lost? && s.standby && s.read != []
  }

  ghost predicate Clean(s: State, es: seq<Event>)
    decreases |es|
  {
    es == [] || (!MidCommand(s, es[0]) && Clean(Step(s, es[0]), es[1..]))
  }

  ghost predicate AllAligned(ds: seq<Decision>) {
    forall i :: 0 <= i < |ds| ==> Aligned(ds[i])
  }

  /** As long as no standby goes away in the middle of its command, every command is the first
      four bytes of the standby it is taken for. */
  lemma {:induction false} CleanRunsAlign(s: State, es: seq<Event>)
    requires s.dcmd == s.read && (!s.standby ==> s.dcmd == []) && AllAligned(s.decided) && Clean(s, es)
    ensures AllAligned(Run(s, es).decided)
    decreases |es|
  {
    if es == [] {
    } else {
      CleanRunsAlign(Step(s, es[0]), es[1..]);
    }
  }

  function Reads(chunks: seq<Bytes>): seq<Event> {
    if chunks == [] then [] else [Data(chunks[0])] + Reads(chunks[1..])
  }

  function Joined(chunks: seq<Bytes>): Bytes {
    if chunks == [] then [] else chunks[0] + Joined(chunks[1..])
  }

  lemma NotEmpty(chunks: seq<Bytes>)
    requires chunks != [] && chunks[0] != []
    ensures |Joined(chunks)| > 0
  {
  }

  // A command under way, `left` bytes of which are not the current standby's.
  lemma {:induction false} CommandCompletes(s: State, left: Bytes, chunks: seq<Bytes>)
    requires s.standby && s.dcmd == left + s.read && |s.dcmd| < COMMAND_LEN
    requires chunks != [] && forall i :: 0 <= i < |chunks| ==> chunks[i] != []
    requires |s.dcmd| + |Joined(chunks)| == COMMAND_LEN
    ensures var d := Decision(left + (s.read + Joined(chunks)), s.read + Joined(chunks));
            Run(s, Reads(chunks)).decided == s.decided + [d] && (Aligned(d) <==> left == [])
    decreases |chunks|
  {
    var c, t := chunks[0], Step(s, Data(chunks[0]));
    assert Reads(chunks)[1..] == Reads(chunks[1..]);
    Assoc(left, s.read, c);
    if |chunks| == 1 {
      assert Joined(chunks) == c;
      assert Reads(chunks[1..]) == [];
    } else {
      NotEmpty(chunks[1..]);
      Assoc(s.read, c, Joined(chunks[1..]));
      CommandCompletes(t, left, chunks[1..]);
    }
  }

  /** A standby is lost, another one comes, for every way its bytes arrive: the next command is
      made of what was read of the lost one's and of the new one's first bytes. It is the new
      one's own exactly when nothing had been read; otherwise it is decided too early, and the
      rest of the real command is taken for the visitor's data. */
  lemma NextCommandMixed(s: State, chunks: seq<Bytes>)
    requires s.standby && |s.dcmd| < COMMAND_LEN
    requires chunks != [] && forall i :: 0 <= i < |chunks| ==> chunks[i] != []
    requires |s.dcmd| + |Joined(chunks)| == COMMAND_LEN
    ensures var d := Decision(s.dcmd + Joined(chunks), Joined(chunks));
            Run(Step(Step(s, Lost), Filled), Reads(chunks)).decided == s.decided + [d]
            && (Aligned(d) <==> s.dcmd == [])
  {
    assert s.dcmd + [] == s.dcmd && [] + Joined(chunks) == Joined(chunks);
    CommandCompletes(Step(Step(s, Lost), Filled), s.dcmd, chunks);
  }

  class Standby {
    var present: bool
    var dcmd: array<bv8>
    var dlen: nat
    ghost var read: Bytes
    ghost var decided: seq<Decision>

    ghost predicate Valid()
      reads this
    {
      dcmd.Length == COMMAND_LEN && dlen < COMMAND_LEN
    }

    ghost function View(): State
      reads this, dcmd
      requires Valid()
    {
      State(present, dcmd[..dlen], read, decided)
    }

    constructor ()
      ensures Valid() && View() == START && fresh(dcmd)
    {
      present, dcmd, dlen, read, decided := false, new bv8[COMMAND_LEN], 0, [], [];
    }

    method OnFilled()
      requires Valid() && !present
      modifies this
      ensures Valid() && dcmd == old(dcmd) && View() == Step(old(View()), Filled)
    {
      present, read := true, [];
    }

    /** Read bytes arrive; the result is the complete command, if it is. */
    method OnData(chunk: Bytes) returns (start: bool, drop: bool)
      requires Valid() && present && chunk != [] && dlen + |chunk| <= COMMAND_LEN
      modifies this, dcmd
      ensures Valid() && dcmd == old(dcmd) && View() == Step(old(View()), Data(chunk))
      ensures start == (old(View().dcmd) + chunk == [0, 0, 0, 0])
      ensures drop == (old(dlen) + |chunk| == COMMAND_LEN && !start)
    {
      ghost var was := dcmd[..dlen];
      var i := 0;
      while i < |chunk|
        invariant i <= |chunk| && dcmd[..dlen + i] == was + chunk[..i]
        modifies dcmd
      {
        dcmd[dlen + i] := chunk[i];
        i := i + 1;
      }
      assert chunk[..i] == chunk;
      start, drop := false, false;
      dlen := dlen + |chunk|;
      read := read + chunk;
      if dlen == COMMAND_LEN {
        assert dcmd[..dlen] == [dcmd[0], dcmd[1], dcmd[2], dcmd[3]];
        start := dcmd[0] == 0 && dcmd[1] == 0 && dcmd[2] == 0 && dcmd[3] == 0;
        drop := !start;
        decided := decided + [Decision(dcmd[..dlen], read)];
        dlen := 0;
        present, read := false, [];
      }
    }

    method OnLost()
      requires Valid() && present
      modifies this
      ensures Valid() && dcmd == old(dcmd) && View() == Step(old(View()), Lost)
    {
      present, read := false, [];
    }
  }
}
