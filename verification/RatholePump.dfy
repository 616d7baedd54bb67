/** The forward task's pump of `rathole.rs`: bytes in both directions at once, with half-close.
    Which side's read completes first, how much it brings and how much of a write goes through
    is arbitrary. */
module RatholePump {
  import opened Wrappers

  const PUMP_BUF: nat := 1460

  type Bytes = seq<bv8>

  datatype Read = Err | Got(data: Bytes)
  datatype End = BothEof | ReadFailed | WriteFailed

  lemma Splits(out: Bytes, left: Bytes, n: nat)
    requires n <= |left|
    ensures out + left == out + left[..n] + left[n..]
  {
    assert left == left[..n] + left[n..];
  }

  // `after` is `before` and a proper part of `data`.
  ghost predicate Cut(before: Bytes, data: Bytes, after: Bytes) {
    |before| <= |after| < |before| + |data| && after == before + data[..|after| - |before|]
  }

  /** One TCP socket: `input` is what its peer will still send before its FIN, `taken` what was
      read of it, `output` what was written to it; `readBroken` and `writeBroken` say that a read
      or a write of it has failed. */
  class Socket {
    var input: Bytes
    ghost var taken: Bytes
    var output: Bytes
    var closed: bool // our FIN is sent
    ghost var readBroken: bool
    ghost var writeBroken: bool

    constructor (input: Bytes)
      ensures this.input == input && taken == [] && output == [] && !closed && !readBroken && !writeBroken
    {
      this.input, taken, output, closed := input, [], [], false;
      readBroken, writeBroken := false, false;
    }

    // Nothing is read exactly at the end of the stream.
    method Read(max: nat) returns (r: Read)
      requires max > 0
      modifies this`input, this`taken, this`readBroken
      ensures readBroken == (old(readBroken) || r.Err?)
      ensures r.Err? ==> input == old(input) && taken == old(taken)
      ensures r.Got? ==> && |r.data| <= max && taken == old(taken) + r.data && old(input) == r.data + input
                         && (r.data == [] <==> old(input) == [])
    {
      if * {
        readBroken := true;
        return Err;
      }
      if input == [] { return Got([]); }
      var n: nat :| 1 <= n <= max && n <= |input|;
      r := Got(input[..n]);
      taken := taken + input[..n];
      input := input[n..];
    }

    /** Writing behind our own FIN is forbidden. */
    method WriteAll(data: Bytes) returns (ok: bool)
      requires !closed
      modifies this`output, this`writeBroken
      ensures writeBroken == (old(writeBroken) || !ok)
      ensures if ok then output == old(output) + data else Cut(old(output), data, output)
    {
      var left := data;
      while left != []
        invariant writeBroken == old(writeBroken)
        invariant |left| <= |data| && left == data[|data| - |left|..]
        invariant output == old(output) + data[..|data| - |left|]
      {
        var n: nat :| n <= |left|;
        if n == 0 {
          writeBroken := true;
          return false;
        }
        Splits(output, left, n);
        output := output + left[..n];
        left := left[n..];
        assert data[..|data| - |left|] == data[..|data| - |left| - n] + data[|data| - |left| - n..|data| - |left|];
      }
      assert data[..|data|] == data;
      return true;
    }

    method Close()
      requires !closed
      modifies this`closed
      ensures closed
    {
      closed := true;
    }
  }

  datatype Moved = Data | Eof | NoRead | NoWrite

  // In order and at most one buffer short.
  ghost predicate Delivered(taken: Bytes, output: Bytes) {
    output <= taken && |taken| <= |output| + PUMP_BUF
  }

  /** One read from `from` and what it leads to at `to`. */
  method Shovel(from: Socket, to: Socket) returns (m: Moved)
    requires from != to && !to.closed && to.output == from.taken
    modifies from`input, from`taken, from`readBroken, to`output, to`closed, to`writeBroken
    ensures from.readBroken == (old(from.readBroken) || m == NoRead)
    ensures to.writeBroken == (old(to.writeBroken) || m == NoWrite)
    ensures from.taken + from.input == old(from.taken + from.input)
    ensures m != NoWrite ==> to.output == from.taken
    ensures m == NoWrite ==> Delivered(from.taken, to.output)
    ensures to.closed == (m == Eof)
    ensures m == Eof ==> from.input == []
    ensures m == Data ==> |from.input| < |old(from.input)|
  {
    ghost var input, taken := from.input, from.taken;
    var r := from.Read(PUMP_BUF);
    if r.Err? { return NoRead; }
    Assoc(taken, r.data, from.input);
    if r.data == [] {
      to.Close();
      return Eof;
    }
    var ok := to.WriteAll(r.data);
    if ok { return Data; }
    assert to.output == (taken + r.data)[..|to.output|];
    return NoWrite;
  }

  class Pump {
    const remote: Socket
    const local: Socket

    constructor (remote: Socket, local: Socket)
      ensures this.remote == remote && this.local == local
    {
      this.remote, this.local := remote, local;
    }

    // No read and no write has failed.
    ghost predicate Sound()
      reads remote, local
    {
      !remote.readBroken && !local.readBroken && !remote.writeBroken && !local.writeBroken
    }

    /** Each side is sent an in-order prefix of what was read from the other, at most one buffer
        of it is lost, in one direction only, and none unless a write failed. When both peers
        have closed, each has got everything the other ever sent, and a FIN behind it; nothing
        but a read or a write that fails ends the pump before that. */
    method Forward() returns (end: End)
      requires remote != local && !remote.closed && !local.closed
      requires remote.output == local.output == remote.taken == local.taken == [] && Sound()
      modifies remote, local
      ensures end == BothEof <==> Sound()
      ensures end == ReadFailed <==> remote.readBroken || local.readBroken
      ensures end == WriteFailed <==> remote.writeBroken || local.writeBroken
      ensures remote.taken + remote.input == old(remote.input) && local.taken + local.input == old(local.input)
      ensures Delivered(remote.taken, local.output) && Delivered(local.taken, remote.output)
      ensures local.output == remote.taken || remote.output == local.taken
      ensures end != WriteFailed ==> local.output == remote.taken && remote.output == local.taken
      ensures end == BothEof ==> && local.output == old(remote.input) && remote.output == old(local.input)
                                 && local.closed && remote.closed
    {
      var remoteOpen, localOpen := true, true;
      while remoteOpen || localOpen
        invariant Sound()
        invariant local.closed == !remoteOpen && remote.closed == !localOpen
        invariant !remoteOpen ==> remote.input == []
        invariant !localOpen ==> local.input == []
        invariant remote.taken + remote.input == old(remote.input) && local.taken + local.input == old(local.input)
        invariant local.output == remote.taken && remote.output == local.taken
        decreases |remote.input| + |local.input|, remoteOpen, localOpen
      {
        var fromRemote: bool := *;
        if !localOpen { fromRemote := true; }
        if !remoteOpen { fromRemote := false; }
        var m;
        if fromRemote {
          m := Shovel(remote, local);
          remoteOpen := m != Eof;
        } else {
          m := Shovel(local, remote);
          localOpen := m != Eof;
        }
        if m == NoRead { return ReadFailed; }
        if m == NoWrite { return WriteFailed; }
      }
      return BothEof;
    }
  }
}
