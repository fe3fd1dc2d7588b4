/** Length-prefixed framing of a TCP stream over a fixed read buffer. */
module Framing {
  import opened Bits
  import opened Sequences

  const HEADER_SIZE := 28
  const MAX_MESSAGE_SIZE := 4096
  const CAPACITY := 8192

  // ---------- The stream, parsed in one go

  /** The length field: bytes 4 to 7 of the header, least significant first. */
  function LengthField(s: seq<byte>): nat
    requires |s| >= HEADER_SIZE
  {
    s[4] as int + 0x100 * s[5] as int + 0x1_0000 * s[6] as int + 0x100_0000 * s[7] as int
  }

  datatype Verdict = NeedMore | Malformed | Frame(length: nat)

  function Scan(s: seq<byte>): (v: Verdict)
    ensures v.Frame? ==> HEADER_SIZE <= v.length <= |s|
  {
    if |s| < HEADER_SIZE then NeedMore
    else
      var n := LengthField(s);
      if n < HEADER_SIZE || n > MAX_MESSAGE_SIZE then Malformed
      else if |s| < n then NeedMore
      else Frame(n)
  }

  /** Frames delivered, bytes left over, and whether the stream is still well formed. */
  datatype Parsed = Parsed(frames: seq<seq<byte>>, rest: seq<byte>, live: bool)

  function ParseAll(s: seq<byte>): Parsed
    decreases |s|
  {
    match Scan(s)
    case NeedMore => Parsed([], s, true)
    case Malformed => Parsed([], s, false)
    case Frame(n) =>
      var p := ParseAll(s[n..]);
      Parsed([s[..n]] + p.frames, p.rest, p.live)
  }

  function Concat(frames: seq<seq<byte>>): seq<byte> {
    if frames == [] then [] else frames[0] + Concat(frames[1..])
  }

  predicate WellFormed(frame: seq<byte>) {
    HEADER_SIZE <= |frame| <= MAX_MESSAGE_SIZE && LengthField(frame) == |frame|
  }

  /** What a verdict says about a prefix, it says about every longer stream. */
  lemma {:induction false} ScanStable(s: seq<byte>, t: seq<byte>)
    requires !Scan(s).NeedMore?
    ensures Scan(s + t) == Scan(s)
  {
  }

  /** A complete frame at the front is delivered first, whatever follows. */
  lemma {:induction false} ParseFrame(s: seq<byte>, t: seq<byte>)
    requires Scan(s).Frame?
    ensures var n := Scan(s).length; var p := ParseAll(s[n..] + t);
            ParseAll(s + t) == Parsed([s[..n]] + p.frames, p.rest, p.live)
  {
    var n := Scan(s).length;
    ScanStable(s, t);
    assert (s + t)[n..] == s[n..] + t && (s + t)[..n] == s[..n];
  }

  /** Parsing goes on from the leftover. */
  lemma {:induction false} ParseAppend(s: seq<byte>, t: seq<byte>)
    requires ParseAll(s).live
    ensures var p := ParseAll(s); var q := ParseAll(p.rest + t);
            ParseAll(s + t) == Parsed(p.frames + q.frames, q.rest, q.live)
    decreases |s|
  {
    if Scan(s).Frame? {
      var n := Scan(s).length;
      ParseFrame(s, t);
      ParseAppend(s[n..], t);
      var p := ParseAll(s[n..]);
      var q := ParseAll(p.rest + t);
      Associative([s[..n]], p.frames, q.frames);
    }
  }

  /** A malformed length is final. */
  lemma {:induction false} ParseDead(s: seq<byte>, t: seq<byte>)
    requires !ParseAll(s).live
    ensures !ParseAll(s + t).live && ParseAll(s + t).frames == ParseAll(s).frames
    decreases |s|
  {
    if Scan(s).Frame? {
      ParseFrame(s, t);
      ParseDead(s[Scan(s).length..], t);
    } else {
      ScanStable(s, t);
    }
  }

  /** On a live stream less than one message is left over. */
  lemma {:induction false} RestIsShort(s: seq<byte>)
    ensures ParseAll(s).live ==> |ParseAll(s).rest| < MAX_MESSAGE_SIZE
    decreases |s|
  {
    match Scan(s)
    case Frame(n) => RestIsShort(s[n..]);
    case _ =>
  }

  /** No byte is lost or invented. */
  lemma {:induction false} ParseKeepsBytes(s: seq<byte>)
    ensures Concat(ParseAll(s).frames) + ParseAll(s).rest == s
    decreases |s|
  {
    if Scan(s).Frame? {
      var n := Scan(s).length;
      var p := ParseAll(s[n..]);
      ParseKeepsBytes(s[n..]);
      ConcatCons(s[..n], p.frames);
      Associative(s[..n], Concat(p.frames), p.rest);
      Cut(s, n);
    }
  }

  lemma {:induction false} ConcatCons(f: seq<byte>, frames: seq<seq<byte>>)
    ensures Concat([f] + frames) == f + Concat(frames)
  {
  }

  /** Every frame delivered carries its own length. */
  lemma {:induction false} ParseWellFormed(s: seq<byte>)
    ensures forall i :: 0 <= i < |ParseAll(s).frames| ==> WellFormed(ParseAll(s).frames[i])
    decreases |s|
  {
    if Scan(s).Frame? {
      ParseWellFormed(s[Scan(s).length..]);
      assert LengthField(s[..Scan(s).length]) == LengthField(s);
    }
  }

  lemma {:induction false} ParseWhole(f: seq<byte>, tail: seq<byte>)
    requires WellFormed(f)
    ensures var p := ParseAll(tail); ParseAll(f + tail) == Parsed([f] + p.frames, p.rest, p.live)
  {
    ParseFrame(f, tail);
    assert f[..|f|] == f && f[|f|..] + tail == tail;
  }

  lemma {:induction false} ConcatFirst(frames: seq<seq<byte>>, rest: seq<byte>)
    requires frames != []
    ensures Concat(frames) + rest == frames[0] + (Concat(frames[1..]) + rest)
  {
    Associative(frames[0], Concat(frames[1..]), rest);
  }

  /** Sending well-formed frames back to back delivers exactly those frames. */
  lemma {:induction false} ParseRoundTrip(frames: seq<seq<byte>>, rest: seq<byte>)
    requires forall i :: 0 <= i < |frames| ==> WellFormed(frames[i])
    requires Scan(rest).NeedMore?
    ensures ParseAll(Concat(frames) + rest) == Parsed(frames, rest, true)
  {
    if frames == [] {
      assert Concat(frames) + rest == rest;
    } else {
      var f, tail := frames[0], Concat(frames[1..]) + rest;
      ParseRoundTrip(frames[1..], rest);
      ParseWhole(f, tail);
      ConcatFirst(frames, rest);
      FirstApart(frames);
    }
  }

  /** A 32-bit number as four bytes, least significant first. */
  function LittleEndian(n: nat): (s: seq<byte>)
    requires n < TWO_32
    ensures |s| == 4
  {
    [(n % 0x100) as byte, (n / 0x100 % 0x100) as byte, (n / 0x1_0000 % 0x100) as byte, (n / 0x100_0000) as byte]
  }

  lemma {:induction false} FourDigits(n: nat)
    requires n < TWO_32
    ensures n % 0x100 + 0x100 * (n / 0x100 % 0x100) + 0x1_0000 * (n / 0x1_0000 % 0x100) + 0x100_0000 * (n / 0x100_0000) == n
  {
    var a := n / 0x100;
    var b := a / 0x100;
    assert n / 0x1_0000 == b && n / 0x100_0000 == b / 0x100;
    assert n == 0x100 * a + n % 0x100 && a == 0x100 * b + a % 0x100 && b == 0x100 * (b / 0x100) + b % 0x100;
  }

  lemma {:induction false} FieldOf(kind: seq<byte>, field: seq<byte>, rest: seq<byte>)
    requires |kind| == |field| == 4 && |rest| >= HEADER_SIZE - 8
    ensures LengthField(kind + field + rest) ==
              field[0] as int + 0x100 * field[1] as int + 0x1_0000 * field[2] as int + 0x100_0000 * field[3] as int
  {
  }

  lemma {:induction false} LengthRoundTrip(kind: seq<byte>, n: nat, rest: seq<byte>)
    requires |kind| == 4 && n < TWO_32 && |rest| >= HEADER_SIZE - 8
    ensures LengthField(kind + LittleEndian(n) + rest) == n
  {
    FieldOf(kind, LittleEndian(n), rest);
    FourDigits(n);
  }

  /** What the first bytes of a stream decide: with `n` in the length field they are refused exactly when `n` is below the
      header size or above the largest message, otherwise a message of `n` bytes is there or still to come. A stream
      shorter than a header decides nothing. */
  lemma {:induction false} ScanExactly(kind: seq<byte>, n: nat, rest: seq<byte>, short: seq<byte>)
    requires |kind| == 4 && n < TWO_32 && |rest| >= HEADER_SIZE - 8 && |short| < HEADER_SIZE
    ensures Scan(kind + LittleEndian(n) + rest) ==
              if n < 28 || n > 4096 then Malformed else if n <= 8 + |rest| then Frame(n) else NeedMore
    ensures Scan(short) == NeedMore
  {
    LengthRoundTrip(kind, n, rest);
  }

  /** A message is delivered whole exactly when the length it announces in its header is its own size, within bounds:
      `kind` and `rest` are the bytes before and after the length field. */
  lemma {:induction false} MessageDelivered(kind: seq<byte>, n: nat, rest: seq<byte>)
    requires |kind| == 4 && n < TWO_32 && |rest| >= HEADER_SIZE - 8
    ensures var m := kind + LittleEndian(n) + rest;
            ParseAll(m) == Parsed([m], [], true) <==> n == 8 + |rest| <= MAX_MESSAGE_SIZE
  {
    LengthRoundTrip(kind, n, rest);
    var m := kind + LittleEndian(n) + rest;
    if n == |m| <= MAX_MESSAGE_SIZE {
      assert m[..n] == m && m[n..] == [];
      assert ParseAll([]) == Parsed([], [], true);
    } else {
      ParseWellFormed(m);
      assert ParseAll(m) == Parsed([m], [], true) ==> WellFormed(ParseAll(m).frames[0]);
    }
  }

  /** Feeding a stream in pieces, processing after each. */
  function Feed(p: Parsed, chunk: seq<byte>): Parsed {
    if !p.live then p
    else
      var q := ParseAll(p.rest + chunk);
      Parsed(p.frames + q.frames, q.rest, q.live)
  }

  function FeedAll(chunks: seq<seq<byte>>): Parsed {
    if chunks == [] then Parsed([], [], true)
    else Feed(FeedAll(chunks[..|chunks| - 1]), chunks[|chunks| - 1])
  }

  lemma {:induction false} ConcatSnoc(chunks: seq<seq<byte>>, c: seq<byte>)
    ensures Concat(chunks + [c]) == Concat(chunks) + c
  {
    if chunks == [] {
      assert (chunks + [c])[1..] == [];
    } else {
      ConcatSnoc(chunks[1..], c);
      assert (chunks + [c])[1..] == chunks[1..] + [c];
    }
  }

  /** However a stream is cut into pieces, the frames delivered are those of the whole stream. */
  lemma {:induction false} ChunkIndependent(chunks: seq<seq<byte>>)
    ensures var whole := ParseAll(Concat(chunks));
            && FeedAll(chunks).frames == whole.frames
            && FeedAll(chunks).live == whole.live
            && (whole.live ==> FeedAll(chunks).rest == whole.rest)
  {
    if chunks != [] {
      var n := |chunks| - 1;
      ChunkIndependent(chunks[..n]);
      ConcatSnoc(chunks[..n], chunks[n]);
      assert chunks == chunks[..n] + [chunks[n]];
      var before := Concat(chunks[..n]);
      if ParseAll(before).live {
        ParseAppend(before, chunks[n]);
      } else {
        ParseDead(before, chunks[n]);
      }
    }
  }

  // ---------- The read buffer

  class ReadBuffer {
    const buf: array<byte>
    var used: nat

    ghost predicate Valid()
      reads this
    {
      buf.Length == CAPACITY && used <= CAPACITY
    }

    ghost function Contents(): seq<byte>
      requires Valid()
      reads this, buf
    {
      buf[..used]
    }

    constructor ()
      ensures Valid() && fresh(buf) && Contents() == []
    {
      buf := new byte[CAPACITY](_ => 0);
      used := 0;
    }

    function Remaining(): (n: nat)
      requires Valid()
      reads this
      ensures used + n == CAPACITY
    {
      CAPACITY - used
    }

    /** Copy `data` behind the used bytes if it fits. */
    method Append(data: seq<byte>) returns (ok: bool)
      requires Valid()
      modifies this`used, buf
      ensures Valid() && (ok <==> |old(Contents())| + |data| <= CAPACITY)
      ensures Contents() == if ok then old(Contents()) + data else old(Contents())
    {
      if used + |data| > CAPACITY {
        return false;
      }
      for i := 0 to |data|
        invariant Valid() && used == old(used)
        invariant buf[..used] == old(buf[..used]) && buf[used..used + i] == data[..i]
      {
        buf[used + i] := data[i];
      }
      assert buf[..used + |data|] == buf[..used] + buf[used..used + |data|];
      used := used + |data|;
      return true;
    }

    /** Drop the first `n` bytes by moving the others to the front. */
    method Consume(n: nat)
      requires Valid()
      modifies this`used, buf
      ensures Valid()
      ensures Contents() == if n >= |old(Contents())| then [] else old(Contents())[n..]
    {
      if n >= used {
        used := 0;
      } else {
        used := used - n;
        for i := 0 to used
          invariant used == old(used) - n
          invariant forall k :: 0 <= k < i ==> buf[k] == old(buf[n + k])
          invariant forall k :: i <= k < buf.Length ==> buf[k] == old(buf[k])
        {
          buf[i] := buf[i + n];
        }
      }
    }
  }

  /** Parsing `start` has delivered `done` and goes on with `rest`. */
  ghost predicate Reached(start: seq<byte>, done: seq<seq<byte>>, rest: seq<byte>) {
    var p := ParseAll(rest);
    ParseAll(start) == Parsed(done + p.frames, p.rest, p.live)
  }

  lemma {:induction false} ReachedOn(start: seq<byte>, done: seq<seq<byte>>, rest: seq<byte>)
    requires Reached(start, done, rest) && Scan(rest).Frame?
    ensures var n := Scan(rest).length; Reached(start, done + [rest[..n]], rest[n..])
  {
    var n := Scan(rest).length;
    Associative(done, [rest[..n]], ParseAll(rest[n..]).frames);
  }

  lemma {:induction false} ReachedEnd(start: seq<byte>, done: seq<seq<byte>>, rest: seq<byte>)
    requires Reached(start, done, rest) && !Scan(rest).Frame?
    ensures ParseAll(start) == Parsed(done, rest, !Scan(rest).Malformed?)
  {
    assert done + [] == done;
  }

  // ---------- A connection

  /** What a receive finds when no byte is waiting. */
  datatype Ending = WouldBlock | PeerClosed | ReceiveError

  class Connection {
    const readBuf: ReadBuffer
    var connected: bool
    /** Frames handed to message processing, in order. */
    var delivered: seq<seq<byte>>
    var messagesReceived: nat

    /** Everything received while connected, and whether a receive has ended the connection. */
    ghost var stream: seq<byte>
    ghost var ended: bool

    /** Delivery so far, and what is pending, agree with the one-shot parse of `stream`. */
    ghost predicate Valid()
      reads this, readBuf, readBuf.buf
    {
      && readBuf.Valid()
      && messagesReceived == |delivered|
      && ParseAll(stream).frames == delivered
      && connected == (ParseAll(stream).live && !ended)
      && (connected ==> ParseAll(stream).rest == readBuf.Contents())
    }

    constructor ()
      ensures Valid() && connected && stream == [] && !ended && fresh(readBuf) && fresh(readBuf.buf)
    {
      readBuf := new ReadBuffer();
      connected, delivered, messagesReceived, stream, ended := true, [], 0, [], false;
    }

    /** Deliver the first message of the buffer if it is complete; hang up on a malformed length. */
    method TryProcessMessage() returns (more: bool)
      requires readBuf.Valid() && connected
      modifies this`connected, this`delivered, readBuf`used, readBuf.buf
      ensures readBuf.Valid()
      ensures var v := Scan(old(readBuf.Contents()));
              && (more <==> v.Frame?) && (connected <==> !v.Malformed?)
              && (v.Frame? ==>
                    && delivered == old(delivered) + [old(readBuf.Contents())[..v.length]]
                    && readBuf.Contents() == old(readBuf.Contents())[v.length..])
              && (!v.Frame? ==> delivered == old(delivered) && readBuf.Contents() == old(readBuf.Contents()))
    {
      if readBuf.used < HEADER_SIZE {
        return false;
      }
      var header := readBuf.buf[..HEADER_SIZE];
      var length := LengthField(header);
      assert readBuf.Contents()[..HEADER_SIZE] == header;
      if length < HEADER_SIZE || length > MAX_MESSAGE_SIZE {
        connected := false;
        return false;
      }
      if readBuf.used < length {
        return false;
      }
      assert readBuf.Contents()[..length] == readBuf.buf[..length];
      delivered := delivered + [readBuf.buf[..length]];
      readBuf.Consume(length);
      return true;
    }

    /** Deliver every complete message of the buffer. */
    method ProcessMessages()
      requires readBuf.Valid() && connected
      modifies this`connected, this`delivered, this`messagesReceived, readBuf`used, readBuf.buf
      ensures readBuf.Valid()
      ensures var p := ParseAll(old(readBuf.Contents()));
              && delivered == old(delivered) + p.frames && connected == p.live && readBuf.Contents() == p.rest
              && messagesReceived == old(messagesReceived) + |p.frames|
    {
      ghost var start, before := readBuf.Contents(), delivered;
      ghost var done: seq<seq<byte>> := [];
      assert [] + ParseAll(start).frames == ParseAll(start).frames;
      var more := true;
      while more
        invariant readBuf.Valid() && (more ==> connected)
        invariant delivered == before + done && messagesReceived == old(messagesReceived) + |done|
        invariant Reached(start, done, readBuf.Contents())
        invariant !more ==> !Scan(readBuf.Contents()).Frame? && (connected <==> !Scan(readBuf.Contents()).Malformed?)
        decreases more, readBuf.used
      {
        ghost var c, v := readBuf.Contents(), Scan(readBuf.Contents());
        more := TryProcessMessage();
        if more {
          messagesReceived := messagesReceived + 1;
          ReachedOn(start, done, c);
          Associative(before, done, [c[..v.length]]);
          done := done + [c[..v.length]];
        }
      }
      ReachedEnd(start, done, readBuf.Contents());
    }

    /** One successful receive: the bytes go behind the pending ones, then the messages are processed. */
    method Receive(chunk: seq<byte>)
      requires Valid() && connected && |chunk| <= readBuf.Remaining()
      modifies this, readBuf`used, readBuf.buf
      ensures Valid() && stream == old(stream) + chunk && ended == old(ended)
    {
      ParseAppend(stream, chunk);
      var _ := readBuf.Append(chunk);
      stream := stream + chunk;
      ProcessMessages();
    }

    /** There is always room to receive: `recv` is never asked for zero bytes. */
    lemma {:induction false} RoomToReceive()
      requires Valid() && connected
      ensures readBuf.Remaining() > CAPACITY - MAX_MESSAGE_SIZE
    {
      RestIsShort(stream);
    }

    /** Receive until nothing is left to read, or the peer sends a malformed length. Each receive returns some of the
        waiting bytes: between one and the room there is, as `sizes` chooses. The receive after the last byte finds
        nothing yet, the stream closed by the peer, or an error; the latter two remove the connection. */
    method HandleClientData(waiting: seq<byte>, sizes: nat -> nat, ending: Ending) returns (taken: nat)
      requires Valid() && connected
      modifies this, readBuf`used, readBuf.buf
      ensures Valid() && taken <= |waiting| && stream == old(stream) + waiting[..taken]
      ensures ParseAll(stream).live ==> taken == |waiting|
      ensures connected <==> ParseAll(stream).live && ending.WouldBlock?
    {
      taken := 0;
      while connected && taken < |waiting|
        invariant Valid() && taken <= |waiting| && stream == old(stream) + waiting[..taken] && !ended
        decreases |waiting| - taken
      {
        RoomToReceive();
        var room := readBuf.Remaining();
        var n := sizes(taken);
        n := if n < 1 then 1 else if n > room then room else n;
        n := if n > |waiting| - taken then |waiting| - taken else n;
        assert waiting[..taken + n] == waiting[..taken] + waiting[taken..taken + n];
        Associative(old(stream), waiting[..taken], waiting[taken..taken + n]);
        Receive(waiting[taken..taken + n]);
        taken := taken + n;
      }
      if connected && !ending.WouldBlock? {
        connected, ended := false, true;
      }
    }
  }
}
