/**
 The message framing of pscmsg.c: an eight-byte header and a body over a byte stream whose reads
 and writes may be cut short anywhere.
 */
module PscFraming {
  import opened Words
  import opened Wrappers

  const ENOTCONN := 128
  const EIO := 5
  const SKIP_BUFFER := 128

  datatype Message = Message(id: u16, body: seq<byte>)

  /** What one receive call takes from the stream: a message, perhaps cut, and what is left. */
  datatype Parsed = Parsed(id: u16, body: seq<byte>, rest: seq<byte>)

  // ---------------------------------------------------------------------------
  // The wire format
  // ---------------------------------------------------------------------------

  const HEADER_P: byte := 0x50
  const HEADER_S: byte := 0x53

  function Header(id: u16, len: u32): (h: seq<byte>)
    ensures |h| == 8
  {
    [HEADER_P, HEADER_S] + Bytes16(id) + Bytes32(len)
  }

  predicate Sendable(m: Message) {
    |m.body| < TWO_32
  }

  function Encode(m: Message): (w: seq<byte>)
    requires Sendable(m)
    ensures |w| == 8 + |m.body|
  {
    Header(m.id, |m.body|) + m.body
  }

  predicate AllSendable(ms: seq<Message>) {
    ms == [] || (Sendable(ms[0]) && AllSendable(ms[1..]))
  }

  function EncodeAll(ms: seq<Message>): seq<byte>
    requires AllSendable(ms)
  {
    if ms == [] then [] else Encode(ms[0]) + EncodeAll(ms[1..])
  }

  function Cut(body: seq<byte>, maxlen: nat): (b: seq<byte>)
    ensures |b| <= maxlen && b <= body
  {
    if |body| <= maxlen then body else body[..maxlen]
  }

  /** One message off the front of a stream, its body cut to `maxlen`; None if it is not whole or not framed. */
  function ParseOne(s: seq<byte>, maxlen: nat): Option<Parsed> {
    if |s| < 8 || s[0] != HEADER_P || s[1] != HEADER_S then None
    else
      var len := Word32(s[4], s[5], s[6], s[7]);
      if |s| < 8 + len then None
      else Some(Parsed(Word16(s[2], s[3]), Cut(s[8..8 + len], maxlen), s[8 + len..]))
  }

  /** Repeated receives, until the stream holds no further message. */
  function ParseAll(s: seq<byte>, maxlen: nat): seq<Message>
    decreases |s|
  {
    match ParseOne(s, maxlen)
    case None => []
    case Some(p) => [Message(p.id, p.body)] + ParseAll(p.rest, maxlen)
  }

  // ---------------------------------------------------------------------------
  // Round trip
  // ---------------------------------------------------------------------------

  lemma ParseEncoded(m: Message, rest: seq<byte>, maxlen: nat)
    requires Sendable(m)
    ensures ParseOne(Encode(m) + rest, maxlen) == Some(Parsed(m.id, Cut(m.body, maxlen), rest))
  {
  }

  /** The messages as a receiver with a buffer of `maxlen` bytes sees them. */
  function CutAll(ms: seq<Message>, maxlen: nat): seq<Message>
  {
    if ms == [] then [] else [Message(ms[0].id, Cut(ms[0].body, maxlen))] + CutAll(ms[1..], maxlen)
  }

  lemma ParseNext(m: Message, rest: seq<byte>, maxlen: nat)
    requires Sendable(m)
    ensures ParseAll(Encode(m) + rest, maxlen) == [Message(m.id, Cut(m.body, maxlen))] + ParseAll(rest, maxlen)
  {
  }

  /** The wire format of a list of messages parses to the same ids and bodies in order, bodies cut to the buffer. */
  lemma {:induction false} ParseAllEncoded(ms: seq<Message>, maxlen: nat)
    requires AllSendable(ms)
    ensures ParseAll(EncodeAll(ms), maxlen) == CutAll(ms, maxlen)
    decreases |ms|
  {
    if ms != [] {
      ParseNext(ms[0], EncodeAll(ms[1..]), maxlen);
      ParseAllEncoded(ms[1..], maxlen);
    }
  }

  /** The only streams that parse are framed ones: what was taken, sent again, is what was there. */
  lemma ParsedIsEncoded(s: seq<byte>)
    requires ParseOne(s, |s|).Some?
    ensures var p := ParseOne(s, |s|).value;
      Sendable(Message(p.id, p.body)) && s == Encode(Message(p.id, p.body)) + p.rest
  {
    var p := ParseOne(s, |s|).value;
    var len := Word32(s[4], s[5], s[6], s[7]);
    assert p.body == s[8..8 + len];
    BytesOfWords(s[2], s[3], s[4], s[5], s[6], s[7]);
    assert s[..8] == Header(p.id, len);
    assert s == s[..8] + s[8..8 + len] + s[8 + len..];
  }

  lemma BytesOfWords(a: byte, b: byte, c: byte, d: byte, e: byte, f: byte)
    ensures Bytes16(Word16(a, b)) == [a, b] && Bytes32(Word32(c, d, e, f)) == [c, d, e, f]
  {
    var x := Word32(c, d, e, f);
    assert x / 0x100 == 0x1_0000 * c + 0x100 * d + e;
    assert x / 0x100 / 0x100 == 0x100 * c + d;
  }

  // ---------------------------------------------------------------------------
  // What the calls on a socket do
  // ---------------------------------------------------------------------------

  /**
   One direction of a connection: the number of bytes that have moved, and the number of calls made. What the calls
   do is a script `net`: a positive entry lets a call move at most that many bytes, 0 reports a closed connection, and
   a negative one fails with that error. Behind the last entry the connection is closed.
   */
  datatype Flow = Flow(pos: nat, calls: nat)

  /** The error code of an operation, 0 for success, and the direction behind it. */
  datatype Done = Done(code: nat, flow: Flow)

  /** What the next call does when `most` bytes could move: how many do, or the negative error. */
  function Moved(net: seq<int>, f: Flow, most: nat): (m: int)
    ensures m <= most && (f.calls >= |net| ==> m == 0)
  {
    if f.calls >= |net| then 0
    else if net[f.calls] <= 0 then net[f.calls]
    else Min(net[f.calls], most)
  }

  /** The direction behind the next call. */
  function Behind(f: Flow, m: int): Flow {
    f.(pos := if m > 0 then f.pos + m else f.pos, calls := f.calls + 1)
  }

  /** Every call moves a byte if there is one, and there are calls enough for `n` bytes. */
  predicate Steady(net: seq<int>, f: Flow, n: int) {
    (n <= 0 || f.calls + n <= |net|) && forall k :: f.calls <= k < |net| ==> net[k] > 0
  }

  /** The loop of `psc_sendall` and `psc_recvall`: `len` bytes in calls of any size; `limit` bytes exist in all. */
  function MoveAll(net: seq<int>, f: Flow, limit: nat, len: nat): Done
    requires f.pos <= limit
    decreases |net| - f.calls
  {
    if len == 0 then Done(0, f)
    else
      var m := Moved(net, f, Min(len, limit - f.pos));
      if m < 0 then Done(-m, Behind(f, m))
      else if m == 0 then Done(ENOTCONN, Behind(f, m))
      else MoveAll(net, Behind(f, m), limit, len - m)
  }

  /** A success moves exactly `len` bytes, an error fewer. */
  lemma {:induction false} MoveAllTakes(net: seq<int>, f: Flow, limit: nat, len: nat)
    requires f.pos <= limit
    ensures var r := MoveAll(net, f, limit, len);
      && f.pos <= r.flow.pos <= limit && r.flow.pos <= f.pos + len && (r.code == 0 <==> r.flow.pos == f.pos + len)
    decreases |net| - f.calls
  {
    if len > 0 {
      var m := Moved(net, f, Min(len, limit - f.pos));
      if m > 0 {
        MoveAllTakes(net, Behind(f, m), limit, len - m);
      }
    }
  }

  /** `psc_sendall` or `psc_recvall`, with what it does to the position. */
  function Transfer(net: seq<int>, f: Flow, limit: nat, len: nat): (r: Done)
    requires f.pos <= limit
    ensures f.pos <= r.flow.pos <= limit && r.flow.pos <= f.pos + len && (r.code == 0 <==> r.flow.pos == f.pos + len)
  {
    MoveAllTakes(net, f, limit, len);
    MoveAll(net, f, limit, len)
  }

  /** A failure has the code of its last call: the error of that call, or 128 where the stream has ended. */
  lemma {:induction false} FailureCode(net: seq<int>, f: Flow, limit: nat, len: nat)
    requires f.pos <= limit && MoveAll(net, f, limit, len).code != 0
    ensures var r := MoveAll(net, f, limit, len); var last := r.flow.calls - 1;
      last >= f.calls && r.code == if last < |net| && net[last] < 0 then -net[last] else 128
    decreases |net| - f.calls
  {
    var m := Moved(net, f, Min(len, limit - f.pos));
    if m > 0 {
      FailureCode(net, Behind(f, m), limit, len - m);
    }
  }

  lemma MoveStep(net: seq<int>, f: Flow, limit: nat, len: nat, n: nat)
    requires f.pos <= limit && len > 0 && n > 0 && n == Moved(net, f, Min(len, limit - f.pos))
    ensures MoveAll(net, f, limit, len) == MoveAll(net, Behind(f, n), limit, len - n)
  {
  }

  /** A steady flow moves whatever there is to move. */
  lemma {:induction false} MoveSteady(net: seq<int>, f: Flow, limit: nat, len: nat, n: nat)
    requires f.pos + len <= limit && len <= n && Steady(net, f, n)
    ensures var r := Transfer(net, f, limit, len); r.code == 0 && Steady(net, r.flow, n - len)
    decreases |net| - f.calls
  {
    if len != 0 {
      var m := Moved(net, f, len);
      MoveSteady(net, Behind(f, m), limit, len - m, n - m);
    }
  }

  /** It fails only where the bytes end. */
  lemma {:induction false} ReadSteady(net: seq<int>, f: Flow, limit: nat, len: nat)
    requires f.pos <= limit && Steady(net, f, limit - f.pos)
    ensures var r := Transfer(net, f, limit, len);
      (r.code == 0 <==> f.pos + len <= limit) && Steady(net, r.flow, limit - r.flow.pos)
    decreases |net| - f.calls
  {
    if len != 0 {
      var m := Moved(net, f, Min(len, limit - f.pos));
      if m > 0 {
        ReadSteady(net, Behind(f, m), limit, len - m);
      }
    }
  }

  // ---------------------------------------------------------------------------
  // Skipping
  // ---------------------------------------------------------------------------

  /** `last` is the length the last read asks for, `lost` the bytes that a failed chunk read took before it. */
  datatype Skipped = Skipped(code: nat, flow: Flow, last: nat, lost: nat)

  function LastRead(net: seq<int>, f: Flow, limit: nat, len: nat, lost: nat): Skipped
    requires f.pos <= limit
  {
    var r := Transfer(net, f, limit, len);
    Skipped(r.code, r.flow, len, lost)
  }

  /** `psc_recvskip`: a failed chunk read ends the loop, and the last read asks for all that was left before it. */
  function Skip(net: seq<int>, f: Flow, limit: nat, len: nat): (r: Skipped)
    requires f.pos <= limit
    ensures f.pos <= r.flow.pos <= limit
    ensures r.code == 0 ==> r.flow.pos == f.pos + len + r.lost
    ensures r.lost < SKIP_BUFFER && (r.lost > 0 ==> r.last > SKIP_BUFFER)
    decreases len
  {
    if len <= SKIP_BUFFER then LastRead(net, f, limit, len, 0)
    else
      var c := Transfer(net, f, limit, SKIP_BUFFER);
      if c.code == 0 then Skip(net, c.flow, limit, len - SKIP_BUFFER)
      else LastRead(net, c.flow, limit, len, c.flow.pos - f.pos)
  }

  /** The outcome of the j-th chunk read. */
  function ChunkRead(net: seq<int>, f: Flow, limit: nat, j: nat): (r: Done)
    requires f.pos <= limit
    ensures r.flow.pos <= limit
    decreases j
  {
    Transfer(net, if j == 0 then f else ChunkRead(net, f, limit, j - 1).flow, limit, SKIP_BUFFER)
  }

  lemma {:induction false} ChunkShift(net: seq<int>, f: Flow, limit: nat, j: nat)
    requires f.pos <= limit
    ensures ChunkRead(net, f, limit, j + 1) == ChunkRead(net, ChunkRead(net, f, limit, 0).flow, limit, j)
    decreases j
  {
    if j > 0 {
      ChunkShift(net, f, limit, j - 1);
    }
  }

  /** A chunk read fails while more than a buffer is left. */
  ghost predicate ChunkFails(net: seq<int>, f: Flow, limit: nat, len: nat)
    requires f.pos <= limit
  {
    exists j: nat :: SKIP_BUFFER * (j + 1) < len && ChunkRead(net, f, limit, j).code != 0
  }

  lemma ChunkFailsLater(net: seq<int>, f: Flow, limit: nat, len: nat)
    requires f.pos <= limit && len > SKIP_BUFFER && ChunkRead(net, f, limit, 0).code == 0
    ensures ChunkFails(net, f, limit, len)
      <==> ChunkFails(net, ChunkRead(net, f, limit, 0).flow, limit, len - SKIP_BUFFER)
  {
    var g := ChunkRead(net, f, limit, 0).flow;
    if ChunkFails(net, f, limit, len) {
      var j: nat :| SKIP_BUFFER * (j + 1) < len && ChunkRead(net, f, limit, j).code != 0;
      ChunkShift(net, f, limit, j - 1);
      assert ChunkRead(net, g, limit, j - 1).code != 0;
    }
    if ChunkFails(net, g, limit, len - SKIP_BUFFER) {
      var j: nat :| SKIP_BUFFER * (j + 1) < len - SKIP_BUFFER && ChunkRead(net, g, limit, j).code != 0;
      ChunkShift(net, f, limit, j);
      assert ChunkRead(net, f, limit, j + 1).code != 0;
    }
  }

  /** The last read stays within the buffer exactly when no chunk read fails while more than a buffer is left. */
  lemma {:induction false} LastReadFits(net: seq<int>, f: Flow, limit: nat, len: nat)
    requires f.pos <= limit
    ensures Skip(net, f, limit, len).last <= 128 <==> !ChunkFails(net, f, limit, len)
    decreases len
  {
    if len > SKIP_BUFFER {
      var c := ChunkRead(net, f, limit, 0);
      assert c == Transfer(net, f, limit, SKIP_BUFFER);
      if c.code == 0 {
        LastReadFits(net, c.flow, limit, len - SKIP_BUFFER);
        ChunkFailsLater(net, f, limit, len);
      } else {
        assert SKIP_BUFFER * (0 + 1) < len;
      }
    }
  }

  lemma {:induction false} SkipSteady(net: seq<int>, f: Flow, limit: nat, len: nat)
    requires f.pos <= limit && Steady(net, f, limit - f.pos)
    ensures var r := Skip(net, f, limit, len);
      && (r.code == 0 <==> f.pos + len <= limit)
      && (r.code == 0 ==> r.last <= SKIP_BUFFER && r.lost == 0)
      && Steady(net, r.flow, limit - r.flow.pos)
    decreases len
  {
    if len <= SKIP_BUFFER {
      ReadSteady(net, f, limit, len);
    } else {
      var c := Transfer(net, f, limit, SKIP_BUFFER);
      ReadSteady(net, f, limit, SKIP_BUFFER);
      if c.code == 0 {
        SkipSteady(net, c.flow, limit, len - SKIP_BUFFER);
      } else {
        ReadSteady(net, c.flow, limit, len);
      }
    }
  }

  /**
   A peer that stalls: 300 bytes are to be skipped, the first read brings 50, the second times out, and the peer
   resumes. The skip reports success, its last read asks for 300 bytes, and 350 bytes are gone.
   */
  lemma StalledSkip(pos: nat, limit: nat, error: int)
    requires pos + 350 <= limit && error > 0
    ensures var net := [50, -error, 300];
      && Skip(net, Flow(pos, 0), limit, 300) == Skipped(0, Flow(pos + 350, 3), 300, 50)
      && ChunkFails(net, Flow(pos, 0), limit, 300)
  {
    var net := [50, -error, 300];
    var f := Flow(pos, 0);
    var h := Flow(pos + 50, 2);
    assert MoveAll(net, f, limit, SKIP_BUFFER) == MoveAll(net, Behind(f, 50), limit, SKIP_BUFFER - 50)
      == Done(error, h);
    assert MoveAll(net, h, limit, 300) == MoveAll(net, Flow(pos + 350, 3), limit, 0);
    LastReadFits(net, f, limit, 300);
  }

  // ---------------------------------------------------------------------------
  // Messages on a connection
  // ---------------------------------------------------------------------------

  /** `psc_sendall` */
  function SendBytes(net: seq<int>, f: Flow, len: nat): Done {
    Transfer(net, f, f.pos + len, len)
  }

  /** `psc_sendmsg` */
  function SendOne(net: seq<int>, f: Flow, m: Message): (r: Done)
    requires Sendable(m)
    ensures f.pos <= r.flow.pos <= f.pos + |Encode(m)| && (r.code == 0 <==> r.flow.pos == f.pos + |Encode(m)|)
  {
    var h := SendBytes(net, f, 8);
    if h.code != 0 then h else SendBytes(net, h.flow, |m.body|)
  }

  /** Messages sent one after the other, up to the first error. */
  function SendMany(net: seq<int>, f: Flow, ms: seq<Message>): (r: Done)
    requires AllSendable(ms)
    ensures f.pos <= r.flow.pos <= f.pos + |EncodeAll(ms)| && (r.code == 0 <==> r.flow.pos == f.pos + |EncodeAll(ms)|)
    decreases |ms|
  {
    if ms == [] then Done(0, f)
    else
      var h := SendOne(net, f, ms[0]);
      if h.code != 0 then h else SendMany(net, h.flow, ms[1..])
  }

  datatype Received = Received(code: nat, id: u16, body: seq<byte>, flow: Flow, last: nat, lost: nat)

  datatype Head = Head(code: nat, flow: Flow, id: u16, len: u32)

  /** `psc_recvhead`: the id and the length of a well-formed header; eight bytes are read in any case. */
  function RecvHeadOf(net: seq<int>, s: seq<byte>, f: Flow): (h: Head)
    requires f.pos <= |s|
    ensures f.pos <= h.flow.pos <= |s| && (h.code == 0 ==> h.flow.pos == f.pos + 8)
  {
    var r := Transfer(net, f, |s|, 8);
    var at := f.pos;
    if r.code != 0 then Head(r.code, r.flow, 0, 0)
    else if s[at] != HEADER_P || s[at + 1] != HEADER_S then Head(EIO, r.flow, 0, 0)
    else Head(0, r.flow, Word16(s[at + 2], s[at + 3]), Word32(s[at + 4], s[at + 5], s[at + 6], s[at + 7]))
  }

  /** The part of `psc_recvmsg` behind the header. */
  function RecvBody(net: seq<int>, s: seq<byte>, h: Head, maxlen: nat): (r: Received)
    requires h.flow.pos <= |s|
    ensures h.flow.pos <= r.flow.pos <= |s| && (r.code == 0 ==> r.id == h.id)
  {
    var at := h.flow.pos;
    var len := Min(h.len, maxlen);
    var b := Transfer(net, h.flow, |s|, len);
    if b.code != 0 then Received(b.code, h.id, [], b.flow, 0, 0)
    else if len == h.len then Received(0, h.id, s[at..at + len], b.flow, 0, 0)
    else
      var k := Skip(net, b.flow, |s|, h.len - len);
      Received(k.code, h.id, s[at..at + len], k.flow, k.last, k.lost)
  }

  /** `psc_recvmsg` on a stream of bytes `s`. */
  function RecvOne(net: seq<int>, s: seq<byte>, f: Flow, maxlen: nat): (r: Received)
    requires f.pos <= |s|
    ensures f.pos <= r.flow.pos <= |s| && (r.code == 0 ==> f.pos < r.flow.pos)
  {
    var h := RecvHeadOf(net, s, f);
    if h.code != 0 then Received(h.code, 0, [], h.flow, 0, 0) else RecvBody(net, s, h, maxlen)
  }

  /** The message in front of position `at`. */
  function Front(s: seq<byte>, at: nat, maxlen: nat): Option<Parsed>
    requires at <= |s|
  {
    ParseOne(s[at..], maxlen)
  }

  /** Eight bytes that are no header are refused with code 5, and are gone. */
  lemma HeaderRefused(net: seq<int>, s: seq<byte>, f: Flow, maxlen: nat)
    requires f.pos + 8 <= |s| && Transfer(net, f, |s|, 8).code == 0 && (s[f.pos] != 0x50 || s[f.pos + 1] != 0x53)
    ensures RecvOne(net, s, f, maxlen).code == 5 && RecvOne(net, s, f, maxlen).flow.pos == f.pos + 8
  {
  }

  /** What a front that parses looks like in the stream. */
  lemma FrontFields(s: seq<byte>, at: nat, maxlen: nat)
    requires at <= |s|
    ensures Front(s, at, maxlen).Some? <==>
      at + 8 <= |s| && s[at] == 0x50 && s[at + 1] == 0x53
      && at + 8 + Word32(s[at + 4], s[at + 5], s[at + 6], s[at + 7]) <= |s|
    ensures Front(s, at, maxlen).Some? ==>
      var len := Word32(s[at + 4], s[at + 5], s[at + 6], s[at + 7]);
      && Front(s, at, maxlen) ==
           Some(Parsed(Word16(s[at + 2], s[at + 3]), s[at + 8..at + 8 + Min(len, maxlen)], s[at + 8 + len..]))
  {
    if at + 8 <= |s| {
      var t := s[at..];
      var len := Word32(s[at + 4], s[at + 5], s[at + 6], s[at + 7]);
      if at + 8 + len <= |s| {
        assert t[8 + len..] == s[at + 8 + len..];
        assert Cut(t[8..8 + len], maxlen) == s[at + 8..at + 8 + Min(len, maxlen)];
      }
    }
  }

  /**
   What a success means on any stream: id and body are those of the message in front, and what has gone is that
   message and the bytes that a failed chunk read took; none if the last read stayed within its buffer.
   */
  lemma ReceivedIsFront(net: seq<int>, s: seq<byte>, f: Flow, maxlen: nat)
    requires f.pos <= |s| && RecvOne(net, s, f, maxlen).code == 0
    ensures var r := RecvOne(net, s, f, maxlen);
      && r.lost < SKIP_BUFFER && (r.lost > 0 ==> r.last > SKIP_BUFFER) && f.pos <= r.flow.pos - r.lost
      && Front(s, f.pos, maxlen) == Some(Parsed(r.id, r.body, s[r.flow.pos - r.lost..]))
  {
    FrontFields(s, f.pos, maxlen);
  }

  lemma HeadSteady(net: seq<int>, s: seq<byte>, f: Flow)
    requires f.pos <= |s| && Steady(net, f, |s| - f.pos)
    ensures var h := RecvHeadOf(net, s, f);
      && (h.code == 0 <==> f.pos + 8 <= |s| && s[f.pos] == HEADER_P && s[f.pos + 1] == HEADER_S)
      && Steady(net, h.flow, |s| - h.flow.pos)
  {
    ReadSteady(net, f, |s|, 8);
  }

  lemma BodySteady(net: seq<int>, s: seq<byte>, h: Head, maxlen: nat)
    requires h.flow.pos <= |s| && Steady(net, h.flow, |s| - h.flow.pos)
    ensures var r := RecvBody(net, s, h, maxlen);
      && (r.code == 0 <==> h.flow.pos + h.len <= |s|)
      && (r.code == 0 ==> r.last <= SKIP_BUFFER && r.lost == 0)
      && Steady(net, r.flow, |s| - r.flow.pos)
  {
    var len := Min(h.len, maxlen);
    var b := Transfer(net, h.flow, |s|, len);
    ReadSteady(net, h.flow, |s|, len);
    if b.code == 0 {
      SkipSteady(net, b.flow, |s|, h.len - len);
    }
  }

  /** On a steady stream it succeeds exactly where a whole framed message is in front, and takes just that. */
  lemma ReceiveSteady(net: seq<int>, s: seq<byte>, f: Flow, maxlen: nat)
    requires f.pos <= |s| && Steady(net, f, |s| - f.pos)
    ensures var r := RecvOne(net, s, f, maxlen);
      && (r.code == 0 <==> Front(s, f.pos, maxlen).Some?)
      && (r.code == 0 ==> r.last <= SKIP_BUFFER && r.lost == 0)
      && Steady(net, r.flow, |s| - r.flow.pos)
  {
    var h := RecvHeadOf(net, s, f);
    HeadSteady(net, s, f);
    FrontFields(s, f.pos, maxlen);
    if h.code == 0 {
      BodySteady(net, s, h, maxlen);
    }
  }

  /** What the client loop of listener.c hands on: the messages up to the first error. */
  function Served(net: seq<int>, s: seq<byte>, f: Flow, maxlen: nat): seq<Message>
    requires f.pos <= |s|
    decreases |s| - f.pos
  {
    var r := RecvOne(net, s, f, maxlen);
    if r.code != 0 then [] else [Message(r.id, r.body)] + Served(net, s, r.flow, maxlen)
  }

  /** One turn of the loop takes `m`, or fails. */
  predicate Turn(net: seq<int>, s: seq<byte>, f: Flow, maxlen: nat, ok: bool, m: Message, g: Flow) {
    f.pos <= |s| &&
    var r := RecvOne(net, s, f, maxlen);
    r.flow == g && if r.code == 0 then ok && m == Message(r.id, r.body) else !ok
  }

  /** The turns of a loop so far. */
  predicate Turns(net: seq<int>, s: seq<byte>, flows: seq<Flow>, maxlen: nat, served: seq<Message>) {
    |flows| == |served| + 1 &&
    forall i :: 0 <= i < |served| ==> Turn(net, s, flows[i], maxlen, true, served[i], flows[i + 1])
  }

  lemma {:induction false} TurnsAreServed(net: seq<int>, s: seq<byte>, flows: seq<Flow>, maxlen: nat,
                                          served: seq<Message>, m: Message, end: Flow)
    requires Turns(net, s, flows, maxlen, served) && Turn(net, s, flows[|served|], maxlen, false, m, end)
    ensures flows[0].pos <= |s| && Served(net, s, flows[0], maxlen) == served
    decreases |served|
  {
    if served != [] {
      assert Turn(net, s, flows[0], maxlen, true, served[0], flows[0 + 1]);
      forall i | 0 <= i < |served| - 1
        ensures Turn(net, s, flows[1..][i], maxlen, true, served[1..][i], flows[1..][i + 1])
      {
        assert Turn(net, s, flows[i + 1], maxlen, true, served[i + 1], flows[i + 1 + 1]);
      }
      TurnsAreServed(net, s, flows[1..], maxlen, served[1..], m, end);
    }
  }

  lemma {:induction false} ServedSteady(net: seq<int>, s: seq<byte>, f: Flow, maxlen: nat)
    requires f.pos <= |s| && Steady(net, f, |s| - f.pos)
    ensures Served(net, s, f, maxlen) == ParseAll(s[f.pos..], maxlen)
    decreases |s| - f.pos
  {
    ReceiveSteady(net, s, f, maxlen);
    var r := RecvOne(net, s, f, maxlen);
    if r.code == 0 {
      ReceivedIsFront(net, s, f, maxlen);
      assert Front(s, f.pos, maxlen) == Some(Parsed(r.id, r.body, s[r.flow.pos..]));
      ServedSteady(net, s, r.flow, maxlen);
    }
  }

  lemma SendOneSteady(net: seq<int>, f: Flow, m: Message, more: nat)
    requires Sendable(m) && Steady(net, f, 8 + |m.body| + more)
    ensures SendOne(net, f, m).code == 0 && Steady(net, SendOne(net, f, m).flow, more)
  {
    var n := |m.body|;
    MoveSteady(net, f, f.pos + 8, 8, 8 + n + more);
    var h := SendBytes(net, f, 8);
    MoveSteady(net, h.flow, h.flow.pos + n, n, n + more);
  }

  lemma {:induction false} SendSteady(net: seq<int>, f: Flow, ms: seq<Message>)
    requires AllSendable(ms) && Steady(net, f, |EncodeAll(ms)|)
    ensures SendMany(net, f, ms).code == 0
    decreases |ms|
  {
    if ms != [] {
      SendOneSteady(net, f, ms[0], |EncodeAll(ms[1..])|);
      SendSteady(net, SendOne(net, f, ms[0]).flow, ms[1..]);
    }
  }

  /**
   Round trip: for every list of messages and every way the writes and the reads are split, the client loop at
   the far end hands on the same ids and bodies, in order, bodies cut to its buffer.
   */
  lemma RoundTrip(ms: seq<Message>, sends: seq<int>, recvs: seq<int>, maxlen: nat)
    requires AllSendable(ms) && Steady(sends, Flow(0, 0), |EncodeAll(ms)|) && Steady(recvs, Flow(0, 0), |EncodeAll(ms)|)
    ensures SendMany(sends, Flow(0, 0), ms).code == 0
    ensures var wire := EncodeAll(ms)[..SendMany(sends, Flow(0, 0), ms).flow.pos];
      Served(recvs, wire, Flow(0, 0), maxlen) == CutAll(ms, maxlen)
  {
    SendSteady(sends, Flow(0, 0), ms);
    var wire := EncodeAll(ms);
    assert wire[..|wire|] == wire == wire[0..];
    ServedSteady(recvs, wire, Flow(0, 0), maxlen);
    ParseAllEncoded(ms, maxlen);
  }

  // ---------------------------------------------------------------------------
  // The socket
  // ---------------------------------------------------------------------------

  /**
   A stream socket: `inbox` is all that the peer writes, `taken` how much of it was read, `outbox` what we wrote;
   the calls made and their scripts, one pair for each direction.
   */
  class Socket {
    const inbox: seq<byte>
    const recvScript: seq<int>
    const sendScript: seq<int>
    var taken: nat
    var recvs: nat
    var outbox: seq<byte>
    var sends: nat

    ghost function In(): Flow
      reads this
    {
      Flow(taken, recvs)
    }

    ghost function Out(): Flow
      reads this
    {
      Flow(|outbox|, sends)
    }

    constructor (incoming: seq<byte>, recvScript: seq<int>, sendScript: seq<int>)
      ensures inbox == incoming && this.recvScript == recvScript && In() == Flow(0, 0)
      ensures outbox == [] && this.sendScript == sendScript && Out() == Flow(0, 0)
    {
      inbox, this.recvScript, this.sendScript := incoming, recvScript, sendScript;
      taken, recvs, outbox, sends := 0, 0, [], 0;
    }

    /** A call; a negative result is the error with its sign turned. The memory a send reads is a sequence. */
    method Send(buf: seq<byte>, at: nat) returns (ret: int)
      requires at < |buf|
      modifies `outbox, `sends
      ensures ret == Moved(sendScript, old(Out()), |buf| - at) && Out() == Behind(old(Out()), ret)
      ensures outbox == if ret > 0 then old(outbox) + buf[at..at + ret] else old(outbox)
    {
      ret := Moved(sendScript, Flow(|outbox|, sends), |buf| - at);
      sends := sends + 1;
      if ret > 0 {
        outbox := outbox + buf[at..at + ret];
      }
    }

    method Recv(buf: array<byte>, at: nat, len: nat) returns (ret: int)
      requires 0 < len && at + len <= buf.Length && taken <= |inbox|
      modifies `taken, `recvs, buf
      ensures ret == Moved(recvScript, old(In()), Min(len, |inbox| - old(taken))) && In() == Behind(old(In()), ret)
      ensures forall k :: at <= k < at + (taken - old(taken)) ==> buf[k] == inbox[old(taken) + (k - at)]
      ensures forall k :: 0 <= k < buf.Length && !(at <= k < at + (taken - old(taken))) ==> buf[k] == old(buf[k])
    {
      ret := Moved(recvScript, Flow(taken, recvs), Min(len, |inbox| - taken));
      recvs := recvs + 1;
      if ret > 0 {
        forall k | 0 <= k < ret {
          buf[at + k] := inbox[taken + k];
        }
        taken := taken + ret;
      }
    }
  }

  /** The wire has grown by a first part of `data`. */
  predicate Wrote(before: seq<byte>, after: seq<byte>, data: seq<byte>) {
    |before| <= |after| <= |before| + |data| && after == before + data[..|after| - |before|]
  }

  lemma WroteMore(before: seq<byte>, mid: seq<byte>, after: seq<byte>, data: seq<byte>, n: nat)
    requires Wrote(before, mid, data) && |mid| - |before| + n <= |data|
    requires after == mid + data[|mid| - |before|..|mid| - |before| + n]
    ensures Wrote(before, after, data)
  {
    var at := |mid| - |before|;
    assert data[..at] + data[at..at + n] == data[..at + n];
  }

  lemma WroteBoth(before: seq<byte>, mid: seq<byte>, after: seq<byte>, first: seq<byte>, second: seq<byte>)
    requires mid == before + first && Wrote(mid, after, second)
    ensures Wrote(before, after, first + second)
  {
    var n := |after| - |mid|;
    assert (first + second)[..|first| + n] == first + second[..n];
  }

  lemma WroteFirst(before: seq<byte>, after: seq<byte>, first: seq<byte>, second: seq<byte>)
    requires Wrote(before, after, first)
    ensures Wrote(before, after, first + second)
  {
    var n := |after| - |before|;
    assert (first + second)[..n] == first[..n];
  }

  // ---------------------------------------------------------------------------
  // Whole buffers
  // ---------------------------------------------------------------------------

  /** One turn of the loop of `psc_sendall`: it goes on behind `n` bytes, or ends with an error. */
  method SendSome(sock: Socket, buf: seq<byte>, pos: nat, ghost limit: nat) returns (ret: nat, n: nat)
    requires pos < |buf| && limit == |sock.outbox| + (|buf| - pos)
    modifies sock`outbox, sock`sends
    ensures n <= |buf| - pos && (ret == 0 <==> n > 0) && sock.outbox == old(sock.outbox) + buf[pos..pos + n]
    ensures MoveAll(sock.sendScript, old(sock.Out()), limit, |buf| - pos) ==
      if ret == 0 then MoveAll(sock.sendScript, sock.Out(), limit, |buf| - (pos + n)) else Done(ret, sock.Out())
  {
    ghost var f := sock.Out();
    var m := sock.Send(buf, pos);
    if m < 0 {
      return -m, 0;
    } else if m == 0 {
      return ENOTCONN, 0;
    }
    MoveStep(sock.sendScript, f, limit, |buf| - pos, m);
    return 0, m;
  }

  /** `psc_sendall`: all of the buffer, or an error with a part of it on the wire. */
  method SendAll(sock: Socket, buf: seq<byte>) returns (ret: nat)
    modifies sock`outbox, sock`sends
    ensures Done(ret, sock.Out()) == SendBytes(sock.sendScript, old(sock.Out()), |buf|)
    ensures Wrote(old(sock.outbox), sock.outbox, buf)
  {
    var pos: nat := 0;
    ghost var limit := |sock.outbox| + |buf|;
    ghost var done := MoveAll(sock.sendScript, sock.Out(), limit, |buf|);
    while pos != |buf|
      invariant pos <= |buf| && |sock.outbox| == |old(sock.outbox)| + pos
      invariant Wrote(old(sock.outbox), sock.outbox, buf)
      invariant MoveAll(sock.sendScript, sock.Out(), limit, |buf| - pos) == done
      decreases |buf| - pos
    {
      ghost var mid := sock.outbox;
      var n: nat;
      ret, n := SendSome(sock, buf, pos, limit);
      WroteMore(old(sock.outbox), mid, sock.outbox, buf, n);
      if ret != 0 {
        return;
      }
      pos := pos + n;
    }
    return 0;
  }

  /** One turn of the loop of `psc_recvall`: it goes on behind `n` bytes, or ends with an error. */
  method RecvSome(sock: Socket, buf: array<byte>, pos: nat, left: nat) returns (ret: nat, n: nat)
    requires 0 < left && pos + left <= buf.Length && sock.taken <= |sock.inbox|
    modifies sock`taken, sock`recvs, buf
    ensures sock.taken == old(sock.taken) + n <= |sock.inbox| && n <= left && (ret == 0 <==> n > 0)
    ensures MoveAll(sock.recvScript, old(sock.In()), |sock.inbox|, left) ==
      if ret == 0 then MoveAll(sock.recvScript, sock.In(), |sock.inbox|, left - n) else Done(ret, sock.In())
    ensures forall k :: pos <= k < pos + n ==> buf[k] == sock.inbox[old(sock.taken) + (k - pos)]
    ensures forall k :: 0 <= k < buf.Length && !(pos <= k < pos + n) ==> buf[k] == old(buf[k])
  {
    ghost var f := sock.In();
    var m := sock.Recv(buf, pos, left);
    if m < 0 {
      return -m, 0;
    } else if m == 0 {
      return ENOTCONN, 0;
    }
    MoveStep(sock.recvScript, f, |sock.inbox|, left, m);
    return 0, m;
  }

  /** `psc_recvall`: the bytes read, all of them or fewer, stand in the buffer in order, and nothing else does. */
  method RecvAll(sock: Socket, buf: array<byte>, len: nat) returns (ret: nat)
    requires len <= buf.Length && sock.taken <= |sock.inbox|
    modifies sock`taken, sock`recvs, buf
    ensures Done(ret, sock.In()) == Transfer(sock.recvScript, old(sock.In()), |sock.inbox|, len)
    ensures old(sock.taken) <= sock.taken <= |sock.inbox| && sock.taken - old(sock.taken) <= len
    ensures forall k :: 0 <= k < sock.taken - old(sock.taken) ==> buf[k] == sock.inbox[old(sock.taken) + k]
    ensures forall k :: sock.taken - old(sock.taken) <= k < buf.Length ==> buf[k] == old(buf[k])
  {
    var pos: nat, left: nat := 0, len;
    ghost var done := MoveAll(sock.recvScript, sock.In(), |sock.inbox|, len);
    while left != 0
      invariant pos + left == len && sock.taken == old(sock.taken) + pos <= |sock.inbox|
      invariant MoveAll(sock.recvScript, sock.In(), |sock.inbox|, left) == done
      invariant forall k :: 0 <= k < pos ==> buf[k] == sock.inbox[old(sock.taken) + k]
      invariant forall k :: pos <= k < buf.Length ==> buf[k] == old(buf[k])
      decreases left
    {
      var n: nat;
      ret, n := RecvSome(sock, buf, pos, left);
      if ret != 0 {
        return;
      }
      pos := pos + n;
      left := left - n;
    }
    return 0;
  }

  /**
   `psc_recvskip`. The array stands for the 128-byte buffer and, behind it, the memory that a longer last read runs
   into; `last` is the length of that read.
   */
  method RecvSkip(sock: Socket, len: nat) returns (ret: nat, last: nat)
    requires sock.taken <= |sock.inbox|
    modifies sock`taken, sock`recvs
    ensures sock.taken <= |sock.inbox|
    ensures var r := Skip(sock.recvScript, old(sock.In()), |sock.inbox|, len);
      ret == r.code && sock.In() == r.flow && last == r.last
  {
    var buf := new byte[if len > SKIP_BUFFER then len else SKIP_BUFFER](_ => 0);
    var left: nat, chunk: nat := len, 0;
    ghost var lost: nat, net, limit := 0, sock.recvScript, |sock.inbox|;
    while left > SKIP_BUFFER && chunk == 0
      invariant left <= len && sock.taken <= |sock.inbox| && (chunk != 0 ==> left > SKIP_BUFFER)
      invariant Skip(net, old(sock.In()), limit, len) ==
        if chunk == 0 then Skip(net, sock.In(), limit, left) else LastRead(net, sock.In(), limit, left, lost)
      decreases left, chunk == 0
    {
      ghost var before := sock.taken;
      chunk := RecvAll(sock, buf, SKIP_BUFFER);
      if chunk == 0 {
        left := left - SKIP_BUFFER;
      } else {
        lost := sock.taken - before;
      }
    }
    ret := RecvAll(sock, buf, left);
    last := left;
  }

  // ---------------------------------------------------------------------------
  // Messages
  // ---------------------------------------------------------------------------

  /** `psc_sendhead` */
  method SendHead(sock: Socket, id: u16, len: u32) returns (ret: nat)
    modifies sock`outbox, sock`sends
    ensures Done(ret, sock.Out()) == SendBytes(sock.sendScript, old(sock.Out()), 8)
    ensures Wrote(old(sock.outbox), sock.outbox, Header(id, len))
  {
    ret := SendAll(sock, Header(id, len));
  }

  /** `psc_sendmsg`: the wire grows by the encoded message, or after an error by the first part of it. */
  method SendMsg(sock: Socket, id: u16, buf: seq<byte>) returns (ret: nat)
    requires |buf| < TWO_32
    modifies sock`outbox, sock`sends
    ensures Done(ret, sock.Out()) == SendOne(sock.sendScript, old(sock.Out()), Message(id, buf))
    ensures Wrote(old(sock.outbox), sock.outbox, Encode(Message(id, buf)))
  {
    ret := SendHead(sock, id, |buf|);
    ghost var mid := sock.outbox;
    if ret != 0 {
      WroteFirst(old(sock.outbox), mid, Header(id, |buf|), buf);
      return;
    }
    ret := SendAll(sock, buf);
    WroteBoth(old(sock.outbox), mid, sock.outbox, Header(id, |buf|), buf);
  }

  /** `psc_recvhead` */
  method RecvHead(sock: Socket) returns (ret: nat, id: u16, len: u32)
    requires sock.taken <= |sock.inbox|
    modifies sock`taken, sock`recvs
    ensures Head(ret, sock.In(), id, len) == RecvHeadOf(sock.recvScript, sock.inbox, old(sock.In()))
  {
    id, len := 0, 0;
    var buf := new byte[8](_ => 0);
    ghost var at := sock.taken;
    ret := RecvAll(sock, buf, 8);
    if ret != 0 {
      return;
    }
    assert sock.taken == at + 8;
    ghost var head := sock.inbox[at..at + 8];
    assert forall k :: 0 <= k < 8 ==> buf[k] == head[k] == sock.inbox[at + k];
    if buf[0] != HEADER_P || buf[1] != HEADER_S {
      return EIO, 0, 0;
    }
    id := Word16(buf[2], buf[3]);
    len := Word32(buf[4], buf[5], buf[6], buf[7]);
  }

  /** The part of `psc_recvmsg` behind the header. */
  method RecvRest(sock: Socket, buf: array<byte>, maxlen: u32, id: u16, mlen: u32)
    returns (ret: nat, len: u32, last: nat)
    requires maxlen <= buf.Length && sock.taken <= |sock.inbox|
    modifies sock`taken, sock`recvs, buf
    ensures var r := RecvBody(sock.recvScript, sock.inbox, Head(0, old(sock.In()), id, mlen), maxlen);
      && ret == r.code && sock.In() == r.flow && last == r.last
      && (ret == 0 ==> len <= maxlen && buf[..len] == r.body)
  {
    last := 0;
    len := if mlen > maxlen then maxlen else mlen;
    ghost var at := sock.taken;
    ret := RecvAll(sock, buf, len);
    if ret == 0 {
      assert buf[..len] == sock.inbox[at..at + len];
      if len < mlen {
        ret, last := RecvSkip(sock, mlen - len);
      }
    }
  }

  /** `psc_recvmsg` */
  method RecvMsg(sock: Socket, buf: array<byte>, maxlen: u32) returns (ret: nat, id: u16, len: u32, last: nat)
    requires maxlen <= buf.Length && sock.taken <= |sock.inbox|
    modifies sock`taken, sock`recvs, buf
    ensures var r := RecvOne(sock.recvScript, sock.inbox, old(sock.In()), maxlen);
      && ret == r.code && sock.In() == r.flow && last == r.last
      && (ret == 0 ==> len <= maxlen && id == r.id && buf[..len] == r.body)
  {
    var mlen: u32;
    len, last := 0, 0;
    ret, id, mlen := RecvHead(sock);
    if ret == 0 {
      ret, len, last := RecvRest(sock, buf, maxlen, id, mlen);
    }
  }

  /** One turn of the client loop of listener.c: a message for the receive callback, or the error that ends the loop. */
  method ServeOne(sock: Socket, buf: array<byte>) returns (ret: nat, m: Message)
    requires buf.Length < TWO_32 && sock.taken <= |sock.inbox|
    modifies sock`taken, sock`recvs, buf
    ensures sock.taken <= |sock.inbox| && (ret == 0 ==> old(sock.taken) < sock.taken)
    ensures Turn(sock.recvScript, sock.inbox, old(sock.In()), buf.Length, ret == 0, m, sock.In())
  {
    var id: u16, len: u32, last: nat;
    ret, id, len, last := RecvMsg(sock, buf, buf.Length);
    m := Message(id, if ret == 0 then buf[..len] else []);
  }

  /** The client loop of listener.c: every message goes to the receive callback, until a read fails. */
  method HandleClient(sock: Socket, buf: array<byte>) returns (served: seq<Message>)
    requires buf.Length < TWO_32 && sock.taken <= |sock.inbox|
    modifies sock`taken, sock`recvs, buf
    ensures served == Served(sock.recvScript, sock.inbox, old(sock.In()), buf.Length)
  {
    served := [];
    ghost var flows := [sock.In()];
    while true
      invariant sock.taken <= |sock.inbox| && |flows| == |served| + 1 && flows[0] == old(sock.In())
      invariant flows[|served|] == sock.In()
      invariant Turns(sock.recvScript, sock.inbox, flows, buf.Length, served)
      decreases |sock.inbox| - sock.taken
    {
      var ret, m := ServeOne(sock, buf);
      if ret != 0 {
        TurnsAreServed(sock.recvScript, sock.inbox, flows, buf.Length, served, m, sock.In());
        return;
      }
      served, flows := served + [m], flows + [sock.In()];
    }
  }

  /** Messages sent one after the other, up to the first error. */
  method SendMsgs(sock: Socket, ms: seq<Message>) returns (ret: nat)
    requires AllSendable(ms)
    modifies sock`outbox, sock`sends
    ensures Done(ret, sock.Out()) == SendMany(sock.sendScript, old(sock.Out()), ms)
    ensures Wrote(old(sock.outbox), sock.outbox, EncodeAll(ms))
    decreases |ms|
  {
    if ms == [] {
      return 0;
    }
    ret := SendMsg(sock, ms[0].id, ms[0].body);
    ghost var mid := sock.outbox;
    if ret != 0 {
      WroteFirst(old(sock.outbox), mid, Encode(ms[0]), EncodeAll(ms[1..]));
    } else {
      ret := SendMsgs(sock, ms[1..]);
      WroteBoth(old(sock.outbox), mid, sock.outbox, Encode(ms[0]), EncodeAll(ms[1..]));
    }
  }
}
