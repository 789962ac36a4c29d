/**
 A lossy, duplicating FIFO channel between the TFTP server and one RFC 1350 peer, and the file
 as 512-byte blocks.
 */
module TftpChannel {
  import opened Words
  import opened Wrappers
  import opened TftpServer

  /** The channel without its i-th packet. */
  function Lose(q: seq<Packet>, i: nat): seq<Packet> {
    if i < |q| then q[..i] + q[i + 1..] else q
  }

  /** The channel with its i-th packet twice. */
  function Duplicate(q: seq<Packet>, i: nat): seq<Packet> {
    if i < |q| then q[..i + 1] + q[i..] else q
  }

  /**
   The channel carries copies of `older` and of `newer` only, all copies of `older` in front; error
   replies may stand anywhere if `failures`.
   */
  predicate Carries(q: seq<Packet>, older: Option<Packet>, newer: Option<Packet>, failures: bool) {
    && (forall i :: 0 <= i < |q| ==> Some(q[i]) == older || Some(q[i]) == newer || (failures && q[i].Failure?))
    && (forall i, j :: 0 <= i < j < |q| && Some(q[i]) == newer ==> Some(q[j]) != older)
  }

  lemma LoseKeeps(q: seq<Packet>, i: nat, older: Option<Packet>, newer: Option<Packet>, failures: bool)
    requires Carries(q, older, newer, failures)
    ensures Carries(Lose(q, i), older, newer, failures)
  {
  }

  lemma DuplicateKeeps(q: seq<Packet>, i: nat, older: Option<Packet>, newer: Option<Packet>, failures: bool)
    requires Carries(q, older, newer, failures) && (older != newer || newer == None)
    ensures Carries(Duplicate(q, i), older, newer, failures)
  {
  }

  lemma TakeKeeps(q: seq<Packet>, older: Option<Packet>, newer: Option<Packet>, failures: bool)
    requires Carries(q, older, newer, failures) && q != []
    ensures Carries(q[1..], older, newer, failures)
  {
  }

  /** Behind a copy of `newer` there is no copy of `older` left. */
  lemma TakeNewer(q: seq<Packet>, older: Option<Packet>, newer: Packet, failures: bool)
    requires Carries(q, older, Some(newer), failures) && q != [] && q[0] == newer
    ensures Carries(q[1..], None, Some(newer), failures) && Carries(q[1..], Some(newer), None, failures)
  {
  }

  lemma AppendNewer(q: seq<Packet>, older: Option<Packet>, newer: Packet, failures: bool)
    requires Carries(q, older, Some(newer), failures) && older != Some(newer)
    ensures Carries(q + [newer], older, Some(newer), failures)
  {
  }

  lemma AppendFailure(q: seq<Packet>, older: Option<Packet>, newer: Option<Packet>, x: Packet)
    requires Carries(q, older, newer, true) && x.Failure? && older != Some(x)
    ensures Carries(q + [x], older, newer, true)
  {
  }

  /** A copy of `older` may still join while none of `newer` is on its way. */
  lemma AppendOlder(q: seq<Packet>, older: Packet, failures: bool)
    requires Carries(q, Some(older), None, failures)
    ensures Carries(q + [older], Some(older), None, failures)
  {
  }

  /** What was `newer` becomes `older` when the next packet is sent. */
  lemma AppendNext(q: seq<Packet>, x: Packet, y: Packet, failures: bool)
    requires Carries(q, None, Some(x), failures) && x != y && !x.Failure? && !y.Failure?
    ensures Carries(q + [y], Some(x), Some(y), failures)
  {
  }

  /** A packet that is not on its way may be awaited. */
  lemma Expect(q: seq<Packet>, older: Option<Packet>, newer: Packet, failures: bool)
    requires Carries(q, older, None, failures) && older != Some(newer) && !newer.Failure?
    ensures Carries(q, older, Some(newer), failures)
  {
  }

  /** The first copy of `newer` joins a channel that carries only `older`. */
  lemma AppendFirst(q: seq<Packet>, older: Option<Packet>, newer: Packet, failures: bool)
    requires Carries(q, older, None, failures) && older != Some(newer) && !newer.Failure?
    ensures Carries(q + [newer], older, Some(newer), failures)
  {
  }

  /** The packets that the server hands to the network, for the one peer of the channel. */
  function Payloads(out: seq<Sent>): (q: seq<Packet>)
    ensures |q| == |out|
  {
    seq(|out|, i requires 0 <= i < |out| => out[i].p)
  }

  lemma OneReply(out: seq<Sent>)
    requires |out| == 1
    ensures Payloads(out) == [out[0].p]
  {
  }

  /** The session is the same, whatever the timer fields say. */
  predicate SameSession(t: State, u: State) {
    && t.open == u.open && t.modeWrite == u.modeWrite && t.file == u.file && t.lastData == u.lastData
    && t.ip == u.ip && t.port == u.port && t.pos == u.pos && (t.open ==> t.blknum == u.blknum)
  }

  // ---------------------------------------------------------------------------
  // Files
  // ---------------------------------------------------------------------------

  /** Number of the last block, the one shorter than 512 bytes. */
  function LastBlock(data: seq<byte>): nat {
    |data| / MAX_PAYLOAD + 1
  }

  /** The first `k` blocks of the file, put together. */
  function Prefix(data: seq<byte>, k: nat): seq<byte> {
    if MAX_PAYLOAD * k <= |data| then data[..MAX_PAYLOAD * k] else data
  }

  /** Payload of block `k`: bytes 512(k-1) up to 512k or the end of the file. */
  function Block(data: seq<byte>, k: nat): seq<byte>
    requires 1 <= k <= LastBlock(data)
  {
    data[MAX_PAYLOAD * (k - 1)..if MAX_PAYLOAD * k <= |data| then MAX_PAYLOAD * k else |data|]
  }

  lemma BlockExtends(data: seq<byte>, k: nat)
    requires 1 <= k <= LastBlock(data)
    ensures Prefix(data, k - 1) + Block(data, k) == Prefix(data, k)
    ensures |Block(data, k)| < 512 <==> k == LastBlock(data)
    ensures |Block(data, k)| <= 512
    ensures Prefix(data, LastBlock(data)) == data
  {
  }

  /** `head` laid over the beginning of `held`. */
  function Overlaid(held: seq<byte>, head: seq<byte>): (file: seq<byte>)
    ensures head <= file
  {
    head + if |head| <= |held| then held[|head|..] else []
  }

  /** Writing behind `head` lays more of it over the old file. */
  lemma OverwriteExtends(held: seq<byte>, head: seq<byte>, bytes: seq<byte>)
    ensures Overwrite(Overlaid(held, head), |head|, bytes) == Overlaid(held, head + bytes)
  {
    var file := Overlaid(held, head);
    assert file[..|head|] == head;
    if |head| + |bytes| <= |held| {
      assert file[|head| + |bytes|..] == held[|head| + |bytes|..];
    }
  }

  /** Nothing of the old file is left exactly when it was no longer than `head`. */
  lemma OverlaidIsHead(held: seq<byte>, head: seq<byte>)
    ensures Overlaid(held, head) == head <==> |held| <= |head|
  {
  }

  lemma NumbersDiffer(a: nat, b: nat)
    requires a < b < a + TWO_16
    ensures a % TWO_16 != b % TWO_16
  {
  }
}
