/** The INSTREAM framing in which mail is sent to clamd, and the reader at the other end. */
module ClamAv {
  import opened Options

  newtype Byte = x: int | 0 <= x < 256

  type Bytes = seq<Byte>

  const CHUNK: nat := 2048

  // ----- Four-byte big-endian lengths ----------------------------------------------------------

  function BigEndian(n: nat): (b: Bytes)
    requires n < 0x1_0000_0000
    ensures |b| == 4
  {
    [(n / 0x100_0000) as Byte, (n / 0x1_0000 % 0x100) as Byte, (n / 0x100 % 0x100) as Byte, (n % 0x100) as Byte]
  }

  function Length(b: Bytes): nat
    requires |b| >= 4
  {
    b[0] as int * 0x100_0000 + b[1] as int * 0x1_0000 + b[2] as int * 0x100 + b[3] as int
  }

  lemma LengthRoundTrip(n: nat, rest: Bytes)
    requires n < 0x1_0000_0000
    ensures Length(BigEndian(n) + rest) == n
    ensures var b := BigEndian(n);
      n == b[0] as int * 16777216 + b[1] as int * 65536 + b[2] as int * 256 + b[3] as int
  {
    var b := BigEndian(n);
    assert forall i :: 0 <= i < 4 ==> (b + rest)[i] == b[i];
    assert n / 0x100 == n / 0x1_0000 * 0x100 + n / 0x100 % 0x100;
    assert n / 0x1_0000 == n / 0x100_0000 * 0x100 + n / 0x1_0000 % 0x100;
  }

  // ----- Chunks ----------------------------------------------------------------------------------

  function Flatten(chunks: seq<Bytes>): Bytes {
    if chunks == [] then [] else Flatten(chunks[..|chunks| - 1]) + chunks[|chunks| - 1]
  }

  /** One chunk on the wire, after its length. */
  function Packet(chunk: Bytes): Bytes
    requires |chunk| <= CHUNK
  {
    BigEndian(|chunk|) + chunk
  }

  /** What goes over the wire for a list of chunks, without the terminator. */
  function Wire(chunks: seq<Bytes>): Bytes
    requires forall c :: c in chunks ==> |c| <= CHUNK
  {
    if chunks == [] then []
    else Wire(chunks[..|chunks| - 1]) + Packet(chunks[|chunks| - 1])
  }

  /** How many bytes the first k chunks of n bytes hold. */
  function Upto(n: nat, k: nat): nat {
    if k * CHUNK < n then k * CHUNK else n
  }

  function Chunked(data: Bytes): (chunks: seq<Bytes>)
    ensures |chunks| == (|data| + CHUNK - 1) / CHUNK
    ensures forall k :: 0 <= k < |chunks| ==> chunks[k] == data[Upto(|data|, k)..Upto(|data|, k + 1)]
  {
    seq((|data| + CHUNK - 1) / CHUNK, k requires 0 <= k => data[Upto(|data|, k)..Upto(|data|, k + 1)])
  }

  /** The chunks of `data`: all full but the last, none empty, and together the data. */
  ghost predicate ChunksOf(data: Bytes, chunks: seq<Bytes>) {
    && Flatten(chunks) == data
    && (forall c :: c in chunks ==> 0 < |c| <= 2048)
    && (forall i :: 0 <= i < |chunks| - 1 ==> |chunks[i]| == 2048)
  }

  lemma ChunkSizes(data: Bytes)
    ensures var chunks := Chunked(data);
      && (forall c :: c in chunks ==> 0 < |c| <= CHUNK)
      && (forall i :: 0 <= i < |chunks| - 1 ==> |chunks[i]| == CHUNK)
  {
  }

  lemma {:induction false} FlattenFirst(data: Bytes, k: nat)
    requires k <= |Chunked(data)|
    ensures Flatten(Chunked(data)[..k]) == data[..Upto(|data|, k)]
  {
    if k > 0 {
      FlattenFirst(data, k - 1);
      assert Chunked(data)[..k][..k - 1] == Chunked(data)[..k - 1];
      assert data[..Upto(|data|, k)] == data[..Upto(|data|, k - 1)] + Chunked(data)[k - 1];
    }
  }

  lemma ChunkedExact(data: Bytes)
    ensures ChunksOf(data, Chunked(data))
  {
    var chunks := Chunked(data);
    ChunkSizes(data);
    FlattenFirst(data, |chunks|);
    assert chunks[..|chunks|] == chunks && data[..|data|] == data;
  }

  /** The whole stream: the chunks, each after its length, and a zero length. */
  function Framed(data: Bytes): Bytes {
    ChunkSizes(data);
    Wire(Chunked(data)) + BigEndian(0)
  }

  // ----- The reader ---------------------------------------------------------------------------------

  /** Reads length-prefixed chunks up to the terminator; None if the stream breaks off. */
  function Unframe(s: Bytes): Option<(Bytes, Bytes)> {
    if |s| < 4 then None
    else
      var n := Length(s);
      if n == 0 then Some(([], s[4..]))
      else if |s| < 4 + n then None
      else
        match Unframe(s[4 + n..])
        case None => None
        case Some((body, rest)) => Some((s[4..4 + n] + body, rest))
  }

  /** What reading gives after `first` has been read. */
  function After(first: Bytes, result: Option<(Bytes, Bytes)>): Option<(Bytes, Bytes)> {
    match result
    case None => None
    case Some((body, rest)) => Some((first + body, rest))
  }

  lemma AfterBoth(first: Bytes, second: Bytes, result: Option<(Bytes, Bytes)>)
    ensures After(first, After(second, result)) == After(first + second, result)
    ensures After([], result) == result
  {
    if result.Some? {
      assert first + (second + result.value.0) == first + second + result.value.0;
      assert [] + result.value.0 == result.value.0;
    }
  }

  /** Reading one chunk and then the rest. */
  lemma UnframeChunk(chunk: Bytes, s: Bytes)
    requires 0 < |chunk| <= CHUNK
    ensures Unframe(Packet(chunk) + s) == After(chunk, Unframe(s))
  {
    var all := Packet(chunk) + s;
    assert all == BigEndian(|chunk|) + (chunk + s);
    LengthRoundTrip(|chunk|, chunk + s);
    assert all[4..4 + |chunk|] == chunk && all[4 + |chunk|..] == s;
  }

  lemma Associative(a: Bytes, b: Bytes, c: Bytes)
    ensures a + b + c == a + (b + c)
  {
  }

  lemma {:induction false} UnframeWire(chunks: seq<Bytes>, s: Bytes)
    requires forall c :: c in chunks ==> 0 < |c| <= CHUNK
    ensures Unframe(Wire(chunks) + s) == After(Flatten(chunks), Unframe(s))
    decreases |chunks|
  {
    if chunks == [] {
      assert Wire(chunks) + s == s;
      AfterBoth([], [], Unframe(s));
    } else {
      var n := |chunks| - 1;
      var last := Packet(chunks[n]) + s;
      Associative(Wire(chunks[..n]), Packet(chunks[n]), s);
      UnframeWire(chunks[..n], last);
      UnframeChunk(chunks[n], s);
      AfterBoth(Flatten(chunks[..n]), chunks[n], Unframe(s));
    }
  }

  /** The framed stream unframes to exactly what was framed, and leaves what follows it. */
  lemma FramingRoundTrip(data: Bytes, rest: Bytes)
    ensures Unframe(Framed(data) + rest) == Some((data, rest))
  {
    ChunkedExact(data);
    var chunks := Chunked(data);
    UnframeWire(chunks, BigEndian(0) + rest);
    LengthRoundTrip(0, rest);
    assert (BigEndian(0) + rest)[4..] == rest;
    assert Framed(data) + rest == Wire(chunks) + (BigEndian(0) + rest);
    assert data + [] == data;
  }

  /** Reading more input does not change what has been read. */
  lemma {:induction false} UnframeExtends(s: Bytes, more: Bytes)
    requires Unframe(s).Some?
    ensures Unframe(s + more) == Some((Unframe(s).value.0, Unframe(s).value.1 + more))
    decreases |s|
  {
    assert Length(s + more) == Length(s);
    var n := Length(s);
    assert (s + more)[4 + n..] == s[4 + n..] + more;
    if n != 0 {
      UnframeExtends(s[4 + n..], more);
      assert (s + more)[4..4 + n] == s[4..4 + n];
    }
  }

  /** A stream that breaks off, wherever it does, is never taken for a complete one. */
  lemma BrokenOffIsNotAccepted(data: Bytes, k: nat)
    requires k < |Framed(data)|
    ensures Unframe(Framed(data)[..k]).None?
  {
    var all := Framed(data);
    var tail := all[k..];
    if Unframe(all[..k]).Some? {
      UnframeExtends(all[..k], tail);
      assert all[..k] + tail == all == all + [];
      FramingRoundTrip(data, []);
    }
  }

  // ----- The writer ---------------------------------------------------------------------------------

  class Connection {
    var written: Bytes

    constructor ()
      ensures written == []
    {
      written := [];
    }

    /** A write that fails may have written a first part. */
    method Write(b: Bytes) returns (ok: bool)
      modifies this
      ensures ok ==> written == old(written) + b
      ensures !ok ==> exists k: nat :: k <= |b| && written == old(written) + b[..k]
    {
      ok := *;
      var n: nat := *;
      if !ok && 0 <= n <= |b| {
        written := written + b[..n];
      } else {
        written := written + b;
        assert b == b[..|b|];
      }
    }
  }

  /** What is on the wire after the first k chunks. */
  ghost function Sent(data: Bytes, k: nat): Bytes
    requires k <= |Chunked(data)|
  {
    ChunkSizes(data);
    Wire(Chunked(data)[..k])
  }

  /** The next chunk continues it. */
  lemma SentNext(data: Bytes, k: nat)
    requires k < |Chunked(data)|
    ensures |Chunked(data)[k]| <= CHUNK && Sent(data, k + 1) == Sent(data, k) + Packet(Chunked(data)[k])
  {
    ChunkSizes(data);
    assert Chunked(data)[..k + 1][..k] == Chunked(data)[..k];
  }

  lemma ChunkAt(data: Bytes, k: nat, i: nat)
    requires i == k * CHUNK < |data|
    ensures k < |Chunked(data)| && Chunked(data)[k] == data[i..Upto(|data|, k + 1)]
  {
  }

  /** With all chunks sent only the terminator is missing. */
  lemma AllSent(data: Bytes)
    ensures Framed(data) == Sent(data, |Chunked(data)|) + BigEndian(0)
  {
    assert Chunked(data)[..|Chunked(data)|] == Chunked(data);
  }

  /** What has been sent is a first part of the stream. */
  lemma {:induction false} SentPrefix(data: Bytes, k: nat)
    requires k <= |Chunked(data)|
    ensures Sent(data, k) <= Framed(data)
    decreases |Chunked(data)| - k
  {
    if k == |Chunked(data)| {
      AllSent(data);
    } else {
      SentNext(data, k);
      SentPrefix(data, k + 1);
    }
  }

  /** If sending the next chunk stops halfway, a first part of the stream has been sent. */
  lemma StoppedHalfway(before: Bytes, data: Bytes, k: nat, written: Bytes)
    requires k < |Chunked(data)| && written <= before + Sent(data, k + 1)
    ensures written <= before + Framed(data)
  {
    SentPrefix(data, k + 1);
    assert before + Sent(data, k + 1) <= before + Framed(data);
  }

  /** A length and its chunk, which take the stream from k chunks to k + 1. */
  method SendChunk(conn: Connection, chunk: Bytes, ghost before: Bytes, ghost data: Bytes, ghost k: nat) returns (ok: bool)
    requires k < |Chunked(data)| && chunk == Chunked(data)[k] && conn.written == before + Sent(data, k)
    modifies conn
    ensures ok ==> conn.written == before + Sent(data, k + 1)
    ensures conn.written <= before + Framed(data)
  {
    SentNext(data, k);
    Associative(before, Sent(data, k), Packet(chunk));
    ghost var start := conn.written;
    assert start + Packet(chunk) == start + BigEndian(|chunk|) + chunk;
    ok := conn.Write(BigEndian(|chunk|));
    if ok { ok := conn.Write(chunk); }
    assert conn.written <= start + Packet(chunk);
    StoppedHalfway(before, data, k, conn.written);
  }

  method SendTerminator(conn: Connection, ghost before: Bytes, ghost data: Bytes) returns (ok: bool)
    requires conn.written == before + Sent(data, |Chunked(data)|)
    modifies conn
    ensures ok ==> conn.written == before + Framed(data)
    ensures conn.written <= before + Framed(data)
  {
    AllSent(data);
    Associative(before, Sent(data, |Chunked(data)|), BigEndian(0));
    ok := conn.Write(BigEndian(0));
  }

  /** scanBytes, after the command: the chunks, then the terminator. If every write succeeds the
      framed stream is on the wire, otherwise a first part of it. */
  method SendFramed(conn: Connection, data: Bytes) returns (ok: bool)
    modifies conn
    ensures ok ==> conn.written == old(conn.written) + Framed(data)
    ensures conn.written <= old(conn.written) + Framed(data)
  {
    ghost var k, before := 0, conn.written;
    var i := 0;
    NothingSent(before, data);
    while i < |data|
      invariant i == k * CHUNK && k <= |Chunked(data)|
      invariant conn.written == before + Sent(data, k)
      decreases |data| - i
    {
      var end := i + CHUNK;
      if end > |data| { end := |data|; }
      ChunkAt(data, k, i);
      ok := SendChunk(conn, data[i..end], before, data, k);
      if !ok { return; }
      i := i + CHUNK;
      k := k + 1;
    }
    ok := SendTerminator(conn, before, data);
  }

  lemma NothingSent(before: Bytes, data: Bytes)
    ensures before + Sent(data, 0) == before
  {
  }
}
