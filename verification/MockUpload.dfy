/** The test server's upload route, which appends what arrives instead of
    storing it at its offset. */
module MockUpload {
  import opened Octets
  import opened OneDriveHttp
  import opened OneDriveUpload
  import opened Options

  /** The chunks received so far, and the file once the last one has come. */
  datatype Mock = Mock(partial: Bytes, file: Option<Bytes>)

  /** One request that arrived. */
  function Receive(m: Mock, r: Range, chunk: Bytes): Mock {
    var total := m.partial + chunk;
    if r.last + 1 >= r.total then Mock([], Some(total)) else Mock(total, m.file)
  }

  /** The bytes of the upload that a range names. */
  function Piece(body: Bytes, r: Range): Bytes {
    if r.first <= r.last < |body| then body[r.first..r.last + 1] else []
  }

  /** The same request arriving `n` times. */
  function ReceiveAgain(m: Mock, r: Range, chunk: Bytes, n: nat): Mock
    decreases n
  {
    if n == 0 then m else ReceiveAgain(Receive(m, r, chunk), r, chunk, n - 1)
  }

  /** Every range arriving in order, range `i` as often as `times[i]` says: once,
      and once more for each reply that was lost. */
  function Deliver(m: Mock, body: Bytes, rs: seq<Range>, times: seq<nat>): Mock
    requires |rs| == |times|
    decreases |rs|
  {
    if rs == [] then m
    else Deliver(ReceiveAgain(m, rs[0], Piece(body, rs[0]), times[0]), body, rs[1..], times[1..])
  }

  predicate AllOnce(times: seq<nat>) {
    forall t <- times :: t == 1
  }

  /** What the server ends up with: exactly the body, if and only if every chunk
      arrived once, or the whole upload was a single chunk. A server that stores
      at the offset needs no such condition. */
  lemma AppendExact(body: Bytes, times: seq<nat>)
    requires body != [] && |times| == |Ranges(0, |body|)| && forall t <- times :: t >= 1
    ensures Deliver(Mock([], None), body, Ranges(0, |body|), times).file == Some(body)
      <==> AllOnce(times) || |times| == 1
  {
    assert body[..0] == [];
    AppendFrom(Mock([], None), body, 0, times);
  }

  /** The first `sent` bytes and nothing else, or too many. */
  predicate OnTrack(m: Mock, body: Bytes, sent: nat)
    requires sent <= |body|
  {
    m.partial == body[..sent] || |m.partial| > sent
  }

  lemma {:induction false} AppendFrom(m: Mock, body: Bytes, sent: nat, times: seq<nat>)
    requires sent < |body| && OnTrack(m, body, sent) && (sent == 0 ==> m.partial == [])
    requires |times| == |Ranges(sent, |body|)| && forall t <- times :: t >= 1
    ensures Deliver(m, body, Ranges(sent, |body|), times).file == Some(body)
      <==> (m.partial == body[..sent] && AllOnce(times)) || (sent == 0 && |times| == 1)
    decreases |body| - sent
  {
    var total := |body|;
    var want := if total - sent < CHUNK_SIZE then total - sent else CHUNK_SIZE;
    var range, rest, piece := Range(sent, sent + want - 1, total), Ranges(sent + want, total), body[sent..sent + want];
    RangesCons(sent, total, want);
    RangesEnd(total);
    if sent + want < total {
      RangesCons(sent + want, total, if total - sent - want < CHUNK_SIZE then total - sent - want else CHUNK_SIZE);
    }
    hide Ranges;
    var m' := ReceiveAgain(m, range, piece, times[0]);
    assert Deliver(m, body, Ranges(sent, total), times) == Deliver(m', body, rest, times[1..]);
    assert sent + want == total ==> Deliver(m', body, rest, times[1..]) == m';
    hide Deliver, ReceiveAgain;
    OnceSplit(times);
    assert body[..sent] + piece == body[..sent + want];
    if sent + want == total {
      LastChunk(m, range, piece, times[0]);
      assert body[..total] == body;
      assert times[1..] == [];
      assert (m.partial + piece)[..|m.partial|] == m.partial;
      assert sent == 0 ==> piece == body;
    } else {
      EarlyChunk(m, range, piece, times[0]);
      Grown(m.partial, body[..sent], piece);
      AppendFrom(m', body, sent + want, times[1..]);
    }
  }

  lemma OnceSplit(times: seq<nat>)
    requires times != []
    ensures AllOnce(times) <==> times[0] == 1 && AllOnce(times[1..])
    ensures times[0] in times && forall t <- times[1..] :: t in times
  {
    assert times[0] in times;
    assert forall t <- times[1..] :: t in times;
    if times[0] == 1 && AllOnce(times[1..]) {
      forall t | t in times
        ensures t == 1
      {
        assert t == times[0] || t in times[1..];
      }
    }
  }

  lemma Grown(a: Bytes, b: Bytes, piece: Bytes)
    requires a == b || |a| > |b|
    ensures a + piece == b + piece <==> a == b
  {
    if a + piece == b + piece {
      assert |a| == |b|;
    }
  }

  /** A chunk that does not end the file is appended each time it comes. */
  lemma {:induction false} EarlyChunk(m: Mock, r: Range, chunk: Bytes, n: nat)
    requires r.last + 1 < r.total && chunk != []
    ensures var m' := ReceiveAgain(m, r, chunk, n);
      && |m'.partial| == |m.partial| + n * |chunk| && m'.file == m.file
      && (n == 1 ==> m'.partial == m.partial + chunk)
      && (n > 1 ==> |m'.partial| > |m.partial| + |chunk|)
    decreases n
  {
    if n > 0 {
      EarlyChunk(Receive(m, r, chunk), r, chunk, n - 1);
    }
  }

  /** The last chunk ends the file; coming again, it is a file of its own. */
  lemma {:induction false} LastChunk(m: Mock, r: Range, chunk: Bytes, n: nat)
    requires r.last + 1 >= r.total && n >= 1
    ensures ReceiveAgain(m, r, chunk, n) == Mock([], Some(if n == 1 then m.partial + chunk else chunk))
    decreases n
  {
    assert [] + chunk == chunk;
    if n > 1 {
      LastChunk(Receive(m, r, chunk), r, chunk, n - 1);
    } else {
      assert ReceiveAgain(Receive(m, r, chunk), r, chunk, 0) == Receive(m, r, chunk);
    }
  }
}
