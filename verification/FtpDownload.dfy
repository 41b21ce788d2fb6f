/** Reading a file over FTP: the transfer pushes its bytes into a pipe, OpenFile
    takes one of them to learn whether the transfer works at all, and the reader
    it returns replays that byte before it goes on with the pipe. */
module FtpDownload {
  import opened Octets

  /** How the transfer ended. */
  datatype End = Clean | Broken(code: int)

  /** What a Read reports beside its bytes. */
  datatype Answer = Fine | Eof | Failure(code: int) | ClosedPipe

  /** The read end of the pipe: what the transfer still has to hand over, write
      by write, and how it ends after that. A write may be empty. */
  datatype Pipe = Pipe(writes: seq<Bytes>, end: End, closed: bool)

  datatype Result<T> = Success(value: T) | NotConnected | TransferFailed(code: int)

  function Flatten(writes: seq<Bytes>): (r: Bytes) {
    if writes == [] then [] else writes[0] + Flatten(writes[1..])
  }

  function Min(a: nat, b: nat): nat {
    if a < b then a else b
  }

  /** One Read with room for `cap` bytes: never more than what one write holds. */
  function ReadPipe(p: Pipe, cap: nat): (Pipe, Bytes, Answer) {
    if p.closed then (p, [], ClosedPipe)
    else if p.writes == [] then (p, [], if p.end.Clean? then Eof else Failure(p.end.code))
    else
      var n := Min(cap, |p.writes[0]|);
      var rest := if n == |p.writes[0]| then p.writes[1..] else [p.writes[0][n..]] + p.writes[1..];
      (p.(writes := rest), p.writes[0][..n], Fine)
  }

  /** What a reader will yet deliver, and how much there is to do for it. */
  datatype Feed = Feed(first: Bytes, pipe: Pipe) {
    function Left(): Bytes {
      first + Flatten(pipe.writes)
    }

    function Work(): nat {
      |first| + Handshakes(pipe.writes)
    }
  }

  function Handshakes(writes: seq<Bytes>): nat {
    if writes == [] then 0 else |writes[0]| + 1 + Handshakes(writes[1..])
  }

  function ReadFeed(v: Feed, cap: nat): (Feed, Bytes, Answer) {
    if v.first != [] then
      var n := Min(cap, |v.first|);
      (v.(first := v.first[n..]), v.first[..n], Fine)
    else
      var (pipe, out, answer) := ReadPipe(v.pipe, cap);
      (v.(pipe := pipe), out, answer)
  }

  class PipeReader {
    var pipe: Pipe

    constructor (writes: seq<Bytes>, end: End)
      ensures pipe == Pipe(writes, end, false)
    {
      pipe := Pipe(writes, end, false);
    }

    method Read(cap: nat) returns (out: Bytes, answer: Answer)
      modifies this
      ensures (pipe, out, answer) == ReadPipe(old(pipe), cap)
    {
      var after := ReadPipe(pipe, cap);
      pipe, out, answer := after.0, after.1, after.2;
    }

    method Close()
      modifies this
      ensures pipe == old(pipe).(closed := true)
    {
      pipe := pipe.(closed := true);
    }
  }

  class PrimedReader {
    var first: Bytes
    const rest: PipeReader

    constructor (first: Bytes, rest: PipeReader)
      ensures this.first == first && this.rest == rest
    {
      this.first := first;
      this.rest := rest;
    }

    function View(): Feed
      reads this, rest
    {
      Feed(first, rest.pipe)
    }

    /** Read takes the next bytes off what is left, at most `cap` of them, and
        none is lost, repeated or passed over. Only a reader with nothing left
        reports how the transfer ended, and a closed one delivers nothing. */
    method Read(cap: nat) returns (out: Bytes, answer: Answer)
      modifies this, rest
      ensures (View(), out, answer) == ReadFeed(old(View()), cap)
      ensures |out| <= cap
      ensures out + View().Left() == old(View()).Left()
      ensures answer == Eof || answer.Failure? ==> old(View()).Left() == []
      ensures old(first) == [] && old(rest.pipe).closed ==> out == [] && answer == ClosedPipe
    {
      TakesFromTheFront(View(), cap);
      if |first| > 0 {
        var n := Min(cap, |first|);
        out, answer := first[..n], Fine;
        first := first[n..];
      } else {
        out, answer := rest.Read(cap);
      }
    }

    method Close()
      modifies this, rest
      ensures View() == Feed([], old(rest.pipe).(closed := true))
    {
      first := [];
      rest.Close();
    }
  }

  /** Opening succeeds exactly when the transfer hands over something or ends
      cleanly, an empty file included, and the reader then has every byte of the
      file still to deliver. A transfer that fails before its first write is
      reported here, and its pipe is closed. */
  method OpenFile(connected: bool, pipe: PipeReader) returns (r: Result<PrimedReader>)
    requires !pipe.pipe.closed
    modifies pipe
    ensures !connected ==> r == NotConnected && pipe.pipe == old(pipe.pipe)
    ensures connected ==> (r.Success? <==> old(pipe.pipe).writes != [] || old(pipe.pipe).end.Clean?)
    ensures r.Success? ==> fresh(r.value) && r.value.rest == pipe && !pipe.pipe.closed
    ensures r.Success? ==> r.value.View().Left() == Flatten(old(pipe.pipe).writes)
    ensures r.Success? ==> r.value.View().pipe.end == old(pipe.pipe).end
    ensures connected && !r.Success? ==> r == TransferFailed(old(pipe.pipe).end.code) && pipe.pipe.closed
  {
    if !connected {
      return NotConnected;
    }
    TakesFromTheFront(Feed([], pipe.pipe), 1);
    var first, answer := pipe.Read(1);
    if answer.Failure? {
      pipe.Close();
      return TransferFailed(answer.code);
    }
    var reader := new PrimedReader(first, pipe);
    return Success(reader);
  }

  // ----------------------------------------------------------- any sequence

  /** One Read splits what is left into what it delivers and what is left then,
      and makes progress when there is room for a byte. */
  lemma TakesFromTheFront(v: Feed, cap: nat)
    ensures var (w, out, answer) := ReadFeed(v, cap);
      out + w.Left() == v.Left() && |out| <= cap && w.pipe.end == v.pipe.end && w.pipe.closed == v.pipe.closed
    ensures var (w, out, answer) := ReadFeed(v, cap);
      if answer == Fine then cap > 0 ==> w.Work() < v.Work()
      else w == v && out == [] && v.first == []
    ensures var (w, out, answer) := ReadFeed(v, cap);
      !v.pipe.closed && answer != Fine ==> v.Left() == [] && answer == Ending(v.pipe.end)
  {
    if v.first != [] {
      var n := Min(cap, |v.first|);
      assert v.first == v.first[..n] + v.first[n..];
    } else {
      PipeTakesFromTheFront(v.pipe, cap);
      assert Flatten(v.pipe.writes) == v.Left();
    }
  }

  lemma PipeTakesFromTheFront(p: Pipe, cap: nat)
    ensures var (q, out, answer) := ReadPipe(p, cap);
      out + Flatten(q.writes) == Flatten(p.writes) && |out| <= cap && q.end == p.end && q.closed == p.closed
    ensures var (q, out, answer) := ReadPipe(p, cap);
      answer == Fine && cap > 0 ==> Handshakes(q.writes) < Handshakes(p.writes)
  {
    if !p.closed && p.writes != [] {
      var w, rest := p.writes[0], p.writes[1..];
      var n := Min(cap, |w|);
      assert w == w[..n] + w[n..];
      if n < |w| {
        assert ([w[n..]] + rest)[1..] == rest;
      }
    }
  }

  function Ending(end: End): Answer {
    if end.Clean? then Eof else Failure(end.code)
  }

  /** Reads of the given sizes, up to the first that does not answer Fine. */
  function Deliver(v: Feed, sizes: seq<nat>): (Bytes, Answer)
    decreases |sizes|
  {
    if sizes == [] then ([], Fine)
    else
      var (w, out, answer) := ReadFeed(v, sizes[0]);
      if answer != Fine then (out, answer)
      else
        var (more, last) := Deliver(w, sizes[1..]);
        (out + more, last)
  }

  /** Whatever sizes the caller reads with: the bytes delivered are a prefix of
      what the transfer handed over, the whole of it once the end or a failure
      is reported, and what is reported is how the transfer ended. */
  lemma {:induction false} DeliversAPrefix(v: Feed, sizes: seq<nat>)
    requires !v.pipe.closed
    ensures Deliver(v, sizes).0 <= v.Left()
    ensures Deliver(v, sizes).1 != Fine ==> Deliver(v, sizes).0 == v.Left()
    ensures Deliver(v, sizes).1 != Fine ==> Deliver(v, sizes).1 == Ending(v.pipe.end)
    decreases |sizes|
  {
    if sizes != [] {
      hide ReadFeed, Flatten, Handshakes;
      var (w, out, answer) := ReadFeed(v, sizes[0]);
      TakesFromTheFront(v, sizes[0]);
      if answer == Fine {
        DeliversAPrefix(w, sizes[1..]);
        PrefixOfRest(out, Deliver(w, sizes[1..]).0, w.Left());
      }
    }
  }

  lemma PrefixOfRest(a: Bytes, b: Bytes, c: Bytes)
    requires b <= c
    ensures a + b <= a + c
    ensures a + b == a + c <==> b == c
  {
    assert c == b + c[|b|..];
    assert a + c == (a + b) + c[|b|..];
  }

  /** A caller that keeps asking for at least a byte comes to the end. */
  lemma {:induction false} ComesToTheEnd(v: Feed, sizes: seq<nat>)
    requires !v.pipe.closed && |sizes| > v.Work()
    requires forall i :: 0 <= i < |sizes| ==> sizes[i] > 0
    ensures Deliver(v, sizes) == (v.Left(), Ending(v.pipe.end))
    decreases |sizes|
  {
    hide ReadFeed, Flatten, Handshakes;
    var (w, out, answer) := ReadFeed(v, sizes[0]);
    TakesFromTheFront(v, sizes[0]);
    if answer == Fine {
      ComesToTheEnd(w, sizes[1..]);
    }
  }
}
