/** OneDrive uploads: a writer that spills to disk, and the chunked session that
    sends what it spilled. */
module OneDriveUpload {
  import opened Octets
  import opened OneDriveHttp
  import opened Options

  const UPLOAD_MEM_CAP: nat := 4 * 1024 * 1024
  const CHUNK_SIZE: nat := 10 * 1024 * 1024

  /** A Content-Range, both ends inclusive. */
  datatype Range = Range(first: nat, last: int, total: nat)

  /** Section 14.4 of RFC 9110: not empty, and inside the complete length. */
  predicate WellFormedRange(r: Range) {
    r.first <= r.last < r.total
  }

  /** The ranges that cover [sent, total): full chunks and a rest. */
  function Ranges(sent: nat, total: nat): (r: seq<Range>)
    decreases total - sent
  {
    if sent >= total then []
    else
      var want := if total - sent < CHUNK_SIZE then total - sent else CHUNK_SIZE;
      [Range(sent, sent + want - 1, total)] + Ranges(sent + want, total)
  }

  /** What a server that stores each range at its offset holds. */
  type Stored = map<nat, Byte>

  function Span(first: nat, n: nat): (s: set<nat>)
    ensures forall k: nat :: k in s <==> first <= k < first + n
  {
    if n == 0 then {} else Span(first, n - 1) + {first + n - 1}
  }

  function StoreAt(m: Stored, first: nat, chunk: Bytes): Stored {
    m + map k <- Span(first, |chunk|) :: chunk[k - first]
  }

  /** Exactly the first `n` bytes of `body`, each at its offset. */
  function Holding(body: Bytes, n: nat): Stored
    requires n <= |body|
  {
    map k: nat | 0 <= k < n :: body[k]
  }

  predicate Acknowledged(reply: Reply) {
    reply.Response? && (reply.status == 200 || reply.status == 201 || reply.status == 202)
  }

  /** How putChunk must answer the reply to its `attempt`-th request. */
  function DecideChunk(attempt: nat, reply: Reply): Action {
    match reply
    case NetError => if attempt < MAX_RETRIES then Again(BackoffDuration(attempt)) else Fail(Network)
    case Response(status, retryAfter, _) =>
      if Acknowledged(reply) then Done
      else if ShouldRetry(status) && attempt < MAX_RETRIES then Again(RetryWait(retryAfter, attempt))
      else Fail(MapHTTPError(status))
  }

  /** The replies to one chunk: retried after each but the last, which settles
      the result. */
  ghost predicate ChunkConcludes(replies: seq<Reply>, r: Result<()>) {
    && 1 <= |replies| <= MAX_RETRIES + 1
    && (forall i :: 0 <= i < |replies| - 1 ==> DecideChunk(i, replies[i]).Again?)
    && DecideChunk(|replies| - 1, replies[|replies| - 1]) == (match r case Ok(_) => Done case Err(e) => Fail(e))
  }

  /** What a chunk comes to, told from its replies alone: each but the last was
      lost, or of one of the four statuses that are retried; the chunk succeeds
      with 200, 201 and 202 only, and is given up after four tries, or at once with
      any other status that is not retried. */
  lemma ChunkOutcome(replies: seq<Reply>, r: Result<()>)
    requires ChunkConcludes(replies, r)
    ensures 1 <= |replies| <= 4
    ensures forall i :: 0 <= i < |replies| - 1 ==> replies[i].NetError? || replies[i].status in {429, 502, 503, 504}
    ensures var q := replies[|replies| - 1];
      && (r.Ok? <==> q.Response? && q.status in {200, 201, 202})
      && (r.Err? && q.NetError? ==> |replies| == 4 && r.error == Network)
      && (r.Err? && q.Response? ==>
            (q.status in {429, 502, 503, 504} ==> |replies| == 4)
            && r.error == match q.status case 404 => NotFound case 403 => PermissionDenied case 409 => Exists case s => Http(s))
  {
  }

  /** A chunk waits as any call does, but for a 401, which ends it. */
  lemma {:induction false} ChunkWaitsInNumbers(replies: seq<Reply>)
    requires |replies| <= 4
    ensures ChunkWait(replies) == SumWaits(replies)
    decreases |replies|
  {
    assert Pow2(0) == 1 && Pow2(1) == 2 && Pow2(2) == 4;
    if replies != [] {
      ChunkWaitsInNumbers(replies[..|replies| - 1]);
    }
  }

  /** An upload whose session began fails only where the disk does, or a chunk
      whose last reply is not one of the three: otherwise it succeeds. */
  lemma SessionOutcome(s: Session, total: nat, r: Result<()>)
    requires SessionConcludes(s, total, r) && s.Began()
    ensures r.Ok? <==> |s.chunks| == |Ranges(0, total)| && forall c: seq<Reply> <- s.chunks ::
        c != [] && c[|c| - 1].Response? && c[|c| - 1].status in {200, 201, 202}
    ensures (forall c: seq<Reply> <- s.chunks :: c != [] && c[|c| - 1].Response? && c[|c| - 1].status in {200, 201, 202})
        ==> r.Ok? || r == Err(Disk)
  {
    hide SessionOpens, Ranges;
    if r.Err? && r.error != Disk {
      var c := s.chunks[|s.chunks| - 1];
      ChunkOutcome(c, r);
      assert c in s.chunks;
    } else {
      forall c: seq<Reply> | c in s.chunks
        ensures c != [] && c[|c| - 1].Response? && c[|c| - 1].status in {200, 201, 202}
      {
        var i :| 0 <= i < |s.chunks| && s.chunks[i] == c;
        ChunkOutcome(s.chunks[i], Ok(()));
      }
    }
  }

  /** All waits a sequence of chunk replies asks for. */
  function ChunkWait(replies: seq<Reply>): nat {
    if replies == [] then 0
    else ChunkWait(replies[..|replies| - 1]) + WaitOf(DecideChunk(|replies| - 1, replies[|replies| - 1]))
  }

  lemma ChunkWaitMore(replies: seq<Reply>, reply: Reply)
    ensures ChunkWait(replies + [reply]) == ChunkWait(replies) + WaitOf(DecideChunk(|replies|, reply))
  {
    assert (replies + [reply])[..|replies|] == replies;
  }

  /** Every offset below `n` is stored. */
  predicate Whole(m: Stored, n: nat) {
    forall k: nat :: k < n ==> k in m
  }

  /** The first `n` bytes, put together from what is stored. */
  function Assembled(m: Stored, n: nat): Bytes {
    seq(n, k requires 0 <= k < n => if k in m then m[k] else 0)
  }

  /** Storing the chunk ends the file, and nothing before it is missing. */
  predicate Completes(m: Stored, r: Range, chunk: Bytes) {
    r.last + 1 == r.total && Whole(StoreAt(m, r.first, chunk), r.total)
  }

  /** The answer to a createUploadSession that succeeded. */
  datatype Grant = Unreadable | Link(url: string)

  /** The upload URL's server. A request may be lost, or stored and its reply
      lost; what it acknowledges it has stored. `made` is the file the session
      has come to, once a range ended it. */
  class Store {
    var stored: Stored
    var made: Option<Bytes>
    var cancels: nat
    var openBodies: int
    ghost var grants: seq<Grant>
    ghost var requests: seq<Range>
    ghost var replies: seq<Reply>
    ghost var acked: seq<Range>

    constructor ()
      ensures stored == map[] && made == None && cancels == 0 && openBodies == 0
      ensures grants == [] && requests == [] && replies == [] && acked == []
    {
      stored, made, cancels, openBodies, grants, requests, replies, acked := map[], None, 0, 0, [], [], [], [];
    }

    /** A URL that is not empty stands for a new session that holds nothing. */
    method Open() returns (g: Grant)
      modifies this`stored, this`made, this`grants
      ensures grants == old(grants) + [g]
      ensures g.Link? && g.url != "" ==> stored == map[] && made == None
      ensures !(g.Link? && g.url != "") ==> stored == old(stored) && made == old(made)
    {
      var readable: bool, url: string := *, *;
      g := if readable then Link(url) else Unreadable;
      if readable && url != "" {
        stored, made := map[], None;
      }
      grants := grants + [g];
    }

    method Put(r: Range, chunk: Bytes) returns (reply: Reply)
      modifies this`stored, this`made, this`openBodies, this`requests, this`replies, this`acked
      ensures requests == old(requests) + [r] && replies == old(replies) + [reply]
      ensures Acknowledged(reply) ==> WellFormedRange(r) && |chunk| == r.last - r.first + 1
      ensures stored == old(stored) || stored == StoreAt(old(stored), r.first, chunk)
      ensures Acknowledged(reply) ==> stored == StoreAt(old(stored), r.first, chunk) && acked == old(acked) + [r]
      ensures !Acknowledged(reply) ==> acked == old(acked)
      ensures Acknowledged(reply) && Completes(old(stored), r, chunk) ==> made == Some(Assembled(stored, r.total))
      ensures made == old(made) || (stored == StoreAt(old(stored), r.first, chunk)
        && Completes(old(stored), r, chunk) && made == Some(Assembled(stored, r.total)))
      ensures openBodies == old(openBodies) + if reply.Response? then 1 else 0
    {
      requests := requests + [r];
      var served: bool, lost: bool, status: int, header: Option<int> := *, *, *, *;
      reply := if lost then NetError else Response(status, header, 0);
      var fits := WellFormedRange(r) && |chunk| == r.last - r.first + 1;
      if Acknowledged(reply) && !fits {
        reply := Response(416, header, 0);
      }
      if fits && (served || Acknowledged(reply)) {
        stored := StoreAt(stored, r.first, chunk);
        if r.last + 1 == r.total && forall k | 0 <= k < r.total :: k in stored {
          made := Some(Assembled(stored, r.total));
        }
      }
      if Acknowledged(reply) {
        acked := acked + [r];
      }
      if reply.Response? {
        openBodies := openBodies + 1;
      }
      replies := replies + [reply];
    }

    method CloseBody()
      modifies this`openBodies
      ensures openBodies == old(openBodies) - 1
    {
      openBodies := openBodies - 1;
    }

    method Cancel()
      modifies this`cancels
      ensures cancels == old(cancels) + 1
    {
      cancels := cancels + 1;
    }
  }

  /** A temporary file. Reads and writes may fail part way, which `faults`
      counts; a `sound` file's do not. */
  class TempFile {
    const sound: bool
    var data: Bytes
    var pos: nat
    ghost var faults: nat

    constructor (sound: bool)
      ensures this.sound == sound && data == [] && pos == 0 && faults == 0
    {
      this.sound, data, pos, faults := sound, [], 0, 0;
    }

    method Write(p: Bytes) returns (n: nat, ok: bool)
      modifies this
      ensures n <= |p| && data == old(data) + p[..n] && pos == |data|
      ensures ok ==> n == |p|
      ensures sound ==> ok
      ensures faults == old(faults) + if ok then 0 else 1
    {
      var fault: bool, short: int := *, *;
      ok := sound || !fault;
      n := if ok then |p| else if 0 <= short <= |p| then short else 0;
      data := data + p[..n];
      pos := |data|;
      faults := faults + if ok then 0 else 1;
    }

    method SeekStart() returns (ok: bool)
      modifies this`pos, this`faults
      ensures ok ==> pos == 0
      ensures sound ==> ok
      ensures faults == old(faults) + if ok then 0 else 1
    {
      var fault: bool := *;
      ok := sound || !fault;
      if ok {
        pos := 0;
      }
      faults := faults + if ok then 0 else 1;
    }

    /** io.ReadFull into the first `want` places of the buffer; it fails on a
        fault, or when the file is too short. */
    method ReadFull(buf: array<Byte>, want: nat) returns (ok: bool)
      requires want <= buf.Length
      modifies this`pos, this`faults, buf
      ensures ok ==> old(pos) + want <= |data| && buf[..want] == data[old(pos)..old(pos) + want] && pos == old(pos) + want
      ensures faults == old(faults) + if ok || old(pos) + want > |data| then 0 else 1
      ensures sound && old(pos) + want <= |data| ==> ok
    {
      var fault: bool := *;
      if pos + want > |data| {
        return false;
      }
      ok := sound || !fault;
      faults := faults + if ok then 0 else 1;
      if ok {
        forall k | 0 <= k < want {
          buf[k] := data[pos + k];
        }
        pos := pos + want;
      }
    }
  }

  // ------------------------------------------------- what an upload came to

  /** The requests for the first chunks, each as often as it was answered. */
  function Sent(ranges: seq<Range>, chunks: seq<seq<Reply>>): seq<Range>
    requires |chunks| <= |ranges|
  {
    if chunks == [] then []
    else Sent(ranges, chunks[..|chunks| - 1]) + Repeat(ranges[|chunks| - 1], |chunks[|chunks| - 1]|)
  }

  function Flat(chunks: seq<seq<Reply>>): seq<Reply> {
    if chunks == [] then [] else Flat(chunks[..|chunks| - 1]) + chunks[|chunks| - 1]
  }

  ghost predicate AllStored(chunks: seq<seq<Reply>>) {
    forall i :: 0 <= i < |chunks| ==> ChunkConcludes(chunks[i], Ok(()))
  }

  /** How the chunks of an upload end: all are acknowledged; or the last one sent
      fails for good, with the error its last reply calls for; or the next one
      cannot be read. */
  ghost predicate ChunksConclude(ranges: seq<Range>, chunks: seq<seq<Reply>>, r: Result<()>) {
    && |chunks| <= |ranges|
    && match r
    case Ok(_) => |chunks| == |ranges| && AllStored(chunks)
    case Err(e) =>
      if e == Disk then AllStored(chunks) && |chunks| < |ranges|
      else chunks != [] && AllStored(chunks[..|chunks| - 1]) && ChunkConcludes(chunks[|chunks| - 1], r)
  }

  /** One upload session: the call that asks for it, what was granted, and the
      replies chunk by chunk. */
  datatype Session = Session(talk: Talk, opening: Result<Reply>, grant: Option<Grant>, chunks: seq<seq<Reply>>) {
    predicate Began() {
      grant.Some? && grant.value.Link? && grant.value.url != ""
    }

    function Grants(): seq<Grant> {
      if grant.Some? then [grant.value] else []
    }
  }

  const REPLACE: string := "{\"item\":" + "{\"@microsoft.graph" + ".conflictBehavior\":" + "\"replace\"}}"
  const SESSION_BODY: Bytes := Ascii(REPLACE)

  function Ascii(s: string): (r: Bytes)
    ensures |r| == |s|
    ensures forall i :: 0 <= i < |s| ==> r[i] == s[i] as int % 256
  {
    seq(|s|, i requires 0 <= i < |s| => (s[i] as int % 256) as Byte)
  }

  /** The opening of a session is one call with the fixed body, and what its
      answer granted. */
  ghost predicate SessionOpens(s: Session) {
    && AllCarry(OpenSession, SESSION_BODY, s.talk) && Conversation(s.talk.replies) && Concludes(s.talk, s.opening)
    && (s.opening.Ok? <==> s.grant.Some?)
  }

  /** What a session that does not begin fails with. */
  function OpeningError(s: Session): Result<()> {
    if s.opening.Err? then Err(s.opening.error)
    else if s.grant == Some(Unreadable) then Err(Undecodable)
    else Err(NoUploadURL)
  }

  /** How a session of `total` bytes ends, and why. */
  ghost predicate SessionConcludes(s: Session, total: nat, r: Result<()>) {
    && SessionOpens(s)
    && if s.Began() then ChunksConclude(Ranges(0, total), s.chunks, r)
       else s.chunks == [] && r == OpeningError(s)
  }

  class Uploads {
    const driver: Driver
    const store: Store

    constructor (driver: Driver, store: Store)
      ensures this.driver == driver && this.store == store
    {
      this.driver, this.store := driver, store;
    }

    /** Sends one chunk until it is acknowledged, at most four times, each time
        under the same range. */
    method PutChunk(chunk: Bytes, start: nat, total: nat) returns (r: Result<()>, ghost replies: seq<Reply>)
      modifies store`stored, store`made, store`openBodies, store`requests, store`replies, store`acked
      modifies driver.graph`clock, driver.graph`waited
      ensures ChunkConcludes(replies, r) && store.replies == old(store.replies) + replies
      ensures r.Ok? ==> r == Ok(())
      ensures 1 <= |replies| <= 4
      ensures forall i :: 0 <= i < |replies| - 1 ==> replies[i].NetError? || replies[i].status in {429, 502, 503, 504}
      ensures var q := replies[|replies| - 1];
        && (r.Ok? <==> q.Response? && q.status in {200, 201, 202})
        && (r.Err? && q.NetError? ==> |replies| == 4 && r.error == Network)
        && (r.Err? && q.Response? ==>
              (q.status in {429, 502, 503, 504} ==> |replies| == 4)
              && r.error == match q.status case 404 => NotFound case 403 => PermissionDenied case 409 => Exists case s => Http(s))
      ensures driver.graph.waited == old(driver.graph.waited) + ChunkWait(replies)
      ensures r.Ok? ==> store.stored == StoreAt(old(store.stored), start, chunk)
      ensures var range := Range(start, start + |chunk| - 1, total);
        && store.requests == old(store.requests) + Repeat(range, |replies|)
        && (r.Ok? ==> WellFormedRange(range) && store.acked == old(store.acked) + [range])
        && (r.Ok? && Completes(old(store.stored), range, chunk) ==> store.made == Some(Assembled(store.stored, total)))
        && (store.made == old(store.made) || (store.stored == StoreAt(old(store.stored), start, chunk)
             && Completes(old(store.stored), range, chunk) && store.made == Some(Assembled(store.stored, total))))
      ensures !r.Ok? ==> store.acked == old(store.acked)
      ensures store.stored == old(store.stored) || store.stored == StoreAt(old(store.stored), start, chunk)
      ensures store.openBodies == old(store.openBodies)
    {
      r, replies := TryChunk(chunk, start, total);
      ChunkOutcome(replies, r);
    }

    /** putChunk's loop. */
    method TryChunk(chunk: Bytes, start: nat, total: nat) returns (r: Result<()>, ghost replies: seq<Reply>)
      modifies store`stored, store`made, store`openBodies, store`requests, store`replies, store`acked
      modifies driver.graph`clock, driver.graph`waited
      ensures ChunkConcludes(replies, r) && store.replies == old(store.replies) + replies
      ensures r.Ok? ==> r == Ok(())
      ensures driver.graph.waited == old(driver.graph.waited) + ChunkWait(replies)
      ensures r.Ok? ==> store.stored == StoreAt(old(store.stored), start, chunk)
      ensures var range := Range(start, start + |chunk| - 1, total);
        && store.requests == old(store.requests) + Repeat(range, |replies|)
        && (r.Ok? ==> WellFormedRange(range) && store.acked == old(store.acked) + [range])
        && (r.Ok? && Completes(old(store.stored), range, chunk) ==> store.made == Some(Assembled(store.stored, total)))
        && (store.made == old(store.made) || (store.stored == StoreAt(old(store.stored), start, chunk)
             && Completes(old(store.stored), range, chunk) && store.made == Some(Assembled(store.stored, total))))
      ensures !r.Ok? ==> store.acked == old(store.acked)
      ensures store.stored == old(store.stored) || store.stored == StoreAt(old(store.stored), start, chunk)
      ensures store.openBodies == old(store.openBodies)
    {
      hide Whole, Assembled, StoreAt, BackoffDuration, RetryWait, Completes, MapHTTPError, ShouldRetry;
      var range := Range(start, start + |chunk| - 1, total);
      replies := [];
      var attempt := 0;
      while attempt <= MAX_RETRIES
        invariant 0 <= attempt == |replies| <= MAX_RETRIES
        invariant forall i :: 0 <= i < |replies| ==> DecideChunk(i, replies[i]).Again?
        invariant driver.graph.waited == old(driver.graph.waited) + ChunkWait(replies)
        invariant store.requests == old(store.requests) + Repeat(range, |replies|)
        invariant store.replies == old(store.replies) + replies
        invariant store.acked == old(store.acked) && store.openBodies == old(store.openBodies)
        invariant store.stored == old(store.stored) || store.stored == StoreAt(old(store.stored), start, chunk)
        invariant store.made == old(store.made) || (store.stored == StoreAt(old(store.stored), start, chunk)
          && Completes(old(store.stored), range, chunk) && store.made == Some(Assembled(store.stored, total)))
        decreases MAX_RETRIES + 1 - attempt
      {
        StoreTwice(old(store.stored), start, chunk);
        CompletesTwice(old(store.stored), range, chunk);
        RepeatMore(range, |replies|);
        var reply := store.Put(range, chunk);
        ChunkWaitMore(replies, reply);
        replies := replies + [reply];
        match reply {
          case NetError =>
            if attempt < MAX_RETRIES {
              driver.graph.Sleep(BackoffDuration(attempt));
            } else {
              return Err(Network), replies;
            }
          case Response(status, retryAfter, _) =>
            if status == 200 || status == 201 || status == 202 {
              store.CloseBody();
              return Ok(()), replies;
            }
            if ShouldRetry(status) && attempt < MAX_RETRIES {
              driver.graph.Sleep(RetryWait(retryAfter, attempt));
              store.CloseBody();
            } else {
              store.CloseBody();
              return Err(MapHTTPError(status)), replies;
            }
        }
        attempt := attempt + 1;
      }
      assert false;
    }

    /** Asks for a session. */
    method BeginSession() returns (r: Result<()>, ghost session: Session)
      modifies driver, driver.authority, driver.graph, store`stored, store`made, store`grants
      ensures SessionOpens(session) && session.chunks == []
      ensures r.Ok? <==> session.Began()
      ensures r.Err? ==> r == OpeningError(session)
      ensures match session.grant
        case None => session.opening.Err? && r == Err(session.opening.error) && store.grants == old(store.grants)
        case Some(g) => session.opening.Ok? && store.grants == old(store.grants) + [g]
                        && r == if g.Unreadable? then Err(Undecodable) else if g.url == "" then Err(NoUploadURL) else Ok(())
      ensures driver.graph.requests == old(driver.graph.requests) + session.talk.requests
      ensures driver.graph.replies == old(driver.graph.replies) + session.talk.replies
      ensures driver.authority.answers == old(driver.authority.answers) + session.talk.tokens
      ensures store.grants == old(store.grants) + session.Grants()
      ensures r.Ok? ==> store.stored == map[] && store.made == None
      ensures r.Err? ==> store.stored == old(store.stored) && store.made == old(store.made)
      ensures driver.graph.content == old(driver.graph.content)
      ensures driver.graph.closes == old(driver.graph.closes) + Bodies(old(driver.graph.nextBody), driver.graph.nextBody)
      ensures r.Ok? && old(driver.InStep()) ==> driver.InStep()
    {
      hide Bodies, TotalWait, Decide, AllCarry, Conversation, Concludes;
      var json := new BytesReader(SESSION_BODY);
      var resp;
      ghost var talk;
      resp, talk := driver.Do(OpenSession, json);
      if resp.Err? {
        return Err(resp.error), Session(talk, resp, None, []);
      }
      var g := store.Open();
      OneBody(resp.value.body);
      BodiesJoin(old(driver.graph.nextBody), resp.value.body, resp.value.body + 1);
      driver.graph.CloseBody(resp.value.body);
      session := Session(talk, resp, Some(g), []);
      if g.Unreadable? {
        return Err(Undecodable), session;
      }
      if g.url == "" {
        return Err(NoUploadURL), session;
      }
      return Ok(()), session;
    }

    /** Streams the first `total` bytes of the file through an upload session.
        Everything that was sent, and the result, is accounted for by `session`. */
    method UploadSession(body: TempFile, total: nat) returns (r: Result<()>, ghost session: Session)
      requires body.pos == 0
      modifies driver, driver.authority, driver.graph, store, body`pos, body`faults
      ensures SessionConcludes(session, total, r)
      ensures r == Err(Disk) ==> body.faults == old(body.faults) + 1 || total > |body.data|
      ensures session.Began() && body.faults == old(body.faults) && total <= |body.data|
          && (forall c: seq<Reply> <- session.chunks :: c != [] && c[|c| - 1].Response? && c[|c| - 1].status in {200, 201, 202})
        ==> r.Ok?
      ensures driver.graph.requests == old(driver.graph.requests) + session.talk.requests
      ensures driver.graph.replies == old(driver.graph.replies) + session.talk.replies
      ensures driver.authority.answers == old(driver.authority.answers) + session.talk.tokens
      ensures store.grants == old(store.grants) + session.Grants()
      ensures |session.chunks| <= |Ranges(0, total)| && store.requests == old(store.requests) + Sent(Ranges(0, total), session.chunks)
      ensures WithinTries(Sent(Ranges(0, total), session.chunks))
      ensures store.replies == old(store.replies) + Flat(session.chunks)
      ensures exists n :: 0 <= n <= |Ranges(0, total)| && store.acked == old(store.acked) + Ranges(0, total)[..n]
      ensures r.Ok? ==> session.Began() && store.acked == old(store.acked) + Ranges(0, total)
      ensures r.Ok? ==> total <= |body.data| && store.stored == Holding(body.data, total)
      ensures r.Ok? ==> store.made == if total > 0 then Some(body.data[..total]) else None
      ensures session.Began() ==> store.made == None || (0 < total <= |body.data| && store.made == Some(body.data[..total]))
      ensures store.cancels == old(store.cancels) + if session.Began() && !r.Ok? then 1 else 0
      ensures !session.Began() ==> store.stored == old(store.stored) && store.made == old(store.made)
      ensures store.openBodies == old(store.openBodies)
      ensures driver.graph.content == old(driver.graph.content)
      ensures driver.graph.closes == old(driver.graph.closes) + Bodies(old(driver.graph.nextBody), driver.graph.nextBody)
      ensures r.Ok? && old(driver.InStep()) ==> driver.InStep()
    {
      hide Bodies, Ranges, ChunksConclude, Holding, SessionOpens, OpeningError, WithinTries;
      assert Ranges(0, total)[..0] == [];
      NothingSent(Ranges(0, total));
      r, session := BeginSession();
      NoDiskError(session);
      if r.Err? {
        return;
      }
      ghost var chunks;
      r, chunks := SendChunks(body, total);
      if r.Err? {
        store.Cancel();
      }
      ChunksApart(session, chunks);
      session := session.(chunks := chunks);
      SessionOutcome(session, total, r);
    }

    /** One turn of uploadSession's loop: read the next chunk and send it;
        `tried` holds the replies, if the chunk could be read. */
    method SendNext(body: TempFile, buf: array<Byte>, sent: nat, total: nat)
      returns (r: Result<()>, want: nat, ghost tried: Option<seq<Reply>>)
      requires buf.Length == CHUNK_SIZE && sent < total && body.pos == sent <= |body.data|
      requires store.stored == Holding(body.data, sent)
      modifies store`stored, store`made, store`openBodies, store`requests, store`replies, store`acked
      modifies driver.graph`clock, driver.graph`waited, body`pos, body`faults, buf
      ensures want == if total - sent < CHUNK_SIZE then total - sent else CHUNK_SIZE
      ensures r.Ok? ==> r == Ok(()) && tried.Some?
      ensures tried.None? ==> r == Err(Disk) && (body.faults == old(body.faults) + 1 || total > |body.data|)
      ensures tried.Some? ==> ChunkConcludes(tried.value, r) && body.faults == old(body.faults)
      ensures store.requests == old(store.requests) + Repeat(Range(sent, sent + want - 1, total), Tries(tried))
      ensures store.replies == old(store.replies) + if tried.Some? then tried.value else []
      ensures store.acked == old(store.acked) + if r.Ok? then [Range(sent, sent + want - 1, total)] else []
      ensures r.Ok? ==> body.pos == sent + want <= |body.data| && store.stored == Holding(body.data, sent + want)
      ensures r.Ok? ==> store.made == if sent + want == total then Some(body.data[..total]) else old(store.made)
      ensures store.made == old(store.made) || (total <= |body.data| && store.made == Some(body.data[..total]))
      ensures store.openBodies == old(store.openBodies)
    {
      hide StoreAt, Holding, ChunkConcludes, Whole, Assembled, Completes;
      want := CHUNK_SIZE;
      var remaining := total - sent;
      if remaining < want {
        want := remaining;
      }
      var ok := body.ReadFull(buf, want);
      if !ok {
        return Err(Disk), want, None;
      }
      assert buf[..want] == body.data[sent..sent + want];
      ghost var replies;
      StoreGrows(body.data, sent, want);
      LastCompletes(body.data, sent, want, total);
      r, replies := PutChunk(buf[..want], sent, total);
      return r, want, Some(replies);
    }

    /** uploadSession's loop: chunk after chunk until all is sent or one fails. */
    method SendChunks(body: TempFile, total: nat) returns (r: Result<()>, ghost chunks: seq<seq<Reply>>)
      requires body.pos == 0 && store.stored == map[] && store.made == None
      modifies store`stored, store`made, store`openBodies, store`requests, store`replies, store`acked
      modifies driver.graph`clock, driver.graph`waited, body`pos, body`faults
      ensures ChunksConclude(Ranges(0, total), chunks, r)
      ensures r == Err(Disk) ==> body.faults == old(body.faults) + 1 || total > |body.data|
      ensures |chunks| <= |Ranges(0, total)| && store.requests == old(store.requests) + Sent(Ranges(0, total), chunks)
      ensures WithinTries(Sent(Ranges(0, total), chunks))
      ensures store.replies == old(store.replies) + Flat(chunks)
      ensures r.Ok? ==> total <= |body.data| && store.stored == Holding(body.data, total)
      ensures r.Ok? ==> store.made == if total > 0 then Some(body.data[..total]) else None
      ensures store.made == None || (0 < total <= |body.data| && store.made == Some(body.data[..total]))
      ensures r.Ok? ==> store.acked == old(store.acked) + Ranges(0, total)
      ensures exists n :: 0 <= n <= |Ranges(0, total)| && store.acked == old(store.acked) + Ranges(0, total)[..n]
      ensures store.openBodies == old(store.openBodies)
    {
      hide StoreAt, Holding, Ranges, Repeat, ChunkConcludes, WithinTries, Flat, Sent, Tries, WithTried;
      NothingHeld(body.data);
      ghost var all := Ranges(0, total);
      NothingSent(all);
      RangesAt(total, 0);
      var buf := new Byte[CHUNK_SIZE];
      var sent: nat := 0;
      chunks := [];
      while sent < total
        invariant sent <= total && body.pos == sent <= |body.data| && body.faults == old(body.faults)
        invariant store.stored == Holding(body.data, sent)
        invariant store.made == if 0 < sent == total then Some(body.data[..total]) else None
        invariant |chunks| <= |all| && RangesReach(total, |chunks|, sent)
        invariant AllStored(chunks) && FewEach(chunks)
        invariant store.acked == old(store.acked) + all[..|chunks|]
        invariant store.requests == old(store.requests) + Sent(all, chunks)
        invariant store.replies == old(store.replies) + Flat(chunks)
        invariant store.openBodies == old(store.openBodies)
      {
        ghost var n := |chunks|;
        RangesAt(total, n);
        var want;
        ghost var tried;
        r, want, tried := SendNext(body, buf, sent, total);
        ChunkTurn(all, chunks, tried, r);
        InTurn(old(store.requests), Sent(all, chunks), Repeat(all[n], Tries(tried)));
        InTurn(old(store.replies), Flat(chunks), if tried.Some? then tried.value else []);
        chunks := WithTried(chunks, tried);
        if r.Err? {
          SentFew(total, chunks);
          return;
        }
        InTurn(old(store.acked), all[..n], [all[n]]);
        assert all[..n + 1] == all[..n] + [all[n]];
        sent := sent + want;
      }
      RangesAt(total, |chunks|);
      assert all[..|chunks|] == all;
      SentFew(total, chunks);
      return Ok(()), chunks;
    }

    /** Small files go up in one request, retried as any other call is. */
    method PutSmall(data: Bytes) returns (r: Result<()>, ghost talk: Talk, ghost answer: Result<Reply>)
      modifies driver, driver.authority, driver.graph
      ensures AllCarry(PutContent, data, talk) && Conversation(talk.replies) && Concludes(talk, answer)
      ensures r == match answer case Ok(_) => Ok(()) case Err(e) => Err(e)
      ensures driver.graph.requests == old(driver.graph.requests) + talk.requests
      ensures driver.graph.replies == old(driver.graph.replies) + talk.replies
      ensures driver.authority.answers == old(driver.authority.answers) + talk.tokens
      ensures r.Ok? ==> driver.graph.content == Some(data)
      ensures driver.graph.content == old(driver.graph.content) || driver.graph.content == Some(data)
      ensures r.Ok? && old(driver.InStep()) ==> driver.InStep()
      ensures driver.graph.closes == old(driver.graph.closes) + Bodies(old(driver.graph.nextBody), driver.graph.nextBody)
    {
      hide Bodies, TotalWait, Decide, AllCarry, Conversation, Concludes;
      var reader := new BytesReader(data);
      var resp;
      resp, talk := driver.Do(PutContent, reader);
      answer := resp;
      if resp.Err? {
        return Err(resp.error), talk, answer;
      }
      OneBody(resp.value.body);
      BodiesJoin(old(driver.graph.nextBody), resp.value.body, resp.value.body + 1);
      driver.graph.CloseBody(resp.value.body);
      return Ok(()), talk, answer;
    }
  }

  lemma OneBody(id: nat)
    ensures Bodies(id, id + 1) == multiset{id}
  {
    assert Bodies(id, id) == multiset{};
  }

  ghost predicate WithinTries(log: seq<Range>) {
    forall r: Range :: multiset(log)[r] <= MAX_RETRIES + 1
  }

  /** No range was sent more than four times, and none from `sent` on at all. */
  ghost predicate FewTries(log: seq<Range>, sent: nat) {
    forall r: Range :: multiset(log)[r] <= if r.first < sent then MAX_RETRIES + 1 else 0
  }

  function Tries(tried: Option<seq<Reply>>): nat {
    if tried.Some? then |tried.value| else 0
  }

  /** The first `n` ranges of an upload lead up to `sent`. */
  ghost predicate RangesReach(total: nat, n: nat, sent: nat) {
    n <= |Ranges(0, total)| && sent == if n < |Ranges(0, total)| then Ranges(0, total)[n].first else total
  }

  /** The range that the loop is at, and that it leads on to the next. */
  lemma RangesAt(total: nat, n: nat)
    requires n <= |Ranges(0, total)|
    ensures RangesReach(0, 0, 0) && RangesReach(total, 0, 0)
    ensures n < |Ranges(0, total)| ==>
      var first := Ranges(0, total)[n].first;
      var want := if total - first < CHUNK_SIZE then total - first else CHUNK_SIZE;
      && first < total && Ranges(0, total)[n] == Range(first, first + want - 1, total)
      && RangesReach(total, n + 1, first + want)
    ensures forall sent: nat :: RangesReach(total, n, sent) && sent < total ==> n < |Ranges(0, total)|
    ensures RangesReach(total, n, total) ==> n == |Ranges(0, total)|
  {
    RangesShape(0, total);
    RangesFull(0, total);
    RangesEnd(0);
  }

  /** Each range has as many bytes as are wanted at its start. */
  lemma {:induction false} RangesFull(sent: nat, total: nat)
    requires sent <= total
    ensures forall i :: 0 <= i < |Ranges(sent, total)| ==>
      var r := Ranges(sent, total)[i];
      r.last == r.first + (if total - r.first < CHUNK_SIZE then total - r.first else CHUNK_SIZE) - 1
    decreases total - sent
  {
    if sent < total {
      var want := if total - sent < CHUNK_SIZE then total - sent else CHUNK_SIZE;
      RangesFull(sent + want, total);
      RangesCons(sent, total, want);
      hide Ranges;
      assert forall i :: 1 <= i < |Ranges(sent, total)| ==> Ranges(sent, total)[i] == Ranges(sent + want, total)[i - 1];
    }
  }

  predicate FewEach(chunks: seq<seq<Reply>>) {
    forall i :: 0 <= i < |chunks| ==> |chunks[i]| <= MAX_RETRIES + 1
  }

  lemma NoDiskError(s: Session)
    requires SessionOpens(s)
    ensures OpeningError(s) != Err(Disk)
  {
  }

  lemma ChunksApart(s: Session, chunks: seq<seq<Reply>>)
    requires SessionOpens(s)
    ensures SessionOpens(s.(chunks := chunks))
  {
  }

  lemma NothingSent(ranges: seq<Range>)
    ensures Sent(ranges, []) == [] && Flat([]) == [] && AllStored([]) && WithinTries([])
  {
  }

  lemma OneMoreChunk(ranges: seq<Range>, chunks: seq<seq<Reply>>, more: seq<Reply>)
    requires |chunks| < |ranges|
    ensures Sent(ranges, chunks + [more]) == Sent(ranges, chunks) + Repeat(ranges[|chunks|], |more|)
    ensures Flat(chunks + [more]) == Flat(chunks) + more
    ensures (chunks + [more])[..|chunks|] == chunks && (chunks + [more])[|chunks|] == more
  {
    assert (chunks + [more])[..|chunks|] == chunks;
  }

  lemma InTurn<T>(a: seq<T>, b: seq<T>, c: seq<T>)
    ensures (a + b) + c == a + (b + c)
  {
  }

  function WithTried(chunks: seq<seq<Reply>>, tried: Option<seq<Reply>>): seq<seq<Reply>> {
    if tried.Some? then chunks + [tried.value] else chunks
  }

  /** What one more turn of the loop makes of the upload. */
  lemma ChunkTurn(ranges: seq<Range>, chunks: seq<seq<Reply>>, tried: Option<seq<Reply>>, r: Result<()>)
    requires |chunks| < |ranges| && AllStored(chunks) && FewEach(chunks)
    requires if tried.Some? then ChunkConcludes(tried.value, r) else r == Err(Disk)
    requires r.Ok? ==> r == Ok(())
    ensures var now := WithTried(chunks, tried);
      && |chunks| <= |now| <= |ranges| && FewEach(now) && (r.Ok? ==> |now| == |chunks| + 1)
      && Sent(ranges, now) == Sent(ranges, chunks) + Repeat(ranges[|chunks|], Tries(tried))
      && Flat(now) == Flat(chunks) + (if tried.Some? then tried.value else [])
      && (if r.Ok? then AllStored(now) else ChunksConclude(ranges, now, r))
      && (r == Err(Disk) ==> tried.None?)
  {
    hide ChunkConcludes, Sent, Flat, Repeat;
    if tried.Some? {
      ChunkErrors(tried.value, r);
      OneMoreChunk(ranges, chunks, tried.value);
    } else {
      NoTries(ranges[|chunks|]);
      assert Flat(chunks) + [] == Flat(chunks);
    }
  }

  lemma ChunkErrors(replies: seq<Reply>, r: Result<()>)
    requires ChunkConcludes(replies, r)
    ensures r != Err(Disk)
    ensures |replies| <= MAX_RETRIES + 1
  {
  }

  lemma NoTries(r: Range)
    ensures Repeat(r, 0) == []
  {
  }

  /** No range goes out more than four times. */
  lemma {:induction false} SentFew(total: nat, chunks: seq<seq<Reply>>)
    requires |chunks| <= |Ranges(0, total)|
    requires forall i :: 0 <= i < |chunks| ==> |chunks[i]| <= 4
    ensures WithinTries(Sent(Ranges(0, total), chunks))
    ensures forall r: Range :: multiset(Sent(Ranges(0, total), chunks))[r] <= 4
  {
    SentUpTo(total, chunks);
  }

  lemma {:induction false} SentUpTo(total: nat, chunks: seq<seq<Reply>>)
    requires |chunks| <= |Ranges(0, total)|
    requires FewEach(chunks)
    ensures FewTries(Sent(Ranges(0, total), chunks), if |chunks| < |Ranges(0, total)| then Ranges(0, total)[|chunks|].first else total)
    decreases |chunks|
  {
    hide Ranges, Repeat;
    if chunks != [] {
      var n, ranges := |chunks| - 1, Ranges(0, total);
      SentUpTo(total, chunks[..n]);
      RangesAt(total, n);
      MoreTries(Sent(ranges, chunks[..n]), ranges[n].first, ranges[n], |chunks[n]|,
                if |chunks| < |ranges| then ranges[|chunks|].first else total);
    }
  }

  /** The chunk that ends the file completes it; no other one does. */
  lemma LastCompletes(body: Bytes, sent: nat, want: nat, total: nat)
    requires sent + want <= |body| && 0 < want && sent + want <= total
    ensures var r, chunk := Range(sent, sent + want - 1, total), body[sent..sent + want];
      && (Completes(Holding(body, sent), r, chunk) <==> sent + want == total)
      && (sent + want == total ==>
            Whole(Holding(body, total), total) && Assembled(Holding(body, total), total) == body[..total])
  {
    StoreGrows(body, sent, want);
  }

  lemma {:induction false} RepeatCounts<T>(x: T, n: nat)
    ensures multiset(Repeat(x, n)) == multiset{}[x := n]
    decreases n
  {
    if n > 0 {
      RepeatCounts(x, n - 1);
      RepeatMore(x, n - 1);
    }
  }

  lemma MoreTries(log: seq<Range>, sent: nat, range: Range, tries: nat, next: nat)
    requires FewTries(log, sent) && range.first == sent < next && tries <= MAX_RETRIES + 1
    ensures FewTries(log + Repeat(range, tries), next)
    ensures WithinTries(log + Repeat(range, tries))
  {
    RepeatCounts(range, tries);
  }

  lemma NothingHeld(body: Bytes)
    ensures Holding(body, 0) == map[]
  {
  }

  lemma RangesCons(sent: nat, total: nat, want: nat)
    requires sent < total && want == if total - sent < CHUNK_SIZE then total - sent else CHUNK_SIZE
    ensures Ranges(sent, total) == [Range(sent, sent + want - 1, total)] + Ranges(sent + want, total)
  {
  }

  lemma RangesEnd(total: nat)
    ensures Ranges(total, total) == []
  {
  }

  /** Storing the next chunk at its offset extends what is held. */
  lemma StoreGrows(body: Bytes, sent: nat, want: nat)
    requires sent + want <= |body|
    ensures StoreAt(Holding(body, sent), sent, body[sent..sent + want]) == Holding(body, sent + want)
  {
  }

  function Repeat<T>(x: T, n: nat): seq<T> {
    seq(n, i => x)
  }

  lemma RepeatMore<T>(x: T, n: nat)
    ensures Repeat(x, n + 1) == Repeat(x, n) + [x]
  {
  }

  lemma StoreTwice(m: Stored, first: nat, chunk: Bytes)
    ensures StoreAt(StoreAt(m, first, chunk), first, chunk) == StoreAt(m, first, chunk)
  {
  }

  lemma CompletesTwice(m: Stored, r: Range, chunk: Bytes)
    ensures Completes(StoreAt(m, r.first, chunk), r, chunk) <==> Completes(m, r, chunk)
  {
    StoreTwice(m, r.first, chunk);
  }

  // ------------------------------------------------------------ the writer

  /** Where temporary files live; making one may fail. */
  class TempDir {
    const sound: bool
    ghost var files: set<TempFile>

    constructor (sound: bool)
      ensures this.sound == sound && files == {}
    {
      this.sound, files := sound, {};
    }

    method Create() returns (f: TempFile?)
      modifies this
      ensures f != null ==> fresh(f) && f.data == [] && f.pos == 0 && f.sound == sound && files == old(files) + {f}
      ensures f == null ==> files == old(files)
      ensures sound ==> f != null
    {
      f := null;
      var fault: bool := *;
      if sound || !fault {
        f := new TempFile(sound);
        files := files + {f};
      }
    }

    method Remove(f: TempFile)
      modifies this
      ensures files == old(files) - {f}
    {
      files := files - {f};
    }
  }

  /** Where the accepted bytes are. */
  datatype Held = InMemory(data: Bytes) | OnDisk(data: Bytes)

  /** What the disk did during one Write: whether a file could be made, whether
      it took what was in memory, and how much of the new bytes. */
  datatype DiskEvents = DiskEvents(created: bool, flushed: bool, n: nat, ok: bool)

  predicate Possible(d: DiskEvents, p: Bytes) {
    d.n <= |p| && (d.ok ==> d.n == |p|)
  }

  /** One Write by a writer that is open and has no sticky error: what is held
      then, how much was accepted, the error, and whether it sticks. */
  function WriteOf(h: Held, p: Bytes, d: DiskEvents): (Held, nat, Option<Error>, bool)
    requires Possible(d, p)
  {
    var e := if d.ok then None else Some(Disk);
    if h.OnDisk? then (OnDisk(h.data + p[..d.n]), d.n, e, false)
    else if |h.data| + |p| <= UPLOAD_MEM_CAP then (InMemory(h.data + p), |p|, None, false)
    else if !d.created || !d.flushed then (h, 0, Some(Disk), true)
    else (OnDisk(h.data + p[..d.n]), d.n, e, false)
  }

  /** What Close sent: nothing, the small upload, or a session. */
  datatype Upload =
    | NoUpload
    | Small(talk: Talk, answer: Result<Reply>)
    | Chunked(session: Session)

  /** The small upload is one call that carries `data`, and gives the result. */
  ghost predicate SmallConcludes(u: Upload, data: Bytes, r: Result<()>) {
    && u.Small?
    && AllCarry(PutContent, data, u.talk) && Conversation(u.talk.replies) && Concludes(u.talk, u.answer)
    && r == match u.answer case Ok(_) => Ok(()) case Err(e) => Err(e)
  }

  /** Up to UPLOAD_MEM_CAP bytes stay in memory; beyond that everything is in a
      temporary file. `accepted` is the concatenation of what Write reported. */
  class Writer {
    const uploads: Uploads
    const dir: TempDir
    var buf: Bytes
    var temp: TempFile?
    var tempSz: nat
    var closed: bool
    var err: Option<Error>
    ghost var accepted: Bytes

    ghost predicate Valid()
      reads this, temp, dir
    {
      && (temp == null ==> buf == accepted || closed)
      && (temp != null ==> !closed && buf == [] && temp.data == accepted && temp.pos == |accepted| == tempSz
                           && temp in dir.files && temp.sound == dir.sound && err == None)
      && |buf| <= UPLOAD_MEM_CAP
      && (dir.sound ==> err == None && (!closed ==> (temp != null <==> |accepted| > UPLOAD_MEM_CAP)))
    }

    ghost function Held(): Held
      reads this, temp
    {
      if temp == null then InMemory(buf) else OnDisk(temp.data)
    }

    constructor (uploads: Uploads, dir: TempDir)
      ensures Valid() && this.uploads == uploads && this.dir == dir && !closed && accepted == [] && err == None
      ensures Held() == InMemory([])
    {
      this.uploads, this.dir := uploads, dir;
      buf, temp, tempSz, closed, err, accepted := [], null, 0, false, None, [];
    }

    /** Exactly what `WriteOf` says for what the disk did; `disk` records that. */
    method Write(p: Bytes) returns (n: nat, e: Option<Error>, ghost disk: DiskEvents)
      requires Valid()
      modifies this, temp, dir
      ensures Valid() && closed == old(closed)
      ensures n <= |p| && accepted == old(accepted) + p[..n]
      ensures e == None ==> n == |p|
      ensures old(closed) ==> n == 0 && e == Some(Closed) && err == old(err) && Held() == old(Held())
      ensures !old(closed) && old(err).Some? ==> n == 0 && e == old(err) && err == old(err) && Held() == old(Held())
      ensures Possible(disk, p) && (dir.sound ==> disk.created && disk.flushed && disk.ok)
      ensures !old(closed) && old(err) == None ==>
        (Held(), n, e, err.Some?) == WriteOf(old(Held()), p, disk) && (err.Some? ==> err == e)
      ensures !old(closed) && old(err) == None && old(temp) == null && |old(buf)| + |p| <= 4 * 1024 * 1024 ==>
        n == |p| && e == None && err == None && temp == null && buf == old(buf) + p
      ensures !old(closed) && old(err) == None && old(temp) == null && |old(buf)| + |p| > 4 * 1024 * 1024 ==>
        if disk.created && disk.flushed
        then temp != null && fresh(temp) && temp.data == old(buf) + p[..n]
        else n == 0 && e == Some(Disk) && err == Some(Disk) && temp == null && buf == old(buf)
      ensures !old(closed) && old(err) == None && old(temp) != null ==>
        temp == old(temp) && temp.data == old(temp.data) + p[..n]
      ensures !old(closed) && old(err) == None && temp != null ==>
        n == disk.n && err == None && e == (if disk.ok then None else Some(Disk))
      ensures dir.sound && !old(closed) ==> e == None && (temp != null <==> |accepted| > 4 * 1024 * 1024)
      ensures |buf| <= 4 * 1024 * 1024
      ensures temp != null ==> dir.files == old(dir.files) + {temp}
      ensures temp == null ==> dir.files == old(dir.files)
    {
      n := 0;
      disk := DiskEvents(true, true, |p|, true);
      assert p[..|p|] == p;
      if closed {
        return 0, Some(Closed), disk;
      }
      if err.Some? {
        return 0, err, disk;
      }
      if temp != null {
        var ok;
        n, ok := temp.Write(p);
        tempSz := tempSz + n;
        accepted := accepted + p[..n];
        return n, if ok then None else Some(Disk), DiskEvents(true, true, n, ok);
      }
      if |buf| + |p| <= UPLOAD_MEM_CAP {
        buf := buf + p;
        accepted := accepted + p;
        return |p|, None, disk;
      }
      var tmp := dir.Create();
      if tmp == null {
        err := Some(Disk);
        return 0, err, disk.(created := false);
      }
      var flushed, ok := tmp.Write(buf);
      if !ok {
        dir.Remove(tmp);
        err := Some(Disk);
        return 0, err, disk.(flushed := false);
      }
      tempSz := |buf|;
      buf := [];
      temp := tmp;
      n, ok := temp.Write(p);
      tempSz := tempSz + n;
      accepted := accepted + p[..n];
      return n, if ok then None else Some(Disk), DiskEvents(true, true, n, ok);
    }

    /** The first Close makes one upload of exactly the accepted bytes, the small
        one or one session, and all it sent is accounted for by `sent`; it sends
        nothing when an error sticks or the file cannot be rewound. It leaves no
        temporary file. Later ones do nothing and succeed. */
    method Close() returns (r: Result<()>, ghost sent: Upload)
      requires Valid()
      modifies this, temp, dir, uploads.driver, uploads.driver.authority, uploads.driver.graph, uploads.store
      ensures Valid() && closed && temp == null && accepted == old(accepted)
      ensures dir.files == if old(temp) == null then old(dir.files) else old(dir.files) - {old(temp)}
      ensures old(closed) ==> r.Ok? && sent == NoUpload
      ensures !old(closed) && old(err).Some? ==> r == Err(old(err).value) && sent == NoUpload
      ensures !old(closed) && old(err) == None && old(temp) == null ==> SmallConcludes(sent, accepted, r)
      ensures !old(closed) && old(temp) != null ==>
        if sent == NoUpload then r == Err(Disk) && old(temp).faults == old(temp.faults) + 1
        else sent.Chunked? && SessionConcludes(sent.session, |accepted|, r)
      ensures sent.Small? ==> (r.Ok? <==> sent.answer.Ok?) && |sent.talk.requests| == |sent.talk.replies|
      ensures sent.Small? ==> forall q <- sent.talk.requests :: q.kind == PutContent && q.token != "" && q.body == accepted
      ensures sent.Small? ==> (
        && uploads.driver.graph.requests == old(uploads.driver.graph.requests) + sent.talk.requests
        && uploads.driver.graph.replies == old(uploads.driver.graph.replies) + sent.talk.replies)
      ensures sent.Chunked? ==> (
        && uploads.driver.graph.requests == old(uploads.driver.graph.requests) + sent.session.talk.requests
        && uploads.driver.graph.replies == old(uploads.driver.graph.replies) + sent.session.talk.replies)
      ensures sent == NoUpload ==> unchanged(uploads.driver) && unchanged(uploads.driver.authority)
      ensures sent == NoUpload ==> unchanged(uploads.driver.graph) && unchanged(uploads.store)
      ensures sent.Small? ==> unchanged(uploads.store) && TalkAdded(sent.talk, old(uploads.driver.graph.requests),
        old(uploads.driver.graph.replies), old(uploads.driver.authority.answers))
      ensures sent.Small? && r.Ok? ==> uploads.driver.graph.content == Some(accepted)
      ensures sent.Small? ==>
        uploads.driver.graph.content == old(uploads.driver.graph.content) || uploads.driver.graph.content == Some(accepted)
      ensures sent.Chunked? ==> TalkAdded(sent.session.talk, old(uploads.driver.graph.requests),
        old(uploads.driver.graph.replies), old(uploads.driver.authority.answers))
      ensures sent.Chunked? ==> uploads.driver.graph.content == old(uploads.driver.graph.content)
      ensures sent.Chunked? ==> (
        && |sent.session.chunks| <= |Ranges(0, |accepted|)|
        && uploads.store.requests == old(uploads.store.requests) + Sent(Ranges(0, |accepted|), sent.session.chunks)
        && uploads.store.cancels == old(uploads.store.cancels) + (if sent.session.Began() && !r.Ok? then 1 else 0)
        && exists n :: (0 <= n <= |Ranges(0, |accepted|)|
             && uploads.store.acked == old(uploads.store.acked) + Ranges(0, |accepted|)[..n]))
      ensures sent.Chunked? && r.Ok? ==> (
        && uploads.store.acked == old(uploads.store.acked) + Ranges(0, |accepted|)
        && uploads.store.stored == Holding(accepted, |accepted|)
        && uploads.store.made == if accepted != [] then Some(accepted) else None)
      ensures sent.Chunked? && sent.session.Began() ==>
        uploads.store.made == None || uploads.store.made == Some(accepted)
    {
      hide Ranges, AllCarry, Conversation, Concludes, ChunksConclude, Holding, Bodies, WithinTries, Flat, Sent;
      sent := NoUpload;
      if closed {
        return Ok(()), sent;
      }
      closed := true;
      if err.Some? {
        CleanupTemp();
        return Err(err.value), sent;
      }
      if temp == null {
        ghost var talk, answer;
        r, talk, answer := uploads.PutSmall(buf);
        sent := Small(talk, answer);
        CarriedBy(PutContent, buf, talk);
        CleanupTemp();
        return;
      }
      var ok := temp.SeekStart();
      if !ok {
        CleanupTemp();
        return Err(Disk), sent;
      }
      ghost var session;
      assert accepted[..|accepted|] == accepted;
      r, session := uploads.UploadSession(temp, tempSz);
      sent := Chunked(session);
      CleanupTemp();
    }

    /** What one call sent, was answered and asked of the authority was put at
        the end of the records. */
    ghost predicate TalkAdded(t: Talk, requests: seq<Request>, replies: seq<Reply>, answers: seq<TokenReply>)
      reads this, uploads.driver, uploads.driver.graph, uploads.driver.authority
    {
      && uploads.driver.graph.requests == requests + t.requests
      && uploads.driver.graph.replies == replies + t.replies
      && uploads.driver.authority.answers == answers + t.tokens
    }

    method CleanupTemp()
      modifies this`temp, dir
      ensures temp == null
      ensures dir.files == if old(temp) == null then old(dir.files) else old(dir.files) - {old(temp)}
    {
      if temp != null {
        dir.Remove(temp);
        temp := null;
      }
    }
  }

  lemma CarriedBy(kind: Kind, body: Bytes, talk: Talk)
    requires AllCarry(kind, body, talk)
    ensures |talk.requests| == |talk.replies|
    ensures forall q <- talk.requests :: q.kind == kind && q.token != "" && q.body == body
  {
  }

  /** One oversized Write to a new writer whose file takes none of it: no error
      sticks, and the file exists and is empty. */
  lemma FailingWrite(p: Bytes)
    requires |p| > 4 * 1024 * 1024
    ensures WriteOf(InMemory([]), p, DiskEvents(true, true, 0, false)) == (OnDisk([]), 0, Some(Disk), false)
  {
    assert [] + p[..0] == [];
  }

  /** ... and then a session that opens ends well without a single request, with
      no file made and nothing cancelled: an upload of no bytes makes a file in no
      case, and one of some bytes makes it whenever it succeeds. */
  lemma EmptySession(s: Session, r: Result<()>)
    requires SessionConcludes(s, 0, r)
    ensures s.chunks == [] && (r.Ok? <==> s.Began())
  {
    hide SessionOpens;
    RangesEnd(0);
  }

  // ------------------------------------------------------- the chunk ranges

  /** The ranges of an upload are well formed, contiguous from 0 to the end, and
      all but the last are full chunks. */
  lemma RangesShape(sent: nat, total: nat)
    requires sent <= total
    ensures var rs := Ranges(sent, total);
      && (forall i :: 0 <= i < |rs| ==> rs[i].first <= rs[i].last < rs[i].total == total)
      && (forall i :: 0 <= i < |rs| - 1 ==> rs[i].last - rs[i].first + 1 == 10 * 1024 * 1024)
      && (forall i :: 0 <= i < |rs| - 1 ==> rs[i + 1].first == rs[i].last + 1)
      && (sent < total ==> rs != [] && rs[0].first == sent && rs[|rs| - 1].last == total - 1
                           && 1 <= rs[|rs| - 1].last - rs[|rs| - 1].first + 1 <= 10 * 1024 * 1024)
  {
    hide Ranges;
    ShapeFrom(sent, total);
  }

  lemma {:induction false} ShapeFrom(sent: nat, total: nat)
    requires sent <= total
    ensures var rs := Ranges(sent, total);
      && (forall i :: 0 <= i < |rs| ==> WellFormedRange(rs[i]) && rs[i].total == total)
      && (forall i :: 0 <= i < |rs| - 1 ==> rs[i].last - rs[i].first + 1 == CHUNK_SIZE)
      && (forall i :: 0 <= i < |rs| - 1 ==> rs[i + 1].first == rs[i].last + 1)
      && (sent < total ==> rs != [] && rs[0].first == sent && rs[|rs| - 1].last == total - 1
                           && 1 <= rs[|rs| - 1].last - rs[|rs| - 1].first + 1 <= CHUNK_SIZE)
    decreases total - sent
  {
    if sent < total {
      var want := if total - sent < CHUNK_SIZE then total - sent else CHUNK_SIZE;
      ShapeFrom(sent + want, total);
      RangesCons(sent, total, want);
      RangesEnd(total);
      hide Ranges, WellFormedRange;
      assert WellFormedRange(Range(sent, sent + want - 1, total));
      ShapeCons(Range(sent, sent + want - 1, total), Ranges(sent + want, total), total);
    }
  }

  /** Another range in front of contiguous ones. */
  lemma ShapeCons(r: Range, rest: seq<Range>, total: nat)
    requires WellFormedRange(r) && r.total == total && r.last - r.first + 1 <= CHUNK_SIZE
    requires if rest == [] then r.last == total - 1
             else r.last - r.first + 1 == CHUNK_SIZE && rest[0].first == r.last + 1 && rest[|rest| - 1].last == total - 1
                  && 1 <= rest[|rest| - 1].last - rest[|rest| - 1].first + 1 <= CHUNK_SIZE
    requires forall i :: 0 <= i < |rest| ==> WellFormedRange(rest[i]) && rest[i].total == total
    requires forall i :: 0 <= i < |rest| - 1 ==> rest[i].last - rest[i].first + 1 == CHUNK_SIZE
    requires forall i :: 0 <= i < |rest| - 1 ==> rest[i + 1].first == rest[i].last + 1
    ensures var rs := [r] + rest;
      && (forall i :: 0 <= i < |rs| ==> WellFormedRange(rs[i]) && rs[i].total == total)
      && (forall i :: 0 <= i < |rs| - 1 ==> rs[i].last - rs[i].first + 1 == CHUNK_SIZE)
      && (forall i :: 0 <= i < |rs| - 1 ==> rs[i + 1].first == rs[i].last + 1)
      && rs[0] == r && rs[|rs| - 1].last == total - 1 && 1 <= rs[|rs| - 1].last - rs[|rs| - 1].first + 1 <= CHUNK_SIZE
  {
    var rs := [r] + rest;
    forall i | 0 <= i < |rs|
      ensures rs[i] == if i == 0 then r else rest[i - 1]
    {
    }
    if rest != [] {
      assert rs[|rs| - 1] == rest[|rest| - 1];
    }
  }

  /** Each byte of the file lies in exactly one range. */
  lemma {:induction false} RangesPartition(sent: nat, total: nat, k: nat)
    requires sent <= k < total
    ensures exists i :: 0 <= i < |Ranges(sent, total)| && Ranges(sent, total)[i].first <= k <= Ranges(sent, total)[i].last
    ensures forall i, j :: 0 <= i < j < |Ranges(sent, total)| ==>
      !(Ranges(sent, total)[i].first <= k <= Ranges(sent, total)[i].last
        && Ranges(sent, total)[j].first <= k <= Ranges(sent, total)[j].last)
    decreases total - sent
  {
    var rs := Ranges(sent, total);
    var want := if total - sent < CHUNK_SIZE then total - sent else CHUNK_SIZE;
    var rest := Ranges(sent + want, total);
    assert rs == [Range(sent, sent + want - 1, total)] + rest;
    RangesStart(sent + want, total);
    if k < sent + want {
      assert rs[0].first <= k <= rs[0].last;
    } else {
      RangesPartition(sent + want, total, k);
      var i :| 0 <= i < |rest| && rest[i].first <= k <= rest[i].last;
      assert rs[i + 1] == rest[i];
    }
    assert forall j :: 1 <= j < |rs| ==> rs[j] == rest[j - 1];
  }

  lemma {:induction false} RangesStart(sent: nat, total: nat)
    ensures forall i :: 0 <= i < |Ranges(sent, total)| ==> Ranges(sent, total)[i].first >= sent
    decreases total - sent
  {
    if sent < total {
      RangesStart(sent + if total - sent < CHUNK_SIZE then total - sent else CHUNK_SIZE, total);
    }
  }

  /** Chunks meet Graph's alignment of 320 KiB. */
  lemma ChunkAligned()
    ensures CHUNK_SIZE % (320 * 1024) == 0 && CHUNK_SIZE < 60 * 1024 * 1024
  {
  }
}
