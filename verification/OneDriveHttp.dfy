/** The OneDrive driver's request loop and its rotating tokens. */
module OneDriveHttp {
  import opened Octets
  import opened Options

  const MAX_RETRIES: nat := 3

  datatype Error =
    | Network | Http(status: int) | NotFound | PermissionDenied | Exists
    | TokenNetwork | TokenRefused(status: int) | ReauthRequired | TokenGarbled | TokenEmpty
    | Disk | NoUploadURL | Undecodable | Closed
  datatype Result<+T> = Ok(value: T) | Err(error: Error)

  /** What came back for one request: nothing, or a response whose body must be
      closed by someone. `retryAfter` is the header when it is a number. */
  datatype Reply = NetError | Response(status: int, retryAfter: Option<int>, body: nat)

  /** What a request is for: any metadata call, the small upload, or the opening
      of an upload session. */
  datatype Kind = Plain | PutContent | OpenSession
  datatype Request = Request(kind: Kind, token: string, body: Bytes)

  // --------------------------------------------------------------- waiting

  predicate ShouldRetry(status: int) {
    status == 429 || status == 502 || status == 503 || status == 504
  }

  function Pow2(n: nat): nat {
    if n == 0 then 1 else 2 * Pow2(n - 1)
  }

  /** In milliseconds. */
  function BackoffDuration(attempt: nat): nat {
    var d := 500 * Pow2(attempt);
    if d > 5000 then 5000 else d
  }

  predicate Honoured(retryAfter: Option<int>) {
    retryAfter.Some? && 0 < retryAfter.value <= 120
  }

  function RetryWait(retryAfter: Option<int>, attempt: nat): nat {
    if Honoured(retryAfter) then retryAfter.value * 1000 else BackoffDuration(attempt)
  }

  function MapHTTPError(status: int): Error {
    if status == 404 then NotFound
    else if status == 403 then PermissionDenied
    else if status == 409 then Exists
    else Http(status)
  }

  // --------------------------------------------- what the loop is to decide

  datatype Action = Done | Again(wait: nat) | Reauthorise | Fail(error: Error)

  /** How `do` must answer the reply to its `attempt`-th request. */
  function Decide(attempt: nat, reply: Reply): Action {
    match reply
    case NetError => if attempt < MAX_RETRIES then Again(BackoffDuration(attempt)) else Fail(Network)
    case Response(status, retryAfter, _) =>
      if status < 400 then Done
      else if status == 401 && attempt == 0 then Reauthorise
      else if ShouldRetry(status) && attempt < MAX_RETRIES then Again(RetryWait(retryAfter, attempt))
      else Fail(MapHTTPError(status))
  }

  predicate GoesOn(a: Action) {
    a.Again? || a.Reauthorise?
  }

  function WaitOf(a: Action): nat {
    if a.Again? then a.wait else 0
  }

  /** All waits asked for by a sequence of replies. */
  function TotalWait(replies: seq<Reply>): nat {
    if replies == [] then 0
    else TotalWait(replies[..|replies| - 1]) + WaitOf(Decide(|replies| - 1, replies[|replies| - 1]))
  }

  /** The replies of one call: each but the last was one to go on after. */
  ghost predicate Conversation(replies: seq<Reply>) {
    |replies| <= MAX_RETRIES + 1
    && forall i :: 0 <= i < |replies| - 1 ==> GoesOn(Decide(i, replies[i]))
  }

  // ------------------------------------------------------ the outside world

  class BytesReader {
    const data: Bytes
    var pos: nat

    constructor (data: Bytes)
      ensures this.data == data && pos == 0
    {
      this.data, pos := data, 0;
    }

    method Rewind()
      modifies this
      ensures pos == 0
    {
      pos := 0;
    }

    /** The transport reads what is left, all of it or only a part. */
    method Drain() returns (body: Bytes)
      modifies this
      ensures body == if old(pos) <= |data| then data[old(pos)..] else []
    {
      body := if pos <= |data| then data[pos..] else [];
      var n: nat := *;
      pos := n;
    }
  }

  /** The HTTP client and the service behind it. A request may be lost, or
      served and its reply lost; `content` is the uploaded file's. */
  class Graph {
    var clock: nat
    var nextBody: nat
    var content: Option<Bytes>
    ghost var requests: seq<Request>
    ghost var replies: seq<Reply>
    ghost var closes: multiset<nat>
    ghost var waited: nat

    constructor ()
      ensures requests == [] && replies == [] && closes == multiset{} && waited == 0 && nextBody == 0 && content == None
    {
      clock, nextBody, content, requests, replies, closes, waited := 0, 0, None, [], [], multiset{}, 0;
    }

    method Send(kind: Kind, token: string, reader: BytesReader?) returns (r: Reply)
      modifies this`clock, this`nextBody, this`content, this`requests, this`replies, reader
      ensures replies == old(replies) + [r]
      ensures requests == old(requests) + [Request(kind, token,
        if reader == null || old(reader.pos) > |reader.data| then [] else reader.data[old(reader.pos)..])]
      ensures if r.Response? then r.body == old(nextBody) && nextBody == old(nextBody) + 1 else nextBody == old(nextBody)
      ensures kind != PutContent ==> content == old(content)
      ensures content == old(content) || content == Some(requests[|requests| - 1].body)
      ensures kind == PutContent && r.Response? && r.status < 400 ==> content == Some(requests[|requests| - 1].body)
      ensures clock >= old(clock)
    {
      var body: Bytes := [];
      if reader != null {
        body := reader.Drain();
      }
      requests := requests + [Request(kind, token, body)];
      var served: bool, lost: bool, status: int, header: Option<int> := *, *, *, *;
      Elapse();
      if kind == PutContent && (served || (!lost && status < 400)) {
        content := Some(body);
      }
      if lost {
        r := NetError;
      } else {
        r := Response(status, header, nextBody);
        nextBody := nextBody + 1;
      }
      replies := replies + [r];
    }

    method Elapse()
      modifies this`clock
      ensures clock >= old(clock)
    {
      var ms: int := *;
      clock := clock + if ms > 0 then ms else 0;
    }

    method CloseBody(id: nat)
      modifies this`closes
      ensures closes == old(closes) + multiset{id}
    {
      closes := closes + multiset{id};
    }

    method Sleep(ms: nat)
      modifies this`clock, this`waited
      ensures waited == old(waited) + ms && clock == old(clock) + ms
    {
      clock, waited := clock + ms, waited + ms;
    }
  }

  /** One answer of the token endpoint. */
  datatype TokenReply =
    | TokenLost
    | TokenStatus(status: int, invalidGrant: bool)
    | TokenUnreadable
    | Tokens(access: string, refresh: string, expiresIn: int)

  /** The token authority: it accepts only the current refresh token and may
      replace it by a new one, which revokes the old. Its answer may be lost or
      spoilt on the way, after a replacement too. `strays` counts the exchanges that
      presented any other token, `answers` is what came back. */
  class Authority {
    var current: string
    ghost var strays: nat
    ghost var answers: seq<TokenReply>

    constructor (current: string)
      requires current != ""
      ensures this.current == current && strays == 0 && answers == []
    {
      this.current, strays, answers := current, 0, [];
    }

    method Exchange(presented: string) returns (reply: TokenReply, ghost rotated: bool)
      modifies this
      ensures strays == old(strays) + (if presented == old(current) then 0 else 1) && answers == old(answers) + [reply]
      ensures Grants(old(current), presented, reply, current) && (rotated <==> current != old(current))
    {
      strays := strays + if presented == current then 0 else 1;
      var replaced := false;
      var status: int, grant: bool, lost: bool := *, *, *;
      reply := if lost || status == 200 then TokenLost else TokenStatus(status, grant);
      if presented == current {
        var arrives: bool, readable: bool, told: bool, next: string := *, *, *, *;
        if next != "" && next != current {
          current, replaced := next, true;
        }
        if arrives {
          var access: string, expiresIn: int := *, *;
          var refresh := if replaced || told then current else "";
          reply := if readable then Tokens(access, refresh, expiresIn) else TokenUnreadable;
        }
      }
      rotated := replaced;
      answers := answers + [reply];
    }
  }

  // ---------------------------------------------------------------- the driver

  class Driver {
    const graph: Graph
    const authority: Authority
    var accessToken: string
    var expiresAt: int
    var refreshToken: string

    constructor (graph: Graph, authority: Authority, refreshToken: string)
      ensures this.graph == graph && this.authority == authority && this.refreshToken == refreshToken
      ensures accessToken == ""
    {
      this.graph, this.authority, this.refreshToken := graph, authority, refreshToken;
      accessToken, expiresAt := "", 0;
    }

    /** The driver holds the one refresh token the authority will accept. */
    ghost predicate InStep()
      reads this, authority
    {
      refreshToken == authority.current
    }

    /** Presents the refresh token held. The driver falls out of step exactly
        when the authority rotated and the answer was not used: lost, spoilt,
        unreadable, or without an access token. */
    method Refresh() returns (r: Result<()>, ghost rotated: bool, ghost reply: TokenReply)
      modifies this, authority, graph`clock
      ensures authority.strays == old(authority.strays) + if old(InStep()) then 0 else 1
      ensures authority.answers == old(authority.answers) + [reply]
      ensures r == RefreshResult(reply)
      ensures r.Ok? <==> reply.Tokens? && reply.access != ""
      ensures r == Err(ReauthRequired) <==> reply.TokenStatus? && 400 <= reply.status < 500 && reply.invalidGrant
      ensures r == Err(TokenNetwork) <==> reply == TokenLost
      ensures r.Err? && r.error.TokenRefused? <==>
        reply.TokenStatus? && !(400 <= reply.status < 500 && reply.invalidGrant) && r.error.status == reply.status
      ensures r.Ok? ==> accessToken == reply.access && accessToken != ""
      ensures r.Ok? ==> expiresAt == graph.clock + (if reply.expiresIn > 0 then reply.expiresIn * 1000 else 55 * 60 * 1000)
      ensures r.Ok? ==> refreshToken == (if reply.refresh != "" then reply.refresh else old(refreshToken))
      ensures !r.Ok? ==> accessToken == old(accessToken) && expiresAt == old(expiresAt) && refreshToken == old(refreshToken)
      ensures old(InStep()) ==> (InStep() <==> !rotated || r.Ok?)
      ensures !old(InStep()) ==> !r.Ok? && !InStep()
      ensures graph.clock >= old(graph.clock)
      ensures Grants(old(authority.current), old(refreshToken), reply, authority.current)
      ensures refreshToken == Held(old(refreshToken), reply)
    {
      var got;
      got, rotated := authority.Exchange(refreshToken);
      reply := got;
      graph.Elapse();
      match got
      case TokenLost => return Err(TokenNetwork), rotated, reply;
      case TokenStatus(status, invalidGrant) =>
        if 400 <= status < 500 && invalidGrant {
          return Err(ReauthRequired), rotated, reply;
        }
        return Err(TokenRefused(status)), rotated, reply;
      case TokenUnreadable => return Err(TokenGarbled), rotated, reply;
      case Tokens(access, refresh, expiresIn) =>
        if access == "" {
          return Err(TokenEmpty), rotated, reply;
        }
        accessToken := access;
        if expiresIn > 0 {
          expiresAt := graph.clock + expiresIn * 1000;
        } else {
          expiresAt := graph.clock + 55 * 60 * 1000;
        }
        if refresh != "" {
          refreshToken := refresh;
        }
        return Ok(()), rotated, reply;
    }

    /** After success the token is usable: there is one, and it has a minute
        left unless it was minted in this very call. `tokens` holds the
        authority's answer if it was asked. */
    method EnsureToken() returns (r: Result<()>, ghost tokens: seq<TokenReply>)
      modifies this, authority, graph`clock
      ensures r.Ok? ==> accessToken != ""
      ensures r.Ok? && tokens == [] ==> expiresAt - graph.clock >= 60 * 1000
      ensures tokens == [] ==> accessToken == old(accessToken) && refreshToken == old(refreshToken) && expiresAt == old(expiresAt)
      ensures tokens == [] ==> authority.current == old(authority.current)
      ensures authority.strays == old(authority.strays) + if tokens != [] && !old(InStep()) then 1 else 0
      ensures authority.answers == old(authority.answers) + tokens
      ensures |tokens| == if old(accessToken) == "" || old(expiresAt) - old(graph.clock) < 60 * 1000 then 1 else 0
      ensures r == if tokens == [] then Ok(()) else RefreshResult(tokens[0])
      ensures r.Ok? <==> tokens == [] || (tokens[0].Tokens? && tokens[0].access != "")
      ensures graph.clock >= old(graph.clock)
      ensures r.Ok? && old(InStep()) ==> InStep()
    {
      var stale := accessToken == "" || expiresAt - graph.clock < 60 * 1000;
      if !stale {
        return Ok(()), [];
      }
      ghost var rotated, reply;
      r, rotated, reply := Refresh();
      tokens := [reply];
    }

    /** One turn of the loop up to its reply: a usable token, the body from its
        start, the request. */
    method SendOnce(kind: Kind, reader: BytesReader?) returns (r: Result<Reply>, ghost tokens: seq<TokenReply>)
      modifies this, authority, reader
      modifies graph`clock, graph`nextBody, graph`content, graph`requests, graph`replies
      ensures !r.Ok? ==> |tokens| == 1 && RefreshResult(tokens[0]) == Err(r.error)
      ensures r.Ok? ==> |tokens| <= 1 && AllGranted(tokens)
      ensures authority.answers == old(authority.answers) + tokens
      ensures !r.Ok? ==> graph.requests == old(graph.requests) && graph.replies == old(graph.replies)
      ensures !r.Ok? ==> graph.nextBody == old(graph.nextBody) && graph.content == old(graph.content)
      ensures r.Ok? ==> graph.replies == old(graph.replies) + [r.value]
      ensures r.Ok? ==> accessToken != "" && graph.requests == old(graph.requests) + [Request(kind, accessToken, BodyOf(reader))]
      ensures r.Ok? ==> if r.value.Response?
        then r.value.body == old(graph.nextBody) && graph.nextBody == old(graph.nextBody) + 1
        else graph.nextBody == old(graph.nextBody)
      ensures graph.content == old(graph.content) || (kind == PutContent && graph.content == Some(BodyOf(reader)))
      ensures r.Ok? && kind == PutContent && r.value.Response? && r.value.status < 400 ==> graph.content == Some(BodyOf(reader))
      ensures r.Ok? && old(InStep()) ==> InStep()
      ensures old(InStep()) ==> authority.strays == old(authority.strays)
    {
      var ensured;
      ensured, tokens := EnsureToken();
      if ensured.Err? {
        return Err(ensured.error), tokens;
      }
      if reader != null {
        reader.Rewind();
      }
      var reply := graph.Send(kind, accessToken, reader);
      return Ok(reply), tokens;
    }

    /** The rest of the turn: what the loop makes of the reply to its
        `attempt`-th request. */
    method React(attempt: nat, reply: Reply) returns (turn: Turn, ghost tokens: seq<TokenReply>)
      requires attempt <= MAX_RETRIES
      modifies this, authority, graph`clock, graph`waited, graph`closes
      ensures Reacts(Decide(attempt, reply), reply, tokens, turn)
      ensures |tokens| <= if attempt == 0 then 1 else 0
      ensures authority.answers == old(authority.answers) + tokens
      ensures graph.waited == old(graph.waited) + WaitOf(Decide(attempt, reply))
      ensures graph.closes == old(graph.closes)
        + if reply.Response? && Decide(attempt, reply) != Done then multiset{reply.body} else multiset{}
      ensures !(turn.Stop? && turn.result.Err?) && old(InStep()) ==> InStep()
      ensures old(InStep()) ==> authority.strays == old(authority.strays)
    {
      tokens := [];
      match reply {
        case NetError =>
          if attempt < MAX_RETRIES {
            graph.Sleep(BackoffDuration(attempt));
          } else {
            return Stop(Err(Network)), [];
          }
        case Response(status, retryAfter, id) =>
          if status < 400 {
            return Stop(Ok(reply)), [];
          }
          if status == 401 && attempt == 0 {
            graph.CloseBody(id);
            var refreshed;
            ghost var rotated, answer;
            refreshed, rotated, answer := Refresh();
            tokens := [answer];
            if refreshed.Err? {
              return Stop(Err(refreshed.error)), tokens;
            }
          } else if ShouldRetry(status) && attempt < MAX_RETRIES {
            graph.Sleep(RetryWait(retryAfter, attempt));
            graph.CloseBody(id);
          } else {
            graph.CloseBody(id);
            return Stop(Err(MapHTTPError(status))), [];
          }
      }
      return GoOn, tokens;
    }

    /** One whole turn of the loop: a token, a request, and what its reply leads
        to. */
    method Attempt(kind: Kind, reader: BytesReader?, attempt: nat) returns (turn: Turn, ghost events: Events)
      requires attempt <= MAX_RETRIES
      modifies this, authority, graph, reader
      ensures Happens(kind, BodyOf(reader), attempt, events, turn)
      ensures graph.replies == old(graph.replies) + TalkOf(events).replies
      ensures graph.requests == old(graph.requests) + TalkOf(events).requests
      ensures authority.answers == old(authority.answers) + TalkOf(events).tokens
      ensures graph.waited == old(graph.waited) + WaitIn(attempt, events)
      ensures old(graph.nextBody) <= Settled(turn, graph.nextBody) <= graph.nextBody
      ensures graph.closes == old(graph.closes) + Bodies(old(graph.nextBody), Settled(turn, graph.nextBody))
      ensures Handed(turn, graph.nextBody)
      ensures graph.content == old(graph.content) || (kind == PutContent && graph.content == Some(BodyOf(reader)))
      ensures kind == PutContent && turn.Stop? && turn.result.Ok? ==> graph.content == Some(BodyOf(reader))
      ensures !(turn.Stop? && turn.result.Err?) && old(InStep()) ==> InStep()
      ensures old(InStep()) ==> authority.strays == old(authority.strays)
    {
      hide Decide, BodyOf, AllGranted, RefreshResult, Bodies, Settled;
      ghost var next0 := graph.nextBody;
      var sent;
      ghost var minted, refreshed;
      sent, minted := SendOnce(kind, reader);
      if sent.Err? {
        assert minted == [minted[0]];
        NothingToClose(next0, sent.error);
        return Stop(Err(sent.error)), Refused(minted[0]);
      }
      var reply := sent.value;
      ghost var token := accessToken;
      turn, refreshed := React(attempt, reply);
      events := Replied(minted, token, Request(kind, token, BodyOf(reader)), reply, refreshed);
      SuccessIsDone(attempt, reply);
      OneToClose(next0, graph.nextBody, Decide(attempt, reply), reply, refreshed, turn);
    }

    /** Every authenticated call. What each reply leads to is Decide's doing; the
        whole original body goes out each time; every response body is closed
        once, or handed over unclosed with a status below 400. */
    method Do(kind: Kind, reader: BytesReader?) returns (r: Result<Reply>, ghost talk: Talk)
      modifies this, authority, graph, reader
      ensures graph.replies == old(graph.replies) + talk.replies && graph.requests == old(graph.requests) + talk.requests
      ensures authority.answers == old(authority.answers) + talk.tokens && |talk.tokens| <= MAX_RETRIES + 2
      ensures Conversation(talk.replies) && Concludes(talk, r)
      ensures forall i :: 0 <= i < |talk.replies| - 1 ==>
        var q := talk.replies[i];
        q.NetError? || (q.status == 401 && i == 0) || q.status in {429, 502, 503, 504}
      ensures var n := |talk.replies|;
        n > 0 ==>
          var q := talk.replies[n - 1];
          && (q.NetError? && n == 4 ==> r == Err(Network))
          && (q.Response? && q.status < 400 ==> r == Ok(q))
          && (q.Response? && q.status >= 400 && !(q.status == 401 && n == 1) && !(q.status in {429, 502, 503, 504} && n < 4)
              ==> r == Err(match q.status case 404 => NotFound case 403 => PermissionDenied case 409 => Exists case s => Http(s)))
      ensures AllCarry(kind, BodyOf(reader), talk)
      ensures |talk.requests| == |talk.replies|
      ensures forall q <- talk.requests ::
        q.kind == kind && q.token != "" && q.body == if reader == null then [] else reader.data
      ensures graph.waited == old(graph.waited) + TotalWait(talk.replies)
      ensures old(graph.nextBody) <= Settled(Stop(r), graph.nextBody) <= graph.nextBody
      ensures graph.closes == old(graph.closes) + Bodies(old(graph.nextBody), Settled(Stop(r), graph.nextBody))
      ensures Handed(Stop(r), graph.nextBody)
      ensures graph.content == old(graph.content) || (kind == PutContent && graph.content == Some(BodyOf(reader)))
      ensures kind == PutContent && r.Ok? ==> graph.content == Some(BodyOf(reader))
      ensures r.Ok? && old(InStep()) ==> InStep()
      ensures old(InStep()) ==> authority.strays == old(authority.strays)
    {
      r, talk := Try(kind, reader);
      CallOutcome(talk, r);
    }

    /** do's loop. */
    method Try(kind: Kind, reader: BytesReader?) returns (r: Result<Reply>, ghost talk: Talk)
      modifies this, authority, graph, reader
      ensures graph.replies == old(graph.replies) + talk.replies && graph.requests == old(graph.requests) + talk.requests
      ensures authority.answers == old(authority.answers) + talk.tokens && |talk.tokens| <= MAX_RETRIES + 2
      ensures Conversation(talk.replies) && Concludes(talk, r)
      ensures AllCarry(kind, BodyOf(reader), talk)
      ensures graph.waited == old(graph.waited) + TotalWait(talk.replies)
      ensures old(graph.nextBody) <= Settled(Stop(r), graph.nextBody) <= graph.nextBody
      ensures graph.closes == old(graph.closes) + Bodies(old(graph.nextBody), Settled(Stop(r), graph.nextBody))
      ensures Handed(Stop(r), graph.nextBody)
      ensures graph.content == old(graph.content) || (kind == PutContent && graph.content == Some(BodyOf(reader)))
      ensures kind == PutContent && r.Ok? ==> graph.content == Some(BodyOf(reader))
      ensures r.Ok? && old(InStep()) ==> InStep()
      ensures old(InStep()) ==> authority.strays == old(authority.strays)
    {
      hide TotalWait, Conversation, Bodies, Decide, BodyOf, Concludes;
      ghost var next0 := graph.nextBody;
      talk := Talk([], [], []);
      NoReplies();
      var attempt := 0;
      while attempt <= MAX_RETRIES
        invariant 0 <= attempt == |talk.replies| <= MAX_RETRIES + 1
        invariant graph.replies == old(graph.replies) + talk.replies && graph.requests == old(graph.requests) + talk.requests
        invariant graph.waited == old(graph.waited) + TotalWait(talk.replies)
        invariant GoneOn(talk) && AllCarry(kind, BodyOf(reader), talk)
        invariant authority.answers == old(authority.answers) + talk.tokens && |talk.tokens| <= attempt + if attempt == 0 then 0 else 1
        invariant next0 <= graph.nextBody && graph.closes == old(graph.closes) + Bodies(next0, graph.nextBody)
        invariant graph.content == old(graph.content) || (kind == PutContent && graph.content == Some(BodyOf(reader)))
        invariant old(InStep()) ==> InStep() && authority.strays == old(authority.strays)
        decreases MAX_RETRIES + 1 - attempt
      {
        var turn;
        ghost var events, before, mid := Refused(TokenLost), talk, graph.nextBody;
        turn, events := Attempt(kind, reader, attempt);
        BodiesJoin(next0, mid, Settled(turn, graph.nextBody));
        AddTurn(before, kind, BodyOf(reader), events, turn);
        talk := Both(before, TalkOf(events));
        if turn.Stop? {
          return turn.result, talk;
        }
        attempt := attempt + 1;
      }
      LastAttemptEnds(talk);
      assert false;
    }
  }

  /** A successful result is the last response received, with a status below
      400, its body still open. */
  predicate Handed(turn: Turn, next: nat) {
    turn.Stop? && turn.result.Ok? ==>
      var reply := turn.result.value;
      reply.Response? && reply.status < 400 && next > 0 && reply.body == next - 1
  }

  /** The bodies below this number are closed. */
  function Settled(turn: Turn, next: nat): nat {
    if turn.Stop? && turn.result.Ok? && next > 0 then next - 1 else next
  }

  datatype Turn = GoOn | Stop(result: Result<Reply>)

  /** What one turn saw: the authority refusing a token before anything was sent,
      or a request, its reply, and what the authority answered before and after. */
  datatype Events =
    | Refused(answer: TokenReply)
    | Replied(minted: seq<TokenReply>, token: string, request: Request, reply: Reply, refreshed: seq<TokenReply>)

  function TalkOf(e: Events): Talk {
    match e
    case Refused(t) => Talk([], [], [t])
    case Replied(minted, _, request, reply, refreshed) => Talk([request], [reply], minted + refreshed)
  }

  function WaitIn(attempt: nat, e: Events): nat {
    match e
    case Refused(_) => 0
    case Replied(_, _, _, reply, _) => WaitOf(Decide(attempt, reply))
  }

  /** The turn's events, and that it did what they called for. */
  ghost predicate Happens(kind: Kind, body: Bytes, attempt: nat, e: Events, turn: Turn) {
    match e
    case Refused(t) => turn.Stop? && turn.result.Err? && RefreshResult(t) == Err(turn.result.error)
    case Replied(minted, token, request, reply, refreshed) =>
      && |minted| <= 1 && AllGranted(minted) && |refreshed| <= (if attempt == 0 then 1 else 0)
      && token != "" && request == Request(kind, token, body)
      && Reacts(Decide(attempt, reply), reply, refreshed, turn)
  }

  /** A turn does what was decided; re-authorising asks the authority once, and
      can fail with its answer. */
  predicate Reacts(a: Action, reply: Reply, tokens: seq<TokenReply>, turn: Turn) {
    match a
    case Done => tokens == [] && turn == Stop(Ok(reply))
    case Again(_) => tokens == [] && turn == GoOn
    case Reauthorise => |tokens| == 1 &&
      turn == (match RefreshResult(tokens[0]) case Ok(_) => GoOn case Err(e) => Stop(Err(e)))
    case Fail(e) => tokens == [] && turn == Stop(Err(e))
  }

  /** The requests of one call, the replies to them, and what the authority
      answered meanwhile. */
  datatype Talk = Talk(requests: seq<Request>, replies: seq<Reply>, tokens: seq<TokenReply>)

  function Both(a: Talk, b: Talk): Talk {
    Talk(a.requests + b.requests, a.replies + b.replies, a.tokens + b.tokens)
  }

  function BodyOf(reader: BytesReader?): Bytes {
    if reader == null then [] else reader.data
  }

  predicate AllGranted(tokens: seq<TokenReply>) {
    forall t <- tokens :: RefreshResult(t).Ok?
  }

  ghost predicate GoneOn(talk: Talk) {
    AllGranted(talk.tokens) && forall i :: 0 <= i < |talk.replies| ==> GoesOn(Decide(i, talk.replies[i]))
  }

  /** One request per reply, each with a token and the whole body. */
  ghost predicate AllCarry(kind: Kind, body: Bytes, talk: Talk) {
    && |talk.requests| == |talk.replies|
    && forall q <- talk.requests :: q.kind == kind && q.token != "" && q.body == body
  }

  /** How a call ends: with the response its last reply was, with the error its
      last reply called for, or with the authority's last answer, which refused
      a token; every answer before was granted. */
  ghost predicate Concludes(talk: Talk, r: Result<Reply>) {
    var n, m := |talk.replies|, |talk.tokens|;
    match r
    case Ok(reply) => n > 0 && reply == talk.replies[n - 1] && Decide(n - 1, reply) == Done && AllGranted(talk.tokens)
    case Err(e) =>
      if n > 0 && Decide(n - 1, talk.replies[n - 1]).Fail?
      then Decide(n - 1, talk.replies[n - 1]) == Fail(e) && AllGranted(talk.tokens)
      else (n > 0 ==> GoesOn(Decide(n - 1, talk.replies[n - 1])))
           && m > 0 && RefreshResult(talk.tokens[m - 1]) == Err(e) && AllGranted(talk.tokens[..m - 1])
  }

  /** The response bodies numbered from `from` up to `to`, each once. */
  ghost function Bodies(from: nat, to: nat): (m: multiset<nat>)
    ensures forall id: nat :: m[id] == if from <= id < to then 1 else 0
  {
    if to <= from then multiset{} else Bodies(from, to - 1) + multiset{(to - 1) as nat}
  }

  // ------------------------------------------------------ laws of the loop

  lemma NoReplies()
    ensures TotalWait([]) == 0 && GoneOn(Talk([], [], []))
  {
  }

  lemma GrantedTogether(a: seq<TokenReply>, b: seq<TokenReply>)
    requires AllGranted(a) && AllGranted(b)
    ensures AllGranted(a + b)
  {
  }

  /** A call ends for want of a token, whatever it went on from. */
  lemma EndsWithToken(before: Talk, t: TokenReply, e: Error)
    requires |before.replies| <= MAX_RETRIES && GoneOn(before) && RefreshResult(t) == Err(e)
    ensures Conversation(before.replies) && Concludes(before.(tokens := before.tokens + [t]), Err(e))
  {
    assert (before.tokens + [t])[..|before.tokens|] == before.tokens;
  }

  /** What one more turn makes of the call. */
  lemma AddTurn(before: Talk, kind: Kind, body: Bytes, e: Events, turn: Turn)
    requires |before.replies| <= MAX_RETRIES && GoneOn(before) && AllCarry(kind, body, before)
    requires Happens(kind, body, |before.replies|, e, turn)
    ensures AllCarry(kind, body, Both(before, TalkOf(e)))
    ensures TotalWait(Both(before, TalkOf(e)).replies) == TotalWait(before.replies) + WaitIn(|before.replies|, e)
    ensures turn == GoOn ==> e.Replied? && GoneOn(Both(before, TalkOf(e)))
    ensures turn.Stop? ==> Conversation(Both(before, TalkOf(e)).replies) && Concludes(Both(before, TalkOf(e)), turn.result)
    ensures |TalkOf(e).tokens| <= if |before.replies| == 0 then 2 else 1
  {
    hide AllGranted, RefreshResult, Decide;
    if e.Refused? {
      EndsWithToken(before, e.answer, turn.result.error);
      assert Both(before, TalkOf(e)) == before.(tokens := before.tokens + [e.answer]);
    } else {
      CarriesOneMore(before, kind, body, e);
      WaitsOneMore(before.replies, e.reply);
      hide TotalWait, AllCarry;
      AddReply(before, e, turn);
    }
  }

  lemma AddReply(before: Talk, e: Events, turn: Turn)
    requires |before.replies| <= MAX_RETRIES && GoneOn(before) && e.Replied? && AllGranted(e.minted)
    requires Reacts(Decide(|before.replies|, e.reply), e.reply, e.refreshed, turn)
    ensures turn == GoOn ==> GoneOn(Both(before, TalkOf(e)))
    ensures turn.Stop? ==> Conversation(Both(before, TalkOf(e)).replies) && Concludes(Both(before, TalkOf(e)), turn.result)
  {
    hide AllGranted, RefreshResult, Decide;
    EndsWithReplyTokens(before, e.reply, e.minted, e.refreshed, turn);
    GoesOnOneMore(before.replies, e.reply);
    SuccessIsDone(|before.replies|, e.reply);
  }

  lemma CarriesOneMore(t: Talk, kind: Kind, body: Bytes, e: Events)
    requires AllCarry(kind, body, t) && e.Replied? && e.token != "" && e.request == Request(kind, e.token, body)
    ensures AllCarry(kind, body, Both(t, TalkOf(e)))
  {
  }

  lemma WaitsOneMore(replies: seq<Reply>, reply: Reply)
    ensures TotalWait(replies + [reply]) == TotalWait(replies) + WaitOf(Decide(|replies|, reply))
  {
    assert (replies + [reply])[..|replies|] == replies;
  }

  lemma GoesOnOneMore(replies: seq<Reply>, reply: Reply)
    requires forall i :: 0 <= i < |replies| ==> GoesOn(Decide(i, replies[i]))
    ensures forall i :: 0 <= i < |replies| ==> GoesOn(Decide(i, (replies + [reply])[i]))
    ensures (replies + [reply])[|replies|] == reply
  {
    forall i | 0 <= i < |replies|
      ensures GoesOn(Decide(i, (replies + [reply])[i]))
    {
      assert (replies + [reply])[i] == replies[i];
    }
  }

  lemma SuccessIsDone(attempt: nat, reply: Reply)
    ensures Decide(attempt, reply) == Done <==> reply.Response? && reply.status < 400
  {
  }

  lemma EndsWithReplyTokens(t: Talk, reply: Reply, minted: seq<TokenReply>, refreshed: seq<TokenReply>, turn: Turn)
    requires AllGranted(t.tokens) && AllGranted(minted)
    requires Reacts(Decide(|t.replies|, reply), reply, refreshed, turn)
    ensures var all := t.tokens + (minted + refreshed);
      if turn.Stop? && Decide(|t.replies|, reply).Reauthorise?
      then turn.result.Err? && RefreshResult(all[|all| - 1]) == Err(turn.result.error) && AllGranted(all[..|all| - 1])
      else AllGranted(all)
  {
    hide Decide, AllGranted, RefreshResult;
    GrantedTogether(t.tokens, minted);
    var all := t.tokens + (minted + refreshed);
    if refreshed == [] {
      assert all == t.tokens + minted;
    } else {
      assert all == (t.tokens + minted) + refreshed;
      assert all[..|all| - 1] == t.tokens + minted;
      if RefreshResult(refreshed[0]).Ok? {
        GrantedOne(refreshed[0]);
        assert refreshed == [refreshed[0]];
        GrantedTogether(t.tokens + minted, refreshed);
      }
    }
  }

  lemma GrantedOne(t: TokenReply)
    requires RefreshResult(t).Ok?
    ensures AllGranted([t])
  {
  }

  lemma NothingToClose(next: nat, e: Error)
    ensures Settled(Stop(Err(e)), next) == next && Bodies(next, next) == multiset{}
  {
  }

  /** A reply's body is closed unless it is handed over. */
  lemma OneToClose(next0: nat, next: nat, a: Action, reply: Reply, tokens: seq<TokenReply>, turn: Turn)
    requires Reacts(a, reply, tokens, turn) && (a == Done ==> reply.Response? && reply.status < 400)
    requires if reply.Response? then reply.body == next0 && next == next0 + 1 else next == next0
    ensures next0 <= Settled(turn, next) <= next && Handed(turn, next)
    ensures Bodies(next0, Settled(turn, next)) == if reply.Response? && a != Done then multiset{reply.body} else multiset{}
  {
    assert Bodies(next0, next0) == multiset{};
  }

  lemma BodiesJoin(a: nat, b: nat, c: nat)
    requires a <= b <= c
    ensures Bodies(a, c) == Bodies(a, b) + Bodies(b, c)
  {
  }

  /** Over every sequence of replies: at most four requests, at most one
      re-authorisation, and it on the first reply; at most six minutes of
      waiting, and at most 3.5 s when no Retry-After is honoured. */
  lemma ConversationBounds(replies: seq<Reply>)
    requires Conversation(replies)
    ensures |replies| <= 4
    ensures forall i :: 0 < i < |replies| ==> !Decide(i, replies[i]).Reauthorise?
    ensures TotalWait(replies) <= 360 * 1000
    ensures (forall q <- replies :: q.Response? ==> !Honoured(q.retryAfter)) ==> TotalWait(replies) <= 3500
  {
    WaitBounds(replies);
  }

  /** The most the first `n` turns can wait without a Retry-After. */
  function BackoffSum(n: nat): nat {
    if n == 0 then 0 else BackoffSum(n - 1) + if n <= MAX_RETRIES then BackoffDuration(n - 1) else 0
  }

  lemma {:induction false} WaitBounds(replies: seq<Reply>)
    requires |replies| <= 4
    ensures TotalWait(replies) <= 120000 * (if |replies| <= 3 then |replies| else 3)
    ensures (forall q <- replies :: q.Response? ==> !Honoured(q.retryAfter)) ==> TotalWait(replies) <= BackoffSum(|replies|)
    ensures BackoffSum(|replies|) <= 3500
    decreases |replies|
  {
    assert Pow2(0) == 1 && Pow2(1) == 2 && Pow2(2) == 4;
    assert BackoffSum(1) == 500 && BackoffSum(2) == 1500 && BackoffSum(3) == 3500 && BackoffSum(4) == 3500;
    if replies != [] {
      var init := replies[..|replies| - 1];
      WaitBounds(init);
      assert forall q :: q in init ==> q in replies;
    }
  }

  /** Waits grow as 0.5, 1, 2, 4 s and then stay at 5 s. */
  lemma {:induction false} BackoffShape(attempt: nat)
    ensures 500 <= BackoffDuration(attempt) <= 5000
    ensures attempt >= 4 ==> BackoffDuration(attempt) == 5000
    ensures BackoffDuration(attempt) <= BackoffDuration(attempt + 1)
    decreases attempt
  {
    if attempt > 0 {
      BackoffShape(attempt - 1);
    }
  }

  /** No reply to the last attempt is gone on after: the loop never runs out. */
  lemma LastAttemptEnds(talk: Talk)
    requires |talk.replies| == MAX_RETRIES + 1
    ensures !GoneOn(talk)
  {
    assert !GoesOn(Decide(MAX_RETRIES, talk.replies[MAX_RETRIES]));
  }

  /** What refresh must make of the authority's answer. */
  function RefreshResult(reply: TokenReply): Result<()> {
    match reply
    case TokenLost => Err(TokenNetwork)
    case TokenStatus(status, invalidGrant) =>
      if 400 <= status < 500 && invalidGrant then Err(ReauthRequired) else Err(TokenRefused(status))
    case TokenUnreadable => Err(TokenGarbled)
    case Tokens(access, _, _) => if access == "" then Err(TokenEmpty) else Ok(())
  }

  // ------------------------------------------------------ the loop in numbers

  /** What a call comes to, told from its replies alone. Every reply but the last
      is a lost one, a 401 in first place, or one of the four statuses that are
      retried. A status below 400 is the result. Any other reply is the error that
      its status stands for, unless it is one to go on after: then what ended the
      call is the authority's last answer. */
  lemma CallOutcome(talk: Talk, r: Result<Reply>)
    requires Conversation(talk.replies) && Concludes(talk, r)
    ensures |talk.replies| <= 4
    ensures forall i :: 0 <= i < |talk.replies| - 1 ==>
      var q := talk.replies[i];
      q.NetError? || (q.status == 401 && i == 0) || q.status in {429, 502, 503, 504}
    ensures var n := |talk.replies|;
      n > 0 ==>
        var q := talk.replies[n - 1];
        && (q.NetError? && n == 4 ==> r == Err(Network))
        && (q.Response? && q.status < 400 ==> r == Ok(q))
        && (q.Response? && q.status >= 400 && !(q.status == 401 && n == 1) && !(q.status in {429, 502, 503, 504} && n < 4)
            ==> r == Err(match q.status case 404 => NotFound case 403 => PermissionDenied case 409 => Exists case s => Http(s)))
    ensures var n := |talk.replies|;
      (n == 0 || (n < 4 && (talk.replies[n - 1].NetError? || talk.replies[n - 1].status in {429, 502, 503, 504}))
       || (n == 1 && talk.replies[0].status == 401))
      <==> r.Err? && FromAuthority(r.error)
    ensures r.Err? && FromAuthority(r.error) ==>
      talk.tokens != [] && match talk.tokens[|talk.tokens| - 1]
        case TokenLost => r.error == TokenNetwork
        case TokenStatus(status, grant) =>
          r.error == if 400 <= status < 500 && grant then ReauthRequired else TokenRefused(status)
        case TokenUnreadable => r.error == TokenGarbled
        case Tokens(access, _, _) => access == "" && r.error == TokenEmpty
    ensures forall i :: 0 <= i < |talk.tokens| && !(r.Err? && FromAuthority(r.error) && i == |talk.tokens| - 1) ==>
      talk.tokens[i].Tokens? && talk.tokens[i].access != ""
  {
    if AllGranted(talk.tokens) {
      GrantedEach(talk.tokens);
    } else {
      GrantedEach(talk.tokens[..|talk.tokens| - 1]);
    }
  }

  lemma GrantedEach(tokens: seq<TokenReply>)
    requires AllGranted(tokens)
    ensures forall i :: 0 <= i < |tokens| ==> tokens[i].Tokens? && tokens[i].access != ""
  {
    forall i | 0 <= i < |tokens|
      ensures tokens[i].Tokens? && tokens[i].access != ""
    {
      assert tokens[i] in tokens;
    }
  }

  predicate FromAuthority(e: Error) {
    e.TokenNetwork? || e.ReauthRequired? || e.TokenRefused? || e.TokenGarbled? || e.TokenEmpty?
  }

  /** The wait after a call's reply number `i`: the header's seconds if they are
      from 1 to 120, and otherwise half a second, one second, two seconds; none
      after the fourth reply or a status that is not retried. */
  function WaitAfter(i: nat, q: Reply): nat {
    if i > 2 || (q.Response? && q.status !in {429, 502, 503, 504}) then 0
    else if q.Response? && q.retryAfter.Some? && 1 <= q.retryAfter.value <= 120 then 1000 * q.retryAfter.value
    else [500, 1000, 2000][i]
  }

  lemma {:induction false} WaitsInNumbers(replies: seq<Reply>)
    requires |replies| <= 4
    ensures TotalWait(replies) == SumWaits(replies)
    decreases |replies|
  {
    assert Pow2(0) == 1 && Pow2(1) == 2 && Pow2(2) == 4;
    if replies != [] {
      WaitsInNumbers(replies[..|replies| - 1]);
    }
  }

  function SumWaits(replies: seq<Reply>): nat {
    if replies == [] then 0 else SumWaits(replies[..|replies| - 1]) + WaitAfter(|replies| - 1, replies[|replies| - 1])
  }

  // ------------------------------------------------------- runs of refreshes

  /** What the authority may do when a refresh token is presented: grant tokens
      for the current one only, and replace it. An answer that arrives whole tells
      the new one; any other may hide a replacement. */
  predicate Grants(current: string, presented: string, reply: TokenReply, current': string) {
    && (reply.Tokens? ==> presented == current && (reply.refresh == "" || reply.refresh == current'))
    && (reply.TokenStatus? ==> reply.status != 200)
    && (current' != current ==>
          presented == current && current' != "" && (reply.Tokens? ==> reply.refresh == current'))
  }

  /** The refresh token held after an answer. */
  function Held(held: string, reply: TokenReply): string {
    if RefreshResult(reply).Ok? && reply.refresh != "" then reply.refresh else held
  }

  /** Refreshes one after another: the token held and the current one before
      each, and the answers. */
  ghost predicate IsTokenRun(held: seq<string>, current: seq<string>, replies: seq<TokenReply>) {
    && |held| == |current| == |replies| + 1
    && forall i :: 0 <= i < |replies| ==>
         Grants(current[i], held[i], replies[i], current[i + 1]) && held[i + 1] == Held(held[i], replies[i])
  }

  /** The authority rotated in an answer the driver could not use. */
  predicate Wasted(current: seq<string>, replies: seq<TokenReply>, i: nat)
    requires i < |replies| < |current|
  {
    current[i + 1] != current[i] && RefreshResult(replies[i]).Err?
  }

  /** Both kinds of run there are: a rotation whose answer arrives is followed, and
      one whose answer is lost leaves the driver with a token that is worth nothing. */
  lemma RunsThereAre(a: string, b: string, access: string)
    requires a != b && b != "" && access != ""
    ensures IsTokenRun([a, b], [a, b], [Tokens(access, b, 3600)]) && !Wasted([a, b], [Tokens(access, b, 3600)], 0)
    ensures IsTokenRun([a, a], [a, b], [TokenLost]) && Wasted([a, b], [TokenLost], 0)
  {
  }

  lemma StepKeepsStep(held: string, current: string, reply: TokenReply, current': string)
    requires Grants(current, held, reply, current')
    ensures held == current ==> (Held(held, reply) == current' <==> !(current' != current && RefreshResult(reply).Err?))
    ensures held != current ==> current' == current && Held(held, reply) == held && RefreshResult(reply).Err?
  {
  }

  /** Along any run that starts in step, a refresh presents the current token
      exactly as long as no rotation was wasted before it; after one, no refresh
      succeeds again. */
  lemma {:induction false} RunInStep(held: seq<string>, current: seq<string>, replies: seq<TokenReply>, n: nat)
    requires IsTokenRun(held, current, replies) && held[0] == current[0] && n < |held|
    ensures held[n] == current[n] <==> forall i :: 0 <= i < n ==> !Wasted(current, replies, i)
    ensures held[n] != current[n] && n < |replies| ==> RefreshResult(replies[n]).Err?
    ensures held[n] != current[n] && n < |replies| ==> !replies[n].Tokens?
    ensures held[n] == current[n] && n < |replies| && replies[n].Tokens? && replies[n].access != "" ==>
      held[n + 1] == current[n + 1] && (replies[n].refresh != "" ==> held[n + 1] == replies[n].refresh)
    decreases n
  {
    if n > 0 {
      RunInStep(held, current, replies, n - 1);
      StepKeepsStep(held[n - 1], current[n - 1], replies[n - 1], current[n]);
      if held[n - 1] == current[n - 1] && Wasted(current, replies, n - 1) {
        assert held[n] != current[n];
      }
    }
    if n < |replies| {
      StepKeepsStep(held[n], current[n], replies[n], current[n + 1]);
    }
  }
}
