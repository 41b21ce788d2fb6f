/** The per-mount counters of a transport under concurrency: any number of HTTP
    round trips and connection calls count while any number of snapshots read.
    Every atomic increment and every atomic load is one step; a run is a list of
    steps. The counters are unbounded here. */
module Transport {

  datatype Counter = BytesRead | BytesWritten | OpsRead | OpsWritten

  datatype Counters = Counters(bytesRead: nat, bytesWritten: nat, opsRead: nat, opsWritten: nat) {
    function Get(k: Counter): nat {
      match k
      case BytesRead => bytesRead
      case BytesWritten => bytesWritten
      case OpsRead => opsRead
      case OpsWritten => opsWritten
    }

    function Add(k: Counter, n: nat): Counters {
      match k
      case BytesRead => this.(bytesRead := bytesRead + n)
      case BytesWritten => this.(bytesWritten := bytesWritten + n)
      case OpsRead => this.(opsRead := opsRead + n)
      case OpsWritten => this.(opsWritten := opsWritten + n)
    }

    function Plus(o: Counters): Counters {
      Counters(bytesRead + o.bytesRead, bytesWritten + o.bytesWritten,
               opsRead + o.opsRead, opsWritten + o.opsWritten)
    }

    /** No counter is above the other's. */
    predicate AtMost(o: Counters) {
      && bytesRead <= o.bytesRead && bytesWritten <= o.bytesWritten
      && opsRead <= o.opsRead && opsWritten <= o.opsWritten
    }
  }

  const ZERO := Counters(0, 0, 0, 0)

  // ------------------------------------------------------------- who counts

  /** A counted body: the bytes that have streamed through it, and those among
      them that the Read under way has returned but not added yet. */
  datatype Streamed = Streamed(moved: nat, pending: nat)
  type Body = b: Streamed | b.pending <= b.moved witness Streamed(0, 0)

  /** How far a RoundTrip has come: entered with its request body wrapped,
      counted and handed to the base transport, answered or failed by it, and
      returned with its response counted and wrapped. */
  datatype Trip = Entered | Sent | Answered | Failed | Returned

  /** How far a Read or Write of a counted connection has come. */
  datatype Call = Calling | Moved(n: nat) | Added(n: nat) | Done(n: nat)

  datatype Job =
    | RoundTrip(at: Trip, request: Body, response: Body)
    | ConnCall(write: bool, stage: Call)

  const NO_BODY: Body := Streamed(0, 0)

  /** What a job has added to the counters so far. */
  function Share(t: Job): Counters {
    match t
    case RoundTrip(at, up, down) =>
      Counters(down.moved - down.pending, up.moved - up.pending,
               if at.Returned? then 1 else 0, if at.Entered? then 0 else 1)
    case ConnCall(write, c) =>
      var bytes := if c.Added? || c.Done? then c.n else 0;
      var ops := if c.Done? then 1 else 0;
      if write then Counters(0, bytes, 0, ops) else Counters(bytes, 0, ops, 0)
  }

  function Total(ts: seq<Job>): Counters {
    if ts == [] then ZERO else Share(ts[0]).Plus(Total(ts[1..]))
  }

  // ------------------------------------------------------------------ steps

  /** The steps of one job. */
  datatype Move =
    | CountRequest
    | BaseFails
    | BaseAnswers
    | CountResponse
    | ReadRequest(n: nat)    // a Read of the request body returns n bytes
    | AddRequest             // ... and adds them
    | ReadResponse(n: nat)
    | AddResponse
    | ConnMoves(n: nat)      // the connection's own Read or Write returns
    | ConnAdds               // its bytes are added, if any
    | ConnCounts             // and the call is counted

  predicate Allowed(t: Job, m: Move) {
    match m
    case CountRequest => t.RoundTrip? && t.at.Entered?
    case BaseFails => t.RoundTrip? && t.at.Sent?
    case BaseAnswers => t.RoundTrip? && t.at.Sent?
    case CountResponse => t.RoundTrip? && t.at.Answered?
    case ReadRequest(_) => t.RoundTrip? && !t.at.Entered? && t.request.pending == 0
    case AddRequest => t.RoundTrip? && t.request.pending > 0
    case ReadResponse(_) => t.RoundTrip? && t.at.Returned? && t.response.pending == 0
    case AddResponse => t.RoundTrip? && t.response.pending > 0
    case ConnMoves(_) => t.ConnCall? && t.stage.Calling?
    case ConnAdds => t.ConnCall? && t.stage.Moved?
    case ConnCounts => t.ConnCall? && t.stage.Added?
  }

  /** Where a step takes its job. */
  function Goes(t: Job, m: Move): Job
    requires Allowed(t, m)
  {
    match m
    case CountRequest => t.(at := Sent)
    case BaseFails => t.(at := Failed)
    case BaseAnswers => t.(at := Answered)
    case CountResponse => t.(at := Returned)
    case ReadRequest(n) => t.(request := Streamed(t.request.moved + n, n))
    case AddRequest => t.(request := Streamed(t.request.moved, 0))
    case ReadResponse(n) => t.(response := Streamed(t.response.moved + n, n))
    case AddResponse => t.(response := Streamed(t.response.moved, 0))
    case ConnMoves(n) => t.(stage := Moved(n))
    case ConnAdds => t.(stage := Added(t.stage.n))
    case ConnCounts => t.(stage := Done(t.stage.n))
  }

  /** The one atomic increment a step makes, if it makes one. */
  function Counts(c: Counters, t: Job, m: Move): Counters
    requires Allowed(t, m)
  {
    match m
    case CountRequest => c.Add(OpsWritten, 1)
    case CountResponse => c.Add(OpsRead, 1)
    case AddRequest => c.Add(BytesWritten, t.request.pending)
    case AddResponse => c.Add(BytesRead, t.response.pending)
    case ConnAdds => c.Add(if t.write then BytesWritten else BytesRead, t.stage.n)
    case ConnCounts => c.Add(if t.write then OpsWritten else OpsRead, 1)
    case _ => c
  }

  /** A snapshot under way: the counters when it began, and the values it has
      loaded, one for each counter of the load order so far. */
  datatype Snap = Snap(began: Counters, got: seq<nat>)

  datatype State = State(c: Counters, jobs: seq<Job>, snaps: seq<Snap>)

  const INITIAL := State(ZERO, [], [])

  datatype Action =
    | EnterRoundTrip
    | EnterCall(write: bool)
    | Step(i: nat, m: Move)
    | BeginSnapshot
    | Load(j: nat)

  /** The order in which a snapshot loads the counters. */
  type Order = seq<Counter>

  const SOURCE_ORDER: Order := [BytesRead, BytesWritten, OpsRead, OpsWritten]

  predicate Enabled(order: Order, s: State, a: Action) {
    match a
    case EnterRoundTrip => true
    case EnterCall(_) => true
    case Step(i, m) => i < |s.jobs| && Allowed(s.jobs[i], m)
    case BeginSnapshot => true
    case Load(j) => j < |s.snaps| && |s.snaps[j].got| < |order|
  }

  function Next(order: Order, s: State, a: Action): State
    requires Enabled(order, s, a)
  {
    match a
    case EnterRoundTrip => s.(jobs := s.jobs + [RoundTrip(Entered, NO_BODY, NO_BODY)])
    case EnterCall(write) => s.(jobs := s.jobs + [ConnCall(write, Calling)])
    case Step(i, m) => s.(c := Counts(s.c, s.jobs[i], m), jobs := s.jobs[i := Goes(s.jobs[i], m)])
    case BeginSnapshot => s.(snaps := s.snaps + [Snap(s.c, [])])
    case Load(j) =>
      var p := s.snaps[j];
      s.(snaps := s.snaps[j := p.(got := p.got + [s.c.Get(order[|p.got|])])])
  }

  predicate CanRun(order: Order, s: State, acts: seq<Action>)
    decreases |acts|
  {
    acts != [] ==> Enabled(order, s, acts[0]) && CanRun(order, Next(order, s, acts[0]), acts[1..])
  }

  function After(order: Order, s: State, acts: seq<Action>): State
    requires CanRun(order, s, acts)
    decreases |acts|
  {
    if acts == [] then s else After(order, Next(order, s, acts[0]), acts[1..])
  }

  // -------------------------------------------------------------- invariant

  /** The kinds of job: round trips, and the Reads and Writes of connections. */
  datatype Kind = Trips | Reads | Writes

  function KindOf(t: Job): Kind {
    match t
    case RoundTrip(_, _, _) => Trips
    case ConnCall(write, _) => if write then Writes else Reads
  }

  predicate OfKinds(ts: seq<Job>, kinds: set<Kind>) {
    forall i :: 0 <= i < |ts| ==> KindOf(ts[i]) in kinds
  }

  predicate HttpOnly(s: State) {
    OfKinds(s.jobs, {Trips})
  }

  const NO_READS := {Trips, Writes}

  /** What a snapshot has loaded lies between the counters when it began and the
      counters now. */
  predicate Between(order: Order, p: Snap, c: Counters) {
    && p.began.AtMost(c) && |p.got| <= |order|
    && forall k :: 0 <= k < |p.got| ==> p.began.Get(order[k]) <= p.got[k] <= c.Get(order[k])
  }

  /** Whenever it loaded OpsRead and later OpsWritten, it saw no more responses
      than requests. */
  predicate Ordered(order: Order, p: Snap) {
    forall j, k :: 0 <= j < k < |p.got| <= |order| && order[j].OpsRead? && order[k].OpsWritten?
      ==> p.got[j] <= p.got[k]
  }

  predicate Inv(order: Order, s: State) {
    && s.c == Total(s.jobs)
    && (forall j :: 0 <= j < |s.snaps| ==> Between(order, s.snaps[j], s.c))
    && (OfKinds(s.jobs, NO_READS) ==> forall j :: 0 <= j < |s.snaps| ==> Ordered(order, s.snaps[j]))
  }

  /** A step adds to the counters just what it adds to its job's share. */
  lemma {:induction false} TotalStep(ts: seq<Job>, i: nat, m: Move)
    requires i < |ts| && Allowed(ts[i], m)
    ensures Total(ts[i := Goes(ts[i], m)]) == Counts(Total(ts), ts[i], m)
    decreases |ts|
  {
    var t := Goes(ts[i], m);
    hide Goes, Allowed, Share, Counts;
    if i == 0 {
      assert ts[0 := t][1..] == ts[1..];
      ShareStep(ts[0], m, Total(ts[1..]));
    } else {
      assert ts[i := t][1..] == ts[1..][i - 1 := t];
      TotalStep(ts[1..], i - 1, m);
      PlusCounts(Share(ts[0]), Total(ts[1..]), ts[i], m);
    }
  }

  lemma PlusCounts(share: Counters, others: Counters, t: Job, m: Move)
    requires Allowed(t, m)
    ensures share.Plus(Counts(others, t, m)) == Counts(share.Plus(others), t, m)
  {
  }

  lemma ShareStep(t: Job, m: Move, others: Counters)
    requires Allowed(t, m)
    ensures Share(Goes(t, m)).Plus(others) == Counts(Share(t).Plus(others), t, m)
  {
  }

  lemma TotalOne(t: Job)
    requires Share(t) == ZERO
    ensures Total([t]) == ZERO
  {
    hide Share;
    var us := [t];
    assert us[0] == t && us[1..] == [];
  }

  lemma {:induction false} TotalSnoc(ts: seq<Job>, t: Job)
    requires Share(t) == ZERO
    ensures Total(ts + [t]) == Total(ts)
    decreases |ts|
  {
    hide Share, Counters.Plus;
    if ts == [] {
      assert ts + [t] == [t];
      TotalOne(t);
    } else {
      TotalSnoc(ts[1..], t);
      var us := ts + [t];
      assert us[0] == ts[0];
      assert us[1..] == ts[1..] + [t];
    }
  }

  /** Without connection Reads there is a request or a Write for every response. */
  lemma {:induction false} FewerResponses(ts: seq<Job>)
    requires OfKinds(ts, NO_READS)
    ensures Total(ts).opsRead <= Total(ts).opsWritten
    decreases |ts|
  {
    if ts != [] {
      FewerResponses(ts[1..]);
    }
  }

  lemma CountsGrow(c: Counters, t: Job, m: Move)
    requires Allowed(t, m)
    ensures c.AtMost(Counts(c, t, m))
    ensures KindOf(Goes(t, m)) == KindOf(t)
  {
  }

  /** Every step keeps each counter equal to the sum of the jobs' shares, and
      takes nothing back. */
  lemma StepCounts(order: Order, s: State, a: Action)
    requires Enabled(order, s, a) && s.c == Total(s.jobs)
    ensures Next(order, s, a).c == Total(Next(order, s, a).jobs)
    ensures s.c.AtMost(Next(order, s, a).c)
    ensures KindsStay(s.jobs, Next(order, s, a).jobs)
  {
    hide Total, Share, Counts, Goes, Allowed, KindOf;
    var t := Next(order, s, a);
    match a {
      case Step(i, m) =>
        TotalStep(s.jobs, i, m);
        CountsGrow(s.c, s.jobs[i], m);
      case EnterRoundTrip =>
        TotalNew(s.jobs, t.jobs[|s.jobs|]);
      case EnterCall(write) =>
        TotalNew(s.jobs, t.jobs[|s.jobs|]);
      case _ =>
    }
  }

  lemma TotalNew(ts: seq<Job>, t: Job)
    requires t == RoundTrip(Entered, NO_BODY, NO_BODY) || (t.ConnCall? && t.stage.Calling?)
    ensures Total(ts + [t]) == Total(ts)
  {
    TotalSnoc(ts, t);
  }

  /** The jobs there were keep their kinds. */
  predicate KindsStay(ts: seq<Job>, us: seq<Job>) {
    |ts| <= |us| && forall i :: 0 <= i < |ts| ==> KindOf(ts[i]) == KindOf(us[i])
  }

  lemma KindsBefore(ts: seq<Job>, us: seq<Job>, kinds: set<Kind>)
    requires KindsStay(ts, us)
    ensures OfKinds(us, kinds) ==> OfKinds(ts, kinds)
  {
    hide KindOf;
  }

  lemma GetGrows(c: Counters, d: Counters, k: Counter)
    requires c.AtMost(d)
    ensures c.Get(k) <= d.Get(k)
  {
  }

  lemma BetweenGrows(order: Order, p: Snap, c: Counters, d: Counters)
    requires Between(order, p, c) && c.AtMost(d)
    ensures Between(order, p, d)
  {
    forall k | 0 <= k < |p.got|
      ensures p.began.Get(order[k]) <= p.got[k] <= d.Get(order[k])
    {
      GetGrows(c, d, order[k]);
    }
  }

  /** Loading one more counter. */
  lemma LoadOne(order: Order, p: Snap, c: Counters)
    requires Between(order, p, c) && |p.got| < |order|
    ensures Between(order, p.(got := p.got + [c.Get(order[|p.got|])]), c)
    ensures c.opsRead <= c.opsWritten && Ordered(order, p)
        ==> Ordered(order, p.(got := p.got + [c.Get(order[|p.got|])]))
  {
    GetGrows(p.began, c, order[|p.got|]);
    assert forall k :: 0 <= k < |p.got| && order[k].OpsRead? ==> p.got[k] <= c.Get(order[k]) == c.opsRead;
  }

  lemma StepInv(order: Order, s: State, a: Action)
    requires Inv(order, s) && Enabled(order, s, a)
    ensures Inv(order, Next(order, s, a))
  {
    var t := Next(order, s, a);
    StepCounts(order, s, a);
    KindsBefore(s.jobs, t.jobs, NO_READS);
    if OfKinds(s.jobs, NO_READS) {
      FewerResponses(s.jobs);
    }
    hide Total, Share, Counts, Goes, Allowed, KindOf, OfKinds, Counters.Get, Counters.AtMost;
    forall j | 0 <= j < |t.snaps|
      ensures Between(order, t.snaps[j], t.c)
      ensures OfKinds(s.jobs, NO_READS) ==> Ordered(order, t.snaps[j])
    {
      StepOne(order, s, a, j);
    }
  }

  lemma StepOne(order: Order, s: State, a: Action, j: nat)
    requires Enabled(order, s, a) && j < |Next(order, s, a).snaps|
    requires j < |s.snaps| ==> Between(order, s.snaps[j], s.c)
    requires s.c.AtMost(Next(order, s, a).c)
    ensures Between(order, Next(order, s, a).snaps[j], Next(order, s, a).c)
    ensures s.c.opsRead <= s.c.opsWritten && (j < |s.snaps| ==> Ordered(order, s.snaps[j]))
        ==> Ordered(order, Next(order, s, a).snaps[j])
  {
    hide Counts, Goes, Allowed, Between, Ordered, Counters.Get;
    var t := Next(order, s, a);
    if a == Load(j) {
      LoadOne(order, s.snaps[j], s.c);
    } else if j < |s.snaps| {
      BetweenGrows(order, s.snaps[j], s.c, t.c);
    } else {
      JustBegan(order, s.c);
    }
  }

  lemma JustBegan(order: Order, c: Counters)
    ensures Between(order, Snap(c, []), c) && Ordered(order, Snap(c, []))
  {
  }

  lemma {:induction false} RunInv(order: Order, s: State, acts: seq<Action>)
    requires Inv(order, s) && CanRun(order, s, acts)
    ensures Inv(order, After(order, s, acts))
    decreases |acts|
  {
    hide Inv, Next, Enabled;
    if acts != [] {
      StepInv(order, s, acts[0]);
      RunInv(order, Next(order, s, acts[0]), acts[1..]);
    }
  }

  // ----------------------------------------------------------- what it means

  /** Round trips the base transport has and has not answered, by outcome. */
  function InFlight(ts: seq<Job>): nat {
    if ts == [] then 0
    else (if ts[0].RoundTrip? && (ts[0].at.Sent? || ts[0].at.Answered?) then 1 else 0) + InFlight(ts[1..])
  }

  function FailedTrips(ts: seq<Job>): nat {
    if ts == [] then 0
    else (if ts[0].RoundTrip? && ts[0].at.Failed? then 1 else 0) + FailedTrips(ts[1..])
  }

  /** Connection calls in one direction that have been counted. */
  function DoneCalls(ts: seq<Job>, write: bool): nat {
    if ts == [] then 0
    else (if ts[0].ConnCall? && ts[0].write == write && ts[0].stage.Done? then 1 else 0) + DoneCalls(ts[1..], write)
  }

  /** Bytes that have moved in one direction, and those not yet added. */
  function MovedBy(t: Job, write: bool): (nat, nat) {
    match t
    case RoundTrip(_, up, down) => if write then (up.moved, up.pending) else (down.moved, down.pending)
    case ConnCall(w, c) =>
      if w != write || c.Calling? then (0, 0) else (c.n, if c.Moved? then c.n else 0)
  }

  function AllMoved(ts: seq<Job>, write: bool): nat {
    if ts == [] then 0 else MovedBy(ts[0], write).0 + AllMoved(ts[1..], write)
  }

  function Unadded(ts: seq<Job>, write: bool): nat {
    if ts == [] then 0 else MovedBy(ts[0], write).1 + Unadded(ts[1..], write)
  }

  lemma ShareMeans(t: Job)
    ensures Share(t).bytesRead + MovedBy(t, false).1 == MovedBy(t, false).0
    ensures Share(t).bytesWritten + MovedBy(t, true).1 == MovedBy(t, true).0
    ensures Share(t).opsWritten + DoneCalls([t], false)
         == Share(t).opsRead + InFlight([t]) + FailedTrips([t]) + DoneCalls([t], true)
  {
  }

  lemma {:induction false} BytesMean(ts: seq<Job>)
    ensures Total(ts).bytesRead + Unadded(ts, false) == AllMoved(ts, false)
    ensures Total(ts).bytesWritten + Unadded(ts, true) == AllMoved(ts, true)
    decreases |ts|
  {
    hide Share, MovedBy;
    if ts != [] {
      ShareMeans(ts[0]);
      BytesMean(ts[1..]);
    }
  }

  lemma {:induction false} OpsMean(ts: seq<Job>)
    ensures Total(ts).opsWritten + DoneCalls(ts, false)
         == Total(ts).opsRead + InFlight(ts) + FailedTrips(ts) + DoneCalls(ts, true)
    decreases |ts|
  {
    hide Share;
    if ts != [] {
      ShareMeans(ts[0]);
      OpsMean(ts[1..]);
    }
  }

  lemma {:induction false} NoCalls(ts: seq<Job>, write: bool)
    requires OfKinds(ts, {Trips})
    ensures DoneCalls(ts, write) == 0
    decreases |ts|
  {
    if ts != [] {
      NoCalls(ts[1..], write);
    }
  }

  /** After every run: each byte that moved has been counted once, except those a
      Read or Write still has to add; the writes counted and the reads counted
      differ by the requests in flight, those that failed, and the calls of raw
      connections; and so, over HTTP alone, the requests without a counted response
      are exactly those in flight and those that failed. */
  lemma CountersAreExact(order: Order, acts: seq<Action>)
    requires CanRun(order, INITIAL, acts)
    ensures var s := After(order, INITIAL, acts);
      && s.c.bytesRead + Unadded(s.jobs, false) == AllMoved(s.jobs, false)
      && s.c.bytesWritten + Unadded(s.jobs, true) == AllMoved(s.jobs, true)
    ensures var s := After(order, INITIAL, acts);
      s.c.opsWritten + DoneCalls(s.jobs, false)
        == s.c.opsRead + InFlight(s.jobs) + FailedTrips(s.jobs) + DoneCalls(s.jobs, true)
    ensures var s := After(order, INITIAL, acts);
      HttpOnly(s) ==> s.c.opsWritten - s.c.opsRead == InFlight(s.jobs) + FailedTrips(s.jobs)
  {
    RunInv(order, INITIAL, acts);
    var s := After(order, INITIAL, acts);
    BytesMean(s.jobs);
    OpsMean(s.jobs);
    if HttpOnly(s) {
      NoCalls(s.jobs, false);
      NoCalls(s.jobs, true);
    }
  }

  predicate Finished(order: Order, p: Snap) {
    |p.got| == |order|
  }

  /** What every later state keeps: no counter goes back, a snapshot keeps its
      beginning and, once finished, its values, and a new one begins later. */
  predicate Follows(order: Order, s: State, t: State) {
    && s.c.AtMost(t.c) && |s.snaps| <= |t.snaps|
    && (forall i :: 0 <= i < |s.snaps| ==> t.snaps[i].began == s.snaps[i].began)
    && (forall i :: 0 <= i < |s.snaps| && Finished(order, s.snaps[i]) ==> t.snaps[i] == s.snaps[i])
    && (forall i :: |s.snaps| <= i < |t.snaps| ==> s.c.AtMost(t.snaps[i].began))
  }

  lemma StepFollows(order: Order, s: State, a: Action)
    requires s.c == Total(s.jobs) && Enabled(order, s, a)
    ensures Follows(order, s, Next(order, s, a))
  {
    StepCounts(order, s, a);
    hide Total, Counts, Goes, Allowed;
  }

  lemma FollowsOn(order: Order, s: State, t: State, u: State)
    requires Follows(order, s, t) && Follows(order, t, u)
    ensures Follows(order, s, u)
  {
  }

  lemma {:induction false} LaterStates(order: Order, s: State, acts: seq<Action>)
    requires Inv(order, s) && CanRun(order, s, acts)
    ensures Follows(order, s, After(order, s, acts))
    decreases |acts|
  {
    if acts != [] {
      var t := Next(order, s, acts[0]);
      StepInv(order, s, acts[0]);
      StepFollows(order, s, acts[0]);
      hide Inv, Next, Enabled, Follows;
      LaterStates(order, t, acts[1..]);
      FollowsOn(order, s, t, After(order, t, acts[1..]));
    }
  }

  /** Successive snapshots never go back: one begun after another was finished
      has loaded at least as much of every counter, and the earlier one stays as
      it was. */
  lemma SuccessiveSnapshotsGrow(order: Order, first: seq<Action>, later: seq<Action>, i: nat, j: nat)
    requires CanRun(order, INITIAL, first)
    requires CanRun(order, After(order, INITIAL, first), later)
    requires i < |After(order, INITIAL, first).snaps| <= j
    requires j < |After(order, After(order, INITIAL, first), later).snaps|
    requires Finished(order, After(order, INITIAL, first).snaps[i])
    ensures var s := After(order, INITIAL, first);
            var t := After(order, s, later);
      && t.snaps[i] == s.snaps[i]
      && forall k :: 0 <= k < |t.snaps[j].got| <= |order| ==> s.snaps[i].got[k] <= t.snaps[j].got[k]
  {
    var s := After(order, INITIAL, first);
    var t := After(order, s, later);
    RunInv(order, INITIAL, first);
    LaterStates(order, s, later);
    RunInv(order, s, later);
    var p, q := s.snaps[i], t.snaps[j];
    forall k | 0 <= k < |q.got| <= |order|
      ensures p.got[k] <= q.got[k]
    {
      GetGrows(s.c, q.began, order[k]);
    }
  }

  // ------------------------------------------------------------ load orders

  /** A load order names each counter once. */
  predicate IsOrder(order: Order) {
    && |order| == 4
    && BytesRead in order && BytesWritten in order && OpsRead in order && OpsWritten in order
    && forall i, j :: 0 <= i < j < |order| ==> order[i] != order[j]
  }

  function Position(order: Order, k: Counter): (r: nat)
    requires k in order
    ensures r < |order| && order[r] == k
  {
    if order[0] == k then 0 else 1 + Position(order[1..], k)
  }

  /** No finished snapshot shows more reads than writes, in any run of jobs of
      the given kinds. */
  ghost predicate AlwaysBalanced(order: Order, kinds: set<Kind>)
    requires IsOrder(order)
  {
    forall acts: seq<Action> :: CanRun(order, INITIAL, acts) && OfKinds(After(order, INITIAL, acts).jobs, kinds)
      ==> Balanced(order, After(order, INITIAL, acts).snaps)
  }

  predicate Balanced(order: Order, snaps: seq<Snap>)
    requires IsOrder(order)
  {
    forall j :: 0 <= j < |snaps| && Finished(order, snaps[j])
      ==> snaps[j].got[Position(order, OpsRead)] <= snaps[j].got[Position(order, OpsWritten)]
  }

  /** `n` loads by the first snapshot. */
  function Loads(n: nat): seq<Action> {
    if n == 0 then [] else [Load(0)] + Loads(n - 1)
  }

  /** Loading `n` counters with nothing in between. */
  lemma {:induction false} LoadMany(order: Order, s: State, n: nat)
    requires |s.snaps| == 1 && |s.snaps[0].got| + n <= |order|
    ensures CanRun(order, s, Loads(n))
    ensures var t := After(order, s, Loads(n));
      && t.c == s.c && t.jobs == s.jobs && |t.snaps| == 1
      && |t.snaps[0].got| == |s.snaps[0].got| + n && s.snaps[0].got <= t.snaps[0].got
      && forall k :: |s.snaps[0].got| <= k < |s.snaps[0].got| + n ==> t.snaps[0].got[k] == s.c.Get(order[k])
    decreases n
  {
    if n > 0 {
      var m := Next(order, s, Load(0));
      assert Loads(n)[0] == Load(0) && Loads(n)[1..] == Loads(n - 1);
      LoadMany(order, m, n - 1);
    }
  }

  lemma {:induction false} RunAppend(order: Order, s: State, a: seq<Action>, b: seq<Action>)
    requires CanRun(order, s, a) && CanRun(order, After(order, s, a), b)
    ensures CanRun(order, s, a + b) && After(order, s, a + b) == After(order, After(order, s, a), b)
    decreases |a|
  {
    hide Next, Enabled;
    if a == [] {
      assert a + b == b;
    } else {
      assert (a + b)[0] == a[0] && (a + b)[1..] == a[1..] + b;
      RunAppend(order, Next(order, s, a[0]), a[1..], b);
    }
  }

  const EXCHANGE: seq<Move> := [CountRequest, BaseAnswers, CountResponse]

  /** Steps of the one job `i`. */
  function Steps(i: nat, moves: seq<Move>): seq<Action> {
    seq(|moves|, k requires 0 <= k < |moves| => Step(i, moves[k]))
  }

  lemma OneStep(order: Order, s: State, i: nat, moves: seq<Move>)
    requires moves != [] && i < |s.jobs| && Allowed(s.jobs[i], moves[0])
    requires CanRun(order, Next(order, s, Step(i, moves[0])), Steps(i, moves[1..]))
    ensures CanRun(order, s, Steps(i, moves))
    ensures After(order, s, Steps(i, moves))
         == After(order, Next(order, s, Step(i, moves[0])), Steps(i, moves[1..]))
  {
    assert Steps(i, moves)[1..] == Steps(i, moves[1..]);
  }

  /** A round trip that is answered. */
  lemma Exchange(order: Order, s: State)
    requires s.jobs == []
    ensures CanRun(order, s, [EnterRoundTrip] + Steps(0, EXCHANGE))
    ensures After(order, s, [EnterRoundTrip] + Steps(0, EXCHANGE))
         == State(s.c.Add(OpsWritten, 1).Add(OpsRead, 1), [RoundTrip(Returned, NO_BODY, NO_BODY)], s.snaps)
  {
    var s0 := Next(order, s, EnterRoundTrip);
    var s1 := Next(order, s0, Step(0, CountRequest));
    var s2 := Next(order, s1, Step(0, BaseAnswers));
    var s3 := Next(order, s2, Step(0, CountResponse));
    assert EXCHANGE[1..] == [BaseAnswers, CountResponse];
    assert EXCHANGE[1..][1..] == [CountResponse];
    assert EXCHANGE[1..][1..][1..] == [];
    assert Steps(0, []) == [];
    OneStep(order, s2, 0, EXCHANGE[1..][1..]);
    OneStep(order, s1, 0, EXCHANGE[1..]);
    OneStep(order, s0, 0, EXCHANGE);
    assert ([EnterRoundTrip] + Steps(0, EXCHANGE))[1..] == Steps(0, EXCHANGE);
  }

  lemma Begin(order: Order, s: State)
    ensures CanRun(order, s, [BeginSnapshot])
    ensures After(order, s, [BeginSnapshot]) == s.(snaps := s.snaps + [Snap(s.c, [])])
  {
  }

  /** A run in which a request is made and answered between the loads. */
  function Straddling(n: nat, m: nat): seq<Action> {
    [BeginSnapshot] + Loads(n) + ([EnterRoundTrip] + Steps(0, EXCHANGE)) + Loads(m)
  }

  /** A snapshot that has loaded `n` counters goes on after an exchange. */
  lemma LoadsAround(order: Order, s: State, n: nat)
    requires s.c == ZERO && s.jobs == [] && |s.snaps| == 1 && |s.snaps[0].got| == n <= |order|
    ensures CanRun(order, s, [EnterRoundTrip] + Steps(0, EXCHANGE))
    ensures var u := After(order, s, [EnterRoundTrip] + Steps(0, EXCHANGE));
      && CanRun(order, u, Loads(|order| - n))
      && var t := After(order, u, Loads(|order| - n));
      && HttpOnly(t) && t.c == ZERO.Add(OpsWritten, 1).Add(OpsRead, 1) && |t.snaps| == 1 && Finished(order, t.snaps[0])
      && s.snaps[0].got <= t.snaps[0].got
      && forall k :: n <= k < |order| ==> t.snaps[0].got[k] == t.c.Get(order[k])
  {
    hide CanRun, After, Loads, Steps, Counters.Get, Counters.Add;
    Exchange(order, s);
    LoadMany(order, After(order, s, [EnterRoundTrip] + Steps(0, EXCHANGE)), |order| - n);
  }

  /** OpsWritten loaded before the exchange shows none of it, OpsRead loaded
      after it shows the response. */
  lemma Straddle(order: Order, w: nat, r: nat)
    requires w < r < |order| && order[w] == OpsWritten && order[r] == OpsRead
    ensures CanRun(order, INITIAL, Straddling(w + 1, |order| - (w + 1)))
    ensures var t := After(order, INITIAL, Straddling(w + 1, |order| - (w + 1)));
      && HttpOnly(t) && |t.snaps| == 1 && Finished(order, t.snaps[0])
      && t.snaps[0].got[w] == 0 && t.snaps[0].got[r] == 1
  {
    hide CanRun, After, Loads, Steps, Counters.Add, Counters.Get;
    Begin(order, INITIAL);
    var s0 := After(order, INITIAL, [BeginSnapshot]);
    LoadMany(order, s0, w + 1);
    var s1 := After(order, s0, Loads(w + 1));
    LoadsAround(order, s1, w + 1);
    Chain(order, INITIAL, [BeginSnapshot], Loads(w + 1), [EnterRoundTrip] + Steps(0, EXCHANGE),
          Loads(|order| - (w + 1)));
    Shown(ZERO);
  }

  lemma Shown(c: Counters)
    ensures c.Add(OpsWritten, 1).Add(OpsRead, 1).Get(OpsRead) == c.opsRead + 1
    ensures c.Get(OpsWritten) == c.opsWritten
  {
  }

  lemma Chain(order: Order, s: State, a: seq<Action>, b: seq<Action>, c: seq<Action>, d: seq<Action>)
    requires CanRun(order, s, a) && CanRun(order, After(order, s, a), b)
    requires CanRun(order, After(order, After(order, s, a), b), c)
    requires CanRun(order, After(order, After(order, After(order, s, a), b), c), d)
    ensures CanRun(order, s, a + b + c + d)
    ensures After(order, s, a + b + c + d)
         == After(order, After(order, After(order, After(order, s, a), b), c), d)
  {
    hide CanRun, After;
    RunAppend(order, s, a, b);
    RunAppend(order, s, a + b, c);
    RunAppend(order, s, a + b + c, d);
  }

  /** With OpsWritten loaded first, an exchange right after that load shows. */
  lemma WrongOrderShows(order: Order, kinds: set<Kind>)
    requires IsOrder(order) && Position(order, OpsWritten) < Position(order, OpsRead) && Trips in kinds
    ensures !AlwaysBalanced(order, kinds)
  {
    var r, w := Position(order, OpsRead), Position(order, OpsWritten);
    var acts := Straddling(w + 1, |order| - (w + 1));
    hide Straddling, CanRun, After, Position, KindOf;
    Straddle(order, w, r);
    assert OfKinds(After(order, INITIAL, acts).jobs, kinds);
    assert !Balanced(order, After(order, INITIAL, acts).snaps);
  }

  /** One connection Read, after which a snapshot shows it. */
  function ReadSeen(): seq<Action> {
    OneRead() + Loads(4)
  }

  /** The counts of a raw connection do not pair up: whatever the load order, after
      one Read of five bytes a snapshot shows it and no write. */
  lemma CallsDoNotPairUp(order: Order)
    requires |order| == 4
    ensures CanRun(order, INITIAL, ReadSeen())
    ensures var t := After(order, INITIAL, ReadSeen());
      && OfKinds(t.jobs, {Reads}) && |t.snaps| == 1 && Finished(order, t.snaps[0])
      && forall k :: 0 <= k < 4 ==> t.snaps[0].got[k] == Counters(5, 0, 1, 0).Get(order[k])
  {
    hide CanRun, After, Loads, OneRead, OfKinds, Counters.Get;
    var s := ReadDone(order);
    LoadMany(order, s, 4);
    RunAppend(order, INITIAL, OneRead(), Loads(4));
  }

  lemma ReadsShow(order: Order, kinds: set<Kind>)
    requires IsOrder(order) && Reads in kinds
    ensures !AlwaysBalanced(order, kinds)
  {
    var r, w := Position(order, OpsRead), Position(order, OpsWritten);
    CallsDoNotPairUp(order);
    var acts := ReadSeen();
    hide ReadSeen, CanRun, After, Position, KindOf;
    assert OfKinds(After(order, INITIAL, acts).jobs, kinds);
    assert After(order, INITIAL, acts).snaps[0].got[r] == 1 && After(order, INITIAL, acts).snaps[0].got[w] == 0;
    assert !Balanced(order, After(order, INITIAL, acts).snaps);
  }

  /** Writes of connections alone count no reads. */
  lemma {:induction false} WritesOnly(ts: seq<Job>)
    requires OfKinds(ts, {Writes})
    ensures Total(ts).opsRead == 0
    decreases |ts|
  {
    if ts != [] {
      WritesOnly(ts[1..]);
    }
  }

  lemma OtherRunsBalance(order: Order, kinds: set<Kind>, acts: seq<Action>)
    requires IsOrder(order) && Reads !in kinds
    requires Trips in kinds ==> Position(order, OpsRead) < Position(order, OpsWritten)
    requires CanRun(order, INITIAL, acts) && OfKinds(After(order, INITIAL, acts).jobs, kinds)
    ensures Balanced(order, After(order, INITIAL, acts).snaps)
  {
    var t := After(order, INITIAL, acts);
    RunInv(order, INITIAL, acts);
    if Trips in kinds {
      assert OfKinds(t.jobs, NO_READS);
    } else {
      WritesOnly(t.jobs);
    }
  }

  /** What decides whether snapshots can be trusted not to show more reads than
      writes: for every load order and every set of kinds of job, they never do, in
      any run of such jobs, exactly when connection Reads are not among them and,
      round trips being among them, OpsRead is loaded before OpsWritten. */
  lemma KindsDecide(order: Order, kinds: set<Kind>)
    requires IsOrder(order)
    ensures AlwaysBalanced(order, kinds)
        <==> Reads !in kinds && (Trips in kinds ==> Position(order, OpsRead) < Position(order, OpsWritten))
  {
    var r, w := Position(order, OpsRead), Position(order, OpsWritten);
    assert order[r] != order[w];
    if Reads in kinds {
      ReadsShow(order, kinds);
    } else if Trips in kinds && w < r {
      WrongOrderShows(order, kinds);
    } else {
      hide OfKinds, Position;
      forall acts: seq<Action> | CanRun(order, INITIAL, acts) && OfKinds(After(order, INITIAL, acts).jobs, kinds)
        ensures Balanced(order, After(order, INITIAL, acts).snaps)
      {
        OtherRunsBalance(order, kinds, acts);
      }
    }
  }

  /** Over HTTP alone it is the order of the loads that decides. */
  lemma LoadOrderDecides(order: Order)
    requires IsOrder(order)
    ensures AlwaysBalanced(order, {Trips}) <==> Position(order, OpsRead) < Position(order, OpsWritten)
  {
    KindsDecide(order, {Trips});
  }

  /** The order of the source is one of the good ones. */
  lemma SnapshotsAreBalanced(acts: seq<Action>, j: nat)
    requires CanRun(SOURCE_ORDER, INITIAL, acts)
    requires j < |After(SOURCE_ORDER, INITIAL, acts).snaps|
    requires forall t <- After(SOURCE_ORDER, INITIAL, acts).jobs :: t.RoundTrip? || t.write
    requires |After(SOURCE_ORDER, INITIAL, acts).snaps[j].got| == 4
    ensures var got := After(SOURCE_ORDER, INITIAL, acts).snaps[j].got; got[2] <= got[3]
  {
    RunInv(SOURCE_ORDER, INITIAL, acts);
    assert OfKinds(After(SOURCE_ORDER, INITIAL, acts).jobs, NO_READS);
    assert SOURCE_ORDER[2] == OpsRead && SOURCE_ORDER[3] == OpsWritten;
  }

  const FIVE_BYTES: seq<Move> := [ConnMoves(5), ConnAdds, ConnCounts]

  function OneRead(): seq<Action> {
    [EnterCall(false)] + Steps(0, FIVE_BYTES) + [BeginSnapshot]
  }

  lemma ReadDone(order: Order) returns (s: State)
    ensures CanRun(order, INITIAL, OneRead()) && After(order, INITIAL, OneRead()) == s
    ensures s.c == Counters(5, 0, 1, 0) && s.snaps == [Snap(s.c, [])] && OfKinds(s.jobs, {Reads})
  {
    var entered := Next(order, INITIAL, EnterCall(false));
    assert entered == State(ZERO, [ConnCall(false, Calling)], []);
    ReadOnce(order, entered);
    var calls := [EnterCall(false)] + Steps(0, FIVE_BYTES);
    assert calls[1..] == Steps(0, FIVE_BYTES);
    var done := After(order, entered, Steps(0, FIVE_BYTES));
    assert CanRun(order, INITIAL, calls) && After(order, INITIAL, calls) == done;
    Begin(order, done);
    hide After, CanRun, Next, Steps;
    RunAppend(order, INITIAL, calls, [BeginSnapshot]);
    s := After(order, INITIAL, OneRead());
  }

  lemma ReadOnce(order: Order, s: State)
    requires s.jobs == [ConnCall(false, Calling)]
    ensures CanRun(order, s, Steps(0, FIVE_BYTES))
    ensures After(order, s, Steps(0, FIVE_BYTES))
         == State(s.c.Add(BytesRead, 5).Add(OpsRead, 1), [ConnCall(false, Done(5))], s.snaps)
  {
    var s1 := Next(order, s, Step(0, ConnMoves(5)));
    var s2 := Next(order, s1, Step(0, ConnAdds));
    var s3 := Next(order, s2, Step(0, ConnCounts));
    assert FIVE_BYTES[1..] == [ConnAdds, ConnCounts];
    assert FIVE_BYTES[1..][1..] == [ConnCounts];
    assert FIVE_BYTES[1..][1..][1..] == [];
    assert Steps(0, []) == [];
    OneStep(order, s2, 0, FIVE_BYTES[1..][1..]);
    OneStep(order, s1, 0, FIVE_BYTES[1..]);
    OneStep(order, s, 0, FIVE_BYTES);
  }
}
