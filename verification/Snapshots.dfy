/** When a snapshot shows the counters as they stood together at one moment: for
    every load order and every run, exactly when no counter it had still to load
    was raised after one it had loaded. */
module Snapshots {
  import opened Transport

  /** One of the counters at positions `from` up to `to` of the load order goes
      up from `c` to `d`. */
  predicate Raised(order: Order, c: Counters, d: Counters, from: nat, to: nat) {
    exists k :: from <= k < to && k < |order| && c.Get(order[k]) < d.Get(order[k])
  }

  /** Somewhere along the run snapshot `j` is torn: a counter it has still to
      load goes up after one it has loaded did; `stale` says that one has. */
  predicate Torn(order: Order, s: State, acts: seq<Action>, j: nat, stale: bool)
    requires CanRun(order, s, acts)
    decreases |acts|
  {
    acts != [] &&
    var t := Next(order, s, acts[0]);
    if j < |s.snaps| then
      var loaded := |s.snaps[j].got|;
      || (stale && Raised(order, s.c, t.c, loaded, |order|))
      || Torn(order, t, acts[1..], j, stale || Raised(order, s.c, t.c, 0, loaded))
    else Torn(order, t, acts[1..], j, stale)
  }

  /** The values loaded are the ones the counters have. */
  predicate Shows(order: Order, got: seq<nat>, c: Counters) {
    forall k :: 0 <= k < |got| && k < |order| ==> got[k] == c.Get(order[k])
  }

  /** Some state of the run, the first and the last included, has these values. */
  predicate AtSomeMoment(order: Order, s: State, acts: seq<Action>, got: seq<nat>)
    requires CanRun(order, s, acts)
    decreases |acts|
  {
    Shows(order, got, s.c) || (acts != [] && AtSomeMoment(order, Next(order, s, acts[0]), acts[1..], got))
  }

  // ------------------------------------------------------------------- steps

  lemma CountsRaisesOne(c: Counters, t: Job, m: Move, x: Counter, y: Counter)
    requires Allowed(t, m)
    ensures c.Get(x) <= Counts(c, t, m).Get(x)
    ensures c.Get(x) < Counts(c, t, m).Get(x) && c.Get(y) < Counts(c, t, m).Get(y) ==> x == y
  {
  }

  /** A step lowers no counter, raises at most one, and does not load as well. */
  lemma StepRaisesOne(order: Order, s: State, a: Action, x: Counter, y: Counter)
    requires Enabled(order, s, a)
    ensures var d := Next(order, s, a).c;
      && s.c.Get(x) <= d.Get(x)
      && (s.c.Get(x) < d.Get(x) && s.c.Get(y) < d.Get(y) ==> x == y)
      && (s.c.Get(x) < d.Get(x) ==> Next(order, s, a).snaps == s.snaps)
  {
    hide Counters.Get, Counts, Goes, Allowed;
    if a.Step? {
      CountsRaisesOne(s.c, s.jobs[a.i], a.m, x, y);
    }
  }

  /** A step leaves a snapshot as it is, or loads its next counter. */
  lemma StepLoads(order: Order, s: State, a: Action, j: nat)
    requires Enabled(order, s, a) && j < |s.snaps|
    ensures j < |Next(order, s, a).snaps|
    ensures a == Load(j) ==> Next(order, s, a).c == s.c && |s.snaps[j].got| < |order|
    ensures Next(order, s, a).snaps[j].got
         == s.snaps[j].got + if a == Load(j) then [s.c.Get(order[|s.snaps[j].got|])] else []
  {
    hide Counts, Goes, Allowed;
  }

  /** A snapshot that a step begins has loaded nothing. */
  lemma StepBegins(order: Order, s: State, a: Action, j: nat)
    requires Enabled(order, s, a) && |s.snaps| <= j < |Next(order, s, a).snaps|
    ensures Next(order, s, a).snaps[j].got == []
  {
    hide Counts, Goes, Allowed;
  }

  /** What is loaded stays, and what is loaded later is no less than it is now. */
  lemma {:induction false} KeepsLoading(order: Order, s: State, acts: seq<Action>, j: nat)
    requires Inv(order, s) && CanRun(order, s, acts) && j < |s.snaps|
    ensures var u := After(order, s, acts);
      && j < |u.snaps| && s.snaps[j].got <= u.snaps[j].got
      && forall k :: |s.snaps[j].got| <= k < |u.snaps[j].got| && k < |order|
           ==> s.c.Get(order[k]) <= u.snaps[j].got[k]
    decreases |acts|
  {
    hide Counters.Get, Inv, Next, Enabled;
    if acts != [] {
      var t, u := Next(order, s, acts[0]), After(order, s, acts);
      StepInv(order, s, acts[0]);
      StepLoads(order, s, acts[0], j);
      KeepsLoading(order, t, acts[1..], j);
      forall k | |s.snaps[j].got| <= k < |u.snaps[j].got| && k < |order|
        ensures s.c.Get(order[k]) <= u.snaps[j].got[k]
      {
        StepRaisesOne(order, s, acts[0], order[k], order[k]);
        if k < |t.snaps[j].got| {
          assert u.snaps[j].got[k] == t.snaps[j].got[k];
        }
      }
    }
  }

  /** A moment of the run lies between its first and its last state. */
  lemma {:induction false} MomentBetween(order: Order, s: State, acts: seq<Action>, got: seq<nat>, k: nat)
    requires CanRun(order, s, acts) && AtSomeMoment(order, s, acts, got) && k < |got| && k < |order|
    ensures s.c.Get(order[k]) <= got[k] <= After(order, s, acts).c.Get(order[k])
    decreases |acts|
  {
    hide Counters.Get, Next, Enabled;
    NeverDown(order, s, acts, order[k]);
    if acts != [] && !Shows(order, got, s.c) {
      StepRaisesOne(order, s, acts[0], order[k], order[k]);
      MomentBetween(order, Next(order, s, acts[0]), acts[1..], got, k);
    }
  }

  lemma {:induction false} NeverDown(order: Order, s: State, acts: seq<Action>, x: Counter)
    requires CanRun(order, s, acts)
    ensures s.c.Get(x) <= After(order, s, acts).c.Get(x)
    decreases |acts|
  {
    hide Counters.Get, Next, Enabled;
    if acts != [] {
      StepRaisesOne(order, s, acts[0], x, x);
      NeverDown(order, Next(order, s, acts[0]), acts[1..], x);
    }
  }

  lemma {:induction false} AtTheEnd(order: Order, s: State, acts: seq<Action>, got: seq<nat>)
    requires CanRun(order, s, acts) && Shows(order, got, After(order, s, acts).c)
    ensures AtSomeMoment(order, s, acts, got)
    decreases |acts|
  {
    hide Next, Enabled, Shows;
    if acts != [] {
      AtTheEnd(order, Next(order, s, acts[0]), acts[1..], got);
    }
  }

  // ----------------------------------------------------------- the theorem

  /** The run finishes snapshot `j`, with these values. */
  ghost predicate Ends(order: Order, s: State, acts: seq<Action>, j: nat, got: seq<nat>)
    requires CanRun(order, s, acts)
  {
    j < |After(order, s, acts).snaps| && got == After(order, s, acts).snaps[j].got && |got| == |order|
  }

  /** `m` are counters that show what is loaded and, for the rest, stand as now. */
  ghost predicate Candidate(order: Order, s: State, j: nat, m: Counters) {
    && j < |s.snaps| && Shows(order, s.snaps[j].got, m)
    && forall k :: |s.snaps[j].got| <= k < |order| ==> m.Get(order[k]) == s.c.Get(order[k])
  }

  /** While nothing more is raised that is still to load, the candidate stays
      one; once something is, the snapshot will not show the candidate. */
  lemma CandidateStep(order: Order, s: State, acts: seq<Action>, j: nat, got: seq<nat>, m: Counters)
    requires Inv(order, s) && CanRun(order, s, acts) && acts != [] && Ends(order, s, acts, j, got)
    requires Candidate(order, s, j, m)
    ensures if Raised(order, s.c, Next(order, s, acts[0]).c, |s.snaps[j].got|, |order|)
      then !Shows(order, got, m)
      else Candidate(order, Next(order, s, acts[0]), j, m)
  {
    hide Counters.Get, Inv, Next, Enabled;
    var t, n := Next(order, s, acts[0]), |s.snaps[j].got|;
    StepInv(order, s, acts[0]);
    StepLoads(order, s, acts[0], j);
    KeepsLoading(order, t, acts[1..], j);
    if Raised(order, s.c, t.c, n, |order|) {
      var k :| n <= k < |order| && s.c.Get(order[k]) < t.c.Get(order[k]);
      StepRaisesOne(order, s, acts[0], order[k], order[k]);
      assert got[k] >= t.c.Get(order[k]);
    } else {
      forall k | n <= k < |order|
        ensures s.c.Get(order[k]) == t.c.Get(order[k])
      {
        StepRaisesOne(order, s, acts[0], order[k], order[k]);
      }
    }
  }

  /** Once a loaded counter has gone up, the only moment the snapshot can still
      show is the candidate, and it does exactly when it is not torn. */
  lemma {:induction false} StaleSnapshot(order: Order, s: State, acts: seq<Action>, j: nat, got: seq<nat>, m: Counters)
    requires Inv(order, s) && CanRun(order, s, acts) && Ends(order, s, acts, j, got) && Candidate(order, s, j, m)
    ensures Shows(order, got, m) <==> !Torn(order, s, acts, j, true)
    decreases |acts|
  {
    hide Counters.Get, Inv, Next, Enabled;
    if acts != [] {
      var t := Next(order, s, acts[0]);
      StepInv(order, s, acts[0]);
      CandidateStep(order, s, acts, j, got, m);
      if !Raised(order, s.c, t.c, |s.snaps[j].got|, |order|) {
        StaleSnapshot(order, t, acts[1..], j, got, m);
      }
    }
  }

  /** As long as the loaded values are current, the snapshot will show a moment
      still to come exactly when it is not going to be torn. */
  lemma {:induction false} CurrentSnapshot(order: Order, s: State, acts: seq<Action>, j: nat, got: seq<nat>)
    requires IsOrder(order) && Inv(order, s) && CanRun(order, s, acts) && Ends(order, s, acts, j, got)
    requires j < |s.snaps| && Shows(order, s.snaps[j].got, s.c)
    ensures AtSomeMoment(order, s, acts, got) <==> !Torn(order, s, acts, j, false)
    decreases |acts|
  {
    hide Counters.Get, Inv, Next, Enabled, IsOrder;
    if acts != [] {
      var t, n := Next(order, s, acts[0]), |s.snaps[j].got|;
      StepInv(order, s, acts[0]);
      if Raised(order, s.c, t.c, 0, n) {
        GoesStale(order, s, acts, j, got);
      } else {
        StaysCurrent(order, s, acts[0], j);
        CurrentSnapshot(order, t, acts[1..], j, got);
        MomentMovesOn(order, s, acts, j, got);
      }
    }
  }

  /** A loaded counter goes up: the moment just before is the candidate. */
  lemma GoesStale(order: Order, s: State, acts: seq<Action>, j: nat, got: seq<nat>)
    requires IsOrder(order) && Inv(order, s) && CanRun(order, s, acts) && Ends(order, s, acts, j, got)
    requires j < |s.snaps| && Shows(order, s.snaps[j].got, s.c) && acts != []
    requires Raised(order, s.c, Next(order, s, acts[0]).c, 0, |s.snaps[j].got|)
    ensures AtSomeMoment(order, s, acts, got) <==> !Torn(order, s, acts, j, false)
  {
    hide Counters.Get, Inv, Next, Enabled;
    var t, n := Next(order, s, acts[0]), |s.snaps[j].got|;
    var x :| 0 <= x < n && x < |order| && s.c.Get(order[x]) < t.c.Get(order[x]);
    StepInv(order, s, acts[0]);
    StepLoads(order, s, acts[0], j);
    StepRaisesOne(order, s, acts[0], order[x], order[x]);
    forall k | n <= k < |order|
      ensures s.c.Get(order[k]) == t.c.Get(order[k])
    {
      StepRaisesOne(order, s, acts[0], order[k], order[x]);
    }
    KeepsLoading(order, s, acts, j);
    StaleSnapshot(order, t, acts[1..], j, got, s.c);
    if AtSomeMoment(order, t, acts[1..], got) {
      MomentBetween(order, t, acts[1..], got, x);
      assert false;
    }
  }

  lemma StaysCurrent(order: Order, s: State, a: Action, j: nat)
    requires Enabled(order, s, a) && j < |s.snaps| && Shows(order, s.snaps[j].got, s.c)
    requires !Raised(order, s.c, Next(order, s, a).c, 0, |s.snaps[j].got|)
    ensures j < |Next(order, s, a).snaps| && Shows(order, Next(order, s, a).snaps[j].got, Next(order, s, a).c)
  {
    hide Counters.Get, Next, Enabled;
    StepLoads(order, s, a, j);
    forall k | 0 <= k < |s.snaps[j].got| && k < |order|
      ensures s.c.Get(order[k]) == Next(order, s, a).c.Get(order[k])
    {
      StepRaisesOne(order, s, a, order[k], order[k]);
    }
  }

  /** A moment that the snapshot shows can be taken one step later, until a
      loaded counter goes up. */
  lemma MomentMovesOn(order: Order, s: State, acts: seq<Action>, j: nat, got: seq<nat>)
    requires Inv(order, s) && CanRun(order, s, acts) && acts != [] && Ends(order, s, acts, j, got)
    requires j < |s.snaps| ==> !Raised(order, s.c, Next(order, s, acts[0]).c, 0, |s.snaps[j].got|)
    ensures AtSomeMoment(order, s, acts, got) <==> AtSomeMoment(order, Next(order, s, acts[0]), acts[1..], got)
  {
    hide Counters.Get, Inv, Next, Enabled;
    var t := Next(order, s, acts[0]);
    if Shows(order, got, s.c) {
      forall k | 0 <= k < |order|
        ensures got[k] == t.c.Get(order[k])
      {
        StepRaisesOne(order, s, acts[0], order[k], order[k]);
        if s.c.Get(order[k]) < t.c.Get(order[k]) {
          StepInv(order, s, acts[0]);
          LoadedSince(order, t, acts[1..], j, got, k);
        }
      }
      assert Shows(order, got, t.c);
    }
  }

  /** A value loaded after a state, or by a snapshot begun after it, is no less
      than the counter was in it. */
  lemma LoadedSince(order: Order, t: State, acts: seq<Action>, j: nat, got: seq<nat>, k: nat)
    requires Inv(order, t) && CanRun(order, t, acts) && Ends(order, t, acts, j, got) && k < |order|
    requires j < |t.snaps| ==> |t.snaps[j].got| <= k
    ensures t.c.Get(order[k]) <= got[k]
  {
    if j < |t.snaps| {
      hide Inv;
      KeepsLoading(order, t, acts, j);
    } else {
      LaterStates(order, t, acts);
      RunInv(order, t, acts);
      GetGrows(t.c, After(order, t, acts).snaps[j].began, order[k]);
    }
  }

  lemma {:induction false} SnapshotToCome(order: Order, s: State, acts: seq<Action>, j: nat, got: seq<nat>)
    requires IsOrder(order) && Inv(order, s) && CanRun(order, s, acts) && Ends(order, s, acts, j, got)
    requires |s.snaps| <= j
    ensures AtSomeMoment(order, s, acts, got) <==> !Torn(order, s, acts, j, false)
    decreases |acts|
  {
    hide Counters.Get, Inv, Next, Enabled, IsOrder;
    var t := Next(order, s, acts[0]);
    StepInv(order, s, acts[0]);
    MomentMovesOn(order, s, acts, j, got);
    if j < |t.snaps| {
      StepBegins(order, s, acts[0], j);
      CurrentSnapshot(order, t, acts[1..], j, got);
    } else {
      SnapshotToCome(order, t, acts[1..], j, got);
    }
  }

  /** For every load order and every run, a finished snapshot shows the counters
      as they stood at some moment of the run exactly when it was not torn. */
  lemma SnapshotIsAMoment(order: Order, acts: seq<Action>, j: nat)
    requires IsOrder(order) && CanRun(order, INITIAL, acts)
    requires j < |After(order, INITIAL, acts).snaps| && Finished(order, After(order, INITIAL, acts).snaps[j])
    ensures AtSomeMoment(order, INITIAL, acts, After(order, INITIAL, acts).snaps[j].got)
      <==> !Torn(order, INITIAL, acts, j, false)
  {
    SnapshotToCome(order, INITIAL, acts, j, After(order, INITIAL, acts).snaps[j].got);
  }

  /** A snapshot during which no counter moved is not torn, and shows that moment. */
  lemma QuietSnapshotIsExact(order: Order, acts: seq<Action>, j: nat)
    requires IsOrder(order) && CanRun(order, INITIAL, acts)
    requires j < |After(order, INITIAL, acts).snaps| && Finished(order, After(order, INITIAL, acts).snaps[j])
    requires After(order, INITIAL, acts).snaps[j].began == After(order, INITIAL, acts).c
    ensures Shows(order, After(order, INITIAL, acts).snaps[j].got, After(order, INITIAL, acts).c)
    ensures !Torn(order, INITIAL, acts, j, false)
  {
    RunInv(order, INITIAL, acts);
    AtTheEnd(order, INITIAL, acts, After(order, INITIAL, acts).snaps[j].got);
    SnapshotIsAMoment(order, acts, j);
  }

  // ------------------------------------------------ one that is no moment

  const DOWNLOAD: seq<Move> := [ReadResponse(1), AddResponse]

  /** One byte of a response is read and counted. */
  lemma Download(order: Order, s: State)
    requires s.jobs == [RoundTrip(Returned, NO_BODY, NO_BODY)]
    ensures CanRun(order, s, Steps(0, DOWNLOAD))
    ensures var t := After(order, s, Steps(0, DOWNLOAD));
      t.c == s.c.Add(BytesRead, 1) && t.snaps == s.snaps && |t.jobs| == 1 && HttpOnly(t)
  {
    var s1 := Next(order, s, Step(0, ReadResponse(1)));
    assert DOWNLOAD[1..] == [AddResponse];
    assert DOWNLOAD[1..][1..] == [];
    assert Steps(0, []) == [];
    OneStep(order, s1, 0, DOWNLOAD[1..]);
    OneStep(order, s, 0, DOWNLOAD);
  }

  /** Another request goes out. */
  lemma AnotherRequest(order: Order, s: State)
    requires |s.jobs| == 1 && HttpOnly(s)
    ensures CanRun(order, s, [EnterRoundTrip, Step(1, CountRequest)])
    ensures var t := After(order, s, [EnterRoundTrip, Step(1, CountRequest)]);
      t.c == s.c.Add(OpsWritten, 1) && t.snaps == s.snaps && HttpOnly(t)
  {
    var acts := [EnterRoundTrip, Step(1, CountRequest)];
    var s1 := Next(order, s, EnterRoundTrip);
    assert acts[1..] == [Step(1, CountRequest)];
    assert acts[1..][1..] == [];
    assert After(order, s, acts) == Next(order, s1, Step(1, CountRequest));
  }

  /** A response is received in full after the snapshot has loaded BytesRead, and
      a second request is made before it loads the rest. */
  function Before(): seq<Action> {
    [BeginSnapshot] + Loads(1) + ([EnterRoundTrip] + Steps(0, EXCHANGE)) + Steps(0, DOWNLOAD)
  }

  function Afterwards(): seq<Action> {
    [EnterRoundTrip, Step(1, CountRequest)] + Loads(3)
  }

  lemma {:induction false} LoadFirst(order: Order, s: State)
    requires order != [] && order[0] == BytesRead && s.snaps == [Snap(ZERO, [])]
    ensures CanRun(order, s, Loads(1))
    ensures After(order, s, Loads(1)) == s.(snaps := [Snap(ZERO, [s.c.bytesRead])])
  {
    var acts := Loads(1);
    assert acts[0] == Load(0) && acts[1..] == [];
    assert s.snaps[0].got + [s.c.bytesRead] == [s.c.bytesRead];
    assert Next(order, s, Load(0)).snaps == [Snap(ZERO, [s.c.bytesRead])];
    assert After(order, s, acts) == Next(order, s, Load(0));
  }

  lemma FirstHalf(order: Order)
    requires order == SOURCE_ORDER
    ensures CanRun(order, INITIAL, Before())
    ensures var s := After(order, INITIAL, Before());
      && s.c == Counters(1, 0, 1, 1) && |s.jobs| == 1 && HttpOnly(s)
      && |s.snaps| == 1 && s.snaps[0].got == [0]
  {
    Begin(order, INITIAL);
    Received(ZERO);
    hide CanRun, After, Loads, Steps, Counters.Add, Counters.Get;
    var s0 := After(order, INITIAL, [BeginSnapshot]);
    LoadFirst(order, s0);
    var s1 := After(order, s0, Loads(1));
    Exchange(order, s1);
    Download(order, After(order, s1, [EnterRoundTrip] + Steps(0, EXCHANGE)));
    Chain(order, INITIAL, [BeginSnapshot], Loads(1), [EnterRoundTrip] + Steps(0, EXCHANGE), Steps(0, DOWNLOAD));
  }

  lemma Received(c: Counters)
    ensures c.Add(OpsWritten, 1).Add(OpsRead, 1).Add(BytesRead, 1)
         == Counters(c.bytesRead + 1, c.bytesWritten, c.opsRead + 1, c.opsWritten + 1)
  {
  }

  lemma SecondHalf(order: Order, s: State)
    requires order == SOURCE_ORDER
    requires s.c == Counters(1, 0, 1, 1) && |s.jobs| == 1 && HttpOnly(s)
    requires |s.snaps| == 1 && s.snaps[0].got == [0]
    ensures CanRun(order, s, Afterwards())
    ensures var t := After(order, s, Afterwards());
      t.c == Counters(1, 0, 1, 2) && HttpOnly(t) && |t.snaps| == 1 && t.snaps[0].got == [0, 0, 1, 2]
  {
    hide CanRun, After, Loads;
    var request := [EnterRoundTrip, Step(1, CountRequest)];
    AnotherRequest(order, s);
    var s1 := After(order, s, request);
    LoadMany(order, s1, 3);
    RunAppend(order, s, request, Loads(3));
  }

  lemma {:induction false} MomentsAppend(order: Order, s: State, a: seq<Action>, b: seq<Action>, got: seq<nat>)
    requires CanRun(order, s, a) && CanRun(order, After(order, s, a), b)
    requires CanRun(order, s, a + b) && AtSomeMoment(order, s, a + b, got)
    ensures AtSomeMoment(order, s, a, got) || AtSomeMoment(order, After(order, s, a), b, got)
    decreases |a|
  {
    hide Next, Enabled, Shows;
    if a == [] {
      assert a + b == b;
    } else if !Shows(order, got, s.c) {
      assert (a + b)[0] == a[0] && (a + b)[1..] == a[1..] + b;
      MomentsAppend(order, Next(order, s, a[0]), a[1..], b, got);
    }
  }

  /** A snapshot is not a consistent read: this one is torn, and shows four
      values that the counters did not have together at any moment of the run. */
  lemma SnapshotIsNoMoment(order: Order)
    requires order == SOURCE_ORDER
    ensures CanRun(order, INITIAL, Before() + Afterwards())
    ensures var t := After(order, INITIAL, Before() + Afterwards());
      |t.snaps| == 1 && t.snaps[0].got == [0, 0, 1, 2]
    ensures !AtSomeMoment(order, INITIAL, Before() + Afterwards(), [0, 0, 1, 2])
    ensures Torn(order, INITIAL, Before() + Afterwards(), 0, false)
  {
    hide Before, Afterwards, CanRun, After, AtSomeMoment, Torn;
    FirstHalf(order);
    var s, got := After(order, INITIAL, Before()), [0, 0, 1, 2];
    SecondHalf(order, s);
    RunAppend(order, INITIAL, Before(), Afterwards());
    if AtSomeMoment(order, INITIAL, Before() + Afterwards(), got) {
      MomentsAppend(order, INITIAL, Before(), Afterwards(), got);
      if AtSomeMoment(order, INITIAL, Before(), got) {
        MomentBetween(order, INITIAL, Before(), got, 3);
      } else {
        MomentBetween(order, s, Afterwards(), got, 0);
      }
      assert false;
    }
    SnapshotIsAMoment(order, Before() + Afterwards(), 0);
  }
}
