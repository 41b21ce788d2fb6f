/** The FTP upload: a caller that writes and closes, a goroutine that runs the
    transfer, a synchronous pipe between them and a one-slot channel for the
    outcome. Every interleaving is a run of `Step`s. */
module FtpUpload {
  import opened Octets
  import opened Options

  datatype Outcome = Success | Failed(code: int)

  /** The caller: between calls, inside a Write of `p` with `n` bytes taken by
      the reader (`unread` until the first handshake), or inside Close waiting
      for the outcome. */
  datatype Caller =
    | Idle
    | Writing(p: Bytes, n: nat, unread: bool)
    | Closing

  /** The goroutine: in the transfer, back from it, past closing the pipe, gone. */
  datatype Worker =
    | Storing
    | Returned(o: Outcome)
    | PipeClosed(o: Outcome)
    | Gone

  datatype State = State(
    caller: Caller,
    worker: Worker,
    writeEndClosed: bool,
    readEndClosed: bool,
    done: Option<Outcome>,
    err: Option<Outcome>,
    // what happened so far
    reported: Bytes,
    taken: Bytes,
    sawEnd: bool,
    stored: Option<Outcome>,
    closes: seq<Outcome>)

  const INITIAL: State := State(Idle, Storing, false, false, None, None, [], [], false, None, [])

  datatype Action =
    | StartWrite(p: Bytes)      // Write is called
    | Transfer(m: nat)          // the transfer reads m bytes of the pending Write
    | FinishWrite               // Write has handed over everything
    | AbortWrite                // Write finds the pipe closed
    | ReadEnd                   // the transfer reads the end of the data
    | StoreReturns(o: Outcome)  // the transfer ends, for whatever reason
    | ClosePipe                 // the goroutine closes its end
    | SendOutcome               // ... and sends the outcome
    | StartClose                // the first Close closes the write end
    | ReceiveOutcome            // ... and gets the outcome
    | CloseAgain                // any later Close

  /** The pipe accepts no more data. */
  predicate Shut(s: State) {
    s.writeEndClosed || s.readEndClosed
  }

  predicate Enabled(s: State, a: Action) {
    match a
    case StartWrite(_) => s.caller.Idle?
    case Transfer(m) => s.caller.Writing? && s.worker.Storing? && !Shut(s)
      && m <= |s.caller.p| - s.caller.n && (s.caller.unread || s.caller.n < |s.caller.p|)
    case FinishWrite => s.caller.Writing? && !s.caller.unread && s.caller.n == |s.caller.p|
    case AbortWrite => s.caller.Writing? && Shut(s)
      && s.caller.n <= |s.caller.p| && (s.caller.unread || s.caller.n < |s.caller.p|)
    case ReadEnd => s.worker.Storing? && s.writeEndClosed
    case StoreReturns(_) => s.worker.Storing?
    case ClosePipe => s.worker.Returned?
    case SendOutcome => s.worker.PipeClosed? && s.done.None?
    case StartClose => s.caller.Idle? && !s.writeEndClosed
    case ReceiveOutcome => s.caller.Closing? && s.done.Some?
    case CloseAgain => s.caller.Idle? && s.writeEndClosed && s.err.Some?
  }

  function Next(s: State, a: Action): State
    requires Enabled(s, a)
  {
    match a
    case StartWrite(p) => s.(caller := Writing(p, 0, true))
    case Transfer(m) =>
      s.(caller := Writing(s.caller.p, s.caller.n + m, false),
         taken := s.taken + s.caller.p[s.caller.n..s.caller.n + m])
    case FinishWrite => s.(caller := Idle, reported := s.reported + s.caller.p)
    case AbortWrite => s.(caller := Idle, reported := s.reported + s.caller.p[..s.caller.n])
    case ReadEnd => s.(sawEnd := true)
    case StoreReturns(o) => s.(worker := Returned(o), stored := Some(o))
    case ClosePipe => s.(worker := PipeClosed(s.worker.o), readEndClosed := true)
    case SendOutcome => s.(worker := Gone, done := Some(s.worker.o))
    case StartClose => s.(caller := Closing, writeEndClosed := true)
    case ReceiveOutcome =>
      s.(caller := Idle, done := None, err := s.done, closes := s.closes + [s.done.value])
    case CloseAgain => s.(closes := s.closes + [s.err.value])
  }

  // -------------------------------------------------------------- invariant

  /** The bytes of a Write still in progress that the transfer has taken. */
  function InFlight(s: State): Bytes {
    if s.caller.Writing? && s.caller.n <= |s.caller.p| then s.caller.p[..s.caller.n] else []
  }

  /** Between the caller and the transfer: what was taken is what was reported and
      what is in flight, and nothing is once the write end is closed. */
  ghost predicate DataInv(s: State) {
    && (s.caller.Writing? ==> s.caller.n <= |s.caller.p| && (s.caller.unread ==> s.caller.n == 0))
    && s.taken == s.reported + InFlight(s)
    && (s.writeEndClosed ==> InFlight(s) == [])
    && (s.sawEnd ==> s.writeEndClosed)
  }

  /** Between the goroutine and Close: one outcome, on its way once. */
  ghost predicate OutcomeInv(s: State) {
    && (s.caller.Closing? ==> s.writeEndClosed && s.err.None?)
    && (s.writeEndClosed ==> s.caller.Closing? || s.err.Some?)
    && (s.err.Some? ==> s.writeEndClosed)
    && (s.readEndClosed <==> s.worker.PipeClosed? || s.worker.Gone?)
    && (match s.worker
        case Storing => s.stored.None?
        case Returned(o) => s.stored == Some(o)
        case PipeClosed(o) => s.stored == Some(o)
        case Gone => s.stored.Some?)
    && (!s.worker.Gone? ==> s.done.None? && s.err.None?)
    && (s.worker.Gone? ==> (s.done == s.stored && s.err.None?) || (s.done.None? && s.err == s.stored))
    && (forall o <- s.closes :: s.stored == Some(o))
    && (s.closes == [] <==> s.err.None?)
  }

  ghost predicate Inv(s: State) {
    DataInv(s) && OutcomeInv(s)
  }

  lemma StepInv(s: State, a: Action)
    requires Inv(s) && Enabled(s, a)
    ensures Inv(Next(s, a))
  {
    DataStep(s, a);
    hide DataInv;
    match a
    case StoreReturns(_) => WorkerStep(s, a);
    case ClosePipe => WorkerStep(s, a);
    case SendOutcome => WorkerStep(s, a);
    case ReceiveOutcome => OutcomeArrives(s);
    case _ => CallerStep(s, a);
  }

  lemma DataStep(s: State, a: Action)
    requires DataInv(s) && OutcomeInv(s) && Enabled(s, a)
    ensures DataInv(Next(s, a))
  {
    match a
    case Transfer(m) => TransferStep(s, m);
    case FinishWrite =>
      assert s.caller.p[..s.caller.n] == s.caller.p;
    case _ =>
  }

  /** A handshake moves bytes from the pending Write to the transfer. */
  lemma TransferStep(s: State, m: nat)
    requires DataInv(s) && Enabled(s, Transfer(m))
    ensures DataInv(Next(s, Transfer(m)))
  {
    var p, n := s.caller.p, s.caller.n;
    assert p[..n] + p[n..n + m] == p[..n + m];
    assert s.reported + p[..n] + p[n..n + m] == s.reported + (p[..n] + p[n..n + m]);
  }

  lemma CallerStep(s: State, a: Action)
    requires OutcomeInv(s) && Enabled(s, a)
    requires !a.StoreReturns? && !a.ClosePipe? && !a.SendOutcome? && !a.ReceiveOutcome?
    ensures OutcomeInv(Next(s, a))
  {
  }

  lemma WorkerStep(s: State, a: Action)
    requires OutcomeInv(s) && Enabled(s, a)
    requires a.StoreReturns? || a.ClosePipe? || a.SendOutcome?
    ensures OutcomeInv(Next(s, a))
  {
  }

  lemma OutcomeArrives(s: State)
    requires OutcomeInv(s) && Enabled(s, ReceiveOutcome)
    ensures OutcomeInv(Next(s, ReceiveOutcome))
  {
  }

  // ------------------------------------------------------------------- runs

  ghost predicate IsRun(ss: seq<State>, acts: seq<Action>) {
    && |ss| == |acts| + 1 && ss[0] == INITIAL
    && forall i :: 0 <= i < |acts| ==> Enabled(ss[i], acts[i]) && ss[i + 1] == Next(ss[i], acts[i])
  }

  lemma RunStep(ss: seq<State>, acts: seq<Action>, i: nat)
    requires IsRun(ss, acts) && 0 < i < |ss|
    ensures i <= |acts| && Enabled(ss[i - 1], acts[i - 1]) && ss[i] == Next(ss[i - 1], acts[i - 1])
  {
    hide Enabled, Next;
    assert ss[i - 1 + 1] == Next(ss[i - 1], acts[i - 1]);
  }

  lemma {:induction false} RunInv(ss: seq<State>, acts: seq<Action>, i: nat)
    requires IsRun(ss, acts) && i < |ss|
    ensures Inv(ss[i])
    decreases i
  {
    if i > 0 {
      RunStep(ss, acts, i);
      hide IsRun, Enabled, Next;
      RunInv(ss, acts, i - 1);
      StepInv(ss[i - 1], acts[i - 1]);
    }
  }

  /** In every interleaving and at every point of it: what the transfer has read
      is the concatenation of what finished Writes reported, and of what the
      pending Write has handed over; every Close returned the transfer's own
      result; and a transfer that reached the end has read everything reported. */
  lemma UploadIsFaithful(ss: seq<State>, acts: seq<Action>, i: nat)
    requires IsRun(ss, acts) && i < |ss|
    ensures ss[i].taken == ss[i].reported + InFlight(ss[i])
    ensures forall o <- ss[i].closes :: ss[i].stored == Some(o)
    ensures ss[i].sawEnd ==> ss[i].taken == ss[i].reported
  {
    RunInv(ss, acts, i);
  }

  /** How calls come back, in every interleaving. A Write that hands over bytes does
      so while neither Close has begun nor the transfer returned; one that succeeds
      has handed over all of its bytes, and reports them; one that falls short still
      had some to hand over, or none had been asked for, and Close had begun or the
      transfer had returned. The transfer reads the end only after Close has begun,
      and a later Close is told what the first one was. */
  lemma CallsComeBack(ss: seq<State>, acts: seq<Action>, i: nat)
    requires IsRun(ss, acts) && i < |acts|
    ensures acts[i].Transfer? ==>
      !ss[i].writeEndClosed && ss[i].stored == None && ss[i].caller.Writing? && ss[i].caller.n + acts[i].m <= |ss[i].caller.p|
      && (ss[i].caller.n < |ss[i].caller.p| || |ss[i].caller.p| == 0)
    ensures acts[i] == FinishWrite ==>
      ss[i].caller.Writing? && !ss[i].caller.unread && ss[i + 1].reported == ss[i].reported + ss[i].caller.p
      && ss[i + 1].taken == ss[i + 1].reported
    ensures acts[i] == AbortWrite ==>
      ss[i].caller.Writing? && (ss[i].writeEndClosed || ss[i].stored.Some?)
      && (ss[i].caller.unread || ss[i].caller.n < |ss[i].caller.p|)
      && ss[i + 1].reported == ss[i].reported + ss[i].caller.p[..ss[i].caller.n]
    ensures acts[i] == ReadEnd ==> ss[i].writeEndClosed && ss[i].stored == None
    ensures acts[i] == CloseAgain ==>
      ss[i].closes != [] && ss[i + 1].closes == ss[i].closes + [ss[i].closes[0]] && ss[i + 1].stored == ss[i].stored
  {
    RunInv(ss, acts, i);
    RunInv(ss, acts, i + 1);
    RunStep(ss, acts, i + 1);
    hide IsRun;
    if acts[i] == CloseAgain {
      assert ss[i].closes[0] in ss[i].closes;
    }
  }

  /** Once the end has been read, nothing is ever reported or read again. */
  lemma {:induction false} EndIsFinal(ss: seq<State>, acts: seq<Action>, i: nat, j: nat)
    requires IsRun(ss, acts) && i <= j < |ss| && ss[i].writeEndClosed
    ensures ss[j].writeEndClosed && ss[j].taken == ss[i].taken && ss[j].reported == ss[i].reported
    decreases j
  {
    hide IsRun, Inv, Enabled, Next;
    if i < j {
      EndIsFinal(ss, acts, i, j - 1);
      RunInv(ss, acts, j - 1);
      RunStep(ss, acts, j);
      EndStep(ss[j - 1], acts[j - 1]);
    }
  }

  lemma EndStep(s: State, a: Action)
    requires Inv(s) && Enabled(s, a) && s.writeEndClosed
    ensures var t := Next(s, a); t.writeEndClosed && t.taken == s.taken && t.reported == s.reported
  {
    hide OutcomeInv;
    if s.caller.Writing? {
      assert s.caller.p[..s.caller.n] == [];
    }
  }

  // --------------------------------------------------------------- progress

  /** Some call or the goroutine has not come to its end. */
  predicate Pending(s: State) {
    !s.caller.Idle? || !s.worker.Gone?
  }

  /** Steps that bring something pending nearer its end, once the transfer is
      over: everything but the caller's starting something new. */
  predicate Finishing(a: Action) {
    a.AbortWrite? || a.FinishWrite? || a.ClosePipe? || a.SendOutcome? || a.ReceiveOutcome?
  }

  function Remaining(s: State): nat {
    (match s.worker case Storing => 3 case Returned(_) => 2 case PipeClosed(_) => 1 case Gone => 0)
    + if s.caller.Idle? then 0 else 1
  }

  /** The step that is open to whatever is pending. */
  function Unblock(s: State): Action {
    match s.worker
    case Returned(_) => ClosePipe
    case PipeClosed(_) => SendOutcome
    case _ =>
      if s.caller.Closing? then ReceiveOutcome
      else if s.caller.Writing? && !s.caller.unread && s.caller.n == |s.caller.p| then FinishWrite
      else AbortWrite
  }

  /** After the transfer has returned nothing blocks for good: as long as a
      Write, a Close or the sending of the outcome is pending some finishing
      step is enabled; each one leaves fewer of them, at most three in all; and
      no other step but the caller's starting something anew can happen. */
  lemma NothingStaysBlocked(s: State, a: Action)
    requires Inv(s) && s.stored.Some?
    ensures Pending(s) ==> Finishing(Unblock(s)) && Enabled(s, Unblock(s))
    ensures Enabled(s, a) && Finishing(a) ==> Remaining(Next(s, a)) < Remaining(s)
    ensures Enabled(s, a) && !Finishing(a) ==> a.StartWrite? || a.StartClose? || a.CloseAgain?
    ensures Remaining(s) <= 3 && (Remaining(s) == 0 <==> !Pending(s))
  {
  }

  /** Followed to its end, a pending call is over after at most three steps. */
  function Settle(s: State, fuel: nat): State
    requires Inv(s) && s.stored.Some?
    decreases fuel
  {
    if !Pending(s) || fuel == 0 then s
    else
      NothingStaysBlocked(s, Unblock(s));
      StepInv(s, Unblock(s));
      Settle(Next(s, Unblock(s)), fuel - 1)
  }

  lemma {:induction false} Settles(s: State, fuel: nat)
    requires Inv(s) && s.stored.Some? && fuel >= Remaining(s)
    ensures !Pending(Settle(s, fuel))
    ensures s.caller.Closing? ==> var t := Settle(s, fuel); t.closes == s.closes + [s.stored.value]
    ensures !s.caller.Closing? ==> Settle(s, fuel).closes == s.closes
    decreases fuel
  {
    NothingStaysBlocked(s, Unblock(s));
    if Pending(s) {
      StepInv(s, Unblock(s));
      Settles(Next(s, Unblock(s)), fuel - 1);
    }
  }

  // ------------------------------------------------------------ whole uploads

  lemma OneMore(ss: seq<State>, acts: seq<Action>, a: Action) returns (ss': seq<State>, acts': seq<Action>)
    requires IsRun(ss, acts) && Enabled(ss[|acts|], a)
    ensures IsRun(ss', acts') && acts' == acts + [a] && ss'[|acts'|] == Next(ss[|acts|], a)
  {
    ss', acts' := ss + [Next(ss[|acts|], a)], acts + [a];
    hide Enabled, Next;
    forall i | 0 <= i < |acts'|
      ensures Enabled(ss'[i], acts'[i]) && ss'[i + 1] == Next(ss'[i], acts'[i])
    {
      if i < |acts| {
        assert ss'[i] == ss[i] && ss'[i + 1] == ss[i + 1] && acts'[i] == acts[i];
      }
    }
  }

  /** An upload from start to end there is for any data and any outcome: one Write of
      it, taken at once, and Close, which returns what the transfer came to. */
  lemma WholeUpload(p: Bytes, o: Outcome) returns (ss: seq<State>, acts: seq<Action>)
    ensures IsRun(ss, acts)
    ensures var s := ss[|acts|]; s.taken == p && s.reported == p && s.sawEnd && s.closes == [o] && !Pending(s)
  {
    ss, acts := [INITIAL], [];
    ss, acts := OneMore(ss, acts, StartWrite(p));
    ss, acts := OneMore(ss, acts, Transfer(|p|));
    ss, acts := OneMore(ss, acts, FinishWrite);
    ss, acts := OneMore(ss, acts, StartClose);
    ss, acts := OneMore(ss, acts, ReadEnd);
    ss, acts := OneMore(ss, acts, StoreReturns(o));
    ss, acts := OneMore(ss, acts, ClosePipe);
    ss, acts := OneMore(ss, acts, SendOutcome);
    ss, acts := OneMore(ss, acts, ReceiveOutcome);
    assert p[0..|p|] == p;
  }
}
