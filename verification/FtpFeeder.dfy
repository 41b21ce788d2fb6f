/** The goroutine behind an FTP download: it runs the transfer, which writes into
    a synchronous pipe, while the caller reads from the other end and may close
    it at any time. What the caller sees of it is proved to be the pipe of
    `FtpDownload`, a list of writes; and closing to let the goroutine end. */
module FtpFeeder {
  import opened Octets
  import opened FtpDownload

  /** The goroutine: in the transfer between two writes, inside a Write of `p`
      with `n` bytes taken (`unread` until the first handshake), back from the
      transfer, or past closing its end of the pipe. */
  datatype Feeder =
    | Fetching
    | Writing(p: Bytes, n: nat, unread: bool)
    | Returned(end: End)
    | Gone(end: End)

  /** `todo` and `end` are the writes the transfer still has and how it ends if
      none of them fails; `failed` says that one did. */
  datatype State = State(feeder: Feeder, todo: seq<Bytes>, end: End, failed: bool, closed: bool, taken: Bytes)

  function Start(writes: seq<Bytes>, end: End): State {
    State(Fetching, writes, end, false, false, [])
  }

  datatype Action =
    | StartWrite             // the transfer writes
    | FinishWrite            // the Write has handed over everything
    | AbortWrite             // the Write finds the read end closed
    | TransferEnds(e: End)   // the transfer returns
    | CloseWithError         // the goroutine closes its end with the outcome
    | Take(cap: nat)         // a Read with room for `cap` bytes is served
    | ReadEnd                // a Read is told how the transfer ended
    | CloseReader            // the caller closes

  /** The Write under way still has something to hand over. */
  predicate Offers(s: State) {
    s.feeder.Writing? && (s.feeder.unread || s.feeder.n < |s.feeder.p|)
  }

  predicate Enabled(s: State, a: Action) {
    match a
    case StartWrite => s.feeder.Fetching? && s.todo != []
    case FinishWrite => s.feeder.Writing? && !Offers(s)
    case AbortWrite => Offers(s) && s.closed
    case TransferEnds(e) => s.feeder.Fetching? && (s.failed || (s.todo == [] && e == s.end))
    case CloseWithError => s.feeder.Returned?
    case Take(_) => Offers(s) && !s.closed && s.feeder.n <= |s.feeder.p|
    case ReadEnd => s.feeder.Gone? && !s.closed
    case CloseReader => true
  }

  function Next(s: State, a: Action): State
    requires Enabled(s, a)
  {
    match a
    case StartWrite => s.(feeder := Writing(s.todo[0], 0, true), todo := s.todo[1..])
    case FinishWrite => s.(feeder := Fetching)
    case AbortWrite => s.(feeder := Fetching, failed := true)
    case TransferEnds(e) => s.(feeder := Returned(e))
    case CloseWithError => s.(feeder := Gone(s.feeder.end))
    case Take(cap) =>
      var m := Min(cap, |s.feeder.p| - s.feeder.n);
      s.(feeder := Writing(s.feeder.p, s.feeder.n + m, false),
         taken := s.taken + s.feeder.p[s.feeder.n..s.feeder.n + m])
    case ReadEnd => s
    case CloseReader => s.(closed := true)
  }

  /** The steps the goroutine takes by itself. */
  predicate Own(a: Action) {
    a.StartWrite? || a.FinishWrite? || a.AbortWrite? || a.TransferEnds? || a.CloseWithError?
  }

  predicate Inv(s: State) {
    && (s.feeder.Writing? ==> s.feeder.n <= |s.feeder.p| && (s.feeder.unread ==> s.feeder.n == 0))
    && (s.failed ==> s.closed)
    && (s.feeder.Returned? || s.feeder.Gone? ==> s.failed || (s.todo == [] && s.feeder.end == s.end))
  }

  // --------------------------------------------------- what the reader sees

  /** What the pipe still has to hand over. */
  function Waiting(s: State): seq<Bytes>
    requires Inv(s)
  {
    match s.feeder
    case Writing(p, n, unread) => (if unread || n < |p| then [p[n..]] else []) + s.todo
    case _ => s.todo
  }

  function View(s: State): Pipe
    requires Inv(s)
  {
    Pipe(Waiting(s), s.end, s.closed)
  }

  /** Seen from the reader, every step is a step of the pipe: a Read that is
      served or told the end is the pipe's own Read, closing closes it, and what
      the goroutine does by itself does not show. */
  lemma StepRefines(s: State, a: Action)
    requires Inv(s) && Enabled(s, a)
    ensures Inv(Next(s, a))
    ensures a.Take? ==>
      var (pipe, out, answer) := ReadPipe(View(s), a.cap);
      View(Next(s, a)) == pipe && Next(s, a).taken == s.taken + out && answer == Fine
    ensures a.ReadEnd? ==>
      forall cap: nat :: ReadPipe(View(s), cap) == (View(s), [], Ending(s.feeder.end)) && Next(s, a) == s
    ensures a.CloseReader? ==> View(Next(s, a)) == View(s).(closed := true) && Next(s, a).taken == s.taken
    ensures Own(a) && !s.closed ==> View(Next(s, a)) == View(s) && Next(s, a).taken == s.taken
  {
    match a
    case Take(cap) => TakeRefines(s, cap);
    case StartWrite =>
      assert s.todo == [s.todo[0][0..]] + s.todo[1..];
    case FinishWrite =>
      assert [] + s.todo == s.todo;
    case _ =>
  }

  lemma TakeRefines(s: State, cap: nat)
    requires Inv(s) && Enabled(s, Take(cap))
    ensures Inv(Next(s, Take(cap)))
    ensures var (pipe, out, answer) := ReadPipe(View(s), cap);
      View(Next(s, Take(cap))) == pipe && Next(s, Take(cap)).taken == s.taken + out && answer == Fine
  {
    var p, n := s.feeder.p, s.feeder.n;
    var m := Min(cap, |p| - n);
    Slices(p, n, m);
    var w := p[n..];
    assert |w| == |p| - n && (m == |w| <==> n + m == |p|);
    FirstRead(View(s), w, s.todo, cap);
    hide ReadPipe;
  }

  lemma Slices(p: Bytes, n: nat, m: nat)
    requires n + m <= |p|
    ensures p[n..][..m] == p[n..n + m] && p[n..][m..] == p[n + m..]
  {
  }

  /** A Read of a pipe whose next write is `w`. */
  lemma FirstRead(pipe: Pipe, w: Bytes, rest: seq<Bytes>, cap: nat)
    requires !pipe.closed && pipe.writes == [w] + rest
    ensures var m := Min(cap, |w|);
      ReadPipe(pipe, cap) == (pipe.(writes := (if m == |w| then [] else [w[m..]]) + rest), w[..m], Fine)
  {
    assert pipe.writes[0] == w && pipe.writes[1..] == rest;
    assert [] + rest == rest;
  }

  predicate CanRun(s: State, acts: seq<Action>)
    decreases |acts|
  {
    acts != [] ==> Enabled(s, acts[0]) && CanRun(Next(s, acts[0]), acts[1..])
  }

  function After(s: State, acts: seq<Action>): State
    requires CanRun(s, acts)
    decreases |acts|
  {
    if acts == [] then s else After(Next(s, acts[0]), acts[1..])
  }

  /** What was taken is a prefix of the file, with the rest still waiting as long
      as the reader is open. */
  ghost predicate Delivers(s: State, file: Bytes) {
    Inv(s) && s.taken <= file && (!s.closed ==> s.taken + Flatten(Waiting(s)) == file)
  }

  lemma StepDelivers(s: State, a: Action, file: Bytes)
    requires Delivers(s, file) && Enabled(s, a)
    ensures Delivers(Next(s, a), file)
  {
    StepRefines(s, a);
    if a.Take? {
      hide Flatten, ReadPipe, Waiting, Enabled, Next;
      var (pipe, out, _) := ReadPipe(View(s), a.cap);
      PipeTakesFromTheFront(View(s), a.cap);
      TakenFromFile(s.taken, out, Flatten(pipe.writes), file);
    } else {
      hide Flatten, ReadPipe, Waiting;
    }
  }

  lemma TakenFromFile(taken: Bytes, out: Bytes, rest: Bytes, file: Bytes)
    requires taken + (out + rest) == file
    ensures taken + out <= file && taken + out + rest == file
  {
    assert taken + out + rest == file;
  }

  lemma {:induction false} RunDelivers(s: State, acts: seq<Action>, file: Bytes)
    requires Delivers(s, file) && CanRun(s, acts)
    ensures Delivers(After(s, acts), file)
    decreases |acts|
  {
    hide Delivers, Enabled, Next;
    if acts != [] {
      StepDelivers(s, acts[0], file);
      RunDelivers(Next(s, acts[0]), acts[1..], file);
    }
  }

  /** In every interleaving the reader has been given a prefix of the file, and all
      of it when it is told the end, which is then the transfer's. */
  lemma ReaderGetsTheFile(writes: seq<Bytes>, end: End, acts: seq<Action>)
    requires CanRun(Start(writes, end), acts)
    ensures var s := After(Start(writes, end), acts);
      && s.taken <= Flatten(writes)
      && (Enabled(s, ReadEnd) ==> s.taken == Flatten(writes) && s.feeder.end == end)
  {
    RunDelivers(Start(writes, end), acts, Flatten(writes));
    EndStays(Start(writes, end), acts);
  }

  lemma {:induction false} EndStays(s: State, acts: seq<Action>)
    requires CanRun(s, acts)
    ensures After(s, acts).end == s.end
    decreases |acts|
  {
    if acts != [] {
      EndStays(Next(s, acts[0]), acts[1..]);
    }
  }

  // --------------------------------------------------------------- progress

  /** How many steps of its own the goroutine has left at most. */
  function Work(s: State): nat {
    match s.feeder
    case Fetching => 2 * |s.todo| + 2
    case Writing(_, _, _) => 2 * |s.todo| + 3
    case Returned(_) => 1
    case Gone(_) => 0
  }

  /** The goroutine waits for nobody but a reader that has not closed: it has no
      step of its own exactly when it is gone, or when a Write has something to
      hand over and the reader is open. */
  lemma WaitsOnlyForReader(s: State)
    ensures (forall a :: Own(a) ==> !Enabled(s, a)) <==> s.feeder.Gone? || (Offers(s) && !s.closed)
    ensures forall a :: Own(a) && Enabled(s, a) ==> Work(Next(s, a)) < Work(s)
  {
    if s.feeder.Writing? {
      assert !Offers(s) ==> Own(FinishWrite) && Enabled(s, FinishWrite);
      assert Offers(s) && s.closed ==> Own(AbortWrite) && Enabled(s, AbortWrite);
    } else if s.feeder.Fetching? {
      assert s.todo != [] ==> Own(StartWrite) && Enabled(s, StartWrite);
      assert s.todo == [] ==> Own(TransferEnds(s.end)) && Enabled(s, TransferEnds(s.end));
    } else if s.feeder.Returned? {
      assert Own(CloseWithError) && Enabled(s, CloseWithError);
    }
  }

  predicate OwnRun(s: State, acts: seq<Action>) {
    CanRun(s, acts) && forall a <- acts :: Own(a)
  }

  ghost predicate AtRest(s: State) {
    forall a :: Own(a) ==> !Enabled(s, a)
  }

  /** Left to itself, the goroutine comes to rest after so many steps. If the
      reader is closed it is gone then, and nothing more was handed over; if not,
      a Read is answered at once. */
  lemma {:induction false} ComesToRest(s: State, acts: seq<Action>)
    requires OwnRun(s, acts)
    ensures |acts| + Work(After(s, acts)) <= Work(s)
    ensures After(s, acts).closed == s.closed && After(s, acts).taken == s.taken
    ensures var t := After(s, acts);
      AtRest(t) <==> t.feeder.Gone? || (!s.closed && Offers(t))
    decreases |acts|
  {
    WaitsOnlyForReader(s);
    if acts != [] {
      assert Own(acts[0]);
      assert forall a <- acts[1..] :: a in acts;
      ComesToRest(Next(s, acts[0]), acts[1..]);
    }
  }

  /** The transfer stops at the first write that fails. */
  predicate StopsAtFailure(s: State, acts: seq<Action>)
    requires CanRun(s, acts)
    decreases |acts|
  {
    acts != [] ==> !(s.failed && acts[0].StartWrite?) && StopsAtFailure(Next(s, acts[0]), acts[1..])
  }

  function Brief(s: State): nat {
    match s.feeder
    case Fetching => if s.failed then 2 else 4
    case Writing(_, _, _) => if Offers(s) then 3 else if s.failed then 3 else 5
    case Returned(_) => 1
    case Gone(_) => 0
  }

  /** After the reader has closed, the goroutine unblocks on its next write: with a
      transfer that stops there, five steps at most are left to it, however much of
      the file was not read. */
  lemma {:induction false} CloseFreesTheFeeder(s: State, acts: seq<Action>)
    requires Inv(s) && s.closed && OwnRun(s, acts) && StopsAtFailure(s, acts)
    ensures |acts| + Brief(After(s, acts)) <= Brief(s) <= 5
    decreases |acts|
  {
    if acts != [] {
      assert Own(acts[0]);
      assert forall a <- acts[1..] :: a in acts;
      StepRefines(s, acts[0]);
      hide Inv;
      CloseFreesTheFeeder(Next(s, acts[0]), acts[1..]);
    }
  }

  lemma RunCons(s: State, a: Action, acts: seq<Action>)
    requires Enabled(s, a) && CanRun(Next(s, a), acts)
    ensures CanRun(s, [a] + acts) && After(s, [a] + acts) == After(Next(s, a), acts)
  {
    assert ([a] + acts)[1..] == acts;
  }

  /** A reader that takes what each write offers gets the whole file, and its end. */
  lemma {:induction false} WholeDownload(s: State) returns (acts: seq<Action>)
    requires s.feeder.Fetching? && !s.failed && !s.closed
    ensures CanRun(s, acts)
    ensures var t := After(s, acts); t.feeder == Gone(s.end) && t.taken == s.taken + Flatten(s.todo) && Enabled(t, ReadEnd)
    decreases |s.todo|
  {
    hide CanRun, After;
    if s.todo == [] {
      var s1 := Next(s, TransferEnds(s.end));
      NoSteps(Next(s1, CloseWithError));
      RunCons(s1, CloseWithError, []);
      RunCons(s, TransferEnds(s.end), [CloseWithError] + []);
      acts := [TransferEnds(s.end)] + ([CloseWithError] + []);
    } else {
      var p := s.todo[0];
      var s1 := Next(s, StartWrite);
      var s2 := Next(s1, Take(|p|));
      var s3 := Next(s2, FinishWrite);
      var rest := WholeDownload(s3);
      RunCons(s2, FinishWrite, rest);
      RunCons(s1, Take(|p|), [FinishWrite] + rest);
      RunCons(s, StartWrite, [Take(|p|)] + ([FinishWrite] + rest));
      acts := [StartWrite] + ([Take(|p|)] + ([FinishWrite] + rest));
      assert p[0..|p|] == p;
      assert s.taken + p + Flatten(s.todo[1..]) == s.taken + (p + Flatten(s.todo[1..]));
    }
  }

  lemma NoSteps(s: State)
    ensures CanRun(s, []) && After(s, []) == s && OwnRun(s, [])
  {
  }

  /** After the reader has closed there is a way to the end, whatever the goroutine
      was at. */
  lemma EndsAfterClose(s: State) returns (acts: seq<Action>)
    requires Inv(s) && s.closed
    ensures OwnRun(s, acts) && StopsAtFailure(s, acts) && After(s, acts).feeder.Gone?
    decreases Brief(s)
  {
    if s.feeder.Gone? {
      acts := [];
    } else {
      var a := OwnStep(s);
      StepRefines(s, a);
      hide Inv;
      var rest := EndsAfterClose(Next(s, a));
      RunCons(s, a, rest);
      acts := [a] + rest;
      assert acts[1..] == rest;
    }
  }

  /** A step that is open to the goroutine once the reader has closed. */
  function OwnStep(s: State): (a: Action)
    requires s.closed && !s.feeder.Gone?
    ensures Own(a) && Enabled(s, a) && !(s.failed && a.StartWrite?) && Brief(Next(s, a)) < Brief(s)
  {
    match s.feeder
    case Fetching => if s.failed || s.todo == [] then TransferEnds(s.end) else StartWrite
    case Writing(_, _, _) => if Offers(s) then AbortWrite else FinishWrite
    case Returned(_) => CloseWithError
  }
}
