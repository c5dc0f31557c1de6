/** The two-token protocol of the pipe copies (internal/discovery/runner.go,
    start, drain, finish and waitCommand). */
module PipeCopies {
  import opened Runner
  import Order

  /** io.Copy reads a chunk, then writes it; at the end the copy closes its own
      read end and sends one token. */
  datatype CopyPc = Copying | Holding(chunk: Chunk) | Closing | Sending | Ended

  /** One pipe and its copy. sent is all that was ever written to the pipe,
      queued what is still in it; chunks is what the sink was given; sawEof
      says the copy ended because the pipe was empty and its writers gone. */
  datatype Copy = Copy(
    pc: CopyPc, queued: Chunk, writersGone: bool, readOpen: bool,
    sent: Chunk, chunks: seq<Chunk>, sawEof: bool)

  datatype Ending = Exited | CancelledThenReaped | Unkillable

  /** Where waitCommand is. Draining and Forced count the tokens received;
      CloseOut and CloseErr are the two closes that force the copies to end. */
  datatype MainPc =
    | Selecting
    | Draining(done: nat)
    | CloseOut(done: nat, cancelled: bool) | CloseErr(done: nat, cancelled: bool) | Forced(done: nat, cancelled: bool)
    | AwaitReap
    | Returned(how: Ending)

  datatype State = State(
    max: int, out: Copy, err: Copy, tokens: nat, received: nat, reaped: bool, cancelled: bool, main: MainPc)

  datatype Which = Out | Err

  function Get(s: State, w: Which): Copy {
    if w.Out? then s.out else s.err
  }

  function Set(s: State, w: Which, c: Copy): State {
    if w.Out? then s.(out := c) else s.(err := c)
  }

  // The child, its descendants, two timers and a cancellation act when they like.

  /** What happens at one pipe: its writers' moves, then its copy's. */
  datatype Move =
    | ChildWrite(data: Chunk) | WritersGo
    | Read(n: nat) | Store | Stop | CloseOwn | Send

  datatype Step =
    | Pipe(w: Which, move: Move) | Reap | Cancel
    | SelectReaped | SelectCancelled | Receive | DrainTimer | ForceClose | GraceTimer | SeeReaped

  predicate CanMove(c: Copy, m: Move) {
    match m
    case ChildWrite(_) => !c.writersGone
    case WritersGo => !c.writersGone
    case Read(n) => c.pc.Copying? && c.readOpen && 0 < n <= |c.queued|
    case Store => c.pc.Holding?
    case Stop => c.pc.Copying? && (!c.readOpen || (c.queued == [] && c.writersGone))
    case CloseOwn => c.pc.Closing?
    case Send => c.pc.Sending?
  }

  function AfterMove(c: Copy, m: Move): Copy
    requires CanMove(c, m)
  {
    match m
    case ChildWrite(data) => c.(queued := c.queued + data, sent := c.sent + data)
    case WritersGo => c.(writersGone := true)
    case Read(n) => c.(pc := Holding(c.queued[..n]), queued := c.queued[n..])
    case Store => c.(pc := Copying, chunks := c.chunks + [c.pc.chunk])
    case Stop => c.(pc := Closing, sawEof := c.queued == [] && c.writersGone)
    case CloseOwn => c.(pc := Sending, readOpen := false)
    case Send => c.(pc := Ended)
  }

  predicate Enabled(s: State, step: Step) {
    match step
    case Pipe(w, m) => CanMove(Get(s, w), m) && (m.Send? ==> s.tokens < 2)
    case Reap => !s.reaped
    case Cancel => !s.cancelled
    case SelectReaped => s.main.Selecting? && s.reaped
    case SelectCancelled => s.main.Selecting? && s.cancelled
    case Receive => s.tokens > 0 && (s.main.Draining? || s.main.Forced?) && s.main.done < 2
    case DrainTimer => s.main.Draining? && s.main.done < 2
    case ForceClose => s.main.CloseOut? || s.main.CloseErr?
    case GraceTimer => s.main.AwaitReap?
    case SeeReaped => s.main.AwaitReap? && s.reaped
  }

  /** The loops and receives end at the second token. */
  function AfterReceive(m: MainPc): MainPc
    requires m.Draining? || m.Forced?
  {
    if m.done + 1 < 2 then (if m.Draining? then Draining(m.done + 1) else Forced(m.done + 1, m.cancelled))
    else if m.Forced? && m.cancelled then AwaitReap
    else Returned(Exited)
  }

  function AfterClose(s: State): State
    requires s.main.CloseOut? || s.main.CloseErr?
  {
    var m := s.main;
    if m.CloseOut? then s.(out := s.out.(readOpen := false), main := CloseErr(m.done, m.cancelled))
    else s.(err := s.err.(readOpen := false), main := Forced(m.done, m.cancelled))
  }

  function Apply(s: State, step: Step): State
    requires Enabled(s, step)
  {
    match step
    case Pipe(w, m) => Set(s, w, AfterMove(Get(s, w), m)).(tokens := if m.Send? then s.tokens + 1 else s.tokens)
    case Reap => s.(reaped := true)
    case Cancel => s.(cancelled := true)
    case SelectReaped => s.(main := Draining(0))
    case SelectCancelled => s.(main := CloseOut(0, true))
    case Receive => s.(main := AfterReceive(s.main), tokens := s.tokens - 1, received := s.received + 1)
    case DrainTimer => s.(main := CloseOut(s.main.done, false))
    case ForceClose => AfterClose(s)
    case GraceTimer => s.(main := Returned(Unkillable))
    case SeeReaped => s.(main := Returned(CancelledThenReaped))
  }

  ghost predicate Runs(s: State, steps: seq<Step>, u: State)
    decreases steps
  {
    if steps == [] then s == u else Enabled(s, steps[0]) && Runs(Apply(s, steps[0]), steps[1..], u)
  }

  const NEW_COPY := Copy(Copying, [], false, true, [], [], false)

  function Init(max: int): State {
    State(max, NEW_COPY, NEW_COPY, 0, 0, false, false, Selecting)
  }

  // ----- the invariant

  function EndedCount(s: State): nat {
    (if s.out.pc.Ended? then 1 else 0) + (if s.err.pc.Ended? then 1 else 0)
  }

  function InHand(c: Copy): Chunk {
    if c.pc.Holding? then c.pc.chunk else []
  }

  /** Every byte sent is stored, in hand or queued, in that order. */
  ghost predicate CopyOk(c: Copy) {
    && Concat(c.chunks) + InHand(c) + c.queued == c.sent
    && (forall p :: p in c.chunks ==> p != []) && (c.pc.Holding? ==> c.pc.chunk != [])
    && (c.pc.Sending? || c.pc.Ended? ==> !c.readOpen)
    && (c.sawEof ==> c.writersGone && c.queued == [] && !c.pc.Copying? && !c.pc.Holding?)
  }

  /** Tokens received so far, as the code's own control flow counts them. */
  function Counted(m: MainPc): nat {
    match m
    case Selecting => 0
    case Draining(done) => done
    case CloseOut(done, _) => done
    case CloseErr(done, _) => done
    case Forced(done, _) => done
    case AwaitReap => 2
    case Returned(_) => 2
  }

  /** The control state, whatever the bytes. */
  ghost predicate Control(s: State) {
    && s.tokens + s.received == EndedCount(s)
    && s.received == Counted(s.main) && (s.main.Returned? || s.main.AwaitReap? || s.received < 2)
    && (s.main.CloseErr? || s.main.Forced? ==> !s.out.readOpen)
    && (s.main.Forced? ==> !s.err.readOpen)
  }

  ghost predicate Inv(s: State) {
    CopyOk(s.out) && CopyOk(s.err) && Control(s)
  }

  lemma {:induction false} ConcatAppend(ps: seq<Chunk>, p: Chunk)
    ensures Concat(ps + [p]) == Concat(ps) + p
  {
    if ps != [] {
      assert (ps + [p])[1..] == ps[1..] + [p];
      ConcatAppend(ps[1..], p);
    } else {
      assert ps + [p] == [p];
    }
  }

  lemma MoveKeepsCopy(c: Copy, m: Move)
    requires CopyOk(c) && CanMove(c, m)
    ensures CopyOk(AfterMove(c, m))
  {
    match m
    case ChildWrite(data) => assert Concat(c.chunks) + InHand(c) + (c.queued + data) == c.sent + data;
    case Read(n) => assert Concat(c.chunks) + c.queued[..n] + c.queued[n..] == Concat(c.chunks) + [] + c.queued;
    case Store => StoreKeepsCopy(c);
    case _ =>
  }

  lemma StoreKeepsCopy(c: Copy)
    requires CopyOk(c) && c.pc.Holding?
    ensures CopyOk(AfterMove(c, Store))
  {
    ConcatAppend(c.chunks, c.pc.chunk);
    assert Concat(c.chunks + [c.pc.chunk]) + [] + c.queued == Concat(c.chunks) + c.pc.chunk + c.queued;
  }

  /** A forced close of the read end. */
  lemma CloseKeepsCopy(c: Copy)
    requires CopyOk(c)
    ensures CopyOk(c.(readOpen := false))
  {
  }

  lemma MoveKeepsControl(s: State, w: Which, m: Move)
    requires Control(s) && Enabled(s, Pipe(w, m))
    ensures Control(Apply(s, Pipe(w, m)))
  {
  }

  lemma MainKeepsControl(s: State, step: Step)
    requires Control(s) && Enabled(s, step) && !step.Pipe?
    ensures Control(Apply(s, step))
  {
  }

  lemma StepKeepsInv(s: State, step: Step)
    requires Inv(s) && Enabled(s, step)
    ensures Inv(Apply(s, step)) && Apply(s, step).max == s.max
  {
    if step.Pipe? {
      MoveKeepsCopy(Get(s, step.w), step.move);
      MoveKeepsControl(s, step.w, step.move);
    } else {
      CloseKeepsCopy(s.out);
      CloseKeepsCopy(s.err);
      MainKeepsControl(s, step);
    }
  }

  lemma {:induction false} RunKeepsInv(s: State, steps: seq<Step>, u: State)
    requires Inv(s) && Runs(s, steps, u)
    ensures Inv(u) && u.max == s.max
    decreases steps
  {
    if steps != [] {
      StepKeepsInv(s, steps[0]);
      RunKeepsInv(Apply(s, steps[0]), steps[1..], u);
    }
  }

  // ----- what the protocol promises

  /** Whichever way waitCommand returns: exactly two tokens were received and
      none is left, both copies have ended, and both read ends are shut. */
  lemma ReturnsQuiescent(max: int, steps: seq<Step>, u: State)
    requires Runs(Init(max), steps, u) && u.main.Returned?
    ensures u.received == 2 && u.tokens == 0
    ensures u.out.pc.Ended? && u.err.pc.Ended? && !u.out.readOpen && !u.err.readOpen
  {
    assert Inv(Init(max));
    RunKeepsInv(Init(max), steps, u);
  }

  /** No receive too many: the sends are never outnumbered. */
  lemma NeverOverReceives(max: int, steps: seq<Step>, u: State)
    requires Runs(Init(max), steps, u)
    ensures u.received + u.tokens <= 2
    ensures Enabled(u, Receive) ==> u.received < 2
  {
    assert Inv(Init(max));
    RunKeepsInv(Init(max), steps, u);
  }

  /** The sink's contents when it retains at most max bytes. */
  function Captured(s: State, w: Which): Sink {
    WrittenAll(s.max, Sink([], false), Get(s, w).chunks)
  }

  lemma {:induction false} EndedStays(s: State, step: Step, w: Which)
    requires Enabled(s, step) && Get(s, w).pc.Ended?
    ensures var u := Apply(s, step);
      Get(u, w).pc.Ended? && Get(u, w).chunks == Get(s, w).chunks && u.max == s.max
  {
  }

  /** Once a copy has ended nothing changes its capture again. */
  lemma {:induction false} CaptureIsFinal(s: State, steps: seq<Step>, u: State, w: Which)
    requires Runs(s, steps, u) && Get(s, w).pc.Ended?
    ensures Captured(u, w) == Captured(s, w) && Get(u, w).pc.Ended?
    decreases steps
  {
    if steps != [] {
      EndedStays(s, steps[0], w);
      CaptureIsFinal(Apply(s, steps[0]), steps[1..], u, w);
    }
  }

  /** On return each capture is the first max bytes of what its copy read,
      flagged exactly when the copy read more; and a copy that ended on EOF
      read everything that was ever written. */
  lemma CaptureIsHead(max: int, steps: seq<Step>, u: State, w: Which)
    requires Runs(Init(max), steps, u) && u.main.Returned?
    ensures var c := Get(u, w); var read := Concat(c.chunks);
      && Captured(u, w).buf == Head(max, read)
      && (Captured(u, w).truncated <==> |read| > Order.Max(0, max))
      && read + c.queued == c.sent
      && (c.sawEof ==> read == c.sent)
  {
    assert Inv(Init(max));
    RunKeepsInv(Init(max), steps, u);
    ReturnsQuiescent(max, steps, u);
    var c := Get(u, w);
    CaptureIsPrefix(max, c.chunks);
    TruncatedMeansMore(max, c.chunks);
    assert Concat(c.chunks) + [] + c.queued == Concat(c.chunks) + c.queued;
  }

  // ----- a clean exit captures everything

  /** The drain bound did not expire and the run was not cancelled before the child
      was reaped. */
  predicate Clean(step: Step) {
    !step.DrainTimer? && !step.SelectCancelled?
  }

  /** The copy alone closes its read end, having seen the end of its pipe. */
  ghost predicate Untouched(c: Copy) {
    && (c.pc.Copying? || c.pc.Holding? ==> c.readOpen)
    && (c.pc.Closing? || c.pc.Sending? || c.pc.Ended? ==> c.sawEof)
  }

  ghost predicate CleanSoFar(s: State) {
    && Untouched(s.out) && Untouched(s.err)
    && (s.main.Selecting? || s.main.Draining? || s.main == Returned(Exited))
  }

  lemma CleanStep(s: State, step: Step)
    requires CleanSoFar(s) && Enabled(s, step) && Clean(step)
    ensures CleanSoFar(Apply(s, step))
  {
  }

  lemma {:induction false} CleanRun(s: State, steps: seq<Step>, u: State)
    requires CleanSoFar(s) && Runs(s, steps, u) && forall step :: step in steps ==> Clean(step)
    ensures CleanSoFar(u)
    decreases steps
  {
    if steps != [] {
      assert steps[0] in steps;
      CleanStep(s, steps[0]);
      CleanRun(Apply(s, steps[0]), steps[1..], u);
    }
  }

  /** Then each capture is the first max bytes of all that was ever sent, flagged
      exactly when more was. */
  lemma CleanExitCapturesAll(max: int, steps: seq<Step>, u: State, w: Which)
    requires Runs(Init(max), steps, u) && u.main.Returned? && forall step :: step in steps ==> Clean(step)
    ensures u.main == Returned(Exited) && Get(u, w).sawEof && Get(u, w).writersGone
    ensures Captured(u, w).buf == Head(max, Get(u, w).sent)
    ensures Captured(u, w).truncated <==> |Get(u, w).sent| > Order.Max(0, max)
  {
    CleanRun(Init(max), steps, u);
    ReturnsQuiescent(max, steps, u);
    CaptureIsHead(max, steps, u, w);
    assert Inv(Init(max));
    RunKeepsInv(Init(max), steps, u);
  }

  /** What a copy still has to do before its token. */
  function CopyWork(c: Copy): nat {
    2 * |c.queued| + CopyRank(c.pc)
  }

  function CleanWork(s: State): nat {
    2 * (CopyWork(s.out) + CopyWork(s.err)) + s.tokens + (if s.main.Selecting? then 5 else if s.main.Draining? then 4 else 0)
  }

  /** The child is reaped and nothing holds the write ends. */
  predicate WritersDone(s: State) {
    s.reaped && s.out.writersGone && s.err.writersGone
  }

  function CopyMove(c: Copy): Move
    requires !c.pc.Ended?
  {
    match c.pc
    case Copying => if c.readOpen && c.queued != [] then Read(|c.queued|) else Stop
    case Holding(_) => Store
    case Closing => CloseOwn
    case Sending => Send
  }

  lemma CopyMoves(c: Copy)
    requires CopyOk(c) && Untouched(c) && c.writersGone && !c.pc.Ended?
    ensures var m := CopyMove(c); CanMove(c, m) && CopyWork(AfterMove(c, m)) < CopyWork(c)
  {
    if c.pc.Copying? && c.queued != [] {
      assert c.queued[|c.queued|..] == [];
      assert AfterMove(c, CopyMove(c)).queued == [];
    }
  }

  /** From there some clean steps of the copies and of waitCommand always lead to a
      clean exit. */
  lemma {:induction false} CleanExitComes(s: State) returns (steps: seq<Step>, u: State)
    requires Inv(s) && CleanSoFar(s) && WritersDone(s)
    ensures Runs(s, steps, u) && u.main == Returned(Exited)
    ensures forall step :: step in steps ==> Clean(step) && OwnStep(step)
    decreases CleanWork(s)
  {
    if s.main.Returned? {
      steps, u := [], s;
    } else {
      var step := CleanNext(s);
      StepKeepsInv(s, step);
      CleanStep(s, step);
      var rest, v := CleanExitComes(Apply(s, step));
      steps, u := [step] + rest, v;
      assert steps[1..] == rest;
    }
  }

  lemma CleanNext(s: State) returns (step: Step)
    requires Inv(s) && CleanSoFar(s) && WritersDone(s) && !s.main.Returned?
    ensures Enabled(s, step) && Clean(step) && OwnStep(step)
    ensures WritersDone(Apply(s, step)) && CleanWork(Apply(s, step)) < CleanWork(s)
  {
    if s.main.Selecting? {
      step := SelectReaped;
    } else if s.tokens > 0 {
      step := Receive;
    } else {
      var w := if s.out.pc.Ended? then Err else Out;
      CopyMoves(Get(s, w));
      step := Pipe(w, CopyMove(Get(s, w)));
    }
  }

  /** Whatever the child wrote, a run that captures it. */
  lemma WritingThenExit(max: int, out: Chunk, err: Chunk) returns (steps: seq<Step>, u: State)
    ensures Runs(Init(max), steps, u) && u.main == Returned(Exited) && forall step :: step in steps ==> Clean(step)
    ensures Captured(u, Out).buf == Head(max, out) && Captured(u, Err).buf == Head(max, err)
  {
    var before, s := Written(max, out, err);
    var after, v := CleanExitComes(s);
    RunsThen(Init(max), before, s, after, v);
    steps, u := before + after, v;
    SentStays(s, after, v);
    CleanExitCapturesAll(max, steps, u, Out);
    CleanExitCapturesAll(max, steps, u, Err);
  }

  lemma Written(max: int, out: Chunk, err: Chunk) returns (steps: seq<Step>, u: State)
    ensures Runs(Init(max), steps, u) && Inv(u) && CleanSoFar(u) && WritersDone(u) && u.out.sent == out && u.err.sent == err
    ensures forall step :: step in steps ==> Clean(step)
  {
    var s := Init(max);
    var a := Apply(s, Pipe(Out, ChildWrite(out)));
    var b := Apply(a, Pipe(Err, ChildWrite(err)));
    var c := Apply(b, Pipe(Out, WritersGo));
    var d := Apply(c, Pipe(Err, WritersGo));
    u := Apply(d, Reap);
    steps := [Pipe(Out, ChildWrite(out)), Pipe(Err, ChildWrite(err)), Pipe(Out, WritersGo), Pipe(Err, WritersGo), Reap];
    assert Inv(s);
    assert Runs(d, steps[4..], u) by { assert steps[4..][1..] == []; }
    assert Runs(c, steps[3..], u) by { assert steps[3..][1..] == steps[4..]; }
    assert Runs(b, steps[2..], u) by { assert steps[2..][1..] == steps[3..]; }
    assert Runs(a, steps[1..], u) by { assert steps[1..][1..] == steps[2..]; }
    RunKeepsInv(s, steps, u);
    CleanRun(s, steps, u);
  }

  lemma {:induction false} RunsThen(s: State, a: seq<Step>, t: State, b: seq<Step>, u: State)
    requires Runs(s, a, t) && Runs(t, b, u)
    ensures Runs(s, a + b, u)
    decreases a
  {
    if a == [] {
      assert a + b == b;
    } else {
      RunsThen(Apply(s, a[0]), a[1..], t, b, u);
      assert (a + b)[0] == a[0] && (a + b)[1..] == a[1..] + b;
    }
  }

  lemma StepSends(s: State, step: Step)
    requires Enabled(s, step) && s.out.writersGone && s.err.writersGone
    ensures var u := Apply(s, step); u.out.sent == s.out.sent && u.err.sent == s.err.sent && u.out.writersGone && u.err.writersGone
  {
  }

  lemma {:induction false} SentStays(s: State, steps: seq<Step>, u: State)
    requires Runs(s, steps, u) && s.out.writersGone && s.err.writersGone
    ensures u.out.sent == s.out.sent && u.err.sent == s.err.sent
    decreases steps
  {
    if steps != [] {
      StepSends(s, steps[0]);
      SentStays(Apply(s, steps[0]), steps[1..], u);
    }
  }

  // ----- how it ended

  /** waitCommand waited for the child on every path but one. */
  ghost predicate Told(s: State) {
    match s.main
    case Draining(_) => s.reaped
    case CloseOut(_, cancelled) => if cancelled then s.cancelled else s.reaped
    case CloseErr(_, cancelled) => if cancelled then s.cancelled else s.reaped
    case Forced(_, cancelled) => if cancelled then s.cancelled else s.reaped
    case AwaitReap => s.cancelled
    case Returned(Exited) => s.reaped
    case Returned(CancelledThenReaped) => s.cancelled && s.reaped
    case Returned(Unkillable) => s.cancelled
    case Selecting => true
  }

  /** An exit is reported of a reaped child only, and an unkillable one only after a
      cancellation. */
  lemma {:induction false} EndingMeans(s: State, steps: seq<Step>, u: State)
    requires Told(s) && Runs(s, steps, u)
    ensures Told(u)
    decreases steps
  {
    if steps != [] {
      EndingMeans(Apply(s, steps[0]), steps[1..], u);
    }
  }

  // ----- no receive blocks

  function CopyRank(pc: CopyPc): nat {
    match pc
    case Holding(_) => 4
    case Copying => 3
    case Closing => 2
    case Sending => 1
    case Ended => 0
  }

  /** What is left before the second token, once both read ends are closed. */
  function Left(s: State): int {
    CopyRank(s.out.pc) + CopyRank(s.err.pc) + (2 - s.received)
  }

  predicate OwnStep(step: Step) {
    !step.Reap? && !step.Cancel? && (step.Pipe? ==> !step.move.ChildWrite? && !step.move.WritersGo?)
  }

  /** With the read ends closed, a waiting receive has its token or some copy
      can take a step towards sending one, whatever holds the write ends. */
  lemma ReceiveNeverBlocks(max: int, steps: seq<Step>, u: State) returns (next: Step)
    requires Runs(Init(max), steps, u) && u.main.Forced?
    ensures Enabled(u, next) && OwnStep(next)
    ensures next.Receive? || next.Pipe?
  {
    assert Inv(Init(max));
    RunKeepsInv(Init(max), steps, u);
    if u.tokens > 0 {
      next := Receive;
    } else {
      var w := if u.out.pc.Ended? then Err else Out;
      assert !Get(u, w).pc.Ended? && !Get(u, w).readOpen;
      next := match Get(u, w).pc
        case Holding(_) => Pipe(w, Store)
        case Copying => Pipe(w, Stop)
        case Closing => Pipe(w, CloseOwn)
        case Sending => Pipe(w, Send)
        case Ended => Receive;
    }
  }

  lemma MoveRank(c: Copy, m: Move)
    requires CanMove(c, m) && !c.readOpen
    ensures CopyRank(AfterMove(c, m).pc) == CopyRank(c.pc) - (if m.ChildWrite? || m.WritersGo? then 0 else 1)
    ensures !AfterMove(c, m).readOpen
  {
  }

  /** And only finitely many such steps remain: no step raises the measure and
      every copy's or waitCommand's own step lowers it. */
  lemma ForcedMakesProgress(s: State, step: Step)
    requires Inv(s) && s.main.Forced? && Enabled(s, step)
    ensures 0 <= Left(Apply(s, step)) <= Left(s) - (if OwnStep(step) then 1 else 0)
    ensures var m := Apply(s, step).main; m.Forced? || (m.AwaitReap? && s.main.cancelled) || (m == Returned(Exited) && !s.main.cancelled)
  {
    if step.Pipe? {
      MoveRank(Get(s, step.w), step.move);
    } else {
      MainKeepsControl(s, step);
    }
  }

  /** From the first select on, waitCommand itself can always move within
      bounded time: a timer, a close, a reap, or the steps above. */
  lemma NeverStuck(max: int, steps: seq<Step>, u: State) returns (next: Step)
    requires Runs(Init(max), steps, u) && !u.main.Selecting? && !u.main.Returned?
    ensures Enabled(u, next) && OwnStep(next)
  {
    assert Inv(Init(max));
    RunKeepsInv(Init(max), steps, u);
    if u.main.Forced? {
      next := ReceiveNeverBlocks(max, steps, u);
    } else if u.main.Draining? {
      next := DrainTimer;
    } else if u.main.AwaitReap? {
      next := GraceTimer;
    } else {
      next := ForceClose;
    }
  }
}
