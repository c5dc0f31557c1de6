/** The filesystem protocol of the cache, for the path of one key
    (internal/cache/cache.go). */
module CacheFiles {
  import opened Wrappers

  datatype Rec = Rec(completed: bool, createdAt: int, payload: string)

  datatype Defect = Oversized | Garbage | OldSchema | Directory | Special

  /** What stands at a path. An entry is a whole, valid record file. */
  datatype Obj = Missing | Entry(rec: Rec) | Bad(defect: Defect)

  datatype Outcome =
    | Miss | Hit(rec: Rec) | Expired(rec: Rec) | Incomplete(rec: Rec)
    | Corrupt | SchemaIncompatible | Failure

  predicate IsRegular(o: Obj) {
    o.Entry? || (o.Bad? && !o.defect.Directory? && !o.defect.Special?)
  }

  /** evaluate: expiry first, then status. A ttl of zero disables expiry. */
  function Evaluate(ttl: nat, now: int, rec: Rec): Outcome {
    if ttl > 0 && now - rec.createdAt > ttl then Expired(rec)
    else if !rec.completed then Incomplete(rec)
    else Hit(rec)
  }

  /** What one atomic look at the path answers. */
  function Answer(ttl: nat, now: int, o: Obj): Outcome {
    match o
    case Missing => Miss
    case Entry(rec) => Evaluate(ttl, now, rec)
    case Bad(OldSchema) => SchemaIncompatible
    case Bad(_) => Corrupt
  }

  // ----- threads

  // Readers take no lock, writers rename under a mutex, unusable entries are
  // removed by self-healing and maintenance, the process may crash, and its
  // surroundings may put an unusable object in the entry's place at any moment.

  /** readEntry takes three steps: Lstat, open (after which the descriptor
      stays on what was opened), classify. */
  datatype Phase = AtLstat | AtOpen | AtClassify(seen: Obj)

  /** A lookup's answer: read at moment at, evaluated at time judged. */
  datatype Verdict = Verdict(at: nat, judged: int, out: Outcome)

  datatype Pc =
    | Idle
    | Looking(start: nat) | Opening(start: nat) | Judging(start: nat, at: nat, seen: Obj)
    | HealWaiting(start: nat, v: Verdict) | Rechecking(start: nat, v: Verdict, phase: Phase)
    | HealRemoving(start: nat, v: Verdict) | HealLeaving(start: nat, v: Verdict)
    | Answered(start: nat, v: Verdict)
    | PutWaiting(rec: Rec) | PutLocked(rec: Rec) | PutWriting(rec: Rec, temp: nat)
    | PutWritten(rec: Rec, temp: nat) | PutLeaving(temp: nat)
    | DeleteWaiting | DeleteLocked
    | ClearWaiting | ClearLocked
    | SweepWaiting | Sweeping(phase: Phase) | SweepRemoving
    | Leaving

  predicate HoldsLock(pc: Pc) {
    || pc.Rechecking? || pc.HealRemoving? || pc.HealLeaving?
    || pc.PutLocked? || pc.PutWriting? || pc.PutWritten? || pc.PutLeaving?
    || pc.DeleteLocked? || pc.ClearLocked? || pc.Sweeping? || pc.SweepRemoving? || pc.Leaving?
  }

  /** A temporary file: the record being written, and whether all of it is. */
  datatype Temp = Temp(rec: Rec, complete: bool)

  /** hist[i] is what stood at the path after i steps; asked are the records
      ever given to Put. */
  datatype State = State(
    ttl: nat, now: int, path: Obj, temps: map<nat, Temp>, owner: Option<nat>, threads: map<nat, Pc>,
    hist: seq<Obj>, asked: set<Rec>)

  function PcOf(s: State, t: nat): Pc {
    if t in s.threads then s.threads[t] else Idle
  }

  datatype Op = Get | Put(rec: Rec) | Delete | Clear | Invalidate

  /** Remove's done says whether the unlink succeeded (a directory may resist
      it). Fail is any I/O error. Crash ends the process; the files stay. */
  datatype Step =
    | Call(t: nat, op: Op) | Acquire(t: nat) | Release(t: nat) | Return(t: nat)
    | Lstat(t: nat) | Open(t: nat) | Classify(t: nat) | Fail(t: nat)
    | Create(t: nat, temp: nat) | Finish(t: nat) | Rename(t: nat)
    | Remove(t: nat, done: bool) | SweepTemp(t: nat, temp: nat)
    | Crash | Tick(elapsed: nat) | Plant(defect: Defect)

  predicate Enabled(s: State, step: Step) {
    match step
    case Call(t, _) => PcOf(s, t).Idle?
    case Acquire(t) =>
      s.owner.None? && var pc := PcOf(s, t); pc.HealWaiting? || pc.PutWaiting? || pc.DeleteWaiting? || pc.ClearWaiting? || pc.SweepWaiting?
    case Release(t) => var pc := PcOf(s, t); pc.HealLeaving? || pc.PutLeaving? || pc.Leaving?
    case Return(t) => PcOf(s, t).Answered?
    case Lstat(t) => var pc := PcOf(s, t);
      pc.Looking? || (pc.Rechecking? && pc.phase.AtLstat?) || (pc.Sweeping? && pc.phase.AtLstat?)
    case Open(t) => var pc := PcOf(s, t);
      pc.Opening? || (pc.Rechecking? && pc.phase.AtOpen?) || (pc.Sweeping? && pc.phase.AtOpen?)
    case Classify(t) => var pc := PcOf(s, t);
      pc.Judging? || (pc.Rechecking? && pc.phase.AtClassify?) || (pc.Sweeping? && pc.phase.AtClassify?)
    case Fail(t) => var pc := PcOf(s, t);
      || pc.Looking? || pc.Opening? || pc.Judging? || pc.Rechecking?
      || pc.PutLocked? || pc.PutWriting? || pc.PutWritten? || pc.Sweeping?
    case Create(t, k) => PcOf(s, t).PutLocked? && k !in s.temps
    case Finish(t) => PcOf(s, t).PutWriting? && PcOf(s, t).temp in s.temps
    case Rename(t) => PcOf(s, t).PutWritten? && PcOf(s, t).temp in s.temps
    case Remove(t, _) => var pc := PcOf(s, t); pc.HealRemoving? || pc.DeleteLocked? || pc.ClearLocked? || pc.SweepRemoving?
    case SweepTemp(t, k) => PcOf(s, t).Sweeping? && k in s.temps
    case Crash => true
    case Tick(_) => true
    case Plant(_) => true
  }

  function NowAt(s: State): nat { if s.hist == [] then 0 else |s.hist| - 1 }

  function Begin(s: State, op: Op): Pc {
    match op
    case Get => Looking(NowAt(s))
    case Put(rec) => PutWaiting(rec)
    case Delete => DeleteWaiting
    case Clear => ClearWaiting
    case Invalidate => SweepWaiting
  }

  function Enter(pc: Pc): Pc {
    match pc
    case HealWaiting(start, v) => Rechecking(start, v, AtLstat)
    case PutWaiting(rec) => PutLocked(rec)
    case DeleteWaiting => DeleteLocked
    case ClearWaiting => ClearLocked
    case SweepWaiting => Sweeping(AtLstat)
    case _ => pc
  }

  function Leave(pc: Pc): Pc {
    if pc.HealLeaving? then Answered(pc.start, pc.v) else Idle
  }

  /** One look at the path: a missing or irregular object is decided at once. */
  function AfterLstat(s: State, pc: Pc): Pc {
    var regular := IsRegular(s.path);
    match pc
    case Looking(start) => if regular then Opening(start) else Judging(start, NowAt(s), s.path)
    case Rechecking(start, v, _) => Rechecking(start, v, if regular then AtOpen else AtClassify(s.path))
    case Sweeping(_) => Sweeping(if regular then AtOpen else AtClassify(s.path))
    case _ => pc
  }

  function AfterOpen(s: State, pc: Pc): Pc {
    match pc
    case Opening(start) => Judging(start, NowAt(s), s.path)
    case Rechecking(start, v, _) => Rechecking(start, v, AtClassify(s.path))
    case Sweeping(_) => Sweeping(AtClassify(s.path))
    case _ => pc
  }

  function AfterClassify(s: State, pc: Pc): Pc {
    match pc
    case Judging(start, at, seen) =>
      var v := Verdict(at, s.now, Answer(s.ttl, s.now, seen));
      if seen.Bad? then HealWaiting(start, v) else Answered(start, v)
    case Rechecking(start, v, AtClassify(seen)) => if seen.Bad? then HealRemoving(start, v) else HealLeaving(start, v)
    case Sweeping(AtClassify(seen)) => if seen.Bad? then SweepRemoving else Leaving
    case _ => pc
  }

  function AfterFail(s: State, pc: Pc): Pc {
    if pc.Looking? || pc.Opening? || pc.Judging? then Answered(pc.start, Verdict(NowAt(s), s.now, Failure))
    else if pc.Rechecking? then HealLeaving(pc.start, pc.v)
    else if pc.PutWriting? || pc.PutWritten? then PutLeaving(pc.temp)
    else Leaving
  }

  function AfterRemove(pc: Pc): Pc {
    if pc.HealRemoving? then HealLeaving(pc.start, pc.v) else Leaving
  }

  /** One thread moves; the history grows by what now stands at the path. */
  function Move(s: State, t: nat, pc: Pc, path: Obj, temps: map<nat, Temp>): State {
    s.(threads := s.threads[t := pc], path := path, temps := temps, hist := s.hist + [path])
  }

  /** os.Rename moves whatever the temporary file holds; a directory in the way
      makes it fail. */
  function Renamed(s: State, temp: nat): Obj
    requires temp in s.temps
  {
    if s.path == Bad(Directory) then s.path
    else if s.temps[temp].complete then Entry(s.temps[temp].rec)
    else Bad(Garbage)
  }

  function Apply(s: State, step: Step): State
    requires Enabled(s, step)
  {
    match step
    case Call(t, op) =>
      Move(s, t, Begin(s, op), s.path, s.temps).(asked := if op.Put? then s.asked + {op.rec} else s.asked)
    case Acquire(t) => Move(s, t, Enter(PcOf(s, t)), s.path, s.temps).(owner := Some(t))
    case Release(t) =>
      var pc := PcOf(s, t);
      Move(s, t, Leave(pc), s.path, if pc.PutLeaving? then s.temps - {pc.temp} else s.temps).(owner := None)
    case Return(t) => Move(s, t, Idle, s.path, s.temps)
    case Lstat(t) => Move(s, t, AfterLstat(s, PcOf(s, t)), s.path, s.temps)
    case Open(t) => Move(s, t, AfterOpen(s, PcOf(s, t)), s.path, s.temps)
    case Classify(t) => Move(s, t, AfterClassify(s, PcOf(s, t)), s.path, s.temps)
    case Fail(t) => Move(s, t, AfterFail(s, PcOf(s, t)), s.path, s.temps)
    case Create(t, k) => Move(s, t, PutWriting(PcOf(s, t).rec, k), s.path, s.temps[k := Temp(PcOf(s, t).rec, false)])
    case Finish(t) =>
      var pc := PcOf(s, t);
      Move(s, t, PutWritten(pc.rec, pc.temp), s.path, s.temps[pc.temp := Temp(s.temps[pc.temp].rec, true)])
    case Rename(t) =>
      var k := PcOf(s, t).temp;
      Move(s, t, PutLeaving(k), Renamed(s, k), if s.path == Bad(Directory) then s.temps else s.temps - {k})
    case Remove(t, done) =>
      var pc := PcOf(s, t);
      Move(s, t, AfterRemove(pc), if done then Missing else s.path, if pc.ClearLocked? then map[] else s.temps)
    case SweepTemp(t, k) => Move(s, t, PcOf(s, t), s.path, s.temps - {k})
    case Crash => s.(threads := map[], owner := None, hist := s.hist + [s.path])
    case Tick(d) => s.(now := s.now + d, hist := s.hist + [s.path])
    case Plant(d) => s.(path := Bad(d), hist := s.hist + [Bad(d)])
  }

  ghost predicate Runs(s: State, steps: seq<Step>, u: State)
    decreases steps
  {
    if steps == [] then s == u else Enabled(s, steps[0]) && Runs(Apply(s, steps[0]), steps[1..], u)
  }

  /** A fresh process over whatever the last one left. */
  predicate Initial(s: State) {
    s.threads == map[] && s.owner.None? && s.hist == [s.path] && (s.path.Entry? ==> s.path.rec in s.asked)
  }

  // ----- the invariant

  /** The answer is what the path gave at one moment of the call. */
  ghost predicate Justified(s: State, start: nat, v: Verdict) {
    && start <= v.at < |s.hist| && v.judged <= s.now
    && (v.out.Failure? || v.out == Answer(s.ttl, v.judged, s.hist[v.at]))
  }

  predicate FoundBad(phase: Phase) {
    phase.AtClassify? && phase.seen.Bad?
  }

  ghost predicate ThreadOk(s: State, pc: Pc) {
    match pc
    case Looking(start) => start < |s.hist|
    case Opening(start) => start < |s.hist|
    case Judging(start, at, seen) => start <= at < |s.hist| && s.hist[at] == seen
    case HealWaiting(start, v) => Justified(s, start, v)
    case Rechecking(start, v, phase) => Justified(s, start, v) && (FoundBad(phase) ==> !s.path.Entry?)
    case HealRemoving(start, v) => Justified(s, start, v) && !s.path.Entry?
    case HealLeaving(start, v) => Justified(s, start, v)
    case Answered(start, v) => Justified(s, start, v)
    case PutWaiting(rec) => rec in s.asked
    case PutLocked(rec) => rec in s.asked
    case PutWriting(rec, k) => rec in s.asked && k in s.temps && s.temps[k].rec == rec
    case PutWritten(rec, k) => rec in s.asked && k in s.temps && s.temps[k] == Temp(rec, true)
    case Sweeping(phase) => FoundBad(phase) ==> !s.path.Entry?
    case SweepRemoving => !s.path.Entry?
    case _ => true
  }

  ghost predicate Inv(s: State) {
    && s.hist != [] && s.hist[|s.hist| - 1] == s.path
    && (s.path.Entry? ==> s.path.rec in s.asked)
    && (forall t: nat :: HoldsLock(PcOf(s, t)) <==> s.owner == Some(t))
    && (forall t: nat :: ThreadOk(s, PcOf(s, t)))
  }

  lemma InitialInv(s: State)
    requires Initial(s)
    ensures Inv(s)
  {
  }

  /** What a step may change under a thread that does not take it. */
  ghost predicate Tolerates(s: State, u: State, pc: Pc) {
    && s.hist <= u.hist && s.now <= u.now && s.ttl == u.ttl && s.asked <= u.asked
    && (HoldsLock(pc) ==> u.temps == s.temps && (u.path == s.path || !u.path.Entry?))
  }

  lemma OtherThread(s: State, u: State, pc: Pc)
    requires ThreadOk(s, pc) && Tolerates(s, u, pc)
    ensures ThreadOk(u, pc)
  {
  }

  /** One thread's step keeps every other thread in order. */
  lemma MoveKeepsInv(s: State, u: State, t: nat)
    requires Inv(s) && u.hist == s.hist + [u.path] && u.now == s.now && u.ttl == s.ttl && s.asked <= u.asked
    requires u.path.Entry? ==> u.path.rec in u.asked
    requires forall x: nat :: x != t ==> PcOf(u, x) == PcOf(s, x)
    requires ThreadOk(u, PcOf(u, t)) && (HoldsLock(PcOf(u, t)) <==> u.owner == Some(t))
    requires s.owner == Some(t) ==> u.owner.None? || u.owner == Some(t)
    requires s.owner != Some(t) ==> u.temps == s.temps && u.path == s.path && (u.owner == s.owner || (s.owner.None? && u.owner == Some(t)))
    ensures Inv(u)
  {
    forall x: nat ensures ThreadOk(u, PcOf(u, x)) {
      if x != t {
        assert ThreadOk(s, PcOf(s, x));
        OtherThread(s, u, PcOf(s, x));
      }
    }
    forall x: nat ensures HoldsLock(PcOf(u, x)) <==> u.owner == Some(x) {
      assert HoldsLock(PcOf(s, x)) <==> s.owner == Some(x);
    }
  }

  /** Steps that leave the path alone and touch no lock. */
  lemma ReadStep(s: State, step: Step)
    requires Inv(s) && Enabled(s, step) && (step.Lstat? || step.Open?)
    ensures Inv(Apply(s, step))
  {
    assert ThreadOk(s, PcOf(s, step.t));
    assert HoldsLock(PcOf(s, step.t)) <==> s.owner == Some(step.t);
    MoveKeepsInv(s, Apply(s, step), step.t);
  }

  lemma AnswerStep(s: State, step: Step)
    requires Inv(s) && Enabled(s, step) && (step.Classify? || step.Return?)
    ensures Inv(Apply(s, step))
  {
    assert ThreadOk(s, PcOf(s, step.t));
    assert HoldsLock(PcOf(s, step.t)) <==> s.owner == Some(step.t);
    MoveKeepsInv(s, Apply(s, step), step.t);
  }

  lemma FailStep(s: State, t: nat)
    requires Inv(s) && Enabled(s, Fail(t))
    ensures Inv(Apply(s, Fail(t)))
  {
    assert ThreadOk(s, PcOf(s, t));
    assert HoldsLock(PcOf(s, t)) <==> s.owner == Some(t);
    MoveKeepsInv(s, Apply(s, Fail(t)), t);
  }

  lemma CallStep(s: State, t: nat, op: Op)
    requires Inv(s) && Enabled(s, Call(t, op))
    ensures Inv(Apply(s, Call(t, op)))
  {
    assert HoldsLock(PcOf(s, t)) <==> s.owner == Some(t);
    MoveKeepsInv(s, Apply(s, Call(t, op)), t);
  }

  lemma LockStep(s: State, step: Step)
    requires Inv(s) && Enabled(s, step) && (step.Acquire? || step.Release?)
    ensures Inv(Apply(s, step))
  {
    assert ThreadOk(s, PcOf(s, step.t));
    assert HoldsLock(PcOf(s, step.t)) <==> s.owner == Some(step.t);
    MoveKeepsInv(s, Apply(s, step), step.t);
  }

  lemma WriteStep(s: State, step: Step)
    requires Inv(s) && Enabled(s, step)
    requires step.Create? || step.Finish? || step.Rename? || step.Remove? || step.SweepTemp?
    ensures Inv(Apply(s, step))
  {
    assert ThreadOk(s, PcOf(s, step.t));
    assert HoldsLock(PcOf(s, step.t)) <==> s.owner == Some(step.t);
    MoveKeepsInv(s, Apply(s, step), step.t);
  }

  lemma OutsideStep(s: State, step: Step)
    requires Inv(s) && Enabled(s, step) && (step.Crash? || step.Tick? || step.Plant?)
    ensures Inv(Apply(s, step))
  {
    var u := Apply(s, step);
    forall x: nat ensures ThreadOk(u, PcOf(u, x)) {
      assert ThreadOk(s, PcOf(s, x));
      OtherThread(s, u, PcOf(s, x));
    }
    forall x: nat ensures HoldsLock(PcOf(u, x)) <==> u.owner == Some(x) {
      assert HoldsLock(PcOf(s, x)) <==> s.owner == Some(x);
    }
  }

  lemma StepKeepsInv(s: State, step: Step)
    requires Inv(s) && Enabled(s, step)
    ensures Inv(Apply(s, step))
  {
    match step
    case Call(t, op) => CallStep(s, t, op);
    case Acquire(_) => LockStep(s, step);
    case Release(_) => LockStep(s, step);
    case Return(_) => AnswerStep(s, step);
    case Lstat(_) => ReadStep(s, step);
    case Open(_) => ReadStep(s, step);
    case Classify(_) => AnswerStep(s, step);
    case Fail(t) => FailStep(s, t);
    case Create(_, _) => WriteStep(s, step);
    case Finish(_) => WriteStep(s, step);
    case Rename(_) => WriteStep(s, step);
    case Remove(_, _) => WriteStep(s, step);
    case SweepTemp(_, _) => WriteStep(s, step);
    case Crash => OutsideStep(s, step);
    case Tick(_) => OutsideStep(s, step);
    case Plant(_) => OutsideStep(s, step);
  }

  lemma {:induction false} RunKeepsInv(s: State, steps: seq<Step>, u: State)
    requires Inv(s) && Runs(s, steps, u)
    ensures Inv(u) && s.hist <= u.hist
    decreases steps
  {
    if steps != [] {
      StepKeepsInv(s, steps[0]);
      RunKeepsInv(Apply(s, steps[0]), steps[1..], u);
    }
  }

  // ----- what the protocol promises

  /** Every lookup that answers without an I/O error answers what the path held
      at one moment between its call and its return. */
  lemma LookupsAreAtomic(s: State, steps: seq<Step>, u: State, t: nat)
    requires Initial(s) && Runs(s, steps, u) && PcOf(u, t).Answered? && !PcOf(u, t).v.out.Failure?
    ensures var pc := PcOf(u, t);
      && pc.start <= pc.v.at < |u.hist|
      && pc.v.out == Answer(u.ttl, pc.v.judged, u.hist[pc.v.at]) && pc.v.judged <= u.now
  {
    InitialInv(s);
    RunKeepsInv(s, steps, u);
    assert ThreadOk(u, PcOf(u, t));
  }

  /** What that answer is, by the object that stood there and the time of the
      judgement; a ttl of zero never expires. */
  lemma AnswersMean(s: State, steps: seq<Step>, u: State, t: nat)
    requires Initial(s) && Runs(s, steps, u) && PcOf(u, t).Answered? && !PcOf(u, t).v.out.Failure?
    ensures var v := PcOf(u, t).v; v.at < |u.hist| && var o := u.hist[v.at];
      && (forall rec :: v.out == Hit(rec) <==>
            o == Entry(rec) && rec.completed && (u.ttl == 0 || v.judged - rec.createdAt <= u.ttl))
      && (forall rec :: v.out == Expired(rec) <==> o == Entry(rec) && u.ttl > 0 && v.judged - rec.createdAt > u.ttl)
      && (forall rec :: v.out == Incomplete(rec) <==>
            o == Entry(rec) && !rec.completed && (u.ttl == 0 || v.judged - rec.createdAt <= u.ttl))
      && (v.out.Miss? <==> o.Missing?)
      && (v.out.SchemaIncompatible? <==> o == Bad(OldSchema))
      && (v.out.Corrupt? <==> o.Bad? && o != Bad(OldSchema))
  {
    LookupsAreAtomic(s, steps, u, t);
  }

  ghost predicate NoFailure(s: State) {
    forall t: nat :: Answering(PcOf(s, t)) ==> !PcOf(s, t).v.out.Failure?
  }

  predicate Answering(pc: Pc) {
    pc.HealWaiting? || pc.Rechecking? || pc.HealRemoving? || pc.HealLeaving? || pc.Answered?
  }

  /** A lookup fails only by an I/O error. */
  lemma {:induction false} FailuresAreErrors(s: State, steps: seq<Step>, u: State)
    requires NoFailure(s) && Runs(s, steps, u) && forall step :: step in steps ==> !step.Fail?
    ensures NoFailure(u)
    decreases steps
  {
    if steps != [] {
      assert !steps[0].Fail?;
      FailureStep(s, steps[0]);
      FailuresAreErrors(Apply(s, steps[0]), steps[1..], u);
    }
  }

  lemma FailureStep(s: State, step: Step)
    requires NoFailure(s) && Enabled(s, step) && !step.Fail?
    ensures NoFailure(Apply(s, step))
  {
    forall t: nat | Answering(PcOf(Apply(s, step), t)) ensures !PcOf(Apply(s, step), t).v.out.Failure? {
      assert Answering(PcOf(s, t)) ==> !PcOf(s, t).v.out.Failure?;
    }
  }

  // ----- what each operation does when it is left alone

  lemma {:induction false} RunsThen(s: State, a: seq<Step>, t: State, b: seq<Step>, u: State)
    requires Runs(s, a, t) && Runs(t, b, u)
    ensures Runs(s, a + b, u)
    decreases a
  {
    if a == [] {
      assert a + b == b;
    } else {
      RunsThen(Apply(s, a[0]), a[1..], t, b, u);
      assert (a + b)[0] == a[0] && (a + b)[1..] == a[1..] + b;
    }
  }

  lemma OneStep(s: State, step: Step)
    requires Enabled(s, step)
    ensures Runs(s, [step], Apply(s, step))
  {
    assert [step][1..] == [];
  }

  /** A lookup of a whole record answers at once what the record is worth. */
  lemma LookupAlone(s: State, t: nat, rec: Rec) returns (steps: seq<Step>, u: State)
    requires PcOf(s, t).Idle? && s.hist != [] && s.path == Entry(rec)
    ensures Runs(s, steps, u) && u.path == s.path && PcOf(u, t).Answered?
    ensures PcOf(u, t).v.out.Hit? <==> rec.completed && (s.ttl == 0 || s.now - rec.createdAt <= s.ttl)
  {
    var a := Apply(s, Call(t, Get));
    var b := Apply(a, Lstat(t));
    var c := Apply(b, Open(t));
    u := Apply(c, Classify(t));
    OneStep(s, Call(t, Get));
    OneStep(a, Lstat(t));
    OneStep(b, Open(t));
    OneStep(c, Classify(t));
    RunsThen(s, [Call(t, Get)], a, [Lstat(t)], b);
    RunsThen(s, [Call(t, Get)] + [Lstat(t)], b, [Open(t)], c);
    RunsThen(s, [Call(t, Get)] + [Lstat(t)] + [Open(t)], c, [Classify(t)], u);
    steps := [Call(t, Get)] + [Lstat(t)] + [Open(t)] + [Classify(t)];
  }

  /** A Put that nothing disturbs leaves its record as the entry and the mutex
      free. */
  lemma PutAlone(s: State, t: nat, rec: Rec, k: nat) returns (steps: seq<Step>, u: State)
    requires PcOf(s, t).Idle? && s.owner.None? && s.hist != [] && k !in s.temps && s.path != Bad(Directory)
    ensures Runs(s, steps, u) && u.path == Entry(rec) && PcOf(u, t).Idle? && u.owner.None?
    ensures u.ttl == s.ttl && u.now == s.now && u.hist != []
  {
    var a := Apply(s, Call(t, Put(rec)));
    var b := Apply(a, Acquire(t));
    var c := Apply(b, Create(t, k));
    var d := Apply(c, Finish(t));
    var e := Apply(d, Rename(t));
    u := Apply(e, Release(t));
    OneStep(s, Call(t, Put(rec)));
    OneStep(a, Acquire(t));
    OneStep(b, Create(t, k));
    OneStep(c, Finish(t));
    OneStep(d, Rename(t));
    OneStep(e, Release(t));
    RunsThen(s, [Call(t, Put(rec))], a, [Acquire(t)], b);
    RunsThen(s, [Call(t, Put(rec))] + [Acquire(t)], b, [Create(t, k)], c);
    RunsThen(s, [Call(t, Put(rec))] + [Acquire(t)] + [Create(t, k)], c, [Finish(t)], d);
    RunsThen(s, [Call(t, Put(rec))] + [Acquire(t)] + [Create(t, k)] + [Finish(t)], d, [Rename(t)], e);
    RunsThen(s, [Call(t, Put(rec))] + [Acquire(t)] + [Create(t, k)] + [Finish(t)] + [Rename(t)], e, [Release(t)], u);
    steps := [Call(t, Put(rec))] + [Acquire(t)] + [Create(t, k)] + [Finish(t)] + [Rename(t)] + [Release(t)];
  }

  /** What was put is got: a completed record, without expiry for ever. */
  lemma PutThenGet(s: State, t: nat, rec: Rec, k: nat) returns (steps: seq<Step>, u: State)
    requires PcOf(s, t).Idle? && s.owner.None? && s.hist != [] && k !in s.temps && s.path != Bad(Directory)
    requires rec.completed && (s.ttl == 0 || s.now - rec.createdAt <= s.ttl)
    ensures Runs(s, steps, u) && PcOf(u, t).Answered? && PcOf(u, t).v.out.Hit?
  {
    var put, m := PutAlone(s, t, rec, k);
    var get, v := LookupAlone(m, t, rec);
    RunsThen(s, put, m, get, v);
    steps, u := put + get, v;
  }

  /** A Delete or Clear whose unlink succeeds leaves nothing. */
  lemma DeleteAlone(s: State, t: nat, op: Op) returns (steps: seq<Step>, u: State)
    requires PcOf(s, t).Idle? && s.owner.None? && s.hist != [] && (op.Delete? || op.Clear?)
    ensures Runs(s, steps, u) && u.path.Missing? && PcOf(u, t).Idle? && u.owner.None?
  {
    var a := Apply(s, Call(t, op));
    var b := Apply(a, Acquire(t));
    var c := Apply(b, Remove(t, true));
    u := Apply(c, Release(t));
    OneStep(s, Call(t, op));
    OneStep(a, Acquire(t));
    OneStep(b, Remove(t, true));
    OneStep(c, Release(t));
    RunsThen(s, [Call(t, op)], a, [Acquire(t)], b);
    RunsThen(s, [Call(t, op)] + [Acquire(t)], b, [Remove(t, true)], c);
    RunsThen(s, [Call(t, op)] + [Acquire(t)] + [Remove(t, true)], c, [Release(t)], u);
    steps := [Call(t, op)] + [Acquire(t)] + [Remove(t, true)] + [Release(t)];
  }

  // ----- self-healing

  /** A lookup that found no entry is still busy with it. */
  predicate Healing(pc: Pc) {
    pc.HealWaiting? || pc.Rechecking? || pc.HealRemoving?
  }

  /** The unlink was tried, an I/O error or a crash got in the way, or the path held
      something usable by then. */
  ghost predicate Settled(s: State, t: nat, steps: seq<Step>, u: State) {
    || Remove(t, true) in steps || Remove(t, false) in steps || Fail(t) in steps || Crash in steps
    || exists i :: NowAt(s) <= i < |u.hist| && !u.hist[i].Bad?
  }

  /** No lookup answers about an unusable entry before it tried to remove it. */
  lemma HealsBeforeAnswering(s: State, steps: seq<Step>, u: State, t: nat)
    requires Inv(s) && PcOf(s, t).HealWaiting? && Runs(s, steps, u) && !Healing(PcOf(u, t))
    ensures Settled(s, t, steps, u)
  {
    HealingGoesOn(s, steps, u, t, NowAt(s));
  }

  /** A re-check has looked at what stood there since. */
  ghost predicate Since(s: State, pc: Pc, from: nat) {
    pc.Rechecking? && pc.phase.AtClassify? && !pc.phase.seen.Bad? ==> exists i :: from <= i < |s.hist| && !s.hist[i].Bad?
  }

  lemma {:induction false} HealingGoesOn(s: State, steps: seq<Step>, u: State, t: nat, from: nat)
    requires Inv(s) && Healing(PcOf(s, t)) && from < |s.hist| && Since(s, PcOf(s, t), from)
    requires Runs(s, steps, u) && !Healing(PcOf(u, t))
    ensures Remove(t, true) in steps || Remove(t, false) in steps || Fail(t) in steps || Crash in steps
      || exists i :: from <= i < |u.hist| && !u.hist[i].Bad?
    decreases steps
  {
    var next := Apply(s, steps[0]);
    StepKeepsInv(s, steps[0]);
    RunKeepsInv(next, steps[1..], u);
    HealingStep(s, steps[0], t, from);
    if Healing(PcOf(next, t)) && Since(next, PcOf(next, t), from) {
      HealingGoesOn(next, steps[1..], u, t, from);
    } else if i :| from <= i < |next.hist| && !next.hist[i].Bad? {
      assert u.hist[i] == next.hist[i];
    }
  }

  lemma HealingStep(s: State, step: Step, t: nat, from: nat)
    requires Inv(s) && Healing(PcOf(s, t)) && from < |s.hist| && Since(s, PcOf(s, t), from) && Enabled(s, step)
    ensures var next := Apply(s, step);
      || (Healing(PcOf(next, t)) && Since(next, PcOf(next, t), from))
      || step == Remove(t, true) || step == Remove(t, false) || step == Fail(t) || step == Crash
      || exists i :: from <= i < |next.hist| && !next.hist[i].Bad?
  {
    var next := Apply(s, step);
    assert next.hist == s.hist + [next.path] && s.hist[|s.hist| - 1] == s.path;
    if (step.Lstat? || step.Open?) && step.t == t {
      assert next.path == s.path && next.hist[|s.hist|] == s.path;
    }
    if i :| from <= i < |s.hist| && !s.hist[i].Bad? {
      assert next.hist[i] == s.hist[i];
    }
  }

  /** And a lookup left alone does remove it. */
  lemma LookupHeals(s: State, t: nat, d: Defect) returns (steps: seq<Step>, u: State)
    requires PcOf(s, t).HealWaiting? && s.owner.None? && s.hist != [] && s.path == Bad(d)
    ensures Runs(s, steps, u) && u.path.Missing? && PcOf(u, t).Answered? && PcOf(u, t).v == PcOf(s, t).v
  {
    var look, m := LooksAgain(s, t, d);
    var remove, v := Removes(m, t, d);
    RunsThen(s, look, m, remove, v);
    steps, u := look + remove, v;
  }

  predicate FoundAgain(pc: Pc, o: Obj) {
    pc.Rechecking? && pc.phase == AtClassify(o)
  }

  lemma LooksAgain(s: State, t: nat, d: Defect) returns (steps: seq<Step>, u: State)
    requires PcOf(s, t).HealWaiting? && s.owner.None? && s.hist != [] && s.path == Bad(d)
    ensures Runs(s, steps, u) && u.path == s.path && FoundAgain(PcOf(u, t), s.path) && PcOf(u, t).v == PcOf(s, t).v
  {
    var a := Apply(s, Acquire(t));
    var b := Apply(a, Lstat(t));
    OneStep(s, Acquire(t));
    OneStep(a, Lstat(t));
    RunsThen(s, [Acquire(t)], a, [Lstat(t)], b);
    steps, u := [Acquire(t)] + [Lstat(t)], b;
    if IsRegular(s.path) {
      OneStep(b, Open(t));
      RunsThen(s, steps, b, [Open(t)], Apply(b, Open(t)));
      steps, u := steps + [Open(t)], Apply(b, Open(t));
    }
  }

  lemma Removes(s: State, t: nat, d: Defect) returns (steps: seq<Step>, u: State)
    requires FoundAgain(PcOf(s, t), Bad(d)) && s.path == Bad(d)
    ensures Runs(s, steps, u) && u.path.Missing? && PcOf(u, t).Answered? && PcOf(u, t).v == PcOf(s, t).v
  {
    var a := Apply(s, Classify(t));
    var b := Apply(a, Remove(t, true));
    u := Apply(b, Release(t));
    OneStep(s, Classify(t));
    OneStep(a, Remove(t, true));
    OneStep(b, Release(t));
    RunsThen(s, [Classify(t)], a, [Remove(t, true)], b);
    RunsThen(s, [Classify(t)] + [Remove(t, true)], b, [Release(t)], u);
    steps := [Classify(t)] + [Remove(t, true)] + [Release(t)];
  }

  /** Maintenance left alone removes what is no entry, and nothing else. */
  lemma SweepAlone(s: State, t: nat) returns (steps: seq<Step>, u: State)
    requires PcOf(s, t).Idle? && s.owner.None? && s.hist != []
    ensures Runs(s, steps, u) && PcOf(u, t).Idle? && u.owner.None?
    ensures u.path == if s.path.Bad? then Missing else s.path
  {
    var look, m := SweepLooks(s, t);
    var leave, v := SweepEnds(m, t);
    RunsThen(s, look, m, leave, v);
    steps, u := look + leave, v;
  }

  predicate SweepFound(pc: Pc, o: Obj) {
    pc.Sweeping? && pc.phase == AtClassify(o)
  }

  lemma SweepLooks(s: State, t: nat) returns (steps: seq<Step>, u: State)
    requires PcOf(s, t).Idle? && s.owner.None? && s.hist != []
    ensures Runs(s, steps, u) && u.path == s.path && SweepFound(PcOf(u, t), s.path)
  {
    var enter, m := SweepEnters(s, t);
    var look, v := SweepReads(m, t);
    RunsThen(s, enter, m, look, v);
    steps, u := enter + look, v;
  }

  lemma SweepEnters(s: State, t: nat) returns (steps: seq<Step>, u: State)
    requires PcOf(s, t).Idle? && s.owner.None? && s.hist != []
    ensures Runs(s, steps, u) && u.path == s.path && u.hist != [] && PcOf(u, t) == Sweeping(AtLstat)
  {
    var a := Apply(s, Call(t, Invalidate));
    u := Apply(a, Acquire(t));
    OneStep(s, Call(t, Invalidate));
    OneStep(a, Acquire(t));
    RunsThen(s, [Call(t, Invalidate)], a, [Acquire(t)], u);
    steps := [Call(t, Invalidate)] + [Acquire(t)];
  }

  lemma SweepReads(s: State, t: nat) returns (steps: seq<Step>, u: State)
    requires s.hist != [] && PcOf(s, t) == Sweeping(AtLstat)
    ensures Runs(s, steps, u) && u.path == s.path && SweepFound(PcOf(u, t), s.path)
  {
    u := Apply(s, Lstat(t));
    OneStep(s, Lstat(t));
    steps := [Lstat(t)];
    if IsRegular(s.path) {
      OneStep(u, Open(t));
      RunsThen(s, steps, u, [Open(t)], Apply(u, Open(t)));
      steps, u := steps + [Open(t)], Apply(u, Open(t));
    }
  }

  lemma SweepEnds(s: State, t: nat) returns (steps: seq<Step>, u: State)
    requires SweepFound(PcOf(s, t), s.path)
    ensures Runs(s, steps, u) && PcOf(u, t).Idle? && u.owner.None?
    ensures u.path == if s.path.Bad? then Missing else s.path
  {
    var a := Apply(s, Classify(t));
    OneStep(s, Classify(t));
    steps, u := [Classify(t)], a;
    if s.path.Bad? {
      OneStep(a, Remove(t, true));
      RunsThen(s, steps, a, [Remove(t, true)], Apply(a, Remove(t, true)));
      steps, u := steps + [Remove(t, true)], Apply(a, Remove(t, true));
    }
    OneStep(u, Release(t));
    RunsThen(s, steps, u, [Release(t)], Apply(u, Release(t)));
    steps, u := steps + [Release(t)], Apply(u, Release(t));
  }

  /** So a hit is a whole record some Put was given, completed, unexpired when
      judged, and the entry at one moment of the call. */
  lemma HitsAreWhole(s: State, steps: seq<Step>, u: State, t: nat)
    requires Initial(s) && Runs(s, steps, u) && PcOf(u, t).Answered? && PcOf(u, t).v.out.Hit?
    ensures var pc := PcOf(u, t); var rec := pc.v.out.rec;
      && rec.completed && rec in u.asked
      && (u.ttl > 0 ==> pc.v.judged - rec.createdAt <= u.ttl)
      && exists at :: pc.start <= at < |u.hist| && u.hist[at] == Entry(rec)
  {
    LookupsAreAtomic(s, steps, u, t);
    var pc := PcOf(u, t);
    assert u.hist[pc.v.at] == Entry(pc.v.out.rec);
    EntriesWereAsked(s, steps, u, pc.v.at);
  }

  lemma {:induction false} EntriesWereAsked(s: State, steps: seq<Step>, u: State, i: nat)
    requires Initial(s) && Runs(s, steps, u) && i < |u.hist| && u.hist[i].Entry?
    ensures u.hist[i].rec in u.asked
  {
    InitialInv(s);
    AskedFrom(s, steps, u, i);
  }

  ghost predicate HistoryAsked(s: State) {
    forall i :: 0 <= i < |s.hist| && s.hist[i].Entry? ==> s.hist[i].rec in s.asked
  }

  lemma {:induction false} AskedFrom(s: State, steps: seq<Step>, u: State, i: nat)
    requires Inv(s) && HistoryAsked(s) && Runs(s, steps, u) && i < |u.hist| && u.hist[i].Entry?
    ensures u.hist[i].rec in u.asked
    decreases steps
  {
    if steps != [] {
      var next := Apply(s, steps[0]);
      StepKeepsInv(s, steps[0]);
      assert next.hist == s.hist + [next.path] && s.asked <= next.asked;
      AskedFrom(next, steps[1..], u, i);
    }
  }

  /** All the ways the path can change. A Put puts its own whole record in one
      step; self-healing and maintenance only ever remove what is not an entry;
      a crash changes nothing. */
  lemma PathChanges(s: State, step: Step)
    requires Inv(s) && Enabled(s, step) && Apply(s, step).path != s.path
    ensures var path := Apply(s, step).path;
      || (step.Rename? && path == Entry(PcOf(s, step.t).rec))
      || (step.Remove? && path.Missing? && (PcOf(s, step.t).DeleteLocked? || PcOf(s, step.t).ClearLocked?))
      || (step.Remove? && path.Missing? && s.path.Bad?)
      || (step.Plant? && path.Bad?)
  {
    if step.Rename? || step.Remove? {
      assert ThreadOk(s, PcOf(s, step.t));
    }
  }

  /** A valid entry leaves its path only through Put, Delete, Clear or
      corruption. */
  lemma EntriesLeaveOnlyOnPurpose(s: State, steps: seq<Step>, u: State, step: Step)
    requires Initial(s) && Runs(s, steps, u) && Enabled(u, step)
    requires u.path.Entry? && Apply(u, step).path != u.path
    ensures step.Rename? || step.Plant? || (step.Remove? && (PcOf(u, step.t).DeleteLocked? || PcOf(u, step.t).ClearLocked?))
  {
    InitialInv(s);
    RunKeepsInv(s, steps, u);
    PathChanges(u, step);
  }

  /** Without corruption the path never holds anything but nothing or a whole
      record, whatever crashes in the middle of whatever Put. */
  lemma {:induction false} NeverPartial(s: State, steps: seq<Step>, u: State)
    requires Inv(s) && Runs(s, steps, u) && !s.path.Bad? && forall step :: step in steps ==> !step.Plant?
    ensures !u.path.Bad?
    ensures forall i :: |s.hist| <= i < |u.hist| ==> !u.hist[i].Bad?
    decreases steps
  {
    if steps != [] {
      var next := Apply(s, steps[0]);
      assert !steps[0].Plant?;
      if next.path != s.path {
        PathChanges(s, steps[0]);
      }
      StepKeepsInv(s, steps[0]);
      NeverPartial(next, steps[1..], u);
      RunKeepsInv(next, steps[1..], u);
      assert next.hist == s.hist + [next.path];
    }
  }

  /** The sweep of crash residue never removes the temporary file of a Put that
      is still writing. */
  lemma SweepSparesWriters(s: State, steps: seq<Step>, u: State, t: nat, temp: nat, writer: nat)
    requires Initial(s) && Runs(s, steps, u) && Enabled(u, SweepTemp(t, temp))
    ensures !PcOf(u, writer).PutWriting? && !PcOf(u, writer).PutWritten?
  {
    InitialInv(s);
    RunKeepsInv(s, steps, u);
    assert HoldsLock(PcOf(u, t)) <==> u.owner == Some(t);
    assert HoldsLock(PcOf(u, writer)) <==> u.owner == Some(writer);
  }

  /** A Put that reaches its rename still has its whole temporary file, so only
      a directory in the way can keep the record out. */
  lemma RenameInstalls(s: State, steps: seq<Step>, u: State, t: nat)
    requires Initial(s) && Runs(s, steps, u) && PcOf(u, t).PutWritten?
    ensures Enabled(u, Rename(t))
    ensures Apply(u, Rename(t)).path == if u.path == Bad(Directory) then u.path else Entry(PcOf(u, t).rec)
  {
    InitialInv(s);
    RunKeepsInv(s, steps, u);
    assert ThreadOk(u, PcOf(u, t));
  }
}
