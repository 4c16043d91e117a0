/**
 The schedule over whole runs: any number of passes that load possibly stale copies, look at the
 clock, rotate and store their status under the version they loaded, with failures anywhere.
 */
module ScheduleRuns {
  import opened Base
  import opened Conditions
  import opened Schedule

  // ---------- single passes ----------

  /** The rotation time and count move exactly when a due rotation works. */
  lemma RotatesExactlyWhenDue(spec: Spec, st: Status, source: Source, t: Times, attempt: Attempt, stamp: int -> string)
    requires Pass(spec, st, source, t, attempt, stamp).status.Some?
    ensures var after := Pass(spec, st, source, t, attempt, stamp).status.value;
            if Active(spec, source) && NextAt(st, source.created, spec.interval.value, t.planned) <= t.now && attempt.Worked?
            then after.count == st.count + 1 && after.last == Some(Rotation(t.finished, source.version))
            else after.count == st.count && after.last == st.last
  {
  }

  /** A pass that is early sleeps to the due instant, not a nanosecond more or less. */
  lemma WaitsExactlyUntilDue(spec: Spec, st: Status, source: Source, t: Times, attempt: Attempt, stamp: int -> string)
    requires Active(spec, source)
    ensures var next := NextAt(st, source.created, spec.interval.value, t.planned);
            var plan := Pass(spec, st, source, t, attempt, stamp);
            t.now < next ==> plan.answer.After? && plan.answer.delay > 0 && t.now + plan.answer.delay == next
                             && plan.status == Some(Waiting(st, next, spec.generation, t, stamp))
  {
  }

  /** The requeue after a rotation is never early, although the stored time was truncated. */
  lemma OwnRequeueIsDue(spec: Spec, st: Status, source: Source, t: Times, stamp: int -> string, later: Times, again: Source)
    requires Active(spec, source) && Active(spec, again) && t.Ordered()
    requires NextAt(st, source.created, spec.interval.value, t.planned) <= t.now
    requires Pass(spec, st, source, t, Worked, stamp).answer.After?
    requires later.now >= t.scheduled + Pass(spec, st, source, t, Worked, stamp).answer.delay
    ensures var kept := Kept(Pass(spec, st, source, t, Worked, stamp).status.value);
            NextAt(kept, again.created, spec.interval.value, later.planned) <= later.now
  {
  }

  lemma {:induction false} KeptFind(cs: seq<Condition>, kind: string)
    ensures var f := Find(cs, kind);
            Find(KeptConditions(cs), kind) ==
            if f.Some? then Some(f.value.(since := Truncate(f.value.since))) else None
    decreases |cs|
  {
    if cs != [] && cs[0].kind != kind {
      KeptFind(cs[1..], kind);
      assert KeptConditions(cs)[1..] == KeptConditions(cs[1..]);
    }
  }

  lemma KeptTwice(st: Status)
    ensures Kept(Kept(st)) == Kept(st)
  {
    assert KeptConditions(KeptConditions(st.conditions)) == KeptConditions(st.conditions);
  }

  /** Early passes settle: once one has been stored, the next ones write the status that is there. */
  lemma IdlePassIsNoop(
    spec: Spec, st: Status, source: Source, t: Times, later: Times, attempt: Attempt, stamp: int -> string)
    requires Active(spec, source) && (st.last.Some? || source.created.Some?)
    requires st == Kept(st)
    requires t.now < NextAt(st, source.created, spec.interval.value, t.planned)
    requires later.now < NextAt(st, source.created, spec.interval.value, later.planned)
    ensures var stored := Kept(Pass(spec, st, source, t, attempt, stamp).status.value);
            Kept(Pass(spec, stored, source, later, attempt, stamp).status.value) == stored
  {
    var next := NextAt(st, source.created, spec.interval.value, t.planned);
    var ready := Report("True", "RotationScheduled", "Next rotation scheduled for " + stamp(next));
    var due := Report("False", "RotationScheduled", "Rotation not yet due");
    var one := Updated(st.conditions, READY, ready, t.ready);
    var two := Updated(one, DUE, due, t.due);
    var stored := Kept(Waiting(st, next, spec.generation, t, stamp));
    UpdatedIsFound(st.conditions, READY, ready, t.ready);
    OthersAreKept(one, DUE, due, t.due, READY);
    UpdatedIsFound(one, DUE, due, t.due);
    KeptFind(two, READY);
    KeptFind(two, DUE);
    RepeatIsNoop(stored.conditions, READY, ready, later.ready);
    RepeatIsNoop(stored.conditions, DUE, due, later.due);
    KeptTwice(Waiting(st, next, spec.generation, t, stamp));
  }

  lemma BlockedUnique(st: Status, reason: string, message: string, at: int)
    requires Unique(st.conditions)
    ensures Unique(Blocked(st, reason, message, at).conditions)
  {
    UniqueIsKept(st.conditions, READY, Report("False", reason, message), at);
  }

  lemma WaitingUnique(st: Status, next: int, generation: int, t: Times, stamp: int -> string)
    requires Unique(st.conditions)
    ensures Unique(Waiting(st, next, generation, t, stamp).conditions)
  {
    var ready := Report("True", "RotationScheduled", "Next rotation scheduled for " + stamp(next));
    UniqueIsKept(st.conditions, READY, ready, t.ready);
    UniqueIsKept(Updated(st.conditions, READY, ready, t.ready), DUE,
                 Report("False", "RotationScheduled", "Rotation not yet due"), t.due);
  }

  lemma RotatedUnique(st: Status, interval: int, version: nat, generation: int, t: Times)
    requires Unique(st.conditions)
    ensures Unique(Rotated(st, interval, version, generation, t).conditions)
  {
    var ready := Report("True", "RotationSucceeded", "Last rotation succeeded");
    UniqueIsKept(st.conditions, READY, ready, t.ready);
    UniqueIsKept(Updated(st.conditions, READY, ready, t.ready), DUE,
                 Report("False", "RotationScheduled", "Rotation completed, next scheduled"), t.due);
  }

  /** No pass ever stores two conditions of one kind. */
  lemma ConditionsStayUnique(spec: Spec, st: Status, source: Source, t: Times, attempt: Attempt, stamp: int -> string)
    requires Unique(st.conditions) && Pass(spec, st, source, t, attempt, stamp).status.Some?
    ensures Unique(Kept(Pass(spec, st, source, t, attempt, stamp).status.value).conditions)
  {
    if !Active(spec, source) {
      BlockedUnique(st, "RotationSuspended", "Rotation is suspended", t.ready);
      BlockedUnique(st, "RotationFailed", "Invalid interval", t.ready);
      BlockedUnique(st, "RotationFailed", "Source secret not found", t.ready);
    } else {
      var next := NextAt(st, source.created, spec.interval.value, t.planned);
      WaitingUnique(st, next, spec.generation, t, stamp);
      UniqueIsKept(st.conditions, DUE, Report("True", "RotationInProgress", "Rotation in progress"), t.starting);
      RotatedUnique(Starting(st, next, t), spec.interval.value, source.version, spec.generation, t);
      if attempt.Broke? {
        BlockedUnique(Starting(st, next, t), "RotationFailed", attempt.message, t.ready);
      }
    }
  }

  // ---------- runs ----------

  datatype Proc =
    | Loaded(rv: nat, spec: Spec, read: Status)
    | Rotating(rv: nat, spec: Spec, read: Status, source: Source, planned: int, looked: int)
    | Writing(rv: nat, read: Status, write: Status, done: Option<int>)

  /**
   `seen` are all versions ever stored.  `log` are the rotation times that were stored, `performed`
   the instants at which a rotation finished, `lost` how many of these were never stored.
   */
  datatype State = State(
    now: int, rv: nat, spec: Spec, stored: Status, seen: set<(nat, Spec, Status)>, procs: map<nat, Proc>,
    log: seq<int>, performed: seq<int>, lost: nat)

  datatype Action =
    | Tick(later: int)
    | Load(p: nat, rv: nat, spec: Spec, read: Status)
    | Look(p: nat, source: Source, t: Times)
    | Finish(p: nat, t: Times, attempt: Attempt)
    | Save(p: nat, reachable: bool)
    | Stop(p: nat)
    | Edit(spec: Spec)

  predicate IsDue(spec: Spec, read: Status, source: Source, t: Times) {
    Active(spec, source) && NextAt(read, source.created, spec.interval.value, t.planned) <= t.now
  }

  /** The interval, when it parses, is the one it always was. */
  predicate Fixed(interval: int, spec: Spec) {
    spec.interval == None || spec.interval == Some(interval)
  }

  /** The interval is fixed; any other part of the policy may be edited. */
  predicate Enabled(interval: int, s: State, a: Action) {
    match a
    case Tick(later) => s.now <= later
    case Load(p, rv, spec, read) => p !in s.procs && (rv, spec, read) in s.seen
    case Look(p, source, t) => p in s.procs && s.procs[p].Loaded? && t.now == s.now
    case Finish(p, t, _) =>
      && p in s.procs && s.procs[p].Rotating?
      && t.planned == s.procs[p].planned && t.now == s.procs[p].looked && t.finished == s.now
    case Save(p, _) => p in s.procs && s.procs[p].Writing?
    case Stop(p) => p in s.procs
    case Edit(spec) => Fixed(interval, spec)
  }

  /** The pass has rotated and not stored it yet. */
  predicate Owes(q: Proc) {
    q.Writing? && q.done.Some?
  }

  function Without(s: State, p: nat): State {
    s.(procs := s.procs - {p}, lost := s.lost + if p in s.procs && Owes(s.procs[p]) then 1 else 0)
  }

  function Stored(s: State, p: nat): State
    requires p in s.procs && s.procs[p].Writing?
  {
    var w := s.procs[p];
    var rv := if Kept(w.write) == s.stored then s.rv else s.rv + 1;
    s.(rv := rv, stored := Kept(w.write), seen := s.seen + {(rv, s.spec, Kept(w.write))}, procs := s.procs - {p},
       log := if w.done.Some? then s.log + [Truncate(w.done.value)] else s.log)
  }

  function Step(interval: int, s: State, a: Action, stamp: int -> string): State
    requires Enabled(interval, s, a)
  {
    match a
    case Tick(later) => s.(now := later)
    case Load(p, rv, spec, read) => s.(procs := s.procs[p := Loaded(rv, spec, read)])
    case Look(p, source, t) =>
      var l := s.procs[p];
      if IsDue(l.spec, l.read, source, t) then
        s.(procs := s.procs[p := Rotating(l.rv, l.spec, l.read, source, t.planned, t.now)])
      else
        var plan := Pass(l.spec, l.read, source, t, Worked, stamp);
        if plan.status.None? then Without(s, p)
        else s.(procs := s.procs[p := Writing(l.rv, l.read, plan.status.value, None)])
    case Finish(p, t, attempt) =>
      var r := s.procs[p];
      var plan := Pass(r.spec, r.read, r.source, t, attempt, stamp);
      if plan.status.None? then Without(s, p)
      else if attempt.Broke? then s.(procs := s.procs[p := Writing(r.rv, r.read, plan.status.value, None)])
      else
        s.(procs := s.procs[p := Writing(r.rv, r.read, plan.status.value, Some(s.now))],
           performed := s.performed + [s.now])
    case Save(p, reachable) => if reachable && s.procs[p].rv == s.rv then Stored(s, p) else Without(s, p)
    case Stop(p) => Without(s, p)
    case Edit(spec) => s.(rv := s.rv + 1, spec := spec, seen := s.seen + {(s.rv + 1, spec, s.stored)})
  }

  /** A policy that has never rotated. */
  function Created(now: int, spec: Spec): State {
    var st := Status(None, None, 0, 0, []);
    State(now, 0, spec, st, {(0, spec, st)}, map[], [], [], 0)
  }

  ghost function Run(interval: int, s: State, acts: seq<Action>, stamp: int -> string): Option<State>
    decreases |acts|
  {
    if acts == [] then Some(s)
    else
      var before, a := Run(interval, s, acts[..|acts| - 1], stamp), acts[|acts| - 1];
      if before.Some? && Enabled(interval, before.value, a) then Some(Step(interval, before.value, a, stamp)) else None
  }

  // ---------- the invariant ----------

  /** What a pass knows is right as long as the version it loaded is still the stored one. */
  ghost predicate Based(s: State, rv: nat, st: Status) {
    && rv <= s.rv && (rv == s.rv ==> st == s.stored)
    && (st.last.Some? ==> st.last.value.at % SECOND == 0)
  }

  ghost predicate ProcOk(interval: int, s: State, q: Proc) {
    match q
    case Loaded(rv, spec, read) =>
      Based(s, rv, read) && Fixed(interval, spec) && (rv, spec, read) in s.seen
    case Rotating(rv, spec, read, source, planned, looked) =>
      && Based(s, rv, read) && (rv, spec, read) in s.seen
      && spec.interval == Some(interval) && Active(spec, source) && looked <= s.now
      && NextAt(read, source.created, interval, planned) <= looked
    case Writing(rv, read, write, done) =>
      && rv <= s.rv && (rv == s.rv ==> read == s.stored)
      && (read.last.Some? ==> read.last.value.at % SECOND == 0)
      && match done
         case None => write.last == read.last && write.count == read.count
         case Some(at) =>
           && write.last.Some? && write.last.value.at == at && write.count == read.count + 1
           && (read.last.Some? ==> at >= read.last.value.at + interval)
  }

  ghost predicate Spaced(interval: int, log: seq<int>) {
    forall i :: 0 <= i < |log| - 1 ==> log[i] + interval <= log[i + 1]
  }

  ghost predicate SeenOk(interval: int, s: State) {
    forall v :: v in s.seen ==> Based(s, v.0, v.2) && Fixed(interval, v.1)
  }

  ghost predicate ProcsOk(interval: int, s: State) {
    forall p :: p in s.procs ==> ProcOk(interval, s, s.procs[p])
  }

  /** The stored status is the digest of the stored rotations. */
  ghost predicate LogOk(interval: int, s: State) {
    && s.stored.count == |s.log|
    && (s.stored.last.Some? <==> s.log != [])
    && (s.log != [] ==> s.stored.last.value.at == s.log[|s.log| - 1])
    && Spaced(Truncate(interval), s.log)
    && (s.stored.last.Some? ==> s.stored.last.value.at % SECOND == 0)
  }

  ghost predicate Inv(interval: int, s: State) {
    Fixed(interval, s.spec) && SeenOk(interval, s) && ProcsOk(interval, s) && LogOk(interval, s)
  }

  /** The process that looked or finished is where it should be. */
  lemma LookOk(interval: int, s: State, a: Action, stamp: int -> string)
    requires Inv(interval, s) && Enabled(interval, s, a) && (a.Look? || a.Finish?)
    ensures var s' := Step(interval, s, a, stamp); a.p in s'.procs ==> ProcOk(interval, s', s'.procs[a.p])
  {
    assert ProcOk(interval, s, s.procs[a.p]);
    if a.Look? {
      var l := s.procs[a.p];
      if !IsDue(l.spec, l.read, a.source, a.t) && Pass(l.spec, l.read, a.source, a.t, Worked, stamp).status.Some? {
        RotatesExactlyWhenDue(l.spec, l.read, a.source, a.t, Worked, stamp);
      }
    } else {
      var r := s.procs[a.p];
      RotatesExactlyWhenDue(r.spec, r.read, r.source, a.t, a.attempt, stamp);
    }
  }

  /** Nothing else is touched. */
  lemma LookFrame(interval: int, s: State, a: Action, stamp: int -> string)
    requires Enabled(interval, s, a) && (a.Look? || a.Finish?)
    ensures var s' := Step(interval, s, a, stamp);
            && s'.procs - {a.p} == s.procs - {a.p} && s'.seen == s.seen && s'.log == s.log && s'.now == s.now
            && s'.stored == s.stored && s'.rv == s.rv && s'.spec == s.spec
  {
  }

  lemma LookKeepsInv(interval: int, s: State, a: Action, stamp: int -> string)
    requires Inv(interval, s) && Enabled(interval, s, a) && (a.Look? || a.Finish?)
    ensures Inv(interval, Step(interval, s, a, stamp))
  {
    LookOk(interval, s, a, stamp);
    LookFrame(interval, s, a, stamp);
    var s' := Step(interval, s, a, stamp);
    forall p | p in s'.procs ensures ProcOk(interval, s', s'.procs[p]) {
      if p != a.p {
        assert p in s'.procs - {a.p} && (s'.procs - {a.p})[p] == (s.procs - {a.p})[p];
        assert ProcOk(interval, s, s.procs[p]);
      }
    }
  }

  /** From a whole second on, truncation costs an interval at most its own fraction of a second. */
  lemma TruncateKeepsSpacing(last: int, interval: int, at: int)
    requires last % SECOND == 0 && last + interval <= at
    ensures last + Truncate(interval) <= Truncate(at)
  {
  }

  lemma SaveKeepsInv(interval: int, s: State, p: nat, stamp: int -> string)
    requires Inv(interval, s) && p in s.procs && s.procs[p].Writing? && s.procs[p].rv == s.rv
    ensures Inv(interval, Stored(s, p))
  {
    assert ProcOk(interval, s, s.procs[p]);
    var w, s' := s.procs[p], Stored(s, p);
    if w.done.Some? && s.log != [] { TruncateKeepsSpacing(s.log[|s.log| - 1], interval, w.done.value); }
    assert LogOk(interval, s');
    forall q | q in s'.procs ensures ProcOk(interval, s', s'.procs[q]) {
      assert ProcOk(interval, s, s.procs[q]);
    }
    forall v | v in s'.seen ensures Based(s', v.0, v.2) && Fixed(interval, v.1) {
      if v in s.seen { assert Based(s, v.0, v.2); }
    }
  }

  lemma StepKeepsInv(interval: int, s: State, a: Action, stamp: int -> string)
    requires Inv(interval, s) && Enabled(interval, s, a)
    ensures Inv(interval, Step(interval, s, a, stamp))
  {
    match a
    case Look(_, _, _) => LookKeepsInv(interval, s, a, stamp);
    case Finish(_, _, _) => LookKeepsInv(interval, s, a, stamp);
    case Save(p, reachable) =>
      if reachable && s.procs[p].rv == s.rv { SaveKeepsInv(interval, s, p, stamp); }
    case Load(p, rv, spec, read) =>
      var v := (rv, spec, read);
      assert Based(s, v.0, v.2) && Fixed(interval, v.1);
    case _ =>
      var s' := Step(interval, s, a, stamp);
      forall p | p in s'.procs ensures ProcOk(interval, s', s'.procs[p]) {
        assert ProcOk(interval, s, s.procs[p]);
      }
  }

  lemma {:induction false} RunKeepsInv(interval: int, spec: Spec, now: int, acts: seq<Action>, stamp: int -> string)
    requires Fixed(interval, spec)
    requires Run(interval, Created(now, spec), acts, stamp).Some?
    ensures Inv(interval, Run(interval, Created(now, spec), acts, stamp).value)
    decreases |acts|
  {
    if acts != [] {
      RunKeepsInv(interval, spec, now, acts[..|acts| - 1], stamp);
      StepKeepsInv(interval, Run(interval, Created(now, spec), acts[..|acts| - 1], stamp).value, acts[|acts| - 1], stamp);
    }
  }

  // ---------- copies may be arbitrarily old ----------

  lemma StepKeepsSeen(interval: int, s: State, a: Action, stamp: int -> string)
    requires Enabled(interval, s, a) && (s.rv, s.spec, s.stored) in s.seen
    ensures var s' := Step(interval, s, a, stamp); s.seen <= s'.seen && (s'.rv, s'.spec, s'.stored) in s'.seen
  {
  }

  lemma {:induction false} RunKeepsSeen(interval: int, s: State, acts: seq<Action>, stamp: int -> string)
    requires (s.rv, s.spec, s.stored) in s.seen && Run(interval, s, acts, stamp).Some?
    ensures var s' := Run(interval, s, acts, stamp).value; s.seen <= s'.seen && (s'.rv, s'.spec, s'.stored) in s'.seen
    decreases |acts|
  {
    if acts != [] {
      RunKeepsSeen(interval, s, acts[..|acts| - 1], stamp);
      StepKeepsSeen(interval, Run(interval, s, acts[..|acts| - 1], stamp).value, acts[|acts| - 1], stamp);
    }
  }

  /**
   Whatever was stored at some point of a run can be loaded by a new pass at every later point; time may pass
   and people may edit everything but the interval at any moment, and any pass may die.
   */
  lemma AnyStoredVersionCanBeLoaded(
    interval: int, spec: Spec, now: int, before: seq<Action>, more: seq<Action>, p: nat, stamp: int -> string)
    requires Run(interval, Created(now, spec), before, stamp).Some?
    requires Run(interval, Run(interval, Created(now, spec), before, stamp).value, more, stamp).Some?
    ensures var s := Run(interval, Created(now, spec), before, stamp).value;
            var later := Run(interval, s, more, stamp).value;
            && (if p in later.procs then Enabled(interval, later, Stop(p))
                else Enabled(interval, later, Load(p, s.rv, s.spec, s.stored)))
            && (forall t :: t >= later.now ==> Enabled(interval, later, Tick(t)))
            && (forall edit: Spec :: edit.interval.None? || edit.interval.value == interval ==>
                  Enabled(interval, later, Edit(edit)))
  {
    RunKeepsSeen(interval, Created(now, spec), before, stamp);
    RunKeepsSeen(interval, Run(interval, Created(now, spec), before, stamp).value, more, stamp);
  }

  // ---------- the schedule ----------

  /**
   Whatever copies are read and whatever fails, for every interval: successive stored rotation times
   are at least the interval's whole seconds apart, which is the interval itself when it has no
   fraction; the last of them is the policy's, and the count is their number.
   */
  lemma StoredRotationsAreSpaced(interval: int, spec: Spec, now: int, acts: seq<Action>, stamp: int -> string, i: nat)
    requires Fixed(interval, spec) && Run(interval, Created(now, spec), acts, stamp).Some?
    ensures var s := Run(interval, Created(now, spec), acts, stamp).value;
            && s.stored.count == |s.log|
            && (s.log != [] ==> s.stored.last.Some? && s.stored.last.value.at == s.log[|s.log| - 1])
            && (i + 1 < |s.log| ==> s.log[i + 1] - s.log[i] >= Truncate(interval))
            && (i + 1 < |s.log| && interval % SECOND == 0 ==> s.log[i + 1] - s.log[i] >= interval)
  {
    RunKeepsInv(interval, spec, now, acts, stamp);
  }

  lemma {:induction false} SpacedSpan(interval: int, log: seq<int>, j: nat)
    requires Spaced(interval, log) && j < |log|
    ensures log[j] - log[0] >= interval * j
  {
    if j > 0 { SpacedSpan(interval, log, j - 1); }
  }

  /** So the count can never run ahead of the clock: n rotations take at least n - 1 intervals. */
  lemma CountIsBoundedByTime(interval: int, spec: Spec, now: int, acts: seq<Action>, stamp: int -> string)
    requires Fixed(interval, spec) && Run(interval, Created(now, spec), acts, stamp).Some?
    ensures var s := Run(interval, Created(now, spec), acts, stamp).value;
            s.log != [] ==>
              s.stored.last.Some? && s.stored.last.value.at - s.log[0] >= Truncate(interval) * (s.stored.count - 1)
  {
    RunKeepsInv(interval, spec, now, acts, stamp);
    var s := Run(interval, Created(now, spec), acts, stamp).value;
    if s.log != [] { SpacedSpan(Truncate(interval), s.log, |s.log| - 1); }
  }
}
