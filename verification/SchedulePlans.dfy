/**
 What one pass over a rotation policy decides, branch by branch: what its status then says and when the pass
 comes back (internal/controller/genesisrotationpolicy_controller.go).
 */
module SchedulePlans {
  import opened Base
  import opened Conditions
  import opened Schedule

  /** The condition of this kind is this report, dated `at` unless the one before said the same. */
  ghost predicate Says(after: Status, before: Option<Condition>, kind: string, report: Report, at: int) {
    Find(after.conditions, kind)
    == Some(Condition(kind, report, if before.Some? && before.value.report == report then before.value.since else at))
  }

  /** Only the readiness condition has changed. */
  ghost predicate BlockedFor(plan: Plan, st: Status, reason: string, message: string, at: int, answer: Answer) {
    && plan.answer == answer && plan.status.Some?
    && plan.status.value.(conditions := st.conditions) == st
    && Says(plan.status.value, Find(st.conditions, "RotationReady"), "RotationReady", Report("False", reason, message), at)
    && Find(plan.status.value.conditions, "RotationDue") == Find(st.conditions, "RotationDue")
  }

  /** The branches that end before the schedule is looked at. */
  lemma BlockedPlans(spec: Spec, st: Status, source: Source, t: Times, attempt: Attempt, stamp: int -> string)
    ensures var plan := Pass(spec, st, source, t, attempt, stamp);
            && (spec.deleted ==> plan == Plan(None, Finished))
            && (!spec.deleted && !spec.finalizer ==> plan == Plan(None, Again))
            && (!spec.deleted && spec.finalizer ==>
                  if spec.suspended then
                    BlockedFor(plan, st, "RotationSuspended", "Rotation is suspended", t.ready, Finished)
                  else if spec.interval.None? then
                    BlockedFor(plan, st, "RotationFailed", "Invalid interval", t.ready, Finished)
                  else if source.Unreadable? then plan == Plan(None, Failure)
                  else source.Missing? ==>
                    BlockedFor(plan, st, "RotationFailed", "Source secret not found", t.ready, After(60_000_000_000)))
  {
    var suspended := Report("False", "RotationSuspended", "Rotation is suspended");
    var invalid := Report("False", "RotationFailed", "Invalid interval");
    var missing := Report("False", "RotationFailed", "Source secret not found");
    ReadyIsNoted(st.conditions, suspended, t.ready);
    ReadyIsNoted(st.conditions, invalid, t.ready);
    ReadyIsNoted(st.conditions, missing, t.ready);
  }

  lemma ReadyIsNoted(cs: seq<Condition>, report: Report, at: int)
    ensures var before := Find(cs, "RotationReady");
            Find(Updated(cs, "RotationReady", report, at), "RotationReady")
            == Some(Condition("RotationReady", report,
                              if before.Some? && before.value.report == report then before.value.since else at))
    ensures Find(Updated(cs, "RotationReady", report, at), "RotationDue") == Find(cs, "RotationDue")
  {
    UpdatedIsFound(cs, "RotationReady", report, at);
    OthersAreKept(cs, "RotationReady", report, at, "RotationDue");
  }

  lemma DueIsNoted(cs: seq<Condition>, report: Report, at: int)
    ensures var before := Find(cs, "RotationDue");
            Find(Updated(cs, "RotationDue", report, at), "RotationDue")
            == Some(Condition("RotationDue", report,
                              if before.Some? && before.value.report == report then before.value.since else at))
    ensures Find(Updated(cs, "RotationDue", report, at), "RotationReady") == Find(cs, "RotationReady")
  {
    UpdatedIsFound(cs, "RotationDue", report, at);
    OthersAreKept(cs, "RotationDue", report, at, "RotationReady");
  }

  /** Everything that a pass needs to look at the schedule. */
  ghost predicate Looks(spec: Spec, source: Source) {
    !spec.deleted && spec.finalizer && !spec.suspended && spec.interval.Some? && source.Found?
  }

  /**
   The policy falls due an interval after its last rotation; without one, after the secret's creation; without
   that either, from now.
   */
  lemma DueInstant(spec: Spec, source: Source, st: Status, interval: int, planned: int)
    ensures Active(spec, source) <==> Looks(spec, source)
    ensures source.Found? ==>
              NextAt(st, source.created, interval, planned) == interval +
                match (st.last, source.created)
                case (Some(rotation), _) => rotation.at
                case (None, Some(created)) => created
                case (None, None) => planned
  {
  }

  /** Too early: the pass notes the due instant and comes back at it. */
  lemma EarlyPlan(spec: Spec, st: Status, source: Source, t: Times, attempt: Attempt, stamp: int -> string, next: int)
    requires Looks(spec, source) && next == NextAt(st, source.created, spec.interval.value, t.planned) && t.now < next
    ensures var plan := Pass(spec, st, source, t, attempt, stamp);
            && plan.answer == After(next - t.now) && plan.status.Some?
            && var after := plan.status.value;
               && after.(conditions := []) == Status(st.last, Some(next), st.count, spec.generation, [])
               && Says(after, Find(st.conditions, "RotationReady"), "RotationReady",
                       Report("True", "RotationScheduled", "Next rotation scheduled for " + stamp(next)), t.ready)
               && Says(after, Find(st.conditions, "RotationDue"), "RotationDue",
                       Report("False", "RotationScheduled", "Rotation not yet due"), t.due)
  {
    var ready := Report("True", "RotationScheduled", "Next rotation scheduled for " + stamp(next));
    ReadyIsNoted(st.conditions, ready, t.ready);
    DueIsNoted(Updated(st.conditions, "RotationReady", ready, t.ready),
               Report("False", "RotationScheduled", "Rotation not yet due"), t.due);
  }

  /** Due, but the rotation fails: it is not recorded, stays in progress and is tried again in a minute. */
  lemma BrokenPlan(spec: Spec, st: Status, source: Source, t: Times, message: string, stamp: int -> string, next: int)
    requires Looks(spec, source) && next == NextAt(st, source.created, spec.interval.value, t.planned) && t.now >= next
    ensures var plan := Pass(spec, st, source, t, Broke(message), stamp);
            && plan.answer == After(60_000_000_000) && plan.status.Some?
            && var after := plan.status.value;
               && after.(conditions := []) == Status(st.last, Some(next), st.count, st.observed, [])
               && Says(after, Find(st.conditions, "RotationReady"), "RotationReady",
                       Report("False", "RotationFailed", message), t.ready)
               && Says(after, Find(st.conditions, "RotationDue"), "RotationDue",
                       Report("True", "RotationInProgress", "Rotation in progress"), t.starting)
  {
    var due := Report("True", "RotationInProgress", "Rotation in progress");
    DueIsNoted(st.conditions, due, t.starting);
    ReadyIsNoted(Updated(st.conditions, "RotationDue", due, t.starting), Report("False", "RotationFailed", message), t.ready);
  }

  /** Due and done: the rotation is recorded with the secret's version, and the pass comes back after an interval. */
  lemma RotatedPlan(spec: Spec, st: Status, source: Source, t: Times, stamp: int -> string)
    requires Looks(spec, source) && NextAt(st, source.created, spec.interval.value, t.planned) <= t.now
    ensures var plan, interval := Pass(spec, st, source, t, Worked, stamp), spec.interval.value;
            && plan.answer == After(interval) && plan.status.Some?
            && var after := plan.status.value;
               && after.(conditions := [])
                  == Status(Some(Rotation(t.finished, source.version)), Some(t.scheduled + interval), st.count + 1,
                            spec.generation, [])
               && Says(after, Find(st.conditions, "RotationReady"), "RotationReady",
                       Report("True", "RotationSucceeded", "Last rotation succeeded"), t.ready)
               && Says(after, None, "RotationDue",
                       Report("False", "RotationScheduled", "Rotation completed, next scheduled"), t.due)
  {
    var due := Report("True", "RotationInProgress", "Rotation in progress");
    var ready := Report("True", "RotationSucceeded", "Last rotation succeeded");
    var started := Updated(st.conditions, "RotationDue", due, t.starting);
    DueIsNoted(st.conditions, due, t.starting);
    ReadyIsNoted(started, ready, t.ready);
    assert due.status != "False" by { assert due.status[0] == 'T' && "False"[0] == 'F'; }
    DueIsNoted(Updated(started, "RotationReady", ready, t.ready),
               Report("False", "RotationScheduled", "Rotation completed, next scheduled"), t.due);
  }

  /** The server keeps a status in everything but the fractions of its seconds. */
  lemma KeptExactly(st: Status, at: int, i: nat)
    ensures Truncate(at) % 1_000_000_000 == 0 && 0 <= at - Truncate(at) < 1_000_000_000
    ensures var kept := Kept(st);
            && kept.count == st.count && kept.observed == st.observed
            && (kept.last.Some? <==> st.last.Some?) && (kept.next.Some? <==> st.next.Some?)
            && (st.last.Some? ==> kept.last.value == Rotation(Truncate(st.last.value.at), st.last.value.version))
            && (st.next.Some? ==> kept.next.value == Truncate(st.next.value))
            && |kept.conditions| == |st.conditions|
            && (i < |st.conditions| ==>
                  kept.conditions[i]
                  == Condition(st.conditions[i].kind, st.conditions[i].report, Truncate(st.conditions[i].since)))
  {
  }
}
