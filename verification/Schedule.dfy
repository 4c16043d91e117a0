/**
 When the rotation policy controller rotates, and what it records
 (internal/controller/genesisrotationpolicy_controller.go).  Times are nanoseconds.  The API server
 keeps whole seconds and takes a status only under the version that was read.
 */
module Schedule {
  import opened Base
  import opened Conditions

  const SECOND := 1_000_000_000
  const MINUTE := 60 * SECOND

  function Truncate(t: int): int { t - t % SECOND }

  /** The source secret's version is the one read before the rotation. */
  datatype Rotation = Rotation(at: int, version: nat)

  datatype Status = Status(
    last: Option<Rotation>, next: Option<int>, count: int, observed: int, conditions: seq<Condition>)

  datatype Spec = Spec(deleted: bool, finalizer: bool, suspended: bool, interval: Option<int>, generation: int)

  datatype Source = Missing | Unreadable | Found(created: Option<int>, version: nat)

  /** The clock readings of one pass; the last two date the conditions that the pass ends with. */
  datatype Times = Times(planned: int, now: int, starting: int, finished: int, scheduled: int, ready: int, due: int) {
    predicate Ordered() {
      planned <= now <= starting <= finished <= scheduled && now <= ready <= due
    }
  }

  datatype Answer = Finished | Again | After(delay: int) | Failure

  /** What a pass does: the status it asks the server to store, if any, and its answer once stored. */
  datatype Plan = Plan(status: Option<Status>, answer: Answer)

  /** How the rotation itself went, with the error text. */
  datatype Attempt = Worked | Broke(message: string)

  const READY := "RotationReady"
  const DUE := "RotationDue"

  function Note(st: Status, kind: string, report: Report, at: int): Status {
    st.(conditions := Updated(st.conditions, kind, report, at))
  }

  function Blocked(st: Status, reason: string, message: string, at: int): Status {
    Note(st, READY, Report("False", reason, message), at)
  }

  function NextAt(st: Status, created: Option<int>, interval: int, planned: int): int {
    if st.last.Some? then st.last.value.at + interval
    else if created.None? then planned + interval
    else created.value + interval
  }

  /** `stamp` renders an instant for the condition's message. */
  function Waiting(st: Status, next: int, generation: int, t: Times, stamp: int -> string): Status {
    var s := st.(next := Some(next));
    var s := Note(s, READY, Report("True", "RotationScheduled", "Next rotation scheduled for " + stamp(next)), t.ready);
    Note(s, DUE, Report("False", "RotationScheduled", "Rotation not yet due"), t.due).(observed := generation)
  }

  function Starting(st: Status, next: int, t: Times): Status {
    Note(st.(next := Some(next)), DUE, Report("True", "RotationInProgress", "Rotation in progress"), t.starting)
  }

  function Rotated(st: Status, interval: int, version: nat, generation: int, t: Times): Status {
    var s := st.(last := Some(Rotation(t.finished, version)), count := st.count + 1, next := Some(t.scheduled + interval));
    var s := Note(s, READY, Report("True", "RotationSucceeded", "Last rotation succeeded"), t.ready);
    Note(s, DUE, Report("False", "RotationScheduled", "Rotation completed, next scheduled"), t.due).(observed := generation)
  }

  /** One pass over the policy, on the status that was read. */
  function Pass(spec: Spec, st: Status, source: Source, t: Times, attempt: Attempt, stamp: int -> string): Plan {
    if spec.deleted then Plan(None, Finished)
    else if !spec.finalizer then Plan(None, Again)
    else if spec.suspended then
      Plan(Some(Blocked(st, "RotationSuspended", "Rotation is suspended", t.ready)), Finished)
    else if spec.interval.None? then
      Plan(Some(Blocked(st, "RotationFailed", "Invalid interval", t.ready)), Finished)
    else if source.Unreadable? then Plan(None, Failure)
    else if source.Missing? then
      Plan(Some(Blocked(st, "RotationFailed", "Source secret not found", t.ready)), After(MINUTE))
    else
      var interval := spec.interval.value;
      var next := NextAt(st, source.created, interval, t.planned);
      if t.now < next then Plan(Some(Waiting(st, next, spec.generation, t, stamp)), After(next - t.now))
      else if attempt.Broke? then
        Plan(Some(Blocked(Starting(st, next, t), "RotationFailed", attempt.message, t.ready)), After(MINUTE))
      else Plan(Some(Rotated(Starting(st, next, t), interval, source.version, spec.generation, t)), After(interval))
  }

  /** Deletion removes the finalizer and any other first pass adds it. */
  predicate UpdatesMetadata(spec: Spec) {
    spec.deleted == spec.finalizer
  }

  predicate Active(spec: Spec, source: Source) {
    !spec.deleted && spec.finalizer && !spec.suspended && spec.interval.Some? && source.Found?
  }

  /** Everything an API server keeps of a status. */
  function Kept(st: Status): Status {
    st.(last := if st.last.Some? then Some(st.last.value.(at := Truncate(st.last.value.at))) else None,
        next := if st.next.Some? then Some(Truncate(st.next.value)) else None,
        conditions := KeptConditions(st.conditions))
  }

  function KeptConditions(cs: seq<Condition>): seq<Condition> {
    seq(|cs|, i requires 0 <= i < |cs| => cs[i].(since := Truncate(cs[i].since)))
  }

  // ---------- the objects ----------

  /** The stored policy: its version moves exactly when an accepted update changes something. */
  class PolicyServer {
    var rv: nat
    var status: Status

    constructor (status: Status)
      ensures rv == 0 && this.status == status
    {
      rv := 0;
      this.status := status;
    }

    method UpdateStatus(read: nat, st: Status, reachable: bool) returns (ok: bool)
      modifies this
      ensures ok == (reachable && read == old(rv))
      ensures status == if ok then Kept(st) else old(status)
      ensures rv == if ok && Kept(st) != old(status) then old(rv) + 1 else old(rv)
    {
      ok := reachable && read == rv;
      if ok && Kept(st) != status {
        status := Kept(st);
        rv := rv + 1;
      }
    }

    /** Adding or removing the finalizer changes the object, so its version moves. */
    method UpdateMetadata(read: nat, reachable: bool) returns (ok: bool)
      modifies this
      ensures ok == (reachable && read == old(rv)) && status == old(status)
      ensures rv == if ok then old(rv) + 1 else old(rv)
    {
      ok := reachable && read == rv;
      if ok {
        rv := rv + 1;
      }
    }
  }

  /** The policy as a pass holds it in memory. */
  class Policy {
    const rv: nat
    var last: Option<Rotation>
    var next: Option<int>
    var count: int
    var observed: int
    const conditions: List

    constructor (rv: nat, st: Status)
      ensures this.rv == rv && fresh(conditions) && Value() == st
    {
      this.rv := rv;
      last, next, count, observed := st.last, st.next, st.count, st.observed;
      conditions := new List(st.conditions);
    }

    ghost function Value(): Status
      reads this, conditions
    {
      Status(last, next, count, observed, conditions.items)
    }

    method Store(server: PolicyServer, reachable: bool, answer: Answer) returns (r: Answer)
      requires server as object != this && server as object != conditions
      modifies server
      ensures var ok := reachable && rv == old(server.rv);
              && r == (if ok then answer else Failure)
              && server.status == (if ok then Kept(Value()) else old(server.status))
              && server.rv == if ok && Kept(Value()) != old(server.status) then old(server.rv) + 1 else old(server.rv)
    {
      var ok := server.UpdateStatus(rv, Status(last, next, count, observed, conditions.items), reachable);
      r := if ok then answer else Failure;
    }

    method Block(reason: string, message: string, at: int)
      modifies conditions
      ensures Value() == Blocked(old(Value()), reason, message, at)
    {
      conditions.Set(READY, Report("False", reason, message), at);
    }

    method Wait(nextRotation: int, generation: int, t: Times, stamp: int -> string)
      modifies this, conditions
      ensures Value() == Waiting(old(Value()), nextRotation, generation, t, stamp)
    {
      next := Some(nextRotation);
      var message := "Next rotation scheduled for " + stamp(nextRotation);
      conditions.Set(READY, Report("True", "RotationScheduled", message), t.ready);
      conditions.Set(DUE, Report("False", "RotationScheduled", "Rotation not yet due"), t.due);
      observed := generation;
    }

    method Start(nextRotation: int, t: Times)
      modifies this, conditions
      ensures Value() == Starting(old(Value()), nextRotation, t)
    {
      next := Some(nextRotation);
      conditions.Set(DUE, Report("True", "RotationInProgress", "Rotation in progress"), t.starting);
    }

    method Record(interval: int, version: nat, generation: int, t: Times)
      modifies this, conditions
      ensures Value() == Rotated(old(Value()), interval, version, generation, t)
    {
      last := Some(Rotation(t.finished, version));
      count := count + 1;
      next := Some(t.scheduled + interval);
      conditions.Set(READY, Report("True", "RotationSucceeded", "Last rotation succeeded"), t.ready);
      conditions.Set(DUE, Report("False", "RotationScheduled", "Rotation completed, next scheduled"), t.due);
      observed := generation;
    }

    /** The branches of a pass up to its status update: the plan is in the object, or there is none. */
    method Prepare(spec: Spec, source: Source, t: Times, attempt: Attempt, stamp: int -> string)
      returns (write: bool, answer: Answer)
      modifies this, conditions
      ensures var plan := Pass(spec, old(Value()), source, t, attempt, stamp);
              && write == plan.status.Some?
              && Value() == (if write then plan.status.value else old(Value()))
              && answer == plan.answer
    {
      write, answer := true, Finished;
      if spec.deleted {
        return false, Finished;
      }
      if !spec.finalizer {
        return false, Again;
      }
      if spec.suspended {
        Block("RotationSuspended", "Rotation is suspended", t.ready);
        return;
      }
      if spec.interval.None? {
        Block("RotationFailed", "Invalid interval", t.ready);
        return;
      }
      var interval := spec.interval.value;
      match source
      case Unreadable => return false, Failure;
      case Missing =>
        Block("RotationFailed", "Source secret not found", t.ready);
        answer := After(MINUTE);
      case Found(created, version) =>
        var nextRotation;
        if last.Some? {
          nextRotation := last.value.at + interval;
        } else if created.None? {
          nextRotation := t.planned + interval;
        } else {
          nextRotation := created.value + interval;
        }
        if t.now < nextRotation {
          Wait(nextRotation, spec.generation, t, stamp);
          return true, After(nextRotation - t.now);
        }
        Start(nextRotation, t);
        if attempt.Broke? {
          Block("RotationFailed", attempt.message, t.ready);
          return true, After(MINUTE);
        }
        Record(interval, version, spec.generation, t);
        answer := After(interval);
    }

    /**
     A pass: deletion and the finalizer update metadata, the other branches end with a status update, and
     either is refused when the version that was read is not the stored one.  The stored count moves
     exactly when the policy is active and due, the rotation worked and the update was accepted.
     */
    method Reconcile(server: PolicyServer, spec: Spec, source: Source, t: Times, attempt: Attempt,
                     stamp: int -> string, reachable: bool) returns (answer: Answer)
      requires server as object != this && server as object != conditions
      modifies this, conditions, server
      ensures var plan := Pass(spec, old(Value()), source, t, attempt, stamp);
              var accepted := reachable && rv == old(server.rv);
              && server.status == (if accepted && plan.status.Some? then Kept(plan.status.value) else old(server.status))
              && server.rv == old(server.rv)
                 + (if accepted && (spec.deleted == spec.finalizer || server.status != old(server.status)) then 1 else 0)
              && answer == (if (plan.status.Some? || spec.deleted == spec.finalizer) && !accepted then Failure else plan.answer)
      ensures old(server.status) == old(Value()) ==>
                server.status.count == old(server.status).count
                + (if reachable && rv == old(server.rv) && attempt.Worked? && Active(spec, source)
                      && NextAt(old(Value()), source.created, spec.interval.value, t.planned) <= t.now
                   then 1 else 0)
    {
      var write;
      write, answer := Prepare(spec, source, t, attempt, stamp);
      if write {
        answer := Store(server, reachable, answer);
      } else if UpdatesMetadata(spec) {
        var saved := server.UpdateMetadata(rv, reachable);
        if !saved {
          answer := Failure;
        }
      }
    }
  }
}
