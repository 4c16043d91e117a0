/**
 Rotations that were performed against rotations that were stored: how they correspond, when performed
 rotations are spaced too, and that a second reader of the same version can always crowd them.
 */
module ScheduleCrowding {
  import opened Base
  import opened Schedule
  import opened ScheduleRuns

  // ---------- conservation ----------

  /** The passes that have rotated and not stored it yet. */
  function Unstored(procs: map<nat, Proc>): set<nat> {
    set p | p in procs && Owes(procs[p])
  }

  lemma UnstoredWithout(procs: map<nat, Proc>, p: nat)
    ensures |Unstored(procs - {p})| == |Unstored(procs)| - if p in procs && Owes(procs[p]) then 1 else 0
  {
    assert Unstored(procs - {p}) == Unstored(procs) - {p};
  }

  lemma UnstoredWith(procs: map<nat, Proc>, p: nat, q: Proc)
    ensures |Unstored(procs[p := q])| == |Unstored(procs - {p})| + if Owes(q) then 1 else 0
  {
    if Owes(q) {
      assert Unstored(procs[p := q]) == Unstored(procs - {p}) + {p};
    } else {
      assert Unstored(procs[p := q]) == Unstored(procs - {p});
    }
  }

  ghost predicate Balanced(s: State) {
    |s.performed| == |s.log| + s.lost + |Unstored(s.procs)|
  }

  lemma StepKeepsBalance(interval: int, s: State, a: Action, stamp: int -> string)
    requires Balanced(s) && Enabled(interval, s, a)
    ensures Balanced(Step(interval, s, a, stamp))
  {
    var s' := Step(interval, s, a, stamp);
    if !a.Tick? && !a.Edit? {
      UnstoredWithout(s.procs, a.p);
      if a.p in s'.procs { UnstoredWith(s.procs, a.p, s'.procs[a.p]); }
    }
  }

  /** Every rotation that was performed is stored, lost, or still on its way to the server. */
  lemma {:induction false} PerformedIsStoredOrLost(
    interval: int, spec: Spec, now: int, acts: seq<Action>, stamp: int -> string)
    requires Run(interval, Created(now, spec), acts, stamp).Some?
    ensures var s := Run(interval, Created(now, spec), acts, stamp).value;
            |s.performed| == |s.log| + s.lost + |Unstored(s.procs)|
    decreases |acts|
  {
    if acts != [] {
      PerformedIsStoredOrLost(interval, spec, now, acts[..|acts| - 1], stamp);
      var before := Run(interval, Created(now, spec), acts[..|acts| - 1], stamp).value;
      StepKeepsBalance(interval, before, acts[|acts| - 1], stamp);
    } else {
      assert Unstored(Created(now, spec).procs) == {};
    }
  }

  // ---------- one pass ----------

  /** A rotation on the stored version comes a full interval after the last stored rotation. */
  lemma CurrentFinishIsSpaced(interval: int, s: State, p: nat)
    requires Inv(interval, s) && p in s.procs && s.procs[p].Rotating? && s.procs[p].rv == s.rv
    ensures s.log != [] ==> s.now >= s.log[|s.log| - 1] + interval
  {
    assert ProcOk(interval, s, s.procs[p]);
  }

  // ---------- runs ----------

  /** Some rotation was performed on a version that is not the stored one any more, so it will be lost. */
  ghost predicate Doomed(s: State) {
    exists p :: p in s.procs && Owes(s.procs[p]) && s.procs[p].rv < s.rv
  }

  /** The stored rotations are the first performed ones, instant by instant, a full interval apart. */
  ghost predicate Follows(interval: int, log: seq<int>, performed: seq<int>) {
    && |log| <= |performed|
    && (forall i :: 0 <= i < |log| ==> log[i] == Truncate(performed[i]))
    && (forall i :: 0 <= i < |log| - 1 ==> log[i] + interval <= performed[i + 1])
  }

  ghost predicate OwedAreLast(s: State) {
    forall p :: p in s.procs && Owes(s.procs[p]) ==>
      exists i :: |s.log| <= i < |s.performed| && s.performed[i] == s.procs[p].done.value
  }

  /** As long as nothing is lost or doomed to be. */
  ghost predicate Corresponds(interval: int, s: State) {
    s.lost > 0 || Doomed(s) || (Follows(interval, s.log, s.performed) && OwedAreLast(s))
  }

  /** The only owed rotation is the one after the stored ones. */
  lemma OnlyOwed(s: State, p: nat)
    requires Balanced(s) && s.lost == 0 && OwedAreLast(s) && Unstored(s.procs) == {p}
    ensures |s.performed| == |s.log| + 1 && s.performed[|s.log|] == s.procs[p].done.value
  {
    assert p in Unstored(s.procs);
  }

  lemma SaveKeepsCorrespondence(interval: int, s: State, p: nat)
    requires Inv(interval, s) && Balanced(s) && Corresponds(interval, s)
    requires p in s.procs && s.procs[p].Writing? && s.procs[p].rv == s.rv
    ensures Corresponds(interval, Stored(s, p))
  {
    var w, s' := s.procs[p], Stored(s, p);
    assert ProcOk(interval, s, w);
    if s.lost == 0 {
      if q :| q in s.procs && Owes(s.procs[q]) && (q != p || s.procs[q].rv < s.rv) {
        assert ProcOk(interval, s, s.procs[q]);
        if s'.rv > s.rv || s.procs[q].rv < s.rv {
          assert q in s'.procs && Owes(s'.procs[q]) && s'.procs[q].rv < s'.rv;
        } else {
          assert s'.log == s.log && s'.performed == s.performed;
          NothingSavedKeeps(interval, s, p);
        }
      } else if Owes(w) {
        assert Unstored(s.procs) == {p} by { assert p in Unstored(s.procs); }
        assert !Doomed(s);
        OnlyOwed(s, p);
      } else {
        assert !Doomed(s);
        assert OwedAreLast(s');
      }
    }
  }

  /** Saving a status that is stored already only ends the pass. */
  lemma NothingSavedKeeps(interval: int, s: State, p: nat)
    requires Corresponds(interval, s) && p in s.procs && s.procs[p].Writing? && !Owes(s.procs[p])
    requires s.procs[p].rv == s.rv && Stored(s, p).rv == s.rv
    ensures Corresponds(interval, Stored(s, p))
  {
    var s' := Stored(s, p);
    if Doomed(s) {
      var q :| q in s.procs && Owes(s.procs[q]) && s.procs[q].rv < s.rv;
      assert q in s'.procs && s'.procs[q] == s.procs[q];
    }
  }

  /** Steps that neither store nor perform a rotation: what was owed is still owed, or lost. */
  lemma QuietKeepsCorrespondence(interval: int, s: State, s': State)
    requires Corresponds(interval, s)
    requires s'.log == s.log && s'.performed == s.performed && s'.rv >= s.rv && s'.lost >= s.lost
    requires forall p :: p in s'.procs && Owes(s'.procs[p]) ==> p in s.procs && s'.procs[p] == s.procs[p]
    requires s'.lost == s.lost ==>
               forall p :: p in s.procs && Owes(s.procs[p]) ==> p in s'.procs && s'.procs[p] == s.procs[p]
    ensures Corresponds(interval, s')
  {
    if s.lost == 0 && s'.lost == 0 && Doomed(s) {
      var q :| q in s.procs && Owes(s.procs[q]) && s.procs[q].rv < s.rv;
      assert q in s'.procs && s'.procs[q] == s.procs[q];
    }
  }

  lemma FinishKeepsCorrespondence(interval: int, s: State, a: Action, stamp: int -> string)
    requires Inv(interval, s) && Corresponds(interval, s) && Enabled(interval, s, a) && a.Finish? && a.attempt.Worked?
    ensures Corresponds(interval, Step(interval, s, a, stamp))
  {
    var s' := Step(interval, s, a, stamp);
    var r := s.procs[a.p];
    assert ProcOk(interval, s, r);
    assert s'.performed == s.performed + [s.now] && s'.performed[|s.performed|] == s.now;
    if s.lost == 0 {
      if Doomed(s) {
        var q :| q in s.procs && Owes(s.procs[q]) && s.procs[q].rv < s.rv;
        assert q in s'.procs && s'.procs[q] == s.procs[q];
      } else {
        forall p | p in s'.procs && Owes(s'.procs[p])
          ensures exists i :: |s'.log| <= i < |s'.performed| && s'.performed[i] == s'.procs[p].done.value
        {
          if p != a.p {
            var i :| |s.log| <= i < |s.performed| && s.performed[i] == s.procs[p].done.value;
            assert s'.performed[i] == s.performed[i];
          }
        }
      }
    }
  }

  lemma StepKeepsCorrespondence(interval: int, s: State, a: Action, stamp: int -> string)
    requires Inv(interval, s) && Balanced(s) && Corresponds(interval, s) && Enabled(interval, s, a)
    ensures Corresponds(interval, Step(interval, s, a, stamp))
  {
    if a.Finish? && a.attempt.Worked? {
      FinishKeepsCorrespondence(interval, s, a, stamp);
    } else if a.Save? && a.reachable && s.procs[a.p].rv == s.rv {
      SaveKeepsCorrespondence(interval, s, a.p);
    } else {
      QuietKeepsCorrespondence(interval, s, Step(interval, s, a, stamp));
    }
  }

  lemma {:induction false} RunCorresponds(interval: int, spec: Spec, now: int, acts: seq<Action>, stamp: int -> string)
    requires Fixed(interval, spec) && Run(interval, Created(now, spec), acts, stamp).Some?
    ensures var s := Run(interval, Created(now, spec), acts, stamp).value;
            Inv(interval, s) && Balanced(s) && Corresponds(interval, s)
    decreases |acts|
  {
    RunKeepsInv(interval, spec, now, acts, stamp);
    PerformedIsStoredOrLost(interval, spec, now, acts, stamp);
    if acts != [] {
      var init := acts[..|acts| - 1];
      RunCorresponds(interval, spec, now, init, stamp);
      StepKeepsCorrespondence(interval, Run(interval, Created(now, spec), init, stamp).value, acts[|acts| - 1], stamp);
    }
  }

  /**
   A run in which no rotation was lost and none is on its way: the stored times are the performed
   instants one by one, truncated, and each rotation came a full interval after the stored time of
   the one before it.
   */
  lemma NothingLostMeansSpaced(interval: int, spec: Spec, now: int, acts: seq<Action>, stamp: int -> string, i: nat)
    requires Fixed(interval, spec) && Run(interval, Created(now, spec), acts, stamp).Some?
    requires var s := Run(interval, Created(now, spec), acts, stamp).value; s.lost == 0 && Unstored(s.procs) == {}
    ensures var s := Run(interval, Created(now, spec), acts, stamp).value;
            && |s.log| == |s.performed|
            && (i < |s.log| ==> s.log[i] == Truncate(s.performed[i]))
            && (i + 1 < |s.log| ==> s.performed[i + 1] >= Truncate(s.performed[i]) + interval)
  {
    RunCorresponds(interval, spec, now, acts, stamp);
    var s := Run(interval, Created(now, spec), acts, stamp).value;
    NothingOwedNothingDoomed(s);
  }

  lemma NothingOwedNothingDoomed(s: State)
    requires Unstored(s.procs) == {}
    ensures !Doomed(s)
  {
    forall p | p in s.procs ensures !Owes(s.procs[p]) {
      assert p in Unstored(s.procs) <==> Owes(s.procs[p]);
    }
  }

  // ---------- when a pass can crowd ----------

  predicate Schedulable(spec: Spec) {
    !spec.deleted && spec.finalizer && !spec.suspended && spec.interval.Some?
  }

  /** With this source and these clock readings, from `now` on, the pass is due before the bound. */
  predicate DueBefore(spec: Spec, read: Status, source: Source, t: Times, now: int, bound: int) {
    IsDue(spec, read, source, t) && now <= t.now < bound
  }

  /** A copy that lacks the rotation performed at `last`: it shows none, or an earlier one. */
  predicate Lacks(read: Status, last: int) {
    read.last.None? || read.last.value.at < Truncate(last)
  }

  /**
   A pass on a loaded copy can come due less than an interval after the rotation performed at `last` if
   and only if that time is not over and the copy lacks this rotation, whatever became of it since.
   */
  lemma CrowdsExactlyWhen(spec: Spec, read: Status, now: int, last: int)
    requires Schedulable(spec)
    ensures var bound := Truncate(last) + spec.interval.value;
            (exists source: Source, t: Times :: DueBefore(spec, read, source, t, now, bound))
            <==> now < bound && Lacks(read, last)
  {
    var interval := spec.interval.value;
    var bound := Truncate(last) + interval;
    if source: Source, t: Times :| DueBefore(spec, read, source, t, now, bound) {
      assert read.last.Some? ==> read.last.value.at + interval <= t.now < bound;
    }
    if now < bound && Lacks(read, last) {
      var at := if read.last.Some? && read.last.value.at + interval > now then read.last.value.at + interval else now;
      assert DueBefore(spec, read, Found(Some(now - interval), 0), Times(at, at, at, at, at, at, at), now, bound);
    }
  }

  /** The clock reaches `at`, the loaded pass looks, and rotates. */
  function PassActions(q: nat, source: Source, at: int): seq<Action> {
    var u := Times(at, at, at, at, at, at, at);
    [Tick(at)] + [Look(q, source, u)] + [Finish(q, u, Worked)]
  }

  ghost predicate RotatesAt(interval: int, s: State, q: nat, source: Source, at: int, stamp: int -> string) {
    var end := Run(interval, s, PassActions(q, source, at), stamp);
    end.Some? && end.value.performed == s.performed + [at]
  }

  /** A loaded pass rotates at an instant exactly when that is not past and the pass is due then. */
  lemma RotatesExactlyAt(interval: int, s: State, q: nat, source: Source, at: int, stamp: int -> string)
    requires q in s.procs && s.procs[q].Loaded?
    ensures RotatesAt(interval, s, q, source, at, stamp)
            <==> s.now <= at && IsDue(s.procs[q].spec, s.procs[q].read, source, Times(at, at, at, at, at, at, at))
  {
    var u := Times(at, at, at, at, at, at, at);
    var tick, look, finish := Tick(at), Look(q, source, u), Finish(q, u, Worked);
    var acts := PassActions(q, source, at);
    assert acts[..2] == [tick] + [look] && acts[2] == finish;
    assert ([tick] + [look])[..1] == [tick] && [tick][..0] == [];
    assert Run(interval, s, [], stamp) == Some(s);
    var one, two := Run(interval, s, [tick], stamp), Run(interval, s, [tick] + [look], stamp);
    assert one == if s.now <= at then Some(Step(interval, s, tick, stamp)) else None;
    assert two == if one.Some? then Some(Step(interval, one.value, look, stamp)) else None;
    if two.Some? {
      assert Enabled(interval, two.value, finish) <==> IsDue(s.procs[q].spec, s.procs[q].read, source, u);
    }
  }

  /**
   So, in every state with a rotation performed: whoever has loaded a copy of a schedulable policy can
   rotate again before an interval is over if and only if it is not over yet and the copy lacks the last
   rotation.  The condition can be checked when the copy is loaded.
   */
  lemma LoadedPassCrowdsExactlyWhen(interval: int, s: State, q: nat, stamp: int -> string)
    requires q in s.procs && s.procs[q].Loaded? && s.performed != []
    requires Schedulable(s.procs[q].spec) && Fixed(interval, s.procs[q].spec)
    ensures var last := s.performed[|s.performed| - 1];
            (exists source: Source, at: int ::
               RotatesAt(interval, s, q, source, at, stamp) && at < Truncate(last) + interval)
            <==> s.now < Truncate(last) + interval && Lacks(s.procs[q].read, last)
  {
    var spec, read := s.procs[q].spec, s.procs[q].read;
    var last := s.performed[|s.performed| - 1];
    var bound := Truncate(last) + interval;
    CrowdsExactlyWhen(spec, read, s.now, last);
    if source: Source, at: int :| RotatesAt(interval, s, q, source, at, stamp) && at < bound {
      RotatesExactlyAt(interval, s, q, source, at, stamp);
      assert DueBefore(spec, read, source, Times(at, at, at, at, at, at, at), s.now, bound);
    }
    if s.now < bound && Lacks(read, last) {
      var at := if read.last.Some? && read.last.value.at + interval > s.now then read.last.value.at + interval else s.now;
      RotatesExactlyAt(interval, s, q, Found(Some(s.now - interval), 0), at, stamp);
    }
  }

  /** A rotation that finishes too soon was based on a copy that lacks the last one. */
  lemma CrowdingFinishLacksLast(interval: int, s: State, p: nat)
    requires Inv(interval, s) && p in s.procs && s.procs[p].Rotating? && s.performed != []
    requires s.now < Truncate(s.performed[|s.performed| - 1]) + interval
    ensures Lacks(s.procs[p].read, s.performed[|s.performed| - 1])
  {
    var r, last := s.procs[p], s.performed[|s.performed| - 1];
    assert ProcOk(interval, s, r);
    CrowdsExactlyWhen(r.spec, r.read, s.now, last);
    var u := Times(r.planned, s.now, s.now, s.now, s.now, s.now, s.now);
    assert DueBefore(r.spec, r.read, r.source, u, s.now, Truncate(last) + interval);
  }

  /** A policy that lacks the last rotation has lost one, or is still to be told of one. */
  lemma LackingIsLostOrOwed(interval: int, s: State)
    requires Inv(interval, s) && Balanced(s) && Corresponds(interval, s) && s.performed != []
    ensures Lacks(s.stored, s.performed[|s.performed| - 1]) ==> s.lost > 0 || Unstored(s.procs) != {}
  {
    if s.lost == 0 && Unstored(s.procs) == {} {
      NothingOwedNothingDoomed(s);
      assert s.log[|s.log| - 1] == Truncate(s.performed[|s.performed| - 1]);
    }
  }

  lemma CurrentCopyIsStored(interval: int, s: State, p: nat)
    requires Inv(interval, s) && p in s.procs && s.procs[p].Rotating?
    ensures s.procs[p].rv < s.rv || s.procs[p].read == s.stored
  {
    assert ProcOk(interval, s, s.procs[p]);
  }

  /**
   In every run a rotation that crowds the last one is based on a copy that lacks it.  So either the copy
   is outdated, or the policy itself lacks the last rotation, which then has been lost or is unstored.
   */
  lemma CrowdingNeedsStaleOrLost(
    interval: int, spec: Spec, now: int, acts: seq<Action>, stamp: int -> string, p: nat, t: Times)
    requires Fixed(interval, spec) && Run(interval, Created(now, spec), acts, stamp).Some?
    requires Enabled(interval, Run(interval, Created(now, spec), acts, stamp).value, Finish(p, t, Worked))
    requires var s := Run(interval, Created(now, spec), acts, stamp).value;
             s.performed != [] && s.now < Truncate(s.performed[|s.performed| - 1]) + interval
    ensures var s := Run(interval, Created(now, spec), acts, stamp).value;
            var last := s.performed[|s.performed| - 1];
            && Lacks(s.procs[p].read, last)
            && (s.procs[p].rv < s.rv || Lacks(s.stored, last))
            && (Lacks(s.stored, last) ==> s.lost > 0 || Unstored(s.procs) != {})
  {
    RunCorresponds(interval, spec, now, acts, stamp);
    var s := Run(interval, Created(now, spec), acts, stamp).value;
    CrowdingFinishLacksLast(interval, s, p);
    CurrentCopyIsStored(interval, s, p);
    LackingIsLostOrOwed(interval, s);
  }

  lemma RunThen(interval: int, s: State, acts: seq<Action>, stamp: int -> string, mid: State, a: Action)
    requires Run(interval, s, acts, stamp) == Some(mid) && Enabled(interval, mid, a)
    ensures Run(interval, s, acts + [a], stamp) == Some(Step(interval, mid, a, stamp))
  {
    assert (acts + [a])[..|acts|] == acts;
  }

  /** A pass that loads the version, looks now and rotates now. */
  function AgainActions(r: Proc, q: nat, now: int): seq<Action>
    requires r.Rotating?
  {
    var u := Times(r.planned, now, now, now, now, now, now);
    [Load(q, r.rv, r.spec, r.read)] + [Look(q, r.source, u)] + [Finish(q, u, Worked)]
  }

  /** Load, look and rotate: what the pass has in hand then. */
  lemma PassOnce(interval: int, s: State, r: Proc, q: nat, stamp: int -> string) returns (s': State)
    requires r.Rotating? && (r.rv, r.spec, r.read) in s.seen && r.spec.interval == Some(interval) && Active(r.spec, r.source)
    requires NextAt(r.read, r.source.created, interval, r.planned) <= s.now && q !in s.procs
    ensures Run(interval, s, AgainActions(r, q, s.now), stamp) == Some(s')
    ensures q in s'.procs && s' == s.(procs := s.procs[q := s'.procs[q]], performed := s.performed + [s.now])
    ensures var w := s'.procs[q];
            && w.Writing? && w.rv == r.rv && w.read == r.read && w.done == Some(s.now)
            && w.write.count == r.read.count + 1 && w.write.last == Some(Rotation(s.now, r.source.version))
  {
    var u := Times(r.planned, s.now, s.now, s.now, s.now, s.now, s.now);
    var load, look, finish := Load(q, r.rv, r.spec, r.read), Look(q, r.source, u), Finish(q, u, Worked);
    var s1 := Step(interval, s, load, stamp);
    RunThen(interval, s, [], stamp, s, load);
    assert [] + [load] == [load];
    var s2 := Step(interval, s1, look, stamp);
    RunThen(interval, s, [load], stamp, s1, look);
    RunThen(interval, s, [load] + [look], stamp, s2, finish);
    s' := Step(interval, s2, finish, stamp);
    assert s'.procs == s.procs[q := s'.procs[q]];
  }

  lemma {:induction false} RunConcat(interval: int, s: State, a: seq<Action>, b: seq<Action>, stamp: int -> string)
    requires Run(interval, s, a, stamp).Some?
    ensures Run(interval, s, a + b, stamp) == Run(interval, Run(interval, s, a, stamp).value, b, stamp)
    decreases |b|
  {
    if b == [] {
      assert a + b == a;
    } else {
      assert (a + b)[..|a + b| - 1] == a + b[..|b| - 1];
      RunConcat(interval, s, a, b[..|b| - 1], stamp);
    }
  }

  /**
   And the reason is always within reach: after every performed rotation of every run, another pass
   that reads the same version from a cache rotates once more at the same instant.
   */
  lemma EveryRotationCanBeRepeated(
    interval: int, spec: Spec, now: int, acts: seq<Action>, stamp: int -> string, p: nat, t: Times, q: nat)
    requires Fixed(interval, spec) && Run(interval, Created(now, spec), acts, stamp).Some?
    requires Enabled(interval, Run(interval, Created(now, spec), acts, stamp).value, Finish(p, t, Worked))
    requires q != p && q !in Run(interval, Created(now, spec), acts, stamp).value.procs
    ensures var s := Run(interval, Created(now, spec), acts, stamp).value;
            var more := [Finish(p, t, Worked)] + AgainActions(s.procs[p], q, s.now);
            var end := Run(interval, Created(now, spec), acts + more, stamp);
            end.Some? && end.value.performed == s.performed + [s.now, s.now]
  {
    RunKeepsInv(interval, spec, now, acts, stamp);
    var s := Run(interval, Created(now, spec), acts, stamp).value;
    var finish := Finish(p, t, Worked);
    assert ProcOk(interval, s, s.procs[p]);
    var s1 := Step(interval, s, finish, stamp);
    RunThen(interval, Created(now, spec), acts, stamp, s, finish);
    assert s1.performed == s.performed + [s.now] && s1.now == s.now && q !in s1.procs;
    var end := PassOnce(interval, s1, s.procs[p], q, stamp);
    RunConcat(interval, Created(now, spec), acts + [finish], AgainActions(s.procs[p], q, s.now), stamp);
    assert acts + [finish] + AgainActions(s.procs[p], q, s.now) == acts + ([finish] + AgainActions(s.procs[p], q, s.now));
  }

  /**
   The smallest case.  One worker with a stale cache is enough to rotate twice
   in the same second: the second status update is refused, but the key has been replaced already.
   */
  lemma PerformedRotationsCanCrowd(interval: int, stamp: int -> string)
    returns (now: int, spec: Spec, acts: seq<Action>)
    ensures Fixed(interval, spec) && Run(interval, Created(now, spec), acts, stamp).Some?
    ensures var s := Run(interval, Created(now, spec), acts, stamp).value;
            s.performed == [now, now] && s.stored.count == 1 && s.lost == 1 && s.procs == map[]
  {
    now := interval;
    spec := Spec(false, true, false, Some(interval), 1);
    var st := Status(None, None, 0, 0, []);
    var source, t := Found(Some(0), 7), Times(now, now, now, now, now, now, now);
    var r := Rotating(0, spec, st, source, now, now);
    var s0 := Created(now, spec);
    assert ProcOk(interval, s0, r);
    var s1 := FirstPass(interval, now, spec, st, source, stamp);
    var s2 := LatePass(interval, s1, spec, st, source, stamp);
    RunConcat(interval, s0, AgainActions(r, 0, now) + [Save(0, true)], AgainActions(r, 0, now) + [Save(0, true)], stamp);
    acts := AgainActions(r, 0, now) + [Save(0, true)] + (AgainActions(r, 0, now) + [Save(0, true)]);
  }

  lemma FirstPass(interval: int, now: int, spec: Spec, st: Status, source: Source, stamp: int -> string)
    returns (s: State)
    requires spec == Spec(false, true, false, Some(interval), 1) && st == Status(None, None, 0, 0, [])
    requires source == Found(Some(0), 7) && now == interval
    ensures var acts := AgainActions(Rotating(0, spec, st, source, now, now), 0, now) + [Save(0, true)];
            Run(interval, Created(now, spec), acts, stamp) == Some(s)
    ensures s.procs == map[] && s.performed == [now] && s.lost == 0 && s.stored.count == 1 && s.rv == 1 && s.now == now
    ensures (0, spec, st) in s.seen
  {
    var s0, r := Created(now, spec), Rotating(0, spec, st, source, now, now);
    var s3 := PassOnce(interval, s0, r, 0, stamp);
    RunThen(interval, s0, AgainActions(r, 0, now), stamp, s3, Save(0, true));
    s := Step(interval, s3, Save(0, true), stamp);
    assert s.procs == map[];
  }

  /** The second pass still reads the first version; its update is refused. */
  lemma LatePass(interval: int, s: State, spec: Spec, st: Status, source: Source, stamp: int -> string)
    returns (s': State)
    requires spec == Spec(false, true, false, Some(interval), 1) && st == Status(None, None, 0, 0, [])
    requires source == Found(Some(0), 7) && s.now == interval && (0, spec, st) in s.seen && s.rv == 1 && s.procs == map[]
    ensures Run(interval, s, AgainActions(Rotating(0, spec, st, source, s.now, s.now), 0, s.now) + [Save(0, true)], stamp)
            == Some(s')
    ensures s'.procs == map[] && s'.performed == s.performed + [s.now] && s'.lost == s.lost + 1 && s'.stored == s.stored
  {
    var r := Rotating(0, spec, st, source, s.now, s.now);
    var s3 := PassOnce(interval, s, r, 0, stamp);
    RunThen(interval, s, AgainActions(r, 0, s.now), stamp, s3, Save(0, true));
    s' := Step(interval, s3, Save(0, true), stamp);
    assert s'.procs == map[];
  }

  // ---------- the spacing is attained ----------

  /** One whole pass on the stored version, status update included. */
  lemma StorePass(interval: int, s: State, r: Proc, q: nat, stamp: int -> string) returns (s': State)
    requires r.Rotating? && r.rv == s.rv && r.read == s.stored && (r.rv, r.spec, r.read) in s.seen
    requires r.spec.interval == Some(interval) && Active(r.spec, r.source) && q !in s.procs
    requires NextAt(r.read, r.source.created, interval, r.planned) <= s.now
    ensures Run(interval, s, AgainActions(r, q, s.now) + [Save(q, true)], stamp) == Some(s')
    ensures s'.log == s.log + [Truncate(s.now)] && s'.procs == s.procs && s'.now == s.now && s'.rv == s.rv + 1
    ensures s'.stored.last.Some? && s'.stored.last.value.at == Truncate(s.now) && (s'.rv, s.spec, s'.stored) in s'.seen
  {
    var mid := PassOnce(interval, s, r, q, stamp);
    RunThen(interval, s, AgainActions(r, q, s.now), stamp, mid, Save(q, true));
    s' := Step(interval, mid, Save(q, true), stamp);
    assert s'.procs == s.procs;
  }

  /** For every interval that is not negative, two rotations can be stored exactly its whole seconds apart. */
  lemma SpacingIsAttained(interval: int, stamp: int -> string) returns (now: int, spec: Spec, acts: seq<Action>)
    requires interval >= 0
    ensures Fixed(interval, spec) && Run(interval, Created(now, spec), acts, stamp).Some?
    ensures Run(interval, Created(now, spec), acts, stamp).value.log == [0, Truncate(interval)]
  {
    now := 0;
    spec := Spec(false, true, false, Some(interval), 1);
    var source := Found(Some(-interval), 7);
    var s0 := Created(now, spec);
    var first := Rotating(0, spec, s0.stored, source, 0, 0);
    var s1 := StorePass(interval, s0, first, 0, stamp);
    var acts1 := AgainActions(first, 0, 0) + [Save(0, true)];
    RunThen(interval, s0, acts1, stamp, s1, Tick(interval));
    var s2 := Step(interval, s1, Tick(interval), stamp);
    var second := Rotating(s2.rv, spec, s2.stored, source, interval, interval);
    var s3 := StorePass(interval, s2, second, 0, stamp);
    RunConcat(interval, s0, acts1 + [Tick(interval)], AgainActions(second, 0, interval) + [Save(0, true)], stamp);
    acts := acts1 + [Tick(interval)] + (AgainActions(second, 0, interval) + [Save(0, true)]);
  }
}
