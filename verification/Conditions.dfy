/**
 The conditions list of a custom resource's status and `setCondition`, which both controllers share
 (internal/controller/genesisrotationpolicy_controller.go,
 internal/controller/genesisbootstrap_controller.go).
 */
module Conditions {
  import opened Base

  datatype Report = Report(status: string, reason: string, message: string)

  datatype Condition = Condition(kind: string, report: Report, since: int)

  /** The first condition of the kind is replaced unless it already says the same; a new kind goes last. */
  function Updated(cs: seq<Condition>, kind: string, report: Report, now: int): seq<Condition>
    decreases |cs|
  {
    if cs == [] then [Condition(kind, report, now)]
    else if cs[0].kind == kind then
      if cs[0].report == report then cs else [Condition(kind, report, now)] + cs[1..]
    else [cs[0]] + Updated(cs[1..], kind, report, now)
  }

  function Find(cs: seq<Condition>, kind: string): Option<Condition>
    decreases |cs|
  {
    if cs == [] then None else if cs[0].kind == kind then Some(cs[0]) else Find(cs[1..], kind)
  }

  function Kinds(cs: seq<Condition>): (r: seq<string>)
    ensures |r| == |cs|
  {
    seq(|cs|, i requires 0 <= i < |cs| => cs[i].kind)
  }

  ghost predicate Unique(cs: seq<Condition>) {
    forall i, j :: 0 <= i < j < |cs| ==> cs[i].kind != cs[j].kind
  }

  /** A lookup finds the new report, dated now exactly when it differs from the one before. */
  lemma {:induction false} UpdatedIsFound(cs: seq<Condition>, kind: string, report: Report, now: int)
    ensures var before := Find(cs, kind);
            Find(Updated(cs, kind, report, now), kind) ==
            Some(Condition(kind, report, if before.Some? && before.value.report == report then before.value.since else now))
    decreases |cs|
  {
    if cs != [] && cs[0].kind != kind {
      UpdatedIsFound(cs[1..], kind, report, now);
      assert Updated(cs, kind, report, now)[1..] == Updated(cs[1..], kind, report, now);
    }
  }

  lemma {:induction false} OthersAreKept(cs: seq<Condition>, kind: string, report: Report, now: int, other: string)
    requires other != kind
    ensures Find(Updated(cs, kind, report, now), other) == Find(cs, other)
    decreases |cs|
  {
    if cs != [] && cs[0].kind != kind {
      OthersAreKept(cs[1..], kind, report, now, other);
      assert Updated(cs, kind, report, now)[1..] == Updated(cs[1..], kind, report, now);
    } else if cs != [] {
      assert cs[0].report != report ==> Updated(cs, kind, report, now)[1..] == cs[1..];
    }
  }

  /** No condition moves or is dropped, and the list grows only by a kind that was absent. */
  lemma {:induction false} KindsAreStable(cs: seq<Condition>, kind: string, report: Report, now: int)
    ensures Kinds(Updated(cs, kind, report, now)) == Kinds(cs) + if Find(cs, kind).Some? then [] else [kind]
    ensures Find(cs, kind).None? ==> forall i :: 0 <= i < |cs| ==> cs[i].kind != kind
    decreases |cs|
  {
    if cs != [] && cs[0].kind != kind {
      KindsAreStable(cs[1..], kind, report, now);
      var u := Updated(cs, kind, report, now);
      assert Kinds(u) == [cs[0].kind] + Kinds(u[1..]);
      assert Kinds(cs) == [cs[0].kind] + Kinds(cs[1..]);
      assert u[1..] == Updated(cs[1..], kind, report, now);
      if Find(cs, kind).None? {
        forall i | 0 <= i < |cs| ensures cs[i].kind != kind {
          if i > 0 { assert cs[1..][i - 1] == cs[i]; }
        }
      }
    }
  }

  lemma UniqueIsKept(cs: seq<Condition>, kind: string, report: Report, now: int)
    requires Unique(cs)
    ensures Unique(Updated(cs, kind, report, now))
  {
    KindsAreStable(cs, kind, report, now);
    var u := Updated(cs, kind, report, now);
    forall i, j | 0 <= i < j < |u| ensures u[i].kind != u[j].kind {
      assert Kinds(u)[i] == u[i].kind && Kinds(u)[j] == u[j].kind;
      assert i < |cs| && Kinds(cs)[i] == cs[i].kind;
      assert j < |cs| ==> Kinds(cs)[j] == cs[j].kind;
    }
  }

  /** Reporting the same again, at whatever time, changes nothing. */
  lemma {:induction false} RepeatIsNoop(cs: seq<Condition>, kind: string, report: Report, now: int)
    requires Find(cs, kind).Some? && Find(cs, kind).value.report == report
    ensures Updated(cs, kind, report, now) == cs
    decreases |cs|
  {
    if cs[0].kind != kind {
      RepeatIsNoop(cs[1..], kind, report, now);
      assert cs == [cs[0]] + cs[1..];
    }
  }

  /** The list as the status object holds it. */
  class List {
    var items: seq<Condition>

    constructor (items: seq<Condition>)
      ensures this.items == items
    {
      this.items := items;
    }

    method Set(kind: string, report: Report, now: int)
      modifies this
      ensures items == Updated(old(items), kind, report, now)
    {
      ghost var before := items;
      for i := 0 to |items|
        invariant items == before
        invariant Updated(before, kind, report, now) == before[..i] + Updated(before[i..], kind, report, now)
      {
        if items[i].kind == kind {
          if items[i].report != report {
            items := items[i := Condition(kind, report, now)];
            assert items == before[..i] + ([Condition(kind, report, now)] + before[i..][1..]);
          } else {
            assert before[..i] + before[i..] == before;
          }
          return;
        }
        assert before[i..][1..] == before[i + 1..];
        assert before[..i] + ([before[i]] + Updated(before[i + 1..], kind, report, now))
            == before[..i + 1] + Updated(before[i + 1..], kind, report, now);
      }
      assert before[|before|..] == [] && before[..|before|] == before;
      items := items + [Condition(kind, report, now)];
    }
  }
}
