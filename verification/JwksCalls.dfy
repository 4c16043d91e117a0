/**
 One caller of the JWKS cache that nobody disturbs (internal/identity/github/github.go): the atomic steps
 under the lock amount to the sequential `getKey`.
 */
module JwksCalls {
  import opened Base
  import opened Jwks

  /** A lookup answers with the key that is in the map now; without one the fast path refreshes and the slow one fails. */
  lemma LookupsAreExact(s: Cache, a: Action)
    requires Enabled(s, a) && (a.LookupFast? || a.LookupSlow?)
    ensures var c := s.callers[a.t];
            var stage := if c.kid in s.keys then Returned(s.keys[c.kid], |s.installs|, s.clock)
                         else if a.LookupFast? then NeedsRefresh else Failed;
            Step(s, a) == s.(readers := s.readers - {a.t}, callers := s.callers[a.t := Caller(c.kid, c.since, stage)])
  {
  }

  /** Nobody else acts between the two states. */
  ghost predicate Alone(s: Cache, acts: seq<Action>, t: Tid, m: Cache) {
    RunCache(s, acts) == Some(m) && forall i :: 0 <= i < |acts| ==> acts[i].Tick? || acts[i].t == t
  }

  lemma AloneThen(s: Cache, acts: seq<Action>, t: Tid, m: Cache, a: Action)
    requires Alone(s, acts, t, m) && Enabled(m, a) && (a.Tick? || a.t == t)
    ensures Alone(s, acts + [a], t, Step(m, a))
  {
    assert (acts + [a])[..|acts|] == acts;
  }

  lemma AloneOnce(s: Cache, t: Tid, a: Action)
    requires Enabled(s, a) && (a.Tick? || a.t == t)
    ensures Alone(s, [a], t, Step(s, a))
  {
    assert [a][..0] == [];
  }

  lemma {:induction false} AloneConcat(s: Cache, a: seq<Action>, t: Tid, m: Cache, b: seq<Action>, m': Cache)
    requires Alone(s, a, t, m) && Alone(m, b, t, m')
    ensures Alone(s, a + b, t, m')
    decreases |b|
  {
    if b == [] {
      assert a + b == a;
    } else {
      var init := b[..|b| - 1];
      AloneConcat(s, a, t, m, init, RunCache(m, init).value);
      assert (a + b)[..|a + b| - 1] == a + init;
    }
  }

  /** The lock is free. */
  predicate Idle(s: Cache) {
    s.writer.None? && s.readers == {}
  }

  /** The same state with the caller at another stage, at another time. */
  function Moved(s: Cache, t: Tid, c: Caller, clock: int, stage: Stage): Cache {
    s.(clock := clock, callers := s.callers[t := c.(stage := stage)])
  }

  /** The call takes the read lock and reads the clock at `first`. */
  lemma StartPath(s: Cache, t: Tid, kid: string, first: int) returns (acts: seq<Action>)
    requires Idle(s) && t !in s.callers && s.clock <= first
    ensures Alone(s, acts, t, Moved(s, t, Caller(kid, s.clock, Called), first, FastLocked).(readers := {t}))
  {
    var a0, a1, a2 := Call(t, kid), RLock(t), Tick(first - s.clock);
    var s0 := Step(s, a0);
    var s1 := Step(s0, a1);
    AloneOnce(s, t, a0);
    AloneThen(s, [a0], t, s0, a1);
    AloneThen(s, [a0] + [a1], t, s1, a2);
    acts := [a0] + [a1] + [a2];
    assert s1.readers == {t} && s1.callers == s.callers[t := Caller(kid, s.clock, Called).(stage := FastLocked)];
  }

  /** The fast path: a key from a live map, or off to refresh. */
  lemma FastPath(s: Cache, t: Tid, kid: string, first: int) returns (acts: seq<Action>)
    requires Idle(s) && t !in s.callers && s.clock <= first
    ensures Alone(s, acts, t, Moved(s, t, Caller(kid, s.clock, Called), first,
                                    if first < s.expiration && kid in s.keys then Returned(s.keys[kid], |s.installs|, first)
                                    else NeedsRefresh))
  {
    acts := StartPath(s, t, kid, first);
    var c := Caller(kid, s.clock, Called);
    var s2 := Moved(s, t, c, first, FastLocked).(readers := {t});
    var s3 := Step(s2, CheckFast(t));
    AloneThen(s, acts, t, s2, CheckFast(t));
    acts := acts + [CheckFast(t)];
    if first < s.expiration {
      assert s3 == Moved(s, t, c, first, FastFresh).(readers := {t});
      AloneThen(s, acts, t, s3, LookupFast(t));
      acts := acts + [LookupFast(t)];
      LookupsAreExact(s3, LookupFast(t));
      var s4 := Step(s3, LookupFast(t));
      assert s4.readers == {} && s4.callers == s.callers[t := s4.callers[t]];
    } else {
      assert s3 == Moved(s, t, c, first, NeedsRefresh);
    }
  }

  /** The critical section up to the second look at the expiry. */
  lemma LockPath(m: Cache, t: Tid, now: int) returns (acts: seq<Action>)
    requires Idle(m) && At(m, t, NeedsRefresh) && m.clock <= now
    ensures Alone(m, acts, t, Moved(m, t, m.callers[t], now, if now < m.expiration then RefreshOk else Fetching)
                              .(writer := Some(t)))
  {
    var c := m.callers[t];
    var a0, a1, a2 := Tick(now - m.clock), Lock(t), DoubleCheck(t);
    var m0 := Step(m, a0);
    var m1 := Step(m0, a1);
    AloneOnce(m, t, a0);
    AloneThen(m, [a0], t, m0, a1);
    AloneThen(m, [a0] + [a1], t, m1, a2);
    acts := [a0] + [a1] + [a2];
    assert Step(m1, a2).callers == m.callers[t := c.(stage := Step(m1, a2).callers[t].stage)];
  }

  /** A download that works is put into the map at once. */
  lemma DownloadPath(m: Cache, t: Tid, jwks: seq<Jwk>, decode: Decoder, later: int) returns (acts: seq<Action>)
    requires At(m, t, Fetching) && m.clock <= later
    ensures var keys := ParsedKeys(jwks, decode);
            Alone(m, acts, t, Moved(m, t, m.callers[t], later, KeysSet(keys)).(keys := keys))
  {
    var a0, a1, a2 := FetchOk(t, jwks, decode), SetKeys(t), Tick(later - m.clock);
    var m0 := Step(m, a0);
    var m1 := Step(m0, a1);
    AloneOnce(m, t, a0);
    AloneThen(m, [a0], t, m0, a1);
    AloneThen(m, [a0] + [a1], t, m1, a2);
    acts := [a0] + [a1] + [a2];
    assert m1.callers == m.callers[t := m.callers[t].(stage := KeysSet(ParsedKeys(jwks, decode)))];
  }

  /** Then its lifetime is counted from the second clock reading. */
  lemma StampPath(m: Cache, t: Tid, keys: map<string, RsaKey>) returns (acts: seq<Action>)
    requires At(m, t, KeysSet(keys))
    ensures Alone(m, acts, t, Moved(m, t, m.callers[t], m.clock, RefreshOk).(
              expiration := m.clock + JWKS_CACHE_DURATION,
              installs := m.installs + [Install(keys, m.clock, m.clock + JWKS_CACHE_DURATION)]))
  {
    var m0 := Step(m, Stamp(t));
    AloneOnce(m, t, Stamp(t));
    AloneThen(m, [Stamp(t)], t, m0, SetExpiration(t));
    acts := [Stamp(t)] + [SetExpiration(t)];
    assert Step(m0, SetExpiration(t)).callers == m.callers[t := m.callers[t].(stage := RefreshOk)];
  }

  lemma InstallPath(m: Cache, t: Tid, jwks: seq<Jwk>, decode: Decoder, later: int) returns (acts: seq<Action>)
    requires At(m, t, Fetching) && m.clock <= later
    ensures var keys := ParsedKeys(jwks, decode);
            Alone(m, acts, t, Moved(m, t, m.callers[t], later, RefreshOk).(
              keys := keys, expiration := later + JWKS_CACHE_DURATION,
              installs := m.installs + [Install(keys, later, later + JWKS_CACHE_DURATION)]))
  {
    acts := DownloadPath(m, t, jwks, decode, later);
    var m1 := RunCache(m, acts).value;
    var rest := StampPath(m1, t, ParsedKeys(jwks, decode));
    var m2 := RunCache(m1, rest).value;
    AloneConcat(m, acts, t, m1, rest, m2);
    acts := acts + rest;
    assert m2.callers == m.callers[t := m.callers[t].(stage := RefreshOk)];
  }

  /** The lock is given up and the map is searched once more. */
  lemma SlowPath(m: Cache, t: Tid) returns (acts: seq<Action>)
    requires At(m, t, RefreshOk) && m.writer == Some(t) && m.readers == {}
    ensures var kid := m.callers[t].kid;
            Alone(m, acts, t, Moved(m, t, m.callers[t], m.clock,
                                    if kid in m.keys then Returned(m.keys[kid], |m.installs|, m.clock) else Failed)
                              .(writer := None))
  {
    var c := m.callers[t];
    var a0, a1, a2 := Unlock(t), RLockAgain(t), LookupSlow(t);
    var m0 := Step(m, a0);
    var m1 := Step(m0, a1);
    assert m1 == Moved(m, t, c, m.clock, SlowLocked).(writer := None, readers := {t});
    AloneOnce(m, t, a0);
    AloneThen(m, [a0], t, m0, a1);
    AloneThen(m, [a0] + [a1], t, m1, a2);
    acts := [a0] + [a1] + [a2];
    LookupsAreExact(m1, a2);
    var m2 := Step(m1, a2);
    assert m2.readers == {} && m2.callers == m.callers[t := m2.callers[t]];
  }

  /** What `GetKey` leaves and answers for one caller, in terms of the fields it found. */
  ghost predicate AnswersAsGetKey(
    s: Cache, kid: string, first: int, now: int, download: Option<seq<Jwk>>, decode: Decoder, later: int,
    m: Cache, key: Option<RsaKey>)
  {
    if first < s.expiration && kid in s.keys then
      m.keys == s.keys && m.expiration == s.expiration && key == Some(s.keys[kid])
    else if now < s.expiration then
      m.keys == s.keys && m.expiration == s.expiration && key == None
    else if download.None? then
      m.keys == s.keys && m.expiration == s.expiration && key == None
    else
      && m.keys == ParsedKeys(download.value, decode) && m.expiration == later + JWKS_CACHE_DURATION
      && key == (if kid in m.keys then Some(m.keys[kid]) else None)
  }

  function KeyAt(m: Cache, t: Tid): Option<RsaKey>
    requires t in m.callers
  {
    if m.callers[t].stage.Returned? then Some(m.callers[t].stage.key) else None
  }

  /**
   Left alone, a caller that finds the lock free ends with a key or a failure exactly as `GetKey` does, for
   any clock readings and any download, gives the lock back and leaves the other callers where they were.
   */
  lemma CallAlone(
    s: Cache, t: Tid, kid: string, first: int, now: int, download: Option<seq<Jwk>>, decode: Decoder, later: int)
    returns (acts: seq<Action>, m: Cache)
    requires Idle(s) && t !in s.callers && s.clock <= first <= now <= later
    ensures Alone(s, acts, t, m) && Idle(m) && t in m.callers && m.callers - {t} == s.callers
    ensures m.callers[t].stage.Returned? || m.callers[t].stage.Failed?
    ensures AnswersAsGetKey(s, kid, first, now, download, decode, later, m, KeyAt(m, t))
  {
    var c := Caller(kid, s.clock, Called);
    acts := FastPath(s, t, kid, first);
    m := RunCache(s, acts).value;
    if m.callers[t].stage.NeedsRefresh? {
      var lock := LockPath(m, t, now);
      var m0 := m;
      m := RunCache(m0, lock).value;
      AloneConcat(s, acts, t, m0, lock, m);
      acts := acts + lock;
      if now >= s.expiration && download.None? {
        AloneThen(s, acts, t, m, FetchFails(t));
        acts, m := acts + [FetchFails(t)], Step(m, FetchFails(t));
      } else {
        if now >= s.expiration {
          var install := InstallPath(m, t, download.value, decode, later);
          var m1 := m;
          m := RunCache(m1, install).value;
          AloneConcat(s, acts, t, m1, install, m);
          acts := acts + install;
        }
        var slow := SlowPath(m, t);
        var m2 := m;
        m := RunCache(m2, slow).value;
        AloneConcat(s, acts, t, m2, slow, m);
        acts := acts + slow;
      }
    }
    assert m.callers - {t} == s.callers;
  }

  // ---------- and in no other way ----------

  /** What one call has read: the clock, three times, and the download. */
  datatype Readings = Readings(first: int, now: int, download: Option<seq<Jwk>>, decode: Decoder, later: int)

  predicate SameMap(s: Cache, m: Cache) {
    m.keys == s.keys && m.expiration == s.expiration
  }

  predicate Misses(s: Cache, kid: string, h: Readings) {
    s.clock <= h.first <= h.now <= h.later && !(h.first < s.expiration && kid in s.keys)
  }

  /** How far the call of `t` has come in `m`, when it alone has acted since `s`. */
  ghost predicate Track(s: Cache, m: Cache, t: Tid, h: Readings) {
    s.clock <= m.clock &&
    if t !in m.callers then SameMap(s, m) else
    var c := m.callers[t];
    match c.stage
    case Called => SameMap(s, m)
    case FastLocked => SameMap(s, m)
    case FastFresh => SameMap(s, m) && s.clock <= h.first == h.now == h.later <= m.clock && h.first < s.expiration
    case NeedsRefresh => SameMap(s, m) && Misses(s, c.kid, h) && h.later <= m.clock
    case Checking => SameMap(s, m) && Misses(s, c.kid, h) && h.later <= m.clock
    case Fetching => SameMap(s, m) && Misses(s, c.kid, h) && h.later <= m.clock && h.now >= s.expiration
    case Parsed(keys) =>
      && SameMap(s, m) && Misses(s, c.kid, h) && h.later <= m.clock && h.now >= s.expiration
      && h.download.Some? && keys == ParsedKeys(h.download.value, h.decode)
    case KeysSet(keys) =>
      && Misses(s, c.kid, h) && h.later <= m.clock && h.now >= s.expiration && m.keys == keys
      && h.download.Some? && keys == ParsedKeys(h.download.value, h.decode)
    case Stamped(keys, stamp) =>
      && Misses(s, c.kid, h) && h.later <= m.clock && h.now >= s.expiration && m.keys == keys && stamp == h.later
      && h.download.Some? && keys == ParsedKeys(h.download.value, h.decode)
    case Returned(_, _, _) =>
      s.clock <= h.first <= h.now <= h.later <= m.clock
      && AnswersAsGetKey(s, c.kid, h.first, h.now, h.download, h.decode, h.later, m, KeyAt(m, t))
    case Failed =>
      s.clock <= h.first <= h.now <= h.later <= m.clock
      && AnswersAsGetKey(s, c.kid, h.first, h.now, h.download, h.decode, h.later, m, KeyAt(m, t))
    case _ =>
      && Misses(s, c.kid, h) && h.later <= m.clock
      && if h.now < s.expiration then SameMap(s, m)
         else && h.download.Some? && m.keys == ParsedKeys(h.download.value, h.decode)
              && m.expiration == h.later + JWKS_CACHE_DURATION
  }

  /** The readings once the action has been taken. */
  function Read(m: Cache, h: Readings, a: Action): Readings {
    match a
    case CheckFast(_) => h.(first := m.clock, now := m.clock, later := m.clock)
    case DoubleCheck(_) => h.(now := m.clock, later := m.clock)
    case FetchOk(_, jwks, decode) => h.(download := Some(jwks), decode := decode)
    case FetchFails(_) => h.(download := None)
    case Stamp(_) => h.(later := m.clock)
    case _ => h
  }

  lemma StepKeepsTrack(s: Cache, m: Cache, t: Tid, h: Readings, a: Action)
    requires Track(s, m, t, h) && Enabled(m, a) && (a.Tick? || a.t == t) && !a.Leave?
    ensures Track(s, Step(m, a), t, Read(m, h, a))
  {
  }

  /**
   However a call that nobody disturbs is timed: when it ends, there are clock readings and a download for
   which its answer and the map it leaves are those of `GetKey`.
   */
  lemma {:induction false} AnyUndisturbedCall(s: Cache, acts: seq<Action>, t: Tid, m: Cache, decode: Decoder)
    returns (h: Readings)
    requires Alone(s, acts, t, m) && t !in s.callers && forall i :: 0 <= i < |acts| ==> !acts[i].Leave?
    ensures Track(s, m, t, h)
    ensures t in m.callers && (m.callers[t].stage.Returned? || m.callers[t].stage.Failed?) ==>
              && s.clock <= h.first <= h.now <= h.later <= m.clock
              && AnswersAsGetKey(s, m.callers[t].kid, h.first, h.now, h.download, h.decode, h.later, m, KeyAt(m, t))
    decreases |acts|
  {
    if acts == [] {
      h := Readings(0, 0, None, decode, 0);
    } else {
      var init, a := acts[..|acts| - 1], acts[|acts| - 1];
      var before := RunCache(s, init).value;
      h := AnyUndisturbedCall(s, init, t, before, decode);
      StepKeepsTrack(s, before, t, h, a);
      h := Read(before, h, a);
    }
  }

  // ---------- nobody waits for ever ----------

  /** The next action of a caller, whatever a download gives. */
  function NextOf(t: Tid, stage: Stage): Action {
    match stage
    case Called => RLock(t)
    case FastLocked => CheckFast(t)
    case FastFresh => LookupFast(t)
    case NeedsRefresh => Lock(t)
    case Checking => DoubleCheck(t)
    case Fetching => FetchFails(t)
    case Parsed(_) => SetKeys(t)
    case KeysSet(_) => Stamp(t)
    case Stamped(_, _) => SetExpiration(t)
    case RefreshOk => Unlock(t)
    case Refreshed => RLockAgain(t)
    case SlowLocked => LookupSlow(t)
    case Returned(_, _, _) => Leave(t)
    case Failed => Leave(t)
  }

  /** A caller waits for nothing but the lock: readers for the writer, the writer for everybody. */
  lemma WaitsOnlyForTheLock(s: Cache, t: Tid, jwks: seq<Jwk>, decode: Decoder)
    requires t in s.callers
    ensures var stage := s.callers[t].stage;
            Enabled(s, NextOf(t, stage)) <==>
              && (stage.Called? || stage.Refreshed? ==> s.writer.None?)
              && (stage.NeedsRefresh? ==> s.writer.None? && s.readers == {})
    ensures s.callers[t].stage.Fetching? ==> Enabled(s, FetchOk(t, jwks, decode))
  {
  }

  /** In every reachable state in which somebody is inside `getKey`, somebody can take the next step. */
  lemma NoDeadlock(clock: nat, acts: seq<Action>, t: Tid) returns (u: Tid)
    requires RunCache(Empty(clock), acts).Some? && t in RunCache(Empty(clock), acts).value.callers
    ensures var s := RunCache(Empty(clock), acts).value;
            u in s.callers && Enabled(s, NextOf(u, s.callers[u].stage))
  {
    InvAlways(clock, acts);
    var s := RunCache(Empty(clock), acts).value;
    if s.writer.Some? {
      u := s.writer.value;
    } else if s.readers != {} {
      u :| u in s.readers;
    } else {
      u := t;
    }
    WaitsOnlyForTheLock(s, u, [], _ => None);
  }
}
