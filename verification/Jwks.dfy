/**
 The JWKS cache of the GitHub identity verifier (internal/identity/github/github.go): the key
 parsing loop, and the cache shared by any number of callers, as atomic steps under its lock.
 */
module Jwks {
  import opened Base

  // ---------- parsing ----------

  const TWO_63: nat := 0x8000_0000_0000_0000

  /** Go's 64-bit `int`: the value modulo 2^64, read as two's complement. */
  function Wrap64(x: int): (r: int)
    ensures -0x8000_0000_0000_0000 <= r < 0x8000_0000_0000_0000
  {
    var m := x % 0x1_0000_0000_0000_0000;
    if m < 0x8000_0000_0000_0000 then m else m - 0x1_0000_0000_0000_0000
  }

  lemma WrapShift(x: int, b: int)
    ensures Wrap64(Wrap64(Wrap64(x) * 256) + b) == Wrap64(x * 256 + b)
  {
    WrapIsCongruent(x);
    WrapIsCongruent(Wrap64(x) * 256);
    var k :| Wrap64(x) == x + k * 0x1_0000_0000_0000_0000;
    var j :| Wrap64(Wrap64(x) * 256) == Wrap64(x) * 256 + j * 0x1_0000_0000_0000_0000;
    WrapOfSum(x * 256 + b, 256 * k + j);
  }

  lemma WrapIsCongruent(x: int)
    ensures exists k: int :: Wrap64(x) == x + k * 0x1_0000_0000_0000_0000
  {
    var q := x / 0x1_0000_0000_0000_0000;
    if x % 0x1_0000_0000_0000_0000 < 0x8000_0000_0000_0000 {
      assert Wrap64(x) == x + (-q) * 0x1_0000_0000_0000_0000;
    } else {
      assert Wrap64(x) == x + (-q - 1) * 0x1_0000_0000_0000_0000;
    }
  }

  lemma WrapOfSum(x: int, k: int)
    ensures Wrap64(x + k * 0x1_0000_0000_0000_0000) == Wrap64(x)
  {
  }

  /** The unsigned big-endian value of section 6.3.1 of RFC 7518. */
  function BigEndian(e: Bytes): nat {
    if e == [] then 0 else BigEndian(e[..|e| - 1]) * 256 + e[|e| - 1]
  }

  function Pow256(k: nat): (p: nat)
    ensures p >= 1
  {
    if k == 0 then 1 else 256 * Pow256(k - 1)
  }

  lemma Distribute(x: int, p: int, y: int)
    ensures (x * p + y) * 256 == x * (256 * p) + y * 256
  {
    assert (x * p) * 256 == x * (256 * p);
  }

  /** The first octet is the most significant one. */
  lemma {:induction false} BigEndianSplits(a: Bytes, b: Bytes)
    ensures BigEndian(a + b) == BigEndian(a) * Pow256(|b|) + BigEndian(b)
    decreases |b|
  {
    if b == [] {
      assert a + b == a;
    } else {
      var init, last := b[..|b| - 1], b[|b| - 1];
      var x, p, y := BigEndian(a), Pow256(|init|), BigEndian(init);
      assert BigEndian(a + b) == (x * p + y) * 256 + last by {
        assert (a + b)[..|a + b| - 1] == a + init;
        BigEndianSplits(a, init);
      }
      Distribute(x, p, y);
      assert Pow256(|b|) == 256 * p && BigEndian(b) == y * 256 + last;
    }
  }

  lemma BigEndianOfOne(octet: Byte)
    ensures BigEndian([octet]) == octet
  {
    assert [octet][..0] == [];
  }

  lemma {:induction false} BigEndianBound(e: Bytes)
    ensures BigEndian(e) < Pow256(|e|)
  {
    if e != [] {
      BigEndianBound(e[..|e| - 1]);
    }
  }

  /** The fold of the program: shift, add, wrap. */
  method Exponent(e: Bytes) returns (exp: int)
    ensures exp == Wrap64(BigEndian(e))
  {
    exp := 0;
    for i := 0 to |e|
      invariant exp == Wrap64(BigEndian(e[..i]))
    {
      assert e[..i + 1][..i] == e[..i];
      WrapShift(BigEndian(e[..i]), e[i]);
      exp := Wrap64(Wrap64(exp * 256) + e[i]);
    }
    assert e[..|e|] == e;
  }

  /** The folded exponent is the encoded one exactly when that fits in 63 bits; 7 octets always do. */
  lemma ExponentIsExact(e: Bytes)
    ensures Wrap64(BigEndian(e)) == BigEndian(e) <==> BigEndian(e) < TWO_63
    ensures |e| <= 7 ==> Wrap64(BigEndian(e)) == BigEndian(e)
  {
    if |e| <= 7 {
      BigEndianBound(e);
      Pow256Grows(|e|, 7);
      assert Pow256(7) == 0x100_0000_0000_0000 by {
        assert Pow256(3) == 0x100_0000;
      }
    }
  }

  lemma {:induction false} Pow256Grows(a: nat, b: nat)
    requires a <= b
    ensures Pow256(a) <= Pow256(b)
    decreases b - a
  {
    if a < b {
      Pow256Grows(a + 1, b);
    }
  }

  datatype RsaKey = RsaKey(n: nat, e: int)

  datatype Jwk = Jwk(kid: string, kty: string, use: string, n: string, e: string)

  type Decoder = string -> Option<Bytes>

  predicate Accepted(k: Jwk, decode: Decoder) {
    k.kty == "RSA" && k.use == "sig" && decode(k.n).Some? && decode(k.e).Some?
  }

  function KeyOf(k: Jwk, decode: Decoder): RsaKey
    requires Accepted(k, decode)
  {
    RsaKey(BigEndian(decode(k.n).value), Wrap64(BigEndian(decode(k.e).value)))
  }

  /** Entry `i` is an RSA signing key under this id, and both its numbers decode. */
  predicate Signs(ks: seq<Jwk>, decode: Decoder, kid: string, i: int) {
    && 0 <= i < |ks| && ks[i].kid == kid && ks[i].kty == "RSA" && ks[i].use == "sig"
    && decode(ks[i].n).Some? && decode(ks[i].e).Some?
  }

  predicate SignsLast(ks: seq<Jwk>, decode: Decoder, kid: string, i: int) {
    Signs(ks, decode, kid, i) && forall j :: i < j < |ks| ==> !Signs(ks, decode, kid, j)
  }

  /** `m` maps exactly the ids of RSA signing keys that decode, each to the last such entry's numbers. */
  ghost predicate LastWins(ks: seq<Jwk>, decode: Decoder, m: map<string, RsaKey>) {
    && (forall kid :: kid in m <==> exists i :: Signs(ks, decode, kid, i))
    && (forall kid, i :: kid in m && SignsLast(ks, decode, kid, i) ==>
          m[kid] == RsaKey(BigEndian(decode(ks[i].n).value), Wrap64(BigEndian(decode(ks[i].e).value))))
  }

  function ParsedKeys(ks: seq<Jwk>, decode: Decoder): map<string, RsaKey> {
    if ks == [] then map[]
    else
      var k := ks[|ks| - 1];
      var front := ParsedKeys(ks[..|ks| - 1], decode);
      if Accepted(k, decode) then front[k.kid := KeyOf(k, decode)] else front
  }

  lemma {:induction false} SignersAreParsed(ks: seq<Jwk>, decode: Decoder, kid: string, i: nat)
    requires Signs(ks, decode, kid, i)
    ensures kid in ParsedKeys(ks, decode)
    decreases |ks|
  {
    var n := |ks| - 1;
    if i < n {
      assert ks[..n][i] == ks[i];
      SignersAreParsed(ks[..n], decode, kid, i);
    }
  }

  /** Whoever is found under an id is the last signing entry that carries it. */
  lemma {:induction false} ParsedIsLast(ks: seq<Jwk>, decode: Decoder, kid: string) returns (i: nat)
    requires kid in ParsedKeys(ks, decode)
    ensures SignsLast(ks, decode, kid, i) && ParsedKeys(ks, decode)[kid] == KeyOf(ks[i], decode)
    decreases |ks|
  {
    var n := |ks| - 1;
    if Accepted(ks[n], decode) && ks[n].kid == kid {
      i := n;
    } else {
      i := ParsedIsLast(ks[..n], decode, kid);
      SignsLastExtends(ks, decode, kid, i);
    }
  }

  lemma SignsLastExtends(ks: seq<Jwk>, decode: Decoder, kid: string, i: nat)
    requires ks != [] && SignsLast(ks[..|ks| - 1], decode, kid, i) && !Signs(ks, decode, kid, |ks| - 1)
    ensures SignsLast(ks, decode, kid, i) && ks[i] == ks[..|ks| - 1][i]
  {
    forall j | i < j < |ks| ensures !Signs(ks, decode, kid, j) {
      if j < |ks| - 1 { assert !Signs(ks[..|ks| - 1], decode, kid, j); }
    }
  }

  lemma ParsedKeysLastWins(ks: seq<Jwk>, decode: Decoder)
    ensures LastWins(ks, decode, ParsedKeys(ks, decode))
  {
    var m := ParsedKeys(ks, decode);
    forall kid ensures kid in m <==> exists i :: Signs(ks, decode, kid, i) {
      if kid in m { var i := ParsedIsLast(ks, decode, kid); }
      if i :| Signs(ks, decode, kid, i) { SignersAreParsed(ks, decode, kid, i); }
    }
    forall kid, i | kid in m && SignsLast(ks, decode, kid, i)
      ensures m[kid] == RsaKey(BigEndian(decode(ks[i].n).value), Wrap64(BigEndian(decode(ks[i].e).value)))
    {
      var j := ParsedIsLast(ks, decode, kid);
      assert i == j;
    }
  }

  method ParseKeys(ks: seq<Jwk>, decode: Decoder) returns (newKeys: map<string, RsaKey>)
    ensures newKeys == ParsedKeys(ks, decode) && LastWins(ks, decode, newKeys)
  {
    newKeys := map[];
    for i := 0 to |ks|
      invariant newKeys == ParsedKeys(ks[..i], decode)
    {
      assert ks[..i + 1][..i] == ks[..i];
      var key := ks[i];
      if key.kty != "RSA" || key.use != "sig" {
        continue;
      }
      var n := decode(key.n);
      if n.None? {
        continue;
      }
      var e := decode(key.e);
      if e.None? {
        continue;
      }
      var exp := Exponent(e.value);
      newKeys := newKeys[key.kid := RsaKey(BigEndian(n.value), exp)];
    }
    assert ks[..|ks|] == ks;
    ParsedKeysLastWins(ks, decode);
  }

  // ---------- the cache, one caller at a time ----------

  // nanoseconds
  const JWKS_CACHE_DURATION: int := 3_600_000_000_000

  class JwksCache {
    var keys: map<string, RsaKey>
    var expiration: int

    constructor ()
      ensures keys == map[] && expiration == 0
    {
      keys, expiration := map[], 0;
    }

    /**
     The critical section: `now` is read at its start and `later` when the download has been parsed.
     The two fields change together or not at all.
     */
    method Refresh(now: int, download: Option<seq<Jwk>>, decode: Decoder, later: int) returns (ok: bool)
      requires now <= later
      modifies this
      ensures now < old(expiration) ==> ok && keys == old(keys) && expiration == old(expiration)
      ensures !ok ==> keys == old(keys) && expiration == old(expiration)
      ensures now >= old(expiration) ==> (ok <==> download.Some?)
      ensures now >= old(expiration) && ok ==>
                && keys == ParsedKeys(download.value, decode) && LastWins(download.value, decode, keys)
                && expiration == later + JWKS_CACHE_DURATION >= old(expiration) + JWKS_CACHE_DURATION
    {
      if now < expiration {
        return true;
      }
      if download.None? {
        return false;
      }
      var newKeys := ParseKeys(download.value, decode);
      keys := newKeys;
      expiration := later + JWKS_CACHE_DURATION;
      ok := true;
    }

    /**
     A lookup with nobody else about: a hit in a live map is served as it is; otherwise the map is
     refreshed unless it is alive, and searched again.  What is returned was alive at `first` or later.
     */
    method GetKey(kid: string, first: int, now: int, download: Option<seq<Jwk>>, decode: Decoder, later: int)
      returns (key: Option<RsaKey>)
      requires first <= now <= later
      modifies this
      ensures first < old(expiration) && kid in old(keys) ==>
                key == Some(old(keys)[kid]) && keys == old(keys) && expiration == old(expiration)
      ensures !(first < old(expiration) && kid in old(keys)) ==>
                if now < old(expiration) then
                  keys == old(keys) && expiration == old(expiration) && key == None
                else if download.Some? then
                  && keys == ParsedKeys(download.value, decode) && expiration == later + JWKS_CACHE_DURATION
                  && key == (if kid in keys then Some(keys[kid]) else None)
                else keys == old(keys) && expiration == old(expiration) && key == None
      ensures key.Some? ==> kid in keys && keys[kid] == key.value && first < expiration
      ensures expiration >= old(expiration)
    {
      if first < expiration && kid in keys {
        return Some(keys[kid]);
      }
      var ok := Refresh(now, download, decode, later);
      key := if ok && kid in keys then Some(keys[kid]) else None;
    }
  }

  // ---------- the cache, any number of callers ----------

  type Tid = nat

  /** Where a caller of `getKey` is. */
  datatype Stage =
    | Called
    | FastLocked
    | FastFresh
    | NeedsRefresh
    | Checking
    | Fetching
    | Parsed(newKeys: map<string, RsaKey>)
    | KeysSet(newKeys: map<string, RsaKey>)
    | Stamped(newKeys: map<string, RsaKey>, stamp: int)
    | RefreshOk
    | Refreshed
    | SlowLocked
    | Returned(key: RsaKey, version: nat, end: int)
    | Failed

  datatype Caller = Caller(kid: string, since: int, stage: Stage)

  /** A key map that was installed, the instant its lifetime was counted from, and its end. */
  datatype Install = Install(keys: map<string, RsaKey>, at: int, expiration: int)

  datatype Cache = Cache(
    clock: int,
    keys: map<string, RsaKey>,
    expiration: int,
    readers: set<Tid>,
    writer: Option<Tid>,
    callers: map<Tid, Caller>,
    installs: seq<Install>)

  datatype Action =
    | Tick(d: nat)
    | Call(t: Tid, kid: string)
    | RLock(t: Tid)
    | CheckFast(t: Tid)
    | LookupFast(t: Tid)
    | Lock(t: Tid)
    | DoubleCheck(t: Tid)
    | FetchOk(t: Tid, jwks: seq<Jwk>, decode: Decoder)
    | FetchFails(t: Tid)
    | SetKeys(t: Tid)
    | Stamp(t: Tid)
    | SetExpiration(t: Tid)
    | Unlock(t: Tid)
    | RLockAgain(t: Tid)
    | LookupSlow(t: Tid)
    | Leave(t: Tid)

  predicate At(s: Cache, t: Tid, stage: Stage) {
    t in s.callers && s.callers[t].stage == stage
  }

  predicate Enabled(s: Cache, a: Action) {
    match a
    case Tick(_) => true
    case Call(t, _) => t !in s.callers
    case RLock(t) => At(s, t, Called) && s.writer.None?
    case CheckFast(t) => At(s, t, FastLocked)
    case LookupFast(t) => At(s, t, FastFresh)
    case Lock(t) => At(s, t, NeedsRefresh) && s.writer.None? && s.readers == {}
    case DoubleCheck(t) => At(s, t, Checking)
    case FetchOk(t, _, _) => At(s, t, Fetching)
    case FetchFails(t) => At(s, t, Fetching)
    case SetKeys(t) => t in s.callers && s.callers[t].stage.Parsed?
    case Stamp(t) => t in s.callers && s.callers[t].stage.KeysSet?
    case SetExpiration(t) => t in s.callers && s.callers[t].stage.Stamped?
    case Unlock(t) => At(s, t, RefreshOk)
    case RLockAgain(t) => At(s, t, Refreshed) && s.writer.None?
    case LookupSlow(t) => At(s, t, SlowLocked)
    case Leave(t) => t in s.callers && (s.callers[t].stage.Returned? || s.callers[t].stage.Failed?)
  }

  function Goto(s: Cache, t: Tid, stage: Stage): Cache
    requires t in s.callers
  {
    s.(callers := s.callers[t := s.callers[t].(stage := stage)])
  }

  /** The result of a lookup in the map that is in the cache now. */
  function Found(s: Cache, t: Tid, otherwise: Stage): Stage
    requires t in s.callers
  {
    var kid := s.callers[t].kid;
    if kid in s.keys then Returned(s.keys[kid], |s.installs|, s.clock) else otherwise
  }

  function Step(s: Cache, a: Action): Cache
    requires Enabled(s, a)
  {
    match a
    case Tick(d) => s.(clock := s.clock + d)
    case Call(t, kid) => s.(callers := s.callers[t := Caller(kid, s.clock, Called)])
    case RLock(t) => Goto(s, t, FastLocked).(readers := s.readers + {t})
    case CheckFast(t) =>
      if s.clock < s.expiration then Goto(s, t, FastFresh)
      else Goto(s, t, NeedsRefresh).(readers := s.readers - {t})
    case LookupFast(t) => Goto(s, t, Found(s, t, NeedsRefresh)).(readers := s.readers - {t})
    case Lock(t) => Goto(s, t, Checking).(writer := Some(t))
    case DoubleCheck(t) => Goto(s, t, if s.clock < s.expiration then RefreshOk else Fetching)
    case FetchOk(t, jwks, decode) => Goto(s, t, Parsed(ParsedKeys(jwks, decode)))
    case FetchFails(t) => Goto(s, t, Failed).(writer := None)
    case SetKeys(t) => Goto(s, t, KeysSet(s.callers[t].stage.newKeys)).(keys := s.callers[t].stage.newKeys)
    case Stamp(t) => Goto(s, t, Stamped(s.callers[t].stage.newKeys, s.clock))
    case SetExpiration(t) =>
      var st := s.callers[t].stage;
      Goto(s, t, RefreshOk).(
        expiration := st.stamp + JWKS_CACHE_DURATION,
        installs := s.installs + [Install(st.newKeys, st.stamp, st.stamp + JWKS_CACHE_DURATION)])
    case Unlock(t) => Goto(s, t, Refreshed).(writer := None)
    case RLockAgain(t) => Goto(s, t, SlowLocked).(readers := s.readers + {t})
    case LookupSlow(t) => Goto(s, t, Found(s, t, Failed)).(readers := s.readers - {t})
    case Leave(t) => s.(callers := s.callers - {t})
  }

  /** The state after a run, or none when some action was not enabled. */
  function RunCache(s: Cache, acts: seq<Action>): Option<Cache> {
    if acts == [] then Some(s)
    else
      var before, a := RunCache(s, acts[..|acts| - 1]), acts[|acts| - 1];
      if before.Some? && Enabled(before.value, a) then Some(Step(before.value, a)) else None
  }

  function Empty(clock: nat): Cache {
    Cache(clock, map[], 0, {}, None, map[], [])
  }

  // ---------- invariants ----------

  predicate HoldsWrite(st: Stage) {
    st.Checking? || st.Fetching? || st.Parsed? || st.KeysSet? || st.Stamped? || st.RefreshOk?
  }

  predicate HoldsRead(st: Stage) {
    st.FastLocked? || st.FastFresh? || st.SlowLocked?
  }

  /** The lock's bookkeeping is true, and a writer excludes everybody else. */
  ghost predicate Locked(s: Cache) {
    && (forall t :: t in s.callers ==>
          && (HoldsWrite(s.callers[t].stage) <==> s.writer == Some(t))
          && (HoldsRead(s.callers[t].stage) <==> t in s.readers))
    && s.readers <= s.callers.Keys
    && (s.writer.Some? ==> s.writer.value in s.callers && s.readers == {})
  }

  function Current(s: Cache): (map<string, RsaKey>, int) {
    if s.installs == [] then (map[], 0)
    else (s.installs[|s.installs| - 1].keys, s.installs[|s.installs| - 1].expiration)
  }

  predicate HalfWritten(st: Stage) {
    st.KeysSet? || st.Stamped?
  }

  /** Some caller is between the two assignments. */
  predicate Torn(s: Cache) {
    s.writer.Some? && s.writer.value in s.callers && HalfWritten(s.callers[s.writer.value].stage)
  }

  /** Between the two assignments the pair is torn; at every other time it is the last install. */
  ghost predicate Paired(s: Cache) {
    && s.expiration == Current(s).1
    && s.keys == if Torn(s) then s.callers[s.writer.value].stage.newKeys else Current(s).0
  }

  ghost predicate Spaced(s: Cache) {
    && (forall i :: 0 <= i < |s.installs| ==>
          0 <= s.installs[i].at <= s.clock && s.installs[i].expiration == s.installs[i].at + JWKS_CACHE_DURATION)
    && (forall i, j :: 0 <= i < j < |s.installs| ==> s.installs[i].expiration <= s.installs[j].at)
  }

  /** A result's version was alive at some instant between the call and the lookup. */
  ghost predicate FreshResult(s: Cache, c: Caller)
    requires c.stage.Returned?
  {
    var v := c.stage.version;
    && 1 <= v <= |s.installs| && c.since <= c.stage.end <= s.clock
    && c.kid in s.installs[v - 1].keys && s.installs[v - 1].keys[c.kid] == c.stage.key
    && s.installs[v - 1].at <= c.stage.end && c.since < s.installs[v - 1].expiration
  }

  ghost predicate CallerOk(s: Cache, c: Caller) {
    && 0 <= c.since <= s.clock
    && (c.stage.Fetching? || c.stage.Parsed? || c.stage.KeysSet? || c.stage.Stamped? ==> s.expiration <= s.clock)
    && (c.stage.Stamped? ==> s.expiration <= c.stage.stamp <= s.clock && c.since <= c.stage.stamp)
    && (c.stage.FastFresh? || c.stage.RefreshOk? || c.stage.Refreshed? || c.stage.SlowLocked?
        ==> c.since < s.expiration)
    && (c.stage.Returned? ==> FreshResult(s, c))
  }

  ghost predicate Inv(s: Cache) {
    && s.clock >= 0
    && Locked(s) && Paired(s) && Spaced(s)
    && forall t :: t in s.callers ==> CallerOk(s, s.callers[t])
  }

  lemma FastStepKeepsLocked(s: Cache, a: Action)
    requires Locked(s) && Enabled(s, a)
    requires a.Tick? || a.Call? || a.RLock? || a.CheckFast? || a.LookupFast? || a.Lock?
    ensures Locked(Step(s, a))
  {
  }

  lemma StepKeepsLocked(s: Cache, a: Action)
    requires Locked(s) && Enabled(s, a)
    ensures Locked(Step(s, a))
  {
    if a.Tick? || a.Call? || a.RLock? || a.CheckFast? || a.LookupFast? || a.Lock? {
      FastStepKeepsLocked(s, a);
    } else if a.Unlock? || a.RLockAgain? || a.LookupSlow? || a.Leave? {
      LastStepKeepsLocked(s, a);
    } else {
      WriterStepKeepsLocked(s, a);
    }
  }

  lemma WriterStepKeepsLocked(s: Cache, a: Action)
    requires Locked(s) && Enabled(s, a)
    requires a.DoubleCheck? || a.FetchOk? || a.FetchFails? || a.SetKeys? || a.Stamp? || a.SetExpiration?
    ensures Locked(Step(s, a))
  {
  }

  lemma LastStepKeepsLocked(s: Cache, a: Action)
    requires Locked(s) && Enabled(s, a)
    requires a.Unlock? || a.RLockAgain? || a.LookupSlow? || a.Leave?
    ensures Locked(Step(s, a))
  {
  }

  lemma StepKeepsPaired(s: Cache, a: Action)
    requires Locked(s) && Paired(s) && Enabled(s, a)
    ensures Paired(Step(s, a))
  {
  }

  lemma StepKeepsSpaced(s: Cache, a: Action)
    requires Inv(s) && Enabled(s, a)
    ensures Spaced(Step(s, a))
  {
  }

  lemma FastStepKeepsCallers(s: Cache, a: Action)
    requires Inv(s) && Enabled(s, a)
    requires a.Tick? || a.Call? || a.RLock? || a.CheckFast? || a.LookupFast? || a.Lock?
    ensures var s' := Step(s, a); forall t :: t in s'.callers ==> CallerOk(s', s'.callers[t])
  {
  }

  lemma LaterStepKeepsCallers(s: Cache, a: Action)
    requires Inv(s) && Enabled(s, a)
    requires !a.Tick? && !a.Call? && !a.RLock? && !a.CheckFast? && !a.LookupFast? && !a.Lock?
    ensures var s' := Step(s, a); forall t :: t in s'.callers ==> CallerOk(s', s'.callers[t])
  {
  }

  lemma StepKeepsCallers(s: Cache, a: Action)
    requires Inv(s) && Enabled(s, a)
    ensures var s' := Step(s, a); forall t :: t in s'.callers ==> CallerOk(s', s'.callers[t])
  {
    if a.Tick? || a.Call? || a.RLock? || a.CheckFast? || a.LookupFast? || a.Lock? {
      FastStepKeepsCallers(s, a);
    } else {
      LaterStepKeepsCallers(s, a);
    }
  }

  lemma ClockAdvances(m: Cache, a: Action)
    requires Enabled(m, a)
    ensures m.clock <= Step(m, a).clock
  {
  }

  lemma StepKeepsInv(s: Cache, a: Action)
    requires Inv(s) && Enabled(s, a)
    ensures Inv(Step(s, a))
  {
    StepKeepsLocked(s, a);
    StepKeepsPaired(s, a);
    StepKeepsSpaced(s, a);
    StepKeepsCallers(s, a);
    ClockAdvances(s, a);
  }

  lemma {:induction false} InvAlways(clock: nat, acts: seq<Action>)
    requires RunCache(Empty(clock), acts).Some?
    ensures Inv(RunCache(Empty(clock), acts).value)
  {
    if acts != [] {
      var s, a := RunCache(Empty(clock), acts[..|acts| - 1]).value, acts[|acts| - 1];
      InvAlways(clock, acts[..|acts| - 1]);
      StepKeepsInv(s, a);
    }
  }

  // ---------- what callers may rely on ----------

  /** Version `v` has been installed and is unexpired at the instant; no later one began before it ended. */
  ghost predicate AliveAt(s: Cache, v: nat, instant: int) {
    && v < |s.installs| && s.installs[v].at <= instant < s.installs[v].expiration
    && forall j :: v < j < |s.installs| ==> instant < s.installs[j].at
  }

  lemma FreshInstant(s: Cache, c: Caller) returns (v: nat, instant: int)
    requires Spaced(s) && c.stage.Returned? && FreshResult(s, c)
    ensures AliveAt(s, v, instant) && c.since <= instant <= c.stage.end
    ensures c.kid in s.installs[v].keys && s.installs[v].keys[c.kid] == c.stage.key
  {
    v := c.stage.version - 1;
    instant := if c.since < s.installs[v].at then s.installs[v].at else c.since;
  }

  /**
   Freshness: in every interleaving, the key that `getKey` returns stands under its id in a key map
   that was alive at some instant between the call and the return, although the last lookup does
   not look at the expiry again.
   */
  lemma ReturnedKeysAreFresh(clock: nat, acts: seq<Action>, t: Tid)
    requires RunCache(Empty(clock), acts).Some?
    requires var s := RunCache(Empty(clock), acts).value; t in s.callers && s.callers[t].stage.Returned?
    ensures var s := RunCache(Empty(clock), acts).value;
            var c := s.callers[t];
            exists v: nat, instant: int ::
              && AliveAt(s, v, instant) && c.since <= instant <= c.stage.end
              && c.kid in s.installs[v].keys && s.installs[v].keys[c.kid] == c.stage.key
  {
    var s := RunCache(Empty(clock), acts).value;
    assert Inv(s) by {
      InvAlways(clock, acts);
    }
    var v, instant := FreshInstant(s, s.callers[t]);
  }

  /**
   Refresh discipline: two installs are at least one cache lifetime apart, lifetimes never shrink,
   and whoever holds the read lock sees the two fields of one and the same install.
   */
  lemma RefreshDiscipline(clock: nat, acts: seq<Action>)
    requires RunCache(Empty(clock), acts).Some?
    ensures var s := RunCache(Empty(clock), acts).value;
            && (forall i, j :: 0 <= i < j < |s.installs| ==>
                  && s.installs[i].at + 3_600_000_000_000 <= s.installs[j].at
                  && s.installs[i].expiration + 3_600_000_000_000 <= s.installs[j].expiration)
            && (s.readers != {} ==> (s.keys, s.expiration) == Current(s))
            && (s.writer.None? ==> (s.keys, s.expiration) == Current(s))
  {
    InvAlways(clock, acts);
  }

  lemma FieldsMoveUnderTheLock(s: Cache, a: Action)
    requires Inv(s) && Enabled(s, a)
    ensures var s' := Step(s, a);
            && s.expiration <= s'.expiration && s.clock <= s'.clock && s.installs <= s'.installs
            && (s.keys != s'.keys ==> a.SetKeys? && s.writer == Some(a.t) && s'.expiration == s.expiration <= s.clock)
            && (s.expiration != s'.expiration ==> a.SetExpiration? && s.writer == Some(a.t))
  {
  }

  lemma FailedFetchKeepsPair(s: Cache, a: Action)
    requires Inv(s) && Enabled(s, a) && a.FetchFails?
    ensures var s' := Step(s, a); (s'.keys, s'.expiration) == Current(s') && s'.installs == s.installs
  {
  }

  /**
   One step: the expiration never decreases; only the lock's writer changes the keys or the
   expiration; and a failed refresh gives up the lock leaving the pair of the last install.
   */
  lemma StepDiscipline(clock: nat, acts: seq<Action>, a: Action)
    requires RunCache(Empty(clock), acts).Some? && Enabled(RunCache(Empty(clock), acts).value, a)
    ensures var s := RunCache(Empty(clock), acts).value;
            var s' := Step(s, a);
            && s.expiration <= s'.expiration && s.clock <= s'.clock
            && (s.keys != s'.keys ==> a.SetKeys? && s.writer == Some(a.t) && s'.expiration == s.expiration <= s.clock)
            && (s.expiration != s'.expiration ==> a.SetExpiration? && s.writer == Some(a.t))
            && (a.FetchFails? ==> (s'.keys, s'.expiration) == Current(s') && s'.installs == s.installs)
            && s.installs <= s'.installs
  {
    var s := RunCache(Empty(clock), acts).value;
    assert Inv(s) by { InvAlways(clock, acts); }
    FieldsMoveUnderTheLock(s, a);
    if a.FetchFails? { FailedFetchKeepsPair(s, a); }
  }

  // ---------- a live map is not downloaded again ----------

  predicate Fetches(a: Action) {
    a.FetchOk? || a.FetchFails?
  }

  /** Since `s`: the same map, and nobody who came later has got a key that is not in it. */
  ghost predicate SameMap(s: Cache, m: Cache) {
    && m.keys == s.keys && m.expiration == s.expiration && m.installs == s.installs && s.clock <= m.clock
    && forall t :: t in m.callers && t !in s.callers && m.callers[t].kid !in s.keys ==> !m.callers[t].stage.Returned?
  }

  /** While the map is alive nobody is in the middle of replacing it. */
  lemma LiveMapIsLeftAlone(m: Cache, a: Action)
    requires Inv(m) && Enabled(m, a) && m.clock < m.expiration
    ensures !Fetches(a)
    ensures var m' := Step(m, a); m'.keys == m.keys && m'.expiration == m.expiration && m'.installs == m.installs
  {
  }

  lemma LateCallersMiss(s: Cache, m: Cache, a: Action)
    requires SameMap(s, m) && Enabled(m, a)
    ensures var m' := Step(m, a);
            forall t :: t in m'.callers && t !in s.callers && m'.callers[t].kid !in s.keys ==> !m'.callers[t].stage.Returned?
  {
  }

  /**
   A key id that is not in a live map is not looked for anywhere else: in every interleaving, from any
   reachable state until the map expires, nothing is downloaded, the map stays, and no caller that came
   after that state gets a key for an id that is absent.
   */
  lemma {:induction false} AbsentIdsWaitForExpiry(clock: nat, acts: seq<Action>, more: seq<Action>)
    requires RunCache(Empty(clock), acts).Some? && RunCache(RunCache(Empty(clock), acts).value, more).Some?
    requires var s := RunCache(Empty(clock), acts).value; RunCache(s, more).value.clock < s.expiration
    ensures var s := RunCache(Empty(clock), acts).value;
            && SameMap(s, RunCache(s, more).value)
            && Inv(RunCache(s, more).value)
            && forall i :: 0 <= i < |more| ==> !Fetches(more[i])
    decreases |more|
  {
    var s := RunCache(Empty(clock), acts).value;
    if more == [] {
      InvAlways(clock, acts);
    } else {
      var init, a := more[..|more| - 1], more[|more| - 1];
      var m := RunCache(s, init).value;
      ClockAdvances(m, a);
      AbsentIdsWaitForExpiry(clock, acts, init);
      LiveMapIsLeftAlone(m, a);
      LateCallersMiss(s, m, a);
      StepKeepsInv(m, a);
      forall i | 0 <= i < |more| ensures !Fetches(more[i]) {
        if i < |init| { assert more[i] == init[i]; }
      }
    }
  }
}
