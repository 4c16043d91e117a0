/**
 Secret injection (genesis-core/src/k8s/inject.rs): the flat in-memory store, the POST-then-PUT
 HTTP injector over an API server, and what a list of targets leaves behind in each of them.
 */
module Injection {
  import opened Base

  datatype Target = Target(name: string, namespace: string, key: string) {
    function Id(): SecretId { SecretId(namespace, name) }
  }

  datatype SecretId = SecretId(namespace: string, name: string)

  /** The labels and annotations of an injected secret, as the public key and owner they carry. */
  datatype Metadata = Metadata(publicKey: Option<string>, owner: Option<string>)

  datatype Secret = Secret(data: map<string, Bytes>, metadata: Metadata)

  // ---------- the flat store ----------

  ghost predicate SlashFree(s: string) {
    '/' !in s
  }

  function CompoundKey(t: Target): string {
    t.namespace + "/" + t.name + "/" + t.key
  }

  function Prefix(id: SecretId): string {
    id.namespace + "/" + id.name + "/"
  }

  /** The first slash splits a string in one way only. */
  lemma SplitAtSlash(a: string, x: string, b: string, y: string)
    requires SlashFree(a) && SlashFree(b)
    requires a + "/" + x == b + "/" + y
    ensures a == b && x == y
  {
    var s, t := a + "/" + x, b + "/" + y;
    assert s[|a|] == '/' && t[|b|] == '/';
    assert |a| == |b|;
    assert s[..|a|] == a && t[..|b|] == b;
    assert s[|a| + 1..] == x && t[|b| + 1..] == y;
  }

  lemma CompoundKeyIsInjective(t: Target, u: Target)
    requires SlashFree(t.namespace) && SlashFree(t.name) && SlashFree(u.namespace) && SlashFree(u.name)
    ensures CompoundKey(t) == CompoundKey(u) <==> t == u
    ensures Prefix(t.Id()) <= CompoundKey(u) <==> t.Id() == u.Id()
  {
    if CompoundKey(t) == CompoundKey(u) {
      SameHead(t, t.key, u);
    }
    if Prefix(t.Id()) <= CompoundKey(u) {
      var rest := CompoundKey(u)[|Prefix(t.Id())|..];
      assert CompoundKey(u) == Prefix(t.Id()) + rest;
      SameHead(t, rest, u);
    }
    if t.Id() == u.Id() {
      assert CompoundKey(u) == Prefix(t.Id()) + u.key;
    }
  }

  lemma SameHead(t: Target, rest: string, u: Target)
    requires SlashFree(t.namespace) && SlashFree(t.name) && SlashFree(u.namespace) && SlashFree(u.name)
    requires t.namespace + "/" + t.name + "/" + rest == CompoundKey(u)
    ensures t.Id() == u.Id() && rest == u.key
  {
    var x, y := t.name + "/" + rest, u.name + "/" + u.key;
    assert t.namespace + "/" + x == t.namespace + "/" + t.name + "/" + rest;
    assert u.namespace + "/" + y == CompoundKey(u);
    SplitAtSlash(t.namespace, x, u.namespace, y);
    SplitAtSlash(t.name, rest, u.name, u.key);
  }

  function Slashes(s: string): nat {
    if s == "" then 0 else (if s[0] == '/' then 1 else 0) + Slashes(s[1..])
  }

  lemma {:induction false} SlashesConcat(a: string, b: string)
    ensures Slashes(a + b) == Slashes(a) + Slashes(b)
  {
    if a == "" {
      assert a + b == b;
    } else {
      assert (a + b)[1..] == a[1..] + b;
      SlashesConcat(a[1..], b);
    }
  }

  lemma {:induction false} NoSlashes(s: string)
    ensures Slashes(s) == 0 <==> SlashFree(s)
  {
    if s != "" { NoSlashes(s[1..]); }
  }

  lemma SlashesOfKey(t: Target)
    ensures Slashes(CompoundKey(t)) == 2 + Slashes(t.namespace) + Slashes(t.name) + Slashes(t.key)
  {
    assert Slashes("/") == 1;
    SlashesConcat(t.namespace + "/" + t.name + "/", t.key);
    SlashesConcat(t.namespace + "/" + t.name, "/");
    SlashesConcat(t.namespace + "/", t.name);
    SlashesConcat(t.namespace, "/");
  }

  ghost predicate AllSlashFree(t: Target) {
    SlashFree(t.namespace) && SlashFree(t.name) && SlashFree(t.key)
  }

  lemma CutAtSlash(s: string) returns (x: string, y: string)
    requires !SlashFree(s)
    ensures s == x + "/" + y
  {
    var i :| 0 <= i < |s| && s[i] == '/';
    x, y := s[..i], s[i + 1..];
  }

  /** Wherever a slash stands, another secret shares the compound key. */
  lemma SlashesCollide(t: Target) returns (u: Target)
    requires !AllSlashFree(t)
    ensures CompoundKey(u) == CompoundKey(t) && u.Id() != t.Id()
  {
    if !SlashFree(t.namespace) {
      var x, y := CutAtSlash(t.namespace);
      u := Target(y + "/" + t.name, x, t.key);
      assert x + "/" + (y + "/" + t.name) + "/" + t.key == (x + "/" + y) + "/" + t.name + "/" + t.key;
    } else if !SlashFree(t.name) {
      var x, y := CutAtSlash(t.name);
      u := Target(y, t.namespace + "/" + x, t.key);
      assert (t.namespace + "/" + x) + "/" + y + "/" + t.key == t.namespace + "/" + (x + "/" + y) + "/" + t.key;
      assert |t.namespace + "/" + x| != |t.namespace|;
    } else {
      var x, y := CutAtSlash(t.key);
      u := Target(t.name + "/" + x, t.namespace, y);
      assert t.namespace + "/" + (t.name + "/" + x) + "/" + y == t.namespace + "/" + t.name + "/" + (x + "/" + y);
      assert |t.name + "/" + x| != |t.name|;
    }
  }

  /** A target's compound key is nobody else's if and only if it has no slash in any of its three parts. */
  lemma CompoundKeyIsUniqueExactly(t: Target)
    ensures (forall u :: CompoundKey(u) == CompoundKey(t) ==> u == t) <==> AllSlashFree(t)
  {
    if AllSlashFree(t) {
      forall u | CompoundKey(u) == CompoundKey(t) ensures u == t {
        SlashesOfKey(t);
        SlashesOfKey(u);
        NoSlashes(t.namespace);
        NoSlashes(t.name);
        NoSlashes(t.key);
        NoSlashes(u.namespace);
        NoSlashes(u.name);
        CompoundKeyIsInjective(t, u);
      }
    } else {
      var u := SlashesCollide(t);
    }
  }

  type Write = (Target, Bytes)

  function FlatWrites(store: map<string, Bytes>, ws: seq<Write>): map<string, Bytes> {
    if ws == [] then store else FlatWrites(store, ws[..|ws| - 1])[CompoundKey(ws[|ws| - 1].0) := ws[|ws| - 1].1]
  }

  /** The reference store: a map keyed by the target itself. */
  function Writes(ws: seq<Write>): map<Target, Bytes> {
    if ws == [] then map[] else Writes(ws[..|ws| - 1])[ws[|ws| - 1].0 := ws[|ws| - 1].1]
  }

  ghost predicate WellNamed(t: Target) {
    SlashFree(t.namespace) && SlashFree(t.name)
  }

  function FlatExists(store: map<string, Bytes>, id: SecretId): bool {
    exists k | k in store :: Prefix(id) <= k
  }

  /**
   After any sequence of writes the flat store answers every lookup, and every existence query by
   prefix, as the map keyed by targets does.
   */
  lemma {:induction false} FlatStoreRefinesMap(ws: seq<Write>, t: Target)
    requires WellNamed(t) && forall i :: 0 <= i < |ws| ==> WellNamed(ws[i].0)
    ensures var flat := FlatWrites(map[], ws);
            && (CompoundKey(t) in flat <==> t in Writes(ws))
            && (t in Writes(ws) ==> flat[CompoundKey(t)] == Writes(ws)[t])
            && (FlatExists(flat, t.Id()) <==> exists u :: u in Writes(ws) && u.Id() == t.Id())
  {
    if ws != [] {
      var init, last := ws[..|ws| - 1], ws[|ws| - 1];
      FlatStoreRefinesMap(init, t);
      CompoundKeyIsInjective(t, last.0);
      var flat0, flat := FlatWrites(map[], init), FlatWrites(map[], ws);
      assert flat == flat0[CompoundKey(last.0) := last.1];
      if exists u :: u in Writes(ws) && u.Id() == t.Id() {
        var u :| u in Writes(ws) && u.Id() == t.Id();
        if u != last.0 {
          assert u in Writes(init);
          var k :| k in flat0 && Prefix(t.Id()) <= k;
          assert k in flat;
        } else {
          assert CompoundKey(u) in flat;
        }
      }
      if FlatExists(flat, t.Id()) {
        var k :| k in flat && Prefix(t.Id()) <= k;
        if k != CompoundKey(last.0) {
          assert k in flat0;
          var u :| u in Writes(init) && u.Id() == t.Id();
          assert u in Writes(ws);
        } else {
          assert last.0 in Writes(ws);
        }
      }
    }
  }

  class MockSecretInjector {
    var secrets: map<string, Bytes>
    var metadataLog: map<string, Metadata>

    constructor ()
      ensures secrets == map[] && metadataLog == map[]
    {
      secrets, metadataLog := map[], map[];
    }

    method Inject(keyBytes: Bytes, t: Target, metadata: Option<Metadata>)
      modifies this
      ensures secrets == FlatWrites(old(secrets), [(t, keyBytes)])
      ensures secrets == old(secrets)[t.namespace + "/" + t.name + "/" + t.key := keyBytes]
      ensures metadataLog == if metadata.None? then old(metadataLog)
                             else old(metadataLog)[t.namespace + "/" + t.name := metadata.value]
    {
      var key := CompoundKey(t);
      assert [(t, keyBytes)][..0] == [];
      secrets := secrets[key := keyBytes];
      if metadata.Some? {
        metadataLog := metadataLog[t.namespace + "/" + t.name := metadata.value];
      }
    }

    method SecretExists(id: SecretId) returns (found: bool)
      ensures found == FlatExists(secrets, id)
      ensures found <==> exists k :: k in secrets && id.namespace + "/" + id.name + "/" <= k
    {
      var prefix := Prefix(id);
      found := exists k | k in secrets :: prefix <= k;
    }
  }

  // ---------- the API server ----------

  type Store = map<SecretId, Secret>

  /** The value a store holds for a target. */
  function Lookup(store: Store, t: Target): Option<Bytes> {
    if t.Id() in store && t.key in store[t.Id()].data then Some(store[t.Id()].data[t.key]) else None
  }

  /** The object that `secret_body` describes: one key and the metadata, nothing else. */
  function Body(keyBytes: Bytes, t: Target, metadata: Metadata): Secret {
    Secret(map[t.key := keyBytes], metadata)
  }

  /**
   What became of a request: served, lost on the way there, or served with the answer lost.  The last two
   also stand for an injector that panics before its request has arrived, or after.
   */
  datatype Net = Served | RequestLost | AnswerLost

  datatype Status = Created | Conflict | Updated | NotFound | NoAnswer

  class ApiServer {
    var secrets: Store

    constructor (initial: Store)
      ensures secrets == initial
    {
      secrets := initial;
    }

    /** POST creates the object or answers 409. */
    method Post(id: SecretId, body: Secret, net: Net) returns (status: Status)
      modifies this
      ensures secrets == if net.RequestLost? || id in old(secrets) then old(secrets) else old(secrets)[id := body]
      ensures status == if !net.Served? then NoAnswer else if id in old(secrets) then Conflict else Created
    {
      status := NoAnswer;
      if net.RequestLost? {
        return;
      }
      if id in secrets {
        status := Conflict;
      } else {
        secrets := secrets[id := body];
        status := Created;
      }
      if net.AnswerLost? {
        status := NoAnswer;
      }
    }

    /** PUT replaces the whole object, or answers 404. */
    method Put(id: SecretId, body: Secret, net: Net) returns (status: Status)
      modifies this
      ensures secrets == if net.RequestLost? || id !in old(secrets) then old(secrets) else old(secrets)[id := body]
      ensures status == if !net.Served? then NoAnswer else if id in old(secrets) then Updated else NotFound
    {
      status := NoAnswer;
      if net.RequestLost? {
        return;
      }
      if id in secrets {
        secrets := secrets[id := body];
        status := Updated;
      } else {
        status := NotFound;
      }
      if net.AnswerLost? {
        status := NoAnswer;
      }
    }
  }

  /** The network's behaviour during one injection: its POST and, after a conflict, its PUT. */
  datatype Link = Link(post: Net, put: Net)

  /** The request that decides an injection: the PUT when the secret exists and the POST said so. */
  function Decisive(store: Store, t: Target, link: Link): Net {
    if t.Id() in store then (if link.post.Served? then link.put else RequestLost) else link.post
  }

  function InjectedStore(store: Store, keyBytes: Bytes, t: Target, metadata: Metadata, link: Link): Store {
    if Decisive(store, t, link).RequestLost? then store else store[t.Id() := Body(keyBytes, t, metadata)]
  }

  predicate Succeeds(store: Store, t: Target, link: Link) {
    Decisive(store, t, link).Served?
  }

  /**
   One injection.  It succeeds exactly when the POST is served and, for a secret that is there already, the
   PUT too.  The secret is the new object exactly when the request that decides has reached the server: on
   success, or when only its answer was lost.  No other secret is touched.
   */
  method Inject(api: ApiServer, keyBytes: Bytes, t: Target, metadata: Metadata, link: Link) returns (ok: bool)
    modifies api
    ensures ok == Succeeds(old(api.secrets), t, link)
    ensures api.secrets == InjectedStore(old(api.secrets), keyBytes, t, metadata, link)
    ensures ok <==> link.post.Served? && (t.Id() in old(api.secrets) ==> link.put.Served?)
    ensures var arrived := if t.Id() in old(api.secrets) then link.post.Served? && !link.put.RequestLost?
                           else !link.post.RequestLost?;
            api.secrets == if arrived then old(api.secrets)[t.Id() := Secret(map[t.key := keyBytes], metadata)]
                           else old(api.secrets)
  {
    var body := Body(keyBytes, t, metadata);
    var status := api.Post(t.Id(), body, link.post);
    if status == Conflict {
      status := api.Put(t.Id(), body, link.put);
      return status == Updated;
    }
    ok := status == Created;
  }

  // ---------- a list of targets ----------

  /** The number of injections that succeed before the first failure. */
  function Progress(store: Store, keyBytes: Bytes, ts: seq<Target>, metadata: Metadata, links: seq<Link>): (n: nat)
    requires |links| == |ts|
    ensures n <= |ts|
    decreases |ts|
  {
    if ts == [] || !Succeeds(store, ts[0], links[0]) then 0
    else 1 + Progress(InjectedStore(store, keyBytes, ts[0], metadata, links[0]), keyBytes, ts[1..], metadata, links[1..])
  }

  /** The store after the loop over the targets, which stops at the first failure. */
  function AllInjected(store: Store, keyBytes: Bytes, ts: seq<Target>, metadata: Metadata, links: seq<Link>): Store
    requires |links| == |ts|
    decreases |ts|
  {
    if ts == [] then store else
    var store1 := InjectedStore(store, keyBytes, ts[0], metadata, links[0]);
    if !Succeeds(store, ts[0], links[0]) then store1
    else AllInjected(store1, keyBytes, ts[1..], metadata, links[1..])
  }

  /** The secret of the target at index `i` exists when its turn comes: from the start, or by an earlier target. */
  predicate There(store: Store, ts: seq<Target>, i: int)
    requires 0 <= i < |ts|
  {
    ts[i].Id() in store || exists j :: 0 <= j < i && ts[j].Id() == ts[i].Id()
  }

  /** The network serves what the injection at index `i` needs. */
  predicate HopWorks(store: Store, ts: seq<Target>, links: seq<Link>, i: int)
    requires |links| == |ts| && 0 <= i < |ts|
  {
    links[i].post.Served? && (There(store, ts, i) ==> links[i].put.Served?)
  }

  /** The request that writes the secret reaches the server. */
  predicate HopLands(store: Store, ts: seq<Target>, links: seq<Link>, i: int)
    requires |links| == |ts| && 0 <= i < |ts|
  {
    if There(store, ts, i) then links[i].post.Served? && !links[i].put.RequestLost? else !links[i].post.RequestLost?
  }

  /** Of the first `m` targets, the one at `i` is the last that names this secret. */
  predicate LastNaming(ts: seq<Target>, m: nat, id: SecretId, i: int)
    requires m <= |ts|
  {
    0 <= i < m && ts[i].Id() == id && forall j :: i < j < m ==> ts[j].Id() != id
  }

  /** The secrets once the first `m` targets have been written: the last target that names a secret decides. */
  ghost predicate WrittenUpTo(store: Store, keyBytes: Bytes, ts: seq<Target>, metadata: Metadata, m: nat, after: Store)
    requires m <= |ts|
  {
    && (forall id, i :: LastNaming(ts, m, id, i) ==>
          id in after && after[id] == Secret(map[ts[i].key := keyBytes], metadata))
    && (forall id :: (forall j :: 0 <= j < m ==> ts[j].Id() != id) ==>
          (id in after <==> id in store) && (id in store ==> after[id] == store[id]))
  }

  lemma ThereShifts(store: Store, keyBytes: Bytes, ts: seq<Target>, metadata: Metadata, i: int)
    requires 0 < i < |ts|
    ensures There(store[ts[0].Id() := Body(keyBytes, ts[0], metadata)], ts[1..], i - 1) <==> There(store, ts, i)
  {
    assert forall j :: 0 < j < i ==> ts[1..][j - 1] == ts[j];
    if j :| 0 <= j < i - 1 && ts[1..][j].Id() == ts[i].Id() {
      assert ts[j + 1] == ts[1..][j];
    }
  }

  /**
   The first injection that fails is the first whose requests the network does not serve, so the loop
   succeeds if and only if the network serves every target.
   */
  lemma {:induction false} FailsExactlyWhen(
    store: Store, keyBytes: Bytes, ts: seq<Target>, metadata: Metadata, links: seq<Link>)
    requires |links| == |ts|
    ensures var n := Progress(store, keyBytes, ts, metadata, links);
            && (forall i :: 0 <= i < n ==> HopWorks(store, ts, links, i))
            && (n < |ts| ==> !HopWorks(store, ts, links, n))
    ensures Progress(store, keyBytes, ts, metadata, links) == |ts|
            <==> forall i :: 0 <= i < |ts| ==> HopWorks(store, ts, links, i)
    decreases |ts|
  {
    if ts != [] && Succeeds(store, ts[0], links[0]) {
      var store1 := InjectedStore(store, keyBytes, ts[0], metadata, links[0]);
      FailsExactlyWhen(store1, keyBytes, ts[1..], metadata, links[1..]);
      forall i | 0 < i < |ts| ensures HopWorks(store1, ts[1..], links[1..], i - 1) <==> HopWorks(store, ts, links, i) {
        ThereShifts(store, keyBytes, ts, metadata, i);
      }
    }
  }

  /**
   A loop that fails at target `n` leaves the writes of the targets before it, and that of `n` if its request
   arrived and only the answer was lost; a loop that succeeds leaves all writes.
   */
  lemma {:induction false} StopsAtFirstFailure(
    store: Store, keyBytes: Bytes, ts: seq<Target>, metadata: Metadata, links: seq<Link>)
    requires |links| == |ts|
    ensures var n := Progress(store, keyBytes, ts, metadata, links);
            var after := AllInjected(store, keyBytes, ts, metadata, links);
            WrittenUpTo(store, keyBytes, ts, metadata, n + if n < |ts| && HopLands(store, ts, links, n) then 1 else 0, after)
    decreases |ts|
  {
    var n, after := Progress(store, keyBytes, ts, metadata, links), AllInjected(store, keyBytes, ts, metadata, links);
    if ts != [] && Succeeds(store, ts[0], links[0]) {
      var store1 := InjectedStore(store, keyBytes, ts[0], metadata, links[0]);
      StopsAtFirstFailure(store1, keyBytes, ts[1..], metadata, links[1..]);
      if n < |ts| { ThereShifts(store, keyBytes, ts, metadata, n); }
      var m: nat := n + if n < |ts| && HopLands(store, ts, links, n) then 1 else 0;
      FirstThenRest(store, keyBytes, ts, metadata, m, after);
    }
  }

  lemma FirstThenRest(store: Store, keyBytes: Bytes, ts: seq<Target>, metadata: Metadata, m: nat, after: Store)
    requires 1 <= m <= |ts|
    requires WrittenUpTo(
               store[ts[0].Id() := Body(keyBytes, ts[0], metadata)], keyBytes, ts[1..], metadata, m - 1, after)
    ensures WrittenUpTo(store, keyBytes, ts, metadata, m, after)
  {
    assert forall j :: 0 < j < m ==> ts[1..][j - 1] == ts[j];
    forall id, i | LastNaming(ts, m, id, i)
      ensures id in after && after[id] == Secret(map[ts[i].key := keyBytes], metadata)
    {
      if i > 0 {
        assert LastNaming(ts[1..], m - 1, id, i - 1);
      } else {
        assert forall j :: 0 <= j < m - 1 ==> ts[1..][j] == ts[j + 1];
      }
    }
    forall id | forall j :: 0 <= j < m ==> ts[j].Id() != id
      ensures (id in after <==> id in store) && (id in store ==> after[id] == store[id])
    {
      assert forall j :: 0 <= j < m - 1 ==> ts[1..][j] == ts[j + 1];
    }
  }

  method InjectAll(api: ApiServer, keyBytes: Bytes, ts: seq<Target>, metadata: Metadata, links: seq<Link>)
    returns (ok: bool)
    requires |links| == |ts|
    modifies api
    ensures ok <==> Progress(old(api.secrets), keyBytes, ts, metadata, links) == |ts|
    ensures ok <==> forall i :: 0 <= i < |ts| ==> HopWorks(old(api.secrets), ts, links, i)
    ensures api.secrets == AllInjected(old(api.secrets), keyBytes, ts, metadata, links)
  {
    FailsExactlyWhen(api.secrets, keyBytes, ts, metadata, links);
    for i := 0 to |ts|
      invariant Progress(old(api.secrets), keyBytes, ts, metadata, links)
             == i + Progress(api.secrets, keyBytes, ts[i..], metadata, links[i..])
      invariant AllInjected(old(api.secrets), keyBytes, ts, metadata, links)
             == AllInjected(api.secrets, keyBytes, ts[i..], metadata, links[i..])
    {
      assert ts[i..][1..] == ts[i + 1..] && links[i..][1..] == links[i + 1..];
      var sent := Inject(api, keyBytes, ts[i], metadata, links[i]);
      if !sent {
        return false;
      }
    }
    ok := true;
  }

  /** Where a loop has succeeded, every secret it names holds the key under the last name used for it. */
  lemma AllWritten(store: Store, keyBytes: Bytes, ts: seq<Target>, metadata: Metadata, links: seq<Link>)
    requires |links| == |ts| && forall i :: 0 <= i < |ts| ==> HopWorks(store, ts, links, i)
    ensures WrittenUpTo(store, keyBytes, ts, metadata, |ts|, AllInjected(store, keyBytes, ts, metadata, links))
  {
    FailsExactlyWhen(store, keyBytes, ts, metadata, links);
    StopsAtFirstFailure(store, keyBytes, ts, metadata, links);
  }

  lemma {:induction false} LastNamingExists(ts: seq<Target>, m: nat, i: nat) returns (j: nat)
    requires i < m <= |ts|
    ensures i <= j && LastNaming(ts, m, ts[i].Id(), j)
    decreases m
  {
    if ts[m - 1].Id() == ts[i].Id() {
      j := m - 1;
    } else {
      j := LastNamingExists(ts, m - 1, i);
    }
  }

  function WritesOf(keyBytes: Bytes, ts: seq<Target>): seq<Write> {
    seq(|ts|, i requires 0 <= i < |ts| => (ts[i], keyBytes))
  }

  lemma {:induction false} FlatHoldsAll(keyBytes: Bytes, ts: seq<Target>, i: nat)
    requires i < |ts|
    ensures CompoundKey(ts[i]) in FlatWrites(map[], WritesOf(keyBytes, ts))
    ensures FlatWrites(map[], WritesOf(keyBytes, ts))[CompoundKey(ts[i])] == keyBytes
  {
    var n := |ts| - 1;
    assert WritesOf(keyBytes, ts)[..n] == WritesOf(keyBytes, ts[..n]);
    if i < n {
      FlatHoldsAll(keyBytes, ts[..n], i);
    }
  }

  lemma HeldUnderTheLastName(
    store: Store, keyBytes: Bytes, ts: seq<Target>, metadata: Metadata, after: Store, i: nat) returns (j: nat)
    requires WrittenUpTo(store, keyBytes, ts, metadata, |ts|, after) && i < |ts|
    ensures LastNaming(ts, |ts|, ts[i].Id(), j) && i <= j
    ensures Lookup(after, ts[i]) == if ts[i].key == ts[j].key then Some(keyBytes) else None
  {
    j := LastNamingExists(ts, |ts|, i);
  }

  /** No secret is named with two keys. */
  predicate NamedAlike(ts: seq<Target>) {
    forall i, j :: 0 <= i < j < |ts| && ts[i].Id() == ts[j].Id() ==> ts[i].key == ts[j].key
  }

  lemma AllHeldExactly(store: Store, keyBytes: Bytes, ts: seq<Target>, metadata: Metadata, after: Store)
    requires WrittenUpTo(store, keyBytes, ts, metadata, |ts|, after)
    ensures (forall i :: 0 <= i < |ts| ==> Lookup(after, ts[i]) == Some(keyBytes)) <==> NamedAlike(ts)
  {
    if NamedAlike(ts) {
      forall i | 0 <= i < |ts| ensures Lookup(after, ts[i]) == Some(keyBytes) {
        var j := HeldUnderTheLastName(store, keyBytes, ts, metadata, after, i);
      }
    } else {
      var i, j :| 0 <= i < j < |ts| && ts[i].Id() == ts[j].Id() && ts[i].key != ts[j].key;
      var a := HeldUnderTheLastName(store, keyBytes, ts, metadata, after, i);
      var b := HeldUnderTheLastName(store, keyBytes, ts, metadata, after, j);
      assert a == b;
    }
  }

  /**
   After a loop that succeeds, the flat store and the server agree on every target if and only if no secret
   is named with two keys.  Lists with one key, as the controller builds them, are such.
   */
  lemma StoresAgree(store: Store, keyBytes: Bytes, ts: seq<Target>, metadata: Metadata, links: seq<Link>)
    requires |links| == |ts| && forall i :: 0 <= i < |ts| ==> HopWorks(store, ts, links, i)
    ensures var flat := FlatWrites(map[], WritesOf(keyBytes, ts));
            var after := AllInjected(store, keyBytes, ts, metadata, links);
            (forall i :: 0 <= i < |ts| ==>
               CompoundKey(ts[i]) in flat && Lookup(after, ts[i]) == Some(flat[CompoundKey(ts[i])]))
            <==> NamedAlike(ts)
  {
    AllWritten(store, keyBytes, ts, metadata, links);
    AllHeldExactly(store, keyBytes, ts, metadata, AllInjected(store, keyBytes, ts, metadata, links));
    forall i | 0 <= i < |ts|
      ensures CompoundKey(ts[i]) in FlatWrites(map[], WritesOf(keyBytes, ts))
      ensures FlatWrites(map[], WritesOf(keyBytes, ts))[CompoundKey(ts[i])] == keyBytes
    {
      FlatHoldsAll(keyBytes, ts, i);
    }
  }
}
