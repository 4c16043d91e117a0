/**
 Two controllers over one API server: any number of bootstrap passes
 (internal/controller/genesisbootstrap_controller.go) and rotations
 (internal/controller/genesisrotationpolicy_controller.go) in any interleaving, reading possibly
 stale objects and stopping anywhere.

 Custom resources, their status and secret annotations are written under the resource version that
 was read; secrets are injected with an unguarded POST and, after a conflict, PUT.
 */
module Cluster {
  import opened Base
  import opened Injection
  import opened Targets

  /** The KMS and the derivation of public keys, on the keys that matter here. */
  datatype Keys = Keys(decrypt: Bytes -> Option<Bytes>, publicKey: Bytes -> Option<string>)

  datatype Cr = Cr(rv: nat, publicKey: string, ciphertext: Bytes, output: Output)

  /** A stored secret: its version, its data, and its labels and annotations. */
  datatype Obj = Obj(rv: nat, data: map<string, Bytes>, marks: map<string, string>)

  /** A key that some rotation generated and has injected under this target. */
  datatype Minted = Minted(target: Target, key: Bytes)

  /**
   What the API server stores.  `crSeen` and `secretSeen` hold every version ever stored: a cached
   read may return any of them.  `known` are the private keys that have been written anywhere or
   can be decrypted from a stored resource; a rotation's new key joins them when it is first sent.
   `applied` are the pairs of public key and ciphertext that people have put into resources.
   */
  datatype Server = Server(
    rv: nat,
    crs: map<string, Cr>,
    crSeen: set<(string, Cr)>,
    secrets: map<SecretId, Obj>,
    secretSeen: set<(SecretId, Obj)>,
    known: set<Bytes>,
    minted: set<Minted>,
    applied: set<(string, Bytes)>)

  /** Where a bootstrap pass (B) or a rotation (R) is, with what it has read. */
  datatype Proc =
    | BRead(cr: string, copy: Cr)
    | BInject(cr: string, copy: Cr, key: Bytes, next: nat, put: bool)
    | BStatus(cr: string, copy: Cr)
    | RSecret(id: SecretId, read: Obj)
    | RFound(id: SecretId, read: Obj, cr: string, copy: Cr)
    | ROld(id: SecretId, read: Obj, cr: string, copy: Cr, key: Bytes, put: bool)
    | RReady(id: SecretId, read: Obj, cr: string, copy: Cr)
    | RNew(id: SecretId, read: Obj, cr: string, copy: Cr, key: Bytes, publicKey: string, ciphertext: Bytes, put: bool)
    | RUpdate(id: SecretId, read: Obj, cr: string, copy: Cr, key: Bytes, publicKey: string, ciphertext: Bytes, wrote: nat)
    | RAnnotate(id: SecretId, read: Obj, wrote: nat)

  datatype State = State(server: Server, procs: map<nat, Proc>)

  datatype Action =
    | BGet(p: nat, cr: string, copy: Cr)
    | BFinalizer(p: nat)
    | BDecrypt(p: nat)
    | BSend(p: nat)
    | BFinish(p: nat)
    | RGet(p: nat, id: SecretId, read: Obj)
    | RFind(p: nat, cr: string, copy: Cr)
    | RDecrypt(p: nat)
    | RSendOld(p: nat)
    | RMint(p: nat, key: Bytes, publicKey: string, ciphertext: Bytes)
    | RSendNew(p: nat)
    | RCommit(p: nat)
    | RMark(p: nat, marks: map<string, string>)
    | Stop(p: nat)
    | ApplyCr(cr: string, publicKey: string, ciphertext: Bytes, output: Output)
    | DeleteCr(cr: string)
    | DeleteSecret(id: SecretId)

  // ---------- writes ----------

  function StoreCr(k: Keys, s: Server, cr: string, publicKey: string, ciphertext: Bytes, output: Output): Server {
    var c := Cr(s.rv + 1, publicKey, ciphertext, output);
    var key := k.decrypt(ciphertext);
    s.(rv := s.rv + 1, crs := s.crs[cr := c], crSeen := s.crSeen + {(cr, c)},
       known := if key.Some? then s.known + {key.value} else s.known)
  }

  /** People may apply any pair, matched or not. */
  function ApplyPair(k: Keys, s: Server, cr: string, publicKey: string, ciphertext: Bytes, output: Output): Server {
    StoreCr(k, s.(applied := s.applied + {(publicKey, ciphertext)}), cr, publicKey, ciphertext, output)
  }

  /** An update that carries the version it read; it changes nothing unless that is the stored one. */
  function GuardedCr(k: Keys, s: Server, cr: string, copy: Cr, publicKey: string, ciphertext: Bytes): (Server, bool) {
    if cr in s.crs && s.crs[cr].rv == copy.rv
    then (StoreCr(k, s, cr, publicKey, ciphertext, copy.output), true) else (s, false)
  }

  function StoreSecret(s: Server, id: SecretId, data: map<string, Bytes>, marks: map<string, string>): Server {
    var o := Obj(s.rv + 1, data, marks);
    s.(rv := s.rv + 1, secrets := s.secrets[id := o], secretSeen := s.secretSeen + {(id, o)})
  }

  function GuardedSecret(s: Server, id: SecretId, read: Obj, data: map<string, Bytes>, marks: map<string, string>): Server {
    if id in s.secrets && s.secrets[id].rv == read.rv then StoreSecret(s, id, data, marks) else s
  }

  datatype Answer = Done | Exists | Missing

  /**
   One injection request.  POST creates or conflicts; PUT replaces the object, is a no-op when the
   content is the stored one already, and fails when the object has gone.
   */
  function Send(s: Server, t: Target, key: Bytes, marks: map<string, string>, put: bool): (Server, Answer) {
    var data := map[t.key := key];
    if t.Id() in s.secrets then
      if !put then (s, Exists)
      else if s.secrets[t.Id()].data == data && s.secrets[t.Id()].marks == marks then (s, Done)
      else (StoreSecret(s, t.Id(), data, marks), Done)
    else if put then (s, Missing)
    else (StoreSecret(s, t.Id(), data, marks), Done)
  }

  /** From now on the key counts as known and as minted for the target. */
  function Count(s: Server, t: Target, key: Bytes): Server {
    s.(known := s.known + {key}, minted := s.minted + {Minted(t, key)})
  }

  /** The labels and annotations that an injection writes. */
  function Marks(cr: string, publicKey: string): map<string, string> {
    map["genesis.io/bootstrap-name" := cr,
        "genesis.io/public-key-fingerprint" := if |publicKey| > 12 then publicKey[..12] else publicKey]
  }

  /** The target of a rotation: the primary secret of the resource it found. */
  function Primary(o: Output): Target {
    Target(o.secretName, o.secretNamespace, o.secretKey)
  }

  /** The output section has this very secret as its primary one. */
  predicate Manages(o: Output, id: SecretId) {
    o.secretName == id.name && o.secretNamespace == id.namespace
  }

  /** The first listed resource that manages the secret, as a rotation looks it up. */
  method FindGenesisBootstrap(items: seq<Cr>, id: SecretId) returns (found: Option<Cr>)
    ensures found.Some? ==> exists i :: IsFirstFor(items, id, i) && items[i] == found.value
    ensures found.None? ==> forall i :: 0 <= i < |items| ==> !Manages(items[i].output, id)
  {
    for i := 0 to |items|
      invariant forall j :: 0 <= j < i ==> !Manages(items[j].output, id)
    {
      var b := items[i];
      if b.output.secretName == id.name && b.output.secretNamespace == id.namespace {
        assert IsFirstFor(items, id, i);
        return Some(b);
      }
    }
    found := None;
  }

  ghost predicate IsFirstFor(items: seq<Cr>, id: SecretId, i: int) {
    0 <= i < |items| && Manages(items[i].output, id) && forall j :: 0 <= j < i ==> !Manages(items[j].output, id)
  }

  // ---------- steps ----------

  ghost predicate Matched(k: Keys, publicKey: string, ciphertext: Bytes) {
    k.decrypt(ciphertext).Some? && k.publicKey(k.decrypt(ciphertext).value) == Some(publicKey)
  }

  /** A key that a rotation has generated and not sent yet: nobody else can have it. */
  ghost predicate Pending(s: State, key: Bytes) {
    exists p :: p in s.procs && s.procs[p].RNew? && s.procs[p].key == key
  }

  ghost predicate Enabled(k: Keys, s: State, a: Action) {
    match a
    case BGet(p, cr, copy) => p !in s.procs && (cr, copy) in s.server.crSeen
    case BFinalizer(p) => p in s.procs && s.procs[p].BRead?
    case BDecrypt(p) => p in s.procs && s.procs[p].BRead? && k.decrypt(s.procs[p].copy.ciphertext).Some?
    case BSend(p) => p in s.procs && s.procs[p].BInject? && s.procs[p].next < |TargetsFor(s.procs[p].copy.output)|
    case BFinish(p) => p in s.procs && s.procs[p].BStatus?
    case RGet(p, id, read) => p !in s.procs && (id, read) in s.server.secretSeen
    case RFind(p, cr, copy) =>
      && p in s.procs && s.procs[p].RSecret?
      && (cr, copy) in s.server.crSeen && Manages(copy.output, s.procs[p].id)
    case RDecrypt(p) => p in s.procs && s.procs[p].RFound? && k.decrypt(s.procs[p].copy.ciphertext).Some?
    case RSendOld(p) => p in s.procs && s.procs[p].ROld?
    case RMint(p, key, publicKey, ciphertext) =>
      && p in s.procs && s.procs[p].RReady?
      && k.publicKey(key) == Some(publicKey) && k.decrypt(ciphertext) == Some(key)
      && key !in s.server.known && !Pending(s, key)
    case RSendNew(p) => p in s.procs && s.procs[p].RNew?
    case RCommit(p) => p in s.procs && s.procs[p].RUpdate?
    case RMark(p, _) => p in s.procs && s.procs[p].RAnnotate?
    case Stop(p) => p in s.procs
    case ApplyCr(cr, publicKey, ciphertext, output) =>
      k.decrypt(ciphertext).Some? ==> !Pending(s, k.decrypt(ciphertext).value)
    case DeleteCr(cr) => cr in s.server.crs
    case DeleteSecret(id) => id in s.server.secrets
  }

  /** A process's move: the server it leaves and where it goes, or nowhere when it ends. */
  datatype Move = Move(server: Server, next: Option<Proc>)

  function SendNext(s: Server, b: Proc): Move
    requires b.BInject? && b.next < |TargetsFor(b.copy.output)|
  {
    var ts := TargetsFor(b.copy.output);
    var (s', answer) := Send(s, ts[b.next], b.key, Marks(b.cr, b.copy.publicKey), b.put);
    match answer
    case Exists => Move(s', Some(BInject(b.cr, b.copy, b.key, b.next, true)))
    case Missing => Move(s', None)
    case Done =>
      Move(s', Some(if b.next + 1 < |ts| then BInject(b.cr, b.copy, b.key, b.next + 1, false) else BStatus(b.cr, b.copy)))
  }

  function SendOld(s: Server, r: Proc): Move
    requires r.ROld?
  {
    var (s', answer) := Send(s, Primary(r.copy.output), r.key, Marks(r.cr, r.copy.publicKey), r.put);
    match answer
    case Exists => Move(s', Some(ROld(r.id, r.read, r.cr, r.copy, r.key, true)))
    case Missing => Move(s', None)
    case Done => Move(s', Some(RReady(r.id, r.read, r.cr, r.copy)))
  }

  function SendNew(s: Server, r: Proc): Move
    requires r.RNew?
  {
    var t, marks := Primary(r.copy.output), Marks(r.cr, r.publicKey);
    match Send(s, t, r.key, marks, r.put).1
    case Exists => Move(s, Some(RNew(r.id, r.read, r.cr, r.copy, r.key, r.publicKey, r.ciphertext, true)))
    case Missing => Move(s, None)
    case Done =>
      var s' := Send(Count(s, t, r.key), t, r.key, marks, r.put).0;
      Move(s', Some(RUpdate(r.id, r.read, r.cr, r.copy, r.key, r.publicKey, r.ciphertext, s'.rv)))
  }

  function Commit(k: Keys, s: Server, r: Proc): Move
    requires r.RUpdate?
  {
    var (s', ok) := GuardedCr(k, s, r.cr, r.copy, r.publicKey, r.ciphertext);
    Move(s', if ok then Some(RAnnotate(r.id, r.read, r.wrote)) else None)
  }

  /** An update of metadata or status: the specification stays as it was read. */
  function Refresh(k: Keys, s: Server, cr: string, copy: Cr): Server {
    GuardedCr(k, s, cr, copy, copy.publicKey, copy.ciphertext).0
  }

  function ProcMove(k: Keys, s: State, a: Action): Move
    requires Enabled(k, s, a) && !a.ApplyCr? && !a.DeleteCr? && !a.DeleteSecret?
  {
    var sv := s.server;
    match a
    case BGet(p, cr, copy) => Move(sv, Some(BRead(cr, copy)))
    case BFinalizer(p) => Move(Refresh(k, sv, s.procs[p].cr, s.procs[p].copy), None)
    case BDecrypt(p) =>
      var b := s.procs[p];
      Move(sv, Some(BInject(b.cr, b.copy, k.decrypt(b.copy.ciphertext).value, 0, false)))
    case BSend(p) => SendNext(sv, s.procs[p])
    case BFinish(p) => Move(Refresh(k, sv, s.procs[p].cr, s.procs[p].copy), None)
    case RGet(p, id, read) => Move(sv, Some(RSecret(id, read)))
    case RFind(p, cr, copy) => Move(sv, Some(RFound(s.procs[p].id, s.procs[p].read, cr, copy)))
    case RDecrypt(p) =>
      var r := s.procs[p];
      Move(sv, Some(ROld(r.id, r.read, r.cr, r.copy, k.decrypt(r.copy.ciphertext).value, false)))
    case RSendOld(p) => SendOld(sv, s.procs[p])
    case RMint(p, key, publicKey, ciphertext) =>
      var r := s.procs[p];
      Move(sv, Some(RNew(r.id, r.read, r.cr, r.copy, key, publicKey, ciphertext, false)))
    case RSendNew(p) => SendNew(sv, s.procs[p])
    case RCommit(p) => Commit(k, sv, s.procs[p])
    // the annotations are added to the object that was read before the rotation, data included
    case RMark(p, marks) =>
      var r := s.procs[p];
      Move(GuardedSecret(sv, r.id, r.read, r.read.data, r.read.marks + marks), None)
    case Stop(p) => Move(sv, None)
  }

  function Step(k: Keys, s: State, a: Action): State
    requires Enabled(k, s, a)
  {
    match a
    case ApplyCr(cr, publicKey, ciphertext, output) =>
      State(ApplyPair(k, s.server, cr, publicKey, ciphertext, output), s.procs)
    case DeleteCr(cr) => State(s.server.(rv := s.server.rv + 1, crs := s.server.crs - {cr}), s.procs)
    case DeleteSecret(id) => State(s.server.(rv := s.server.rv + 1, secrets := s.server.secrets - {id}), s.procs)
    case _ =>
      var m := ProcMove(k, s, a);
      State(m.server, if m.next.Some? then s.procs[a.p := m.next.value] else s.procs - {a.p})
  }

  const EMPTY: State := State(Server(0, map[], {}, map[], {}, {}, {}, {}), map[])

  /** The state after a run, or none when some action was not enabled. */
  ghost function Run(k: Keys, s: State, acts: seq<Action>): Option<State> {
    if acts == [] then Some(s)
    else
      var before, a := Run(k, s, acts[..|acts| - 1]), acts[|acts| - 1];
      if before.Some? && Enabled(k, before.value, a) then Some(Step(k, before.value, a)) else None
  }
}
