/** What holds in every reachable state of the cluster, whatever the interleaving. */
module ClusterSafety {
  import opened Base
  import opened Injection
  import opened Targets
  import opened Cluster

  // ---------- the stored objects ----------

  /** Versions identify stored resources, and the stored one is the newest ever seen. */
  ghost predicate CrsVersioned(s: Server) {
    && (forall n, c :: (n, c) in s.crSeen ==> c.rv <= s.rv)
    && (forall n :: n in s.crs ==> (n, s.crs[n]) in s.crSeen)
    && (forall n, c :: n in s.crs && (n, c) in s.crSeen ==>
          c.rv <= s.crs[n].rv && (c.rv == s.crs[n].rv ==> c == s.crs[n]))
  }

  ghost predicate SecretsVersioned(s: Server) {
    && (forall i, o :: (i, o) in s.secretSeen ==> o.rv <= s.rv)
    && (forall i :: i in s.secrets ==> (i, s.secrets[i]) in s.secretSeen)
    && (forall i, o :: i in s.secrets && (i, o) in s.secretSeen ==>
          o.rv <= s.secrets[i].rv && (o.rv == s.secrets[i].rv ==> o == s.secrets[i]))
  }

  /** The pair belongs together, or somebody applied it as it is. */
  ghost predicate MatchedOrApplied(k: Keys, s: Server, publicKey: string, ciphertext: Bytes) {
    Matched(k, publicKey, ciphertext) || (publicKey, ciphertext) in s.applied
  }

  ghost predicate AllMatched(k: Keys, s: Server) {
    forall n, c :: (n, c) in s.crSeen ==>
      && MatchedOrApplied(k, s, c.publicKey, c.ciphertext)
      && (k.decrypt(c.ciphertext).Some? ==> k.decrypt(c.ciphertext).value in s.known)
  }

  /** The target is the resource's secret, in its own namespace or in an additional one. */
  predicate Names(o: Output, t: Target) {
    t.name == o.secretName && t.key == o.secretKey && (t.namespace == o.secretNamespace || t.namespace in o.additional)
  }

  /** The value is the key of some stored version of a resource that names this target. */
  ghost predicate FromResource(k: Keys, s: Server, t: Target, v: Bytes) {
    exists n, c :: (n, c) in s.crSeen && k.decrypt(c.ciphertext) == Some(v) && Names(c.output, t)
  }

  ghost predicate Justified(k: Keys, s: Server, t: Target, v: Bytes) {
    (FromResource(k, s, t, v) || Minted(t, v) in s.minted) && v in s.known
  }

  /** Every key that any version of a secret ever held was put there for a reason. */
  ghost predicate AllJustified(k: Keys, s: Server) {
    forall i, o, d :: (i, o) in s.secretSeen && d in o.data ==>
      Justified(k, s, Target(i.name, i.namespace, d), o.data[d])
  }

  ghost predicate ServerOk(k: Keys, s: Server) {
    CrsVersioned(s) && SecretsVersioned(s) && AllMatched(k, s) && AllJustified(k, s)
  }

  /** What every step does to the stored objects: versions grow and nothing is forgotten. */
  ghost predicate Grows(s: Server, s': Server) {
    && s.rv <= s'.rv && s.crSeen <= s'.crSeen && s.secretSeen <= s'.secretSeen
    && s.minted <= s'.minted && s.known <= s'.known && s.applied <= s'.applied
    && (forall i :: i in s'.secrets ==>
          (i in s.secrets && s'.secrets[i] == s.secrets[i]) || s.rv < s'.secrets[i].rv)
  }

  lemma JustifiedStays(k: Keys, s: Server, s': Server, t: Target, v: Bytes)
    requires Justified(k, s, t, v) && s.crSeen <= s'.crSeen && s.minted <= s'.minted && s.known <= s'.known
    ensures Justified(k, s', t, v)
  {
    if FromResource(k, s, t, v) {
      var n, c :| (n, c) in s.crSeen && k.decrypt(c.ciphertext) == Some(v) && Names(c.output, t);
      assert (n, c) in s'.crSeen;
    }
  }

  lemma SameSecretsStayJustified(k: Keys, s: Server, s': Server)
    requires AllJustified(k, s) && s'.secretSeen == s.secretSeen
    requires s.crSeen <= s'.crSeen && s.minted <= s'.minted && s.known <= s'.known
    ensures AllJustified(k, s')
  {
    forall i, o, d | (i, o) in s'.secretSeen && d in o.data
      ensures Justified(k, s', Target(i.name, i.namespace, d), o.data[d])
    {
      JustifiedStays(k, s, s', Target(i.name, i.namespace, d), o.data[d]);
    }
  }

  lemma StoreCrOk(k: Keys, s: Server, cr: string, publicKey: string, ciphertext: Bytes, output: Output)
    requires ServerOk(k, s) && MatchedOrApplied(k, s, publicKey, ciphertext)
    ensures ServerOk(k, StoreCr(k, s, cr, publicKey, ciphertext, output))
    ensures Grows(s, StoreCr(k, s, cr, publicKey, ciphertext, output))
  {
    SameSecretsStayJustified(k, s, StoreCr(k, s, cr, publicKey, ciphertext, output));
  }

  lemma StoreSecretOk(k: Keys, s: Server, id: SecretId, data: map<string, Bytes>, marks: map<string, string>)
    requires ServerOk(k, s)
    requires forall d :: d in data ==> Justified(k, s, Target(id.name, id.namespace, d), data[d])
    ensures ServerOk(k, StoreSecret(s, id, data, marks))
    ensures Grows(s, StoreSecret(s, id, data, marks))
  {
    var s' := StoreSecret(s, id, data, marks);
    forall i, o, d | (i, o) in s'.secretSeen && d in o.data
      ensures Justified(k, s', Target(i.name, i.namespace, d), o.data[d])
    {
      JustifiedStays(k, s, s', Target(i.name, i.namespace, d), o.data[d]);
    }
  }

  lemma StoreKeyOk(k: Keys, s: Server, t: Target, key: Bytes, marks: map<string, string>)
    requires ServerOk(k, s) && Justified(k, s, t, key)
    ensures ServerOk(k, StoreSecret(s, t.Id(), map[t.key := key], marks))
    ensures Grows(s, StoreSecret(s, t.Id(), map[t.key := key], marks))
  {
    assert Target(t.Id().name, t.Id().namespace, t.key) == t;
    StoreSecretOk(k, s, t.Id(), map[t.key := key], marks);
  }

  lemma SendOk(k: Keys, s: Server, t: Target, key: Bytes, marks: map<string, string>, put: bool)
    requires ServerOk(k, s) && Justified(k, s, t, key)
    ensures ServerOk(k, Send(s, t, key, marks, put).0)
    ensures Grows(s, Send(s, t, key, marks, put).0)
  {
    StoreKeyOk(k, s, t, key, marks);
  }

  lemma CountOk(k: Keys, s: Server, t: Target, key: Bytes)
    requires ServerOk(k, s)
    ensures ServerOk(k, Count(s, t, key)) && Grows(s, Count(s, t, key)) && Justified(k, Count(s, t, key), t, key)
  {
    SameSecretsStayJustified(k, s, Count(s, t, key));
  }

  lemma DeleteOk(k: Keys, s: Server, crs: set<string>, ids: set<SecretId>)
    requires ServerOk(k, s)
    ensures var s' := s.(rv := s.rv + 1, crs := s.crs - crs, secrets := s.secrets - ids);
            ServerOk(k, s') && Grows(s, s')
  {
    SameSecretsStayJustified(k, s, s.(rv := s.rv + 1, crs := s.crs - crs, secrets := s.secrets - ids));
  }

  lemma RefreshOk(k: Keys, s: Server, cr: string, copy: Cr)
    requires ServerOk(k, s) && (cr, copy) in s.crSeen
    ensures ServerOk(k, Refresh(k, s, cr, copy)) && Grows(s, Refresh(k, s, cr, copy))
    ensures Refresh(k, s, cr, copy).known == s.known
  {
    StoreCrOk(k, s, cr, copy.publicKey, copy.ciphertext, copy.output);
  }

  // ---------- the processes ----------

  /** The rotation's own write is newer than what it read, and nothing older than it is stored. */
  ghost predicate Overtaken(s: Server, id: SecretId, read: Obj, wrote: nat) {
    read.rv < wrote <= s.rv && (id in s.secrets ==> wrote <= s.secrets[id].rv)
  }

  ghost predicate ReadBoth(s: Server, id: SecretId, read: Obj, cr: string, copy: Cr) {
    (id, read) in s.secretSeen && (cr, copy) in s.crSeen && Primary(copy.output).Id() == id
  }

  ghost predicate ProcOk(k: Keys, s: Server, proc: Proc) {
    match proc
    case BRead(cr, copy) => (cr, copy) in s.crSeen
    case BInject(cr, copy, key, next, _) =>
      (cr, copy) in s.crSeen && k.decrypt(copy.ciphertext) == Some(key) && next < |TargetsFor(copy.output)|
    case BStatus(cr, copy) => (cr, copy) in s.crSeen
    case RSecret(id, read) => (id, read) in s.secretSeen
    case RFound(id, read, cr, copy) => ReadBoth(s, id, read, cr, copy)
    case ROld(id, read, cr, copy, key, _) =>
      ReadBoth(s, id, read, cr, copy) && k.decrypt(copy.ciphertext) == Some(key)
    case RReady(id, read, cr, copy) => ReadBoth(s, id, read, cr, copy)
    case RNew(id, read, cr, copy, key, publicKey, ciphertext, _) =>
      && ReadBoth(s, id, read, cr, copy) && key !in s.known
      && k.decrypt(ciphertext) == Some(key) && k.publicKey(key) == Some(publicKey)
    case RUpdate(id, read, cr, copy, key, publicKey, ciphertext, wrote) =>
      && ReadBoth(s, id, read, cr, copy) && key in s.known
      && k.decrypt(ciphertext) == Some(key) && k.publicKey(key) == Some(publicKey)
      && Overtaken(s, id, read, wrote)
    case RAnnotate(id, read, wrote) => (id, read) in s.secretSeen && Overtaken(s, id, read, wrote)
  }

  /** No two rotations hold the same key that has not been sent yet. */
  ghost predicate PendingApart(s: State) {
    forall p, q :: p in s.procs && q in s.procs && p != q && s.procs[p].RNew? && s.procs[q].RNew? ==>
      s.procs[p].key != s.procs[q].key
  }

  ghost predicate ProcsOk(k: Keys, s: State) {
    forall p :: p in s.procs ==> ProcOk(k, s.server, s.procs[p])
  }

  ghost predicate Inv(k: Keys, s: State) {
    ServerOk(k, s.server) && ProcsOk(k, s) && PendingApart(s)
  }

  lemma BystanderOk(k: Keys, s: Server, s': Server, proc: Proc)
    requires ProcOk(k, s, proc) && Grows(s, s') && (proc.RNew? ==> proc.key !in s'.known)
    ensures ProcOk(k, s', proc)
  {
  }

  /** What a move keeps: the server, and the state of the process that moved. */
  ghost predicate GoodMove(k: Keys, s: Server, m: Move) {
    ServerOk(k, m.server) && Grows(s, m.server) && (m.next.Some? ==> ProcOk(k, m.server, m.next.value))
  }

  lemma SendNextOk(k: Keys, s: Server, b: Proc)
    requires ServerOk(k, s) && b.BInject? && ProcOk(k, s, b)
    ensures GoodMove(k, s, SendNext(s, b)) && SendNext(s, b).server.known == s.known
  {
    BuiltIsWanted(b.copy.output, b.next);
    SendOk(k, s, TargetsFor(b.copy.output)[b.next], b.key, Marks(b.cr, b.copy.publicKey), b.put);
  }

  lemma SendOldOk(k: Keys, s: Server, r: Proc)
    requires ServerOk(k, s) && r.ROld? && ProcOk(k, s, r)
    ensures GoodMove(k, s, SendOld(s, r)) && SendOld(s, r).server.known == s.known
  {
    SendOk(k, s, Primary(r.copy.output), r.key, Marks(r.cr, r.copy.publicKey), r.put);
  }

  lemma UnknownIsNotStored(k: Keys, s: Server, t: Target, key: Bytes)
    requires ServerOk(k, s) && key !in s.known
    ensures t.Id() in s.secrets ==> s.secrets[t.Id()].data != map[t.key := key]
  {
    if t.Id() in s.secrets && t.key in s.secrets[t.Id()].data {
      assert Justified(k, s, Target(t.Id().name, t.Id().namespace, t.key), s.secrets[t.Id()].data[t.key]);
    }
    assert map[t.key := key][t.key] == key;
  }

  /** The new key is nowhere yet, so sending it is never a no-op: it advances the secret's version. */
  lemma SendNewOk(k: Keys, s: Server, r: Proc)
    requires ServerOk(k, s) && r.RNew? && ProcOk(k, s, r)
    ensures GoodMove(k, s, SendNew(s, r)) && SendNew(s, r).server.known <= s.known + {r.key}
    ensures SendNew(s, r).next.Some? && SendNew(s, r).next.value.RUpdate? ==>
              SendNew(s, r).next.value.wrote == s.rv + 1
  {
    var t, marks := Primary(r.copy.output), Marks(r.cr, r.publicKey);
    CountOk(k, s, t, r.key);
    SendOk(k, Count(s, t, r.key), t, r.key, marks, r.put);
    UnknownIsNotStored(k, s, t, r.key);
  }

  lemma CommitOk(k: Keys, s: Server, r: Proc)
    requires ServerOk(k, s) && r.RUpdate? && ProcOk(k, s, r)
    ensures GoodMove(k, s, Commit(k, s, r)) && Commit(k, s, r).server.known == s.known
  {
    StoreCrOk(k, s, r.cr, r.publicKey, r.ciphertext, r.copy.output);
  }

  lemma ProcMoveOk(k: Keys, s: State, a: Action)
    requires Inv(k, s) && Enabled(k, s, a) && !a.ApplyCr? && !a.DeleteCr? && !a.DeleteSecret?
    ensures GoodMove(k, s.server, ProcMove(k, s, a))
    ensures a.RSendNew? || ProcMove(k, s, a).server.known == s.server.known
    ensures a.RSendNew? ==> ProcMove(k, s, a).server.known <= s.server.known + {s.procs[a.p].key}
  {
    var sv := s.server;
    match a {
      case BFinalizer(p) => RefreshOk(k, sv, s.procs[p].cr, s.procs[p].copy);
      case BFinish(p) => RefreshOk(k, sv, s.procs[p].cr, s.procs[p].copy);
      case BSend(p) => SendNextOk(k, sv, s.procs[p]);
      case RSendOld(p) => SendOldOk(k, sv, s.procs[p]);
      case RSendNew(p) => SendNewOk(k, sv, s.procs[p]);
      case RCommit(p) => CommitOk(k, sv, s.procs[p]);
      case RMark(p, marks) => assert ProcOk(k, sv, s.procs[p]);
      case BDecrypt(p) => assert ProcOk(k, sv, s.procs[p]);
      case RFind(p, cr, copy) => assert ProcOk(k, sv, s.procs[p]);
      case RDecrypt(p) => assert ProcOk(k, sv, s.procs[p]);
      case RMint(p, _, _, _) => assert ProcOk(k, sv, s.procs[p]);
      case _ =>
    }
  }

  /** Only minting makes a key pending, and it takes one that nobody else holds. */
  lemma MoveKeepsApart(k: Keys, s: State, a: Action)
    requires PendingApart(s) && Enabled(k, s, a) && !a.ApplyCr? && !a.DeleteCr? && !a.DeleteSecret?
    ensures PendingApart(Step(k, s, a))
  {
  }

  lemma MoveKeepsProcs(k: Keys, s: State, a: Action)
    requires Inv(k, s) && Enabled(k, s, a) && !a.ApplyCr? && !a.DeleteCr? && !a.DeleteSecret?
    requires GoodMove(k, s.server, ProcMove(k, s, a))
    requires ProcMove(k, s, a).server.known <= s.server.known + if a.RSendNew? then {s.procs[a.p].key} else {}
    ensures ProcsOk(k, Step(k, s, a))
  {
    var m := ProcMove(k, s, a);
    MoveShape(k, s, a);
    MovedProcsOk(k, s, a.p, m, if a.RSendNew? then {s.procs[a.p].key} else {});
  }

  lemma MoveShape(k: Keys, s: State, a: Action)
    requires Enabled(k, s, a) && !a.ApplyCr? && !a.DeleteCr? && !a.DeleteSecret?
    ensures Step(k, s, a) == AfterMove(s, a.p, ProcMove(k, s, a))
    ensures a.RSendNew? ==> a.p in s.procs && s.procs[a.p].RNew?
  {
  }

  function AfterMove(s: State, p: nat, m: Move): State {
    State(m.server, if m.next.Some? then s.procs[p := m.next.value] else s.procs - {p})
  }

  /** Everybody but the mover only sees the server grow, by no key that they hold pending. */
  lemma MovedProcsOk(k: Keys, s: State, p: nat, m: Move, learnt: set<Bytes>)
    requires ProcsOk(k, s) && PendingApart(s) && GoodMove(k, s.server, m)
    requires m.server.known <= s.server.known + learnt
    requires learnt == {} || (p in s.procs && s.procs[p].RNew? && learnt == {s.procs[p].key})
    ensures ProcsOk(k, AfterMove(s, p, m))
  {
    var s' := AfterMove(s, p, m);
    forall q | q in s'.procs ensures ProcOk(k, s'.server, s'.procs[q]) {
      if q != p {
        BystanderOk(k, s.server, s'.server, s.procs[q]);
      }
    }
  }

  lemma MoveKeepsInv(k: Keys, s: State, a: Action)
    requires Inv(k, s) && Enabled(k, s, a) && !a.ApplyCr? && !a.DeleteCr? && !a.DeleteSecret?
    ensures Inv(k, Step(k, s, a))
  {
    ProcMoveOk(k, s, a);
    MoveKeepsProcs(k, s, a);
    MoveKeepsApart(k, s, a);
  }

  /** Where nobody moves and no pending key becomes known, every process stays right. */
  lemma ProcsStayOk(k: Keys, s: State, s': State)
    requires ProcsOk(k, s) && s'.procs == s.procs && Grows(s.server, s'.server)
    requires forall q :: q in s.procs && s.procs[q].RNew? ==> s.procs[q].key !in s'.server.known
    ensures ProcsOk(k, s')
  {
    forall q | q in s'.procs ensures ProcOk(k, s'.server, s'.procs[q]) {
      BystanderOk(k, s.server, s'.server, s.procs[q]);
    }
  }

  lemma ApplyKeepsInv(k: Keys, s: State, a: Action)
    requires Inv(k, s) && Enabled(k, s, a) && a.ApplyCr?
    ensures Inv(k, Step(k, s, a))
  {
    var sv := s.server.(applied := s.server.applied + {(a.publicKey, a.ciphertext)});
    SameSecretsStayJustified(k, s.server, sv);
    StoreCrOk(k, sv, a.cr, a.publicKey, a.ciphertext, a.output);
    forall q | q in s.procs && s.procs[q].RNew? ensures s.procs[q].key !in Step(k, s, a).server.known {
      assert Pending(s, s.procs[q].key) && ProcOk(k, s.server, s.procs[q]);
    }
    ProcsStayOk(k, s, Step(k, s, a));
  }

  lemma DeleteKeepsInv(k: Keys, s: State, a: Action)
    requires Inv(k, s) && Enabled(k, s, a) && (a.DeleteCr? || a.DeleteSecret?)
    ensures Inv(k, Step(k, s, a))
  {
    if a.DeleteCr? {
      assert s.server.secrets - {} == s.server.secrets;
      DeleteOk(k, s.server, {a.cr}, {});
    } else {
      assert s.server.crs - {} == s.server.crs;
      DeleteOk(k, s.server, {}, {a.id});
    }
    forall q | q in s.procs && s.procs[q].RNew? ensures s.procs[q].key !in Step(k, s, a).server.known {
      assert ProcOk(k, s.server, s.procs[q]);
    }
    ProcsStayOk(k, s, Step(k, s, a));
  }

  lemma StepKeepsInv(k: Keys, s: State, a: Action)
    requires Inv(k, s) && Enabled(k, s, a)
    ensures Inv(k, Step(k, s, a))
  {
    if a.ApplyCr? {
      ApplyKeepsInv(k, s, a);
    } else if a.DeleteCr? || a.DeleteSecret? {
      DeleteKeepsInv(k, s, a);
    } else {
      MoveKeepsInv(k, s, a);
    }
  }

  lemma {:induction false} InvAlways(k: Keys, acts: seq<Action>)
    requires Run(k, EMPTY, acts).Some?
    ensures Inv(k, Run(k, EMPTY, acts).value)
  {
    if acts != [] {
      InvAlways(k, acts[..|acts| - 1]);
      StepKeepsInv(k, Run(k, EMPTY, acts[..|acts| - 1]).value, acts[|acts| - 1]);
    }
  }

  // ---------- what holds in every reachable state ----------

  ghost predicate AppliedIn(acts: seq<Action>, publicKey: string, ciphertext: Bytes) {
    exists i :: 0 <= i < |acts| && acts[i].ApplyCr? && acts[i].publicKey == publicKey && acts[i].ciphertext == ciphertext
  }

  lemma StepApplies(k: Keys, s: State, a: Action)
    requires Enabled(k, s, a)
    ensures Step(k, s, a).server.applied
            == s.server.applied + if a.ApplyCr? then {(a.publicKey, a.ciphertext)} else {}
  {
  }

  lemma {:induction false} AppliedByAnAction(k: Keys, acts: seq<Action>, publicKey: string, ciphertext: Bytes)
    requires Run(k, EMPTY, acts).Some? && (publicKey, ciphertext) in Run(k, EMPTY, acts).value.server.applied
    ensures AppliedIn(acts, publicKey, ciphertext)
  {
    var init, a := acts[..|acts| - 1], acts[|acts| - 1];
    StepApplies(k, Run(k, EMPTY, init).value, a);
    if (publicKey, ciphertext) in Run(k, EMPTY, init).value.server.applied {
      AppliedByAnAction(k, init, publicKey, ciphertext);
      var i :| 0 <= i < |init| && init[i].ApplyCr? && init[i].publicKey == publicKey && init[i].ciphertext == ciphertext;
      assert acts[i] == init[i];
    } else {
      assert acts[|acts| - 1] == a;
    }
  }

  /**
   Public key and ciphertext of a resource belong together, in every version ever stored, unless somebody
   applied this very pair: the controllers never mix two pairs.
   */
  lemma KeyPairsNeverTorn(k: Keys, acts: seq<Action>, n: string, c: Cr)
    requires Run(k, EMPTY, acts).Some? && (n, c) in Run(k, EMPTY, acts).value.server.crSeen
    ensures Matched(k, c.publicKey, c.ciphertext) || AppliedIn(acts, c.publicKey, c.ciphertext)
  {
    InvAlways(k, acts);
    var sv := Run(k, EMPTY, acts).value.server;
    assert MatchedOrApplied(k, sv, c.publicKey, c.ciphertext);
    if !Matched(k, c.publicKey, c.ciphertext) { AppliedByAnAction(k, acts, c.publicKey, c.ciphertext); }
  }

  /**
   Every key in every secret comes from some stored version of a resource that names this target,
   or was generated by a rotation that had injected it there.
   */
  lemma EveryKeyIsAccountedFor(k: Keys, acts: seq<Action>, t: Target)
    requires Run(k, EMPTY, acts).Some?
    requires var sv := Run(k, EMPTY, acts).value.server;
             t.Id() in sv.secrets && t.key in sv.secrets[t.Id()].data
    ensures var sv := Run(k, EMPTY, acts).value.server;
            var v := sv.secrets[t.Id()].data[t.key];
            FromResource(k, sv, t, v) || Minted(t, v) in sv.minted
  {
    InvAlways(k, acts);
    var sv := Run(k, EMPTY, acts).value.server;
    var o := sv.secrets[t.Id()];
    assert (t.Id(), o) in sv.secretSeen && t.key in o.data;
    assert Justified(k, sv, Target(t.Id().name, t.Id().namespace, t.key), o.data[t.key]);
  }

  /**
   The annotation update that ends a rotation carries the object read before it, old key included,
   and is refused every time: the rotation's own write is newer.  So it never restores the old key,
   and it never adds an annotation either.
   */
  lemma AnnotationsNeverLand(k: Keys, acts: seq<Action>, p: nat, marks: map<string, string>)
    requires Run(k, EMPTY, acts).Some? && Enabled(k, Run(k, EMPTY, acts).value, RMark(p, marks))
    ensures var s := Run(k, EMPTY, acts).value;
            && (s.procs[p].id in s.server.secrets ==> s.procs[p].read.rv < s.server.secrets[s.procs[p].id].rv)
            && Step(k, s, RMark(p, marks)).server == s.server
  {
    InvAlways(k, acts);
    var s := Run(k, EMPTY, acts).value;
    assert ProcOk(k, s.server, s.procs[p]);
  }

  /** A rotation's commit either changes nothing or replaces exactly the resource it had read. */
  lemma CommitReplacesWhatItRead(k: Keys, acts: seq<Action>, p: nat)
    requires Run(k, EMPTY, acts).Some? && Enabled(k, Run(k, EMPTY, acts).value, RCommit(p))
    ensures var s := Run(k, EMPTY, acts).value;
            var r, sv, sv' := s.procs[p], s.server, Step(k, s, RCommit(p)).server;
            || sv' == sv
            || (&& r.cr in sv.crs && sv.crs[r.cr] == r.copy
                && sv'.crs == sv.crs[r.cr := Cr(sv'.rv, r.publicKey, r.ciphertext, r.copy.output)]
                && sv'.secrets == sv.secrets)
  {
    InvAlways(k, acts);
    var s := Run(k, EMPTY, acts).value;
    assert ProcOk(k, s.server, s.procs[p]);
  }

  /** Resource `n` is there or not as before, and for the same key and targets. */
  ghost predicate SameResource(s: Server, s': Server, n: string) {
    && (n in s'.crs <==> n in s.crs)
    && (n in s.crs ==> s'.crs[n].rv >= s.crs[n].rv && s'.crs[n] == s.crs[n].(rv := s'.crs[n].rv))
  }

  lemma RefreshKeepsResource(k: Keys, s: Server, cr: string, copy: Cr, n: string)
    requires ServerOk(k, s) && (cr, copy) in s.crSeen
    ensures SameResource(s, Refresh(k, s, cr, copy), n)
  {
  }

  lemma MoverKeepsResources(k: Keys, s: State, a: Action)
    requires Enabled(k, s, a) && !a.ApplyCr? && !a.DeleteCr? && !a.DeleteSecret?
    requires !a.BFinalizer? && !a.BFinish? && !a.RCommit?
    ensures ProcMove(k, s, a).server.crs == s.server.crs
  {
  }

  lemma OtherStepsKeepResource(k: Keys, s: State, a: Action, n: string)
    requires Inv(k, s) && Enabled(k, s, a) && !a.RCommit? && !a.ApplyCr? && a != DeleteCr(n)
    ensures SameResource(s.server, Step(k, s, a).server, n)
  {
    if a.BFinalizer? || a.BFinish? {
      assert ProcOk(k, s.server, s.procs[a.p]);
      RefreshKeepsResource(k, s.server, s.procs[a.p].cr, s.procs[a.p].copy, n);
    } else if !a.DeleteCr? && !a.DeleteSecret? {
      MoverKeepsResources(k, s, a);
    }
  }

  /** Only a rotation's commit or an outside edit changes an envelope: status writes roll nothing back. */
  lemma OnlyCommitsChangeEnvelopes(k: Keys, acts: seq<Action>, a: Action, n: string)
    requires Run(k, EMPTY, acts).Some? && Enabled(k, Run(k, EMPTY, acts).value, a)
    requires n in Run(k, EMPTY, acts).value.server.crs
    requires !a.RCommit? && !a.ApplyCr? && a != DeleteCr(n)
    ensures var s := Run(k, EMPTY, acts).value;
            var c := s.server.crs[n];
            && n in Step(k, s, a).server.crs
            && Step(k, s, a).server.crs[n] == c.(rv := Step(k, s, a).server.crs[n].rv)
  {
    InvAlways(k, acts);
    OtherStepsKeepResource(k, Run(k, EMPTY, acts).value, a, n);
  }
}
