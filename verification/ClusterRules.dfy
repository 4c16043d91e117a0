/**
 What single steps of the cluster do, stated on the stored objects: when a guarded update lands, what an
 injection request writes, which old versions can still be read, and that no process is ever stuck.
 */
module ClusterRules {
  import opened Base
  import opened Injection
  import opened Targets
  import opened Cluster
  import opened ClusterSafety

  // ---------- guarded updates ----------

  /** An update under the version that was read, with this content: it lands if and only if that version is stored. */
  ghost predicate LandsExactly(s: Server, s': Server, cr: string, copy: Cr, publicKey: string, ciphertext: Bytes) {
    if cr in s.crs && s.crs[cr].rv == copy.rv
    then
      && s'.rv == s.rv + 1 && s'.secrets == s.secrets
      && s'.crs == s.crs[cr := Cr(s.rv + 1, publicKey, ciphertext, copy.output)]
    else s' == s
  }

  /**
   Finalizer and status updates write back the specification that was read, a commit the new pair, an
   annotation update the data that was read; each if and only if the version that was read is stored.
   */
  lemma GuardedUpdates(k: Keys, s: State, a: Action)
    requires Enabled(k, s, a) && (a.BFinalizer? || a.BFinish? || a.RCommit? || a.RMark?)
    ensures var q, sv, sv' := s.procs[a.p], s.server, Step(k, s, a).server;
            && (a.BFinalizer? || a.BFinish? ==> LandsExactly(sv, sv', q.cr, q.copy, q.copy.publicKey, q.copy.ciphertext))
            && (a.RCommit? ==>
                  && LandsExactly(sv, sv', q.cr, q.copy, q.publicKey, q.ciphertext)
                  && Step(k, s, a).procs == if sv' == sv then s.procs - {a.p}
                                            else s.procs[a.p := RAnnotate(q.id, q.read, q.wrote)])
            && (a.RMark? ==>
                  && sv'.crs == sv.crs
                  && sv'.secrets == if q.id in sv.secrets && sv.secrets[q.id].rv == q.read.rv
                                    then sv.secrets[q.id := Obj(sv.rv + 1, q.read.data, q.read.marks + a.marks)]
                                    else sv.secrets)
    ensures !a.RCommit? ==> Step(k, s, a).procs == s.procs - {a.p}
  {
  }

  // ---------- injection requests ----------

  /** A secret names its resource and the first twelve characters of its public key. */
  lemma MarksNameTheKey(cr: string, publicKey: string)
    ensures var m := Marks(cr, publicKey);
            && m.Keys == {"genesis.io/bootstrap-name", "genesis.io/public-key-fingerprint"}
            && m["genesis.io/bootstrap-name"] == cr
            && var digits := m["genesis.io/public-key-fingerprint"];
               digits <= publicKey && |digits| <= 12 && (|digits| < 12 ==> digits == publicKey)
  {
  }

  /** What the request writes: POST what is missing, PUT what differs. */
  ghost predicate Writes(s: Server, s': Server, t: Target, key: Bytes, marks: map<string, string>, put: bool) {
    var id := SecretId(t.namespace, t.name);
    var writes := if put then id in s.secrets && !(s.secrets[id].data == map[t.key := key] && s.secrets[id].marks == marks)
                  else id !in s.secrets;
    && s'.crs == s.crs
    && s'.secrets == if writes then s.secrets[id := Obj(s.rv + 1, map[t.key := key], marks)] else s.secrets
  }

  /** A POST conflicts with a secret that exists and a PUT misses one that is gone. */
  predicate Conflicts(s: Server, t: Target, put: bool) {
    !put && SecretId(t.namespace, t.name) in s.secrets
  }

  predicate Misses(s: Server, t: Target, put: bool) {
    put && SecretId(t.namespace, t.name) !in s.secrets
  }

  /** The namespace of a bootstrap's target. */
  function NamespaceAt(o: Output, i: nat): string
    requires i <= |o.additional|
  {
    if i == 0 then o.secretNamespace else o.additional[i - 1]
  }

  /** A bootstrap pass injects target after target, each by POST and after a conflict by PUT, and gives up on a miss. */
  lemma BootstrapRequests(k: Keys, s: State, p: nat)
    requires Enabled(k, s, BSend(p))
    ensures var b, s' := s.procs[p], Step(k, s, BSend(p));
            b.next <= |b.copy.output.additional| &&
            var t := Target(b.copy.output.secretName, NamespaceAt(b.copy.output, b.next), b.copy.output.secretKey);
            && Writes(s.server, s'.server, t, b.key, Marks(b.cr, b.copy.publicKey), b.put)
            && s'.procs == if Misses(s.server, t, b.put) then s.procs - {p}
                           else s.procs[p :=
                             if Conflicts(s.server, t, b.put) then BInject(b.cr, b.copy, b.key, b.next, true)
                             else if b.next < |b.copy.output.additional|
                             then BInject(b.cr, b.copy, b.key, b.next + 1, false)
                             else BStatus(b.cr, b.copy)]
  {
    assert s.procs[p].next > 0 ==> TargetsFor(s.procs[p].copy.output)[s.procs[p].next].namespace
                                   == s.procs[p].copy.output.additional[s.procs[p].next - 1];
  }

  /** A rotation injects the old key into the primary secret in the same way, and then the new one. */
  lemma OldKeyRequests(k: Keys, s: State, p: nat)
    requires Enabled(k, s, RSendOld(p))
    ensures var r, s' := s.procs[p], Step(k, s, RSendOld(p));
            var t := Target(r.copy.output.secretName, r.copy.output.secretNamespace, r.copy.output.secretKey);
            && Writes(s.server, s'.server, t, r.key, Marks(r.cr, r.copy.publicKey), r.put)
            && s'.procs == if Misses(s.server, t, r.put) then s.procs - {p}
                           else s.procs[p :=
                             if Conflicts(s.server, t, r.put) then ROld(r.id, r.read, r.cr, r.copy, r.key, true)
                             else RReady(r.id, r.read, r.cr, r.copy)]
  {
  }

  lemma NewKeyRequests(k: Keys, s: State, p: nat)
    requires Enabled(k, s, RSendNew(p))
    ensures var r, s' := s.procs[p], Step(k, s, RSendNew(p));
            var t := Target(r.copy.output.secretName, r.copy.output.secretNamespace, r.copy.output.secretKey);
            && Writes(s.server, s'.server, t, r.key, Marks(r.cr, r.publicKey), r.put)
            && s'.procs == if Misses(s.server, t, r.put) then s.procs - {p}
                           else s.procs[p :=
                             if Conflicts(s.server, t, r.put)
                             then RNew(r.id, r.read, r.cr, r.copy, r.key, r.publicKey, r.ciphertext, true)
                             else RUpdate(r.id, r.read, r.cr, r.copy, r.key, r.publicKey, r.ciphertext, s'.server.rv)]
  {
  }

  /** A key counts as minted for a target only once a rotation's request with it was answered. */
  lemma OnlyNewKeysAreMinted(k: Keys, s: State, a: Action)
    requires Enabled(k, s, a)
    ensures Step(k, s, a).server.minted != s.server.minted ==>
              && a.RSendNew? && s.procs[a.p].RNew?
              && var r := s.procs[a.p];
                 var t := Target(r.copy.output.secretName, r.copy.output.secretNamespace, r.copy.output.secretKey);
                 && Step(k, s, a).server.minted == s.server.minted + {Minted(t, r.key)}
                 && !Misses(s.server, t, r.put) && !Conflicts(s.server, t, r.put)
  {
  }

  /** People apply and delete what they like; only a new key that has not been sent cannot be in their hands. */
  lemma OutsideEdits(k: Keys, s: State, a: Action)
    requires a.ApplyCr? || a.DeleteCr? || a.DeleteSecret?
    ensures Enabled(k, s, a) <==> match a
                                  case ApplyCr(_, _, ciphertext, _) =>
                                    k.decrypt(ciphertext).Some? ==> !Pending(s, k.decrypt(ciphertext).value)
                                  case DeleteCr(cr) => cr in s.server.crs
                                  case DeleteSecret(id) => id in s.server.secrets
    ensures Enabled(k, s, a) ==>
              var sv, sv' := s.server, Step(k, s, a).server;
              && Step(k, s, a).procs == s.procs && sv'.rv == sv.rv + 1
              && sv'.crs == (match a
                             case ApplyCr(cr, publicKey, ciphertext, output) =>
                               sv.crs[cr := Cr(sv.rv + 1, publicKey, ciphertext, output)]
                             case DeleteCr(cr) => sv.crs - {cr}
                             case DeleteSecret(_) => sv.crs)
              && sv'.secrets == if a.DeleteSecret? then sv.secrets - {a.id} else sv.secrets
  {
  }

  // ---------- reads ----------

  lemma {:induction false} SeenStays(k: Keys, s: State, acts: seq<Action>)
    requires Inv(k, s) && Run(k, s, acts).Some?
    ensures Inv(k, Run(k, s, acts).value)
    ensures s.server.crSeen <= Run(k, s, acts).value.server.crSeen
    ensures s.server.secretSeen <= Run(k, s, acts).value.server.secretSeen
  {
    if acts != [] {
      var m, a := Run(k, s, acts[..|acts| - 1]).value, acts[|acts| - 1];
      SeenStays(k, s, acts[..|acts| - 1]);
      StepKeepsInv(k, m, a);
      SeenGrows(k, m, a);
    }
  }

  lemma SeenGrows(k: Keys, s: State, a: Action)
    requires Enabled(k, s, a)
    ensures s.server.crSeen <= Step(k, s, a).server.crSeen && s.server.secretSeen <= Step(k, s, a).server.secretSeen
  {
  }

  /**
   A cache may be arbitrarily old: whatever was stored at some point of a run can be read by a new pass or
   rotation at every later point.
   */
  lemma AnyStoredVersionCanBeRead(k: Keys, before: seq<Action>, more: seq<Action>, p: nat, cr: string, id: SecretId)
    requires Run(k, EMPTY, before).Some?
    requires var s := Run(k, EMPTY, before).value; Run(k, s, more).Some? && p !in Run(k, s, more).value.procs
    ensures var s := Run(k, EMPTY, before).value;
            var later := Run(k, s, more).value;
            && (cr in s.server.crs ==> Enabled(k, later, BGet(p, cr, s.server.crs[cr])))
            && (id in s.server.secrets ==> Enabled(k, later, RGet(p, id, s.server.secrets[id])))
            && (cr in s.server.crs && id in s.server.secrets
                && s.server.crs[cr].output.secretName == id.name
                && s.server.crs[cr].output.secretNamespace == id.namespace
                ==> Enabled(k, Step(k, later, RGet(p, id, s.server.secrets[id])), RFind(p, cr, s.server.crs[cr])))
  {
    InvAlways(k, before);
    SeenStays(k, Run(k, EMPTY, before).value, more);
  }

  // ---------- progress ----------

  /** What the process does next can be done, unless it waits for something from outside of the cluster. */
  ghost predicate CanGoOn(k: Keys, s: State, p: nat)
    requires p in s.procs
  {
    match s.procs[p]
    case BRead(_, copy) =>
      Enabled(k, s, BFinalizer(p)) && (Enabled(k, s, BDecrypt(p)) <==> k.decrypt(copy.ciphertext).Some?)
    case BInject(_, _, _, _, _) => Enabled(k, s, BSend(p))
    case BStatus(_, _) => Enabled(k, s, BFinish(p))
    case RSecret(id, _) =>
      forall cr, copy :: (cr, copy) in s.server.crSeen ==>
        (Enabled(k, s, RFind(p, cr, copy))
         <==> copy.output.secretName == id.name && copy.output.secretNamespace == id.namespace)
    case RFound(_, _, _, copy) => Enabled(k, s, RDecrypt(p)) <==> k.decrypt(copy.ciphertext).Some?
    case ROld(_, _, _, _, _, _) => Enabled(k, s, RSendOld(p))
    case RReady(_, _, _, _) =>
      forall key, publicKey, ciphertext ::
        Enabled(k, s, RMint(p, key, publicKey, ciphertext)) <==>
          && k.publicKey(key) == Some(publicKey) && k.decrypt(ciphertext) == Some(key)
          && key !in s.server.known && !Pending(s, key)
    case RNew(_, _, _, _, _, _, _, _) => Enabled(k, s, RSendNew(p))
    case RUpdate(_, _, _, _, _, _, _, _) => Enabled(k, s, RCommit(p))
    case RAnnotate(_, _, _) => forall marks :: Enabled(k, s, RMark(p, marks))
  }

  lemma ProcessCanGoOn(k: Keys, s: State, p: nat)
    requires p in s.procs && ProcOk(k, s.server, s.procs[p])
    ensures CanGoOn(k, s, p)
  {
  }

  /**
   In every reachable state every process can stop, and it can go on unless it waits for an envelope that can
   be decrypted, a resource that manages the secret, or a new key.
   */
  lemma EveryProcessCanGoOn(k: Keys, acts: seq<Action>, p: nat)
    requires Run(k, EMPTY, acts).Some? && p in Run(k, EMPTY, acts).value.procs
    ensures var s := Run(k, EMPTY, acts).value;
            CanGoOn(k, s, p) && Enabled(k, s, Stop(p)) && Step(k, s, Stop(p)) == State(s.server, s.procs - {p})
  {
    InvAlways(k, acts);
    ProcessCanGoOn(k, Run(k, EMPTY, acts).value, p);
  }
}
