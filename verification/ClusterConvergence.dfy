/**
 What undisturbed passes achieve: one bootstrap pass on the current resource heals every target,
 whatever state crashes and races have left behind, and a second one changes no secret.
 */
module ClusterConvergence {
  import opened Base
  import opened Injection
  import opened Targets
  import opened Cluster
  import opened ClusterSafety

  /** The secret of this target is exactly what an injection of this key writes. */
  predicate Holds(s: Server, t: Target, key: Bytes, marks: map<string, string>) {
    t.Id() in s.secrets && s.secrets[t.Id()].data == map[t.key := key] && s.secrets[t.Id()].marks == marks
  }

  predicate HasKey(s: Server, id: SecretId, name: string, key: Bytes) {
    id in s.secrets && name in s.secrets[id].data && s.secrets[id].data[name] == key
  }

  /** The secret stands like that in the resource's own namespace and in every additional one. */
  ghost predicate HoldAll(s: Server, o: Output, key: Bytes, marks: map<string, string>) {
    forall ns :: ns == o.secretNamespace || ns in o.additional ==>
      Holds(s, Target(o.secretName, ns, o.secretKey), key, marks)
  }

  lemma AllHold(s: Server, o: Output, key: Bytes, marks: map<string, string>)
    ensures (forall j :: 0 <= j < |TargetsFor(o)| ==> Holds(s, TargetsFor(o)[j], key, marks)) <==> HoldAll(s, o, key, marks)
  {
    if HoldAll(s, o, key, marks) {
      forall j | 0 <= j < |TargetsFor(o)| ensures Holds(s, TargetsFor(o)[j], key, marks) {
        BuiltIsWanted(o, j);
      }
    }
    if forall j :: 0 <= j < |TargetsFor(o)| ==> Holds(s, TargetsFor(o)[j], key, marks) {
      forall ns | ns == o.secretNamespace || ns in o.additional
        ensures Holds(s, Target(o.secretName, ns, o.secretKey), key, marks)
      {
        var j := WantedIsBuilt(o, ns);
      }
    }
  }

  /** Process `p` is injecting, the secret it is about to PUT exists, and the earlier targets are done. */
  ghost predicate Injecting(s: State, p: nat, cr: string, copy: Cr, key: Bytes) {
    && p in s.procs && s.procs[p].BInject?
    && s.procs[p].cr == cr && s.procs[p].copy == copy && s.procs[p].key == key
    && var ts := TargetsFor(copy.output);
    && s.procs[p].next < |ts|
    && (s.procs[p].put ==> ts[s.procs[p].next].Id() in s.server.secrets)
    && forall j :: 0 <= j < s.procs[p].next ==> Holds(s.server, ts[j], key, Marks(cr, copy.publicKey))
  }

  /** Lets `p` alone send its requests until it has served all its targets. */
  ghost function Drive(k: Keys, s: State, p: nat, cr: string, copy: Cr, key: Bytes): State
    requires Injecting(s, p, cr, copy, key)
    decreases |TargetsFor(copy.output)| - s.procs[p].next, !s.procs[p].put
  {
    SendKeepsInjecting(k, s, p, cr, copy, key);
    var s' := Step(k, s, BSend(p));
    if s'.procs[p].BInject? then Drive(k, s', p, cr, copy, key) else s'
  }

  lemma SameKeyTargets(o: Output, i: nat, j: nat)
    requires i < |TargetsFor(o)| && j < |TargetsFor(o)|
    ensures TargetsFor(o)[i].Id() == TargetsFor(o)[j].Id() ==> TargetsFor(o)[i] == TargetsFor(o)[j]
  {
  }

  lemma SendKeepsInjecting(k: Keys, s: State, p: nat, cr: string, copy: Cr, key: Bytes)
    requires Injecting(s, p, cr, copy, key)
    ensures Enabled(k, s, BSend(p))
    ensures var s' := Step(k, s, BSend(p));
            var ts, marks := TargetsFor(copy.output), Marks(cr, copy.publicKey);
            && p in s'.procs && s'.procs - {p} == s.procs - {p} && s'.server.crs == s.server.crs
            && (s'.procs[p].BInject? ==>
                  && Injecting(s', p, cr, copy, key)
                  && (s'.procs[p].next == s.procs[p].next + 1
                      || (s'.procs[p].next == s.procs[p].next && !s.procs[p].put && s'.procs[p].put)))
            && (!s'.procs[p].BInject? ==>
                  && s'.procs[p] == BStatus(cr, copy)
                  && forall j :: 0 <= j < |ts| ==> Holds(s'.server, ts[j], key, marks))
            && (Holds(s.server, ts[s.procs[p].next], key, marks) ==> s'.server == s.server)
            && (forall i :: i in s.server.secrets && i != ts[s.procs[p].next].Id() ==>
                  i in s'.server.secrets && s'.server.secrets[i] == s.server.secrets[i])
  {
    var ts, next := TargetsFor(copy.output), s.procs[p].next;
    var s' := Step(k, s, BSend(p));
    forall j | && 0 <= j <= next
               && (j < next || Send(s.server, ts[next], key, Marks(cr, copy.publicKey), s.procs[p].put).1.Done?)
      ensures Holds(s'.server, ts[j], key, Marks(cr, copy.publicKey))
    {
      SameKeyTargets(copy.output, j, next);
    }
  }

  lemma {:induction false} DriveServesAll(k: Keys, s: State, p: nat, cr: string, copy: Cr, key: Bytes)
    requires Injecting(s, p, cr, copy, key)
    ensures var s' := Drive(k, s, p, cr, copy, key);
            var ts, marks := TargetsFor(copy.output), Marks(cr, copy.publicKey);
            && p in s'.procs && s'.procs[p] == BStatus(cr, copy) && s'.procs - {p} == s.procs - {p}
            && s'.server.crs == s.server.crs
            && (forall j :: 0 <= j < |ts| ==> Holds(s'.server, ts[j], key, marks))
            && ((forall j :: 0 <= j < |ts| ==> Holds(s.server, ts[j], key, marks)) ==> s'.server == s.server)
    decreases |TargetsFor(copy.output)| - s.procs[p].next, !s.procs[p].put
  {
    SendKeepsInjecting(k, s, p, cr, copy, key);
    var s1 := Step(k, s, BSend(p));
    if s1.procs[p].BInject? {
      DriveServesAll(k, s1, p, cr, copy, key);
    }
  }

  // ---------- a whole bootstrap pass ----------

  /** Process `p` reads the current resource, injects all targets and updates the status, undisturbed. */
  ghost function BootstrapPass(k: Keys, s: State, p: nat, cr: string): State
    requires Inv(k, s) && p !in s.procs && cr in s.server.crs && k.decrypt(s.server.crs[cr].ciphertext).Some?
  {
    var copy := s.server.crs[cr];
    assert (cr, copy) in s.server.crSeen;
    var s1 := Step(k, s, BGet(p, cr, copy));
    var s2 := Step(k, s1, BDecrypt(p));
    var s3 := Drive(k, s2, p, cr, copy, k.decrypt(copy.ciphertext).value);
    DriveServesAll(k, s2, p, cr, copy, k.decrypt(copy.ciphertext).value);
    Step(k, s3, BFinish(p))
  }

  lemma ReadAndDecrypted(k: Keys, s: State, p: nat, cr: string, copy: Cr)
    requires p !in s.procs && (cr, copy) in s.server.crSeen && k.decrypt(copy.ciphertext).Some?
    ensures Enabled(k, s, BGet(p, cr, copy)) && Enabled(k, Step(k, s, BGet(p, cr, copy)), BDecrypt(p))
    ensures var key := k.decrypt(copy.ciphertext).value;
            var s2 := State(s.server, s.procs[p := BInject(cr, copy, key, 0, false)]);
            Step(k, Step(k, s, BGet(p, cr, copy)), BDecrypt(p)) == s2 && Injecting(s2, p, cr, copy, key)
  {
    var s1 := Step(k, s, BGet(p, cr, copy));
    assert s1.procs == s.procs[p := BRead(cr, copy)];
    assert Step(k, s1, BDecrypt(p)).procs == s.procs[p := BInject(cr, copy, k.decrypt(copy.ciphertext).value, 0, false)];
  }

  lemma FinishChangesNoSecret(k: Keys, s: State, p: nat)
    requires p in s.procs && s.procs[p].BStatus?
    ensures var s' := Step(k, s, BFinish(p));
            && s'.server.secrets == s.server.secrets && s'.procs == s.procs - {p}
            && s'.server.crs == Refresh(k, s.server, s.procs[p].cr, s.procs[p].copy).crs
  {
  }

  /**
   Convergence.  From every reachable state, including those left by a rotation that injected its
   key and then failed, one undisturbed pass makes every target hold the key in the current
   resource, and keeps the resource's specification.
   */
  lemma OnePassHeals(k: Keys, s: State, p: nat, cr: string)
    requires Inv(k, s) && p !in s.procs && cr in s.server.crs && k.decrypt(s.server.crs[cr].ciphertext).Some?
    ensures var s' := BootstrapPass(k, s, p, cr);
            && cr in s'.server.crs && s'.procs == s.procs &&
            var c, c' := s.server.crs[cr], s'.server.crs[cr];
            && s'.server.crs == s.server.crs[cr := c'] && c' == c.(rv := c'.rv)
            && HoldAll(s'.server, c.output, k.decrypt(c.ciphertext).value, Marks(cr, c.publicKey))
  {
    var copy := s.server.crs[cr];
    assert (cr, copy) in s.server.crSeen;
    var key := k.decrypt(copy.ciphertext).value;
    ReadAndDecrypted(k, s, p, cr, copy);
    var s2 := State(s.server, s.procs[p := BInject(cr, copy, key, 0, false)]);
    DriveServesAll(k, s2, p, cr, copy, key);
    var s3 := Drive(k, s2, p, cr, copy, key);
    assert s3.procs - {p} == s2.procs - {p} == s.procs;
    FinishChangesNoSecret(k, s3, p);
    AllHold(s3.server, copy.output, key, Marks(cr, copy.publicKey));
  }

  lemma PassOverHealthyTargets(k: Keys, s: State, p: nat, cr: string)
    requires Inv(k, s) && p !in s.procs && cr in s.server.crs && k.decrypt(s.server.crs[cr].ciphertext).Some?
    requires var c := s.server.crs[cr];
             HoldAll(s.server, c.output, k.decrypt(c.ciphertext).value, Marks(cr, c.publicKey))
    ensures BootstrapPass(k, s, p, cr).server.secrets == s.server.secrets
  {
    var copy := s.server.crs[cr];
    AllHold(s.server, copy.output, k.decrypt(copy.ciphertext).value, Marks(cr, copy.publicKey));
    assert (cr, copy) in s.server.crSeen;
    ReadAndDecrypted(k, s, p, cr, copy);
    var s2 := State(s.server, s.procs[p := BInject(cr, copy, k.decrypt(copy.ciphertext).value, 0, false)]);
    DriveServesAll(k, s2, p, cr, copy, k.decrypt(copy.ciphertext).value);
    FinishChangesNoSecret(k, Drive(k, s2, p, cr, copy, k.decrypt(copy.ciphertext).value), p);
  }

  // ---------- passes are runs ----------

  lemma {:induction false} RunConcat(k: Keys, s: State, a: seq<Action>, b: seq<Action>)
    requires Run(k, s, a).Some?
    ensures Run(k, s, a + b) == Run(k, Run(k, s, a).value, b)
  {
    if b == [] {
      assert a + b == a;
    } else {
      assert (a + b)[..|a + b| - 1] == a + b[..|b| - 1];
      RunConcat(k, s, a, b[..|b| - 1]);
    }
  }

  lemma RunOne(k: Keys, s: State, a: Action)
    requires Enabled(k, s, a)
    ensures Run(k, s, [a]) == Some(Step(k, s, a))
  {
    assert Run(k, s, [a][..0]) == Some(s);
  }

  lemma {:induction false} DriveIsRun(k: Keys, s: State, p: nat, cr: string, copy: Cr, key: Bytes)
    returns (acts: seq<Action>)
    requires Injecting(s, p, cr, copy, key)
    ensures Run(k, s, acts) == Some(Drive(k, s, p, cr, copy, key))
    decreases |TargetsFor(copy.output)| - s.procs[p].next, !s.procs[p].put
  {
    SendKeepsInjecting(k, s, p, cr, copy, key);
    RunOne(k, s, BSend(p));
    acts := [BSend(p)];
    var s1 := Step(k, s, BSend(p));
    if s1.procs[p].BInject? {
      var rest := DriveIsRun(k, s1, p, cr, copy, key);
      RunConcat(k, s, [BSend(p)], rest);
      acts := [BSend(p)] + rest;
    }
  }

  /** The pass is one of the protocol's runs, so what it leaves is reachable. */
  lemma PassIsRun(k: Keys, s: State, p: nat, cr: string) returns (acts: seq<Action>)
    requires Inv(k, s) && p !in s.procs && cr in s.server.crs && k.decrypt(s.server.crs[cr].ciphertext).Some?
    ensures Run(k, s, acts) == Some(BootstrapPass(k, s, p, cr))
  {
    var copy := s.server.crs[cr];
    assert (cr, copy) in s.server.crSeen;
    var key := k.decrypt(copy.ciphertext).value;
    var get, dec := BGet(p, cr, copy), BDecrypt(p);
    var s1 := Step(k, s, get);
    var s2 := Step(k, s1, dec);
    RunOne(k, s, get);
    RunOne(k, s1, dec);
    RunConcat(k, s, [get], [dec]);
    var sends := DriveIsRun(k, s2, p, cr, copy, key);
    RunConcat(k, s, [get] + [dec], sends);
    DriveServesAll(k, s2, p, cr, copy, key);
    RunOne(k, Drive(k, s2, p, cr, copy, key), BFinish(p));
    RunConcat(k, s, [get] + [dec] + sends, [BFinish(p)]);
    acts := [get] + [dec] + sends + [BFinish(p)];
  }

  lemma PassKeepsInv(k: Keys, s: State, p: nat, cr: string)
    requires Inv(k, s) && p !in s.procs && cr in s.server.crs && k.decrypt(s.server.crs[cr].ciphertext).Some?
    ensures Inv(k, BootstrapPass(k, s, p, cr))
  {
    var acts := PassIsRun(k, s, p, cr);
    RunKeepsInv(k, s, acts);
  }

  /** A second pass right after it changes no secret, not even its version. */
  lemma SecondPassIsIdle(k: Keys, s: State, p: nat, cr: string)
    requires Inv(k, s) && p !in s.procs && cr in s.server.crs && k.decrypt(s.server.crs[cr].ciphertext).Some?
    ensures var s' := BootstrapPass(k, s, p, cr);
            && Inv(k, s') && p !in s'.procs && cr in s'.server.crs && k.decrypt(s'.server.crs[cr].ciphertext).Some?
            && BootstrapPass(k, s', p, cr).server.secrets == s'.server.secrets
  {
    PassKeepsInv(k, s, p, cr);
    OnePassHeals(k, s, p, cr);
    PassOverHealthyTargets(k, BootstrapPass(k, s, p, cr), p, cr);
  }

  lemma HealedHasTheKey(k: Keys, s: State, p: nat, cr: string)
    requires Inv(k, s) && p !in s.procs && cr in s.server.crs && k.decrypt(s.server.crs[cr].ciphertext).Some?
    ensures var s', o := BootstrapPass(k, s, p, cr), s.server.crs[cr].output;
            && cr in s'.server.crs && k.decrypt(s'.server.crs[cr].ciphertext) == k.decrypt(s.server.crs[cr].ciphertext)
            && s'.server.crs[cr].output == o
            && forall ns :: ns == o.secretNamespace || ns in o.additional ==>
                 HasKey(s'.server, SecretId(ns, o.secretName), o.secretKey, k.decrypt(s.server.crs[cr].ciphertext).value)
  {
    OnePassHeals(k, s, p, cr);
    HeldIsHad(BootstrapPass(k, s, p, cr).server, s.server.crs[cr].output, k.decrypt(s.server.crs[cr].ciphertext).value,
              Marks(cr, s.server.crs[cr].publicKey));
  }

  lemma HeldIsHad(s: Server, o: Output, key: Bytes, marks: map<string, string>)
    requires HoldAll(s, o, key, marks)
    ensures forall ns :: ns == o.secretNamespace || ns in o.additional ==>
              HasKey(s, SecretId(ns, o.secretName), o.secretKey, key)
  {
    forall ns | ns == o.secretNamespace || ns in o.additional
      ensures HasKey(s, SecretId(ns, o.secretName), o.secretKey, key)
    {
      assert Holds(s, Target(o.secretName, ns, o.secretKey), key, marks);
    }
  }

  /**
   Both together, for any history: a pass after it gives the secret in every namespace that the resource
   names the resource's key, and the pass after that one finds nothing to do.
   */
  lemma EveryHistoryHeals(k: Keys, acts: seq<Action>, p: nat, cr: string)
    requires Run(k, EMPTY, acts).Some?
    requires var s := Run(k, EMPTY, acts).value;
             p !in s.procs && cr in s.server.crs && k.decrypt(s.server.crs[cr].ciphertext).Some?
    ensures var s := Run(k, EMPTY, acts).value;
            && Inv(k, s)
            && var s', o := BootstrapPass(k, s, p, cr), s.server.crs[cr].output;
               && Inv(k, s') && p !in s'.procs && cr in s'.server.crs && s'.server.crs[cr].output == o
               && k.decrypt(s'.server.crs[cr].ciphertext) == k.decrypt(s.server.crs[cr].ciphertext)
               && BootstrapPass(k, s', p, cr).server.secrets == s'.server.secrets
               && forall ns :: ns == o.secretNamespace || ns in o.additional ==>
                    HasKey(s'.server, SecretId(ns, o.secretName), o.secretKey, k.decrypt(s.server.crs[cr].ciphertext).value)
  {
    InvAlways(k, acts);
    var s := Run(k, EMPTY, acts).value;
    HealedHasTheKey(k, s, p, cr);
    SecondPassIsIdle(k, s, p, cr);
  }

  // ---------- a whole rotation ----------

  lemma RunCons(k: Keys, s: State, a: Action, rest: seq<Action>)
    requires Enabled(k, s, a)
    ensures Run(k, s, [a] + rest) == Run(k, Step(k, s, a), rest)
  {
    RunOne(k, s, a);
    RunConcat(k, s, [a], rest);
  }

  /** Nothing but the secret `id` differs. */
  ghost predicate OnlySecret(s: Server, s': Server, id: SecretId) {
    s'.crs == s.crs && s'.secrets - {id} == s.secrets - {id}
  }

  /** Reading both objects and decrypting the old key. */
  lemma ReadSteps(k: Keys, s: State, p: nat, id: SecretId, read: Obj, cr: string, copy: Cr)
    requires p !in s.procs && (id, read) in s.server.secretSeen && (cr, copy) in s.server.crSeen
    requires Primary(copy.output).Id() == id && k.decrypt(copy.ciphertext).Some?
    ensures Run(k, s, [RGet(p, id, read), RFind(p, cr, copy), RDecrypt(p)])
         == Some(State(s.server, s.procs[p := ROld(id, read, cr, copy, k.decrypt(copy.ciphertext).value, false)]))
  {
    var s1 := Step(k, s, RGet(p, id, read));
    var s2 := Step(k, s1, RFind(p, cr, copy));
    RunOne(k, s2, RDecrypt(p));
    RunCons(k, s1, RFind(p, cr, copy), [RDecrypt(p)]);
    RunCons(k, s, RGet(p, id, read), [RFind(p, cr, copy)] + [RDecrypt(p)]);
    assert [RGet(p, id, read)] + ([RFind(p, cr, copy)] + [RDecrypt(p)])
        == [RGet(p, id, read), RFind(p, cr, copy), RDecrypt(p)];
    assert Step(k, s2, RDecrypt(p)).procs
        == s.procs[p := ROld(id, read, cr, copy, k.decrypt(copy.ciphertext).value, false)];
  }

  /** POST conflicts with the existing secret, PUT writes the old key. */
  lemma OldKeySteps(k: Keys, s: State, p: nat)
    requires p in s.procs && s.procs[p].ROld? && !s.procs[p].put
    requires Primary(s.procs[p].copy.output).Id() in s.server.secrets
    ensures var r := s.procs[p];
            var t := Primary(r.copy.output);
            var end := Run(k, s, [RSendOld(p), RSendOld(p)]);
            && end.Some? && end.value.procs == s.procs[p := RReady(r.id, r.read, r.cr, r.copy)]
            && OnlySecret(s.server, end.value.server, t.Id()) && t.Id() in end.value.server.secrets
            && end.value.server.known == s.server.known
  {
    var s1 := Step(k, s, RSendOld(p));
    RunOne(k, s1, RSendOld(p));
    RunCons(k, s, RSendOld(p), [RSendOld(p)]);
    assert [RSendOld(p)] + [RSendOld(p)] == [RSendOld(p), RSendOld(p)];
  }

  /** The secret exists, so the first request of the old key conflicts and the next one is a PUT. */
  lemma OldKeyConflicts(k: Keys, s: State, p: nat)
    requires p in s.procs && s.procs[p].ROld? && !s.procs[p].put
    requires Primary(s.procs[p].copy.output).Id() in s.server.secrets
    ensures var r := s.procs[p];
            Step(k, s, RSendOld(p)) == State(s.server, s.procs[p := ROld(r.id, r.read, r.cr, r.copy, r.key, true)])
  {
  }

  lemma NewKeyConflicts(k: Keys, s: State, p: nat)
    requires p in s.procs && s.procs[p].RNew? && !s.procs[p].put
    requires Primary(s.procs[p].copy.output).Id() in s.server.secrets
    ensures var r := s.procs[p];
            Step(k, s, RSendNew(p))
            == State(s.server, s.procs[p := RNew(r.id, r.read, r.cr, r.copy, r.key, r.publicKey, r.ciphertext, true)])
  {
  }

  lemma PutNewKey(k: Keys, s: State, p: nat)
    requires p in s.procs && s.procs[p].RNew? && s.procs[p].put
    requires Primary(s.procs[p].copy.output).Id() in s.server.secrets
    ensures var r := s.procs[p];
            var t := Primary(r.copy.output);
            var s' := Step(k, s, RSendNew(p));
            && s'.procs == s.procs[p := RUpdate(r.id, r.read, r.cr, r.copy, r.key, r.publicKey, r.ciphertext, s'.server.rv)]
            && OnlySecret(s.server, s'.server, t.Id())
            && Holds(s'.server, t, r.key, Marks(r.cr, r.publicKey))
  {
  }

  /** A new key is minted; again POST conflicts and PUT writes it. */
  lemma NewKeySteps(k: Keys, s: State, p: nat, key: Bytes, publicKey: string, ciphertext: Bytes)
    requires p in s.procs && s.procs[p].RReady?
    requires Enabled(k, s, RMint(p, key, publicKey, ciphertext))
    requires Primary(s.procs[p].copy.output).Id() in s.server.secrets
    ensures var r := s.procs[p];
            var t := Primary(r.copy.output);
            var end := Run(k, s, [RMint(p, key, publicKey, ciphertext), RSendNew(p), RSendNew(p)]);
            && end.Some?
            && var sv := end.value.server;
               && end.value.procs
                  == s.procs[p := RUpdate(r.id, r.read, r.cr, r.copy, key, publicKey, ciphertext, sv.rv)]
               && OnlySecret(s.server, sv, t.Id())
               && Holds(sv, t, key, Marks(r.cr, publicKey))
  {
    var r := s.procs[p];
    var mint := RMint(p, key, publicKey, ciphertext);
    var waiting := RNew(r.id, r.read, r.cr, r.copy, key, publicKey, ciphertext, false);
    var retrying := RNew(r.id, r.read, r.cr, r.copy, key, publicKey, ciphertext, true);
    var s1 := State(s.server, s.procs[p := waiting]);
    var s2 := State(s.server, s.procs[p := retrying]);
    assert Step(k, s, mint) == s1;
    NewKeyConflicts(k, s1, p);
    assert s1.procs[p := retrying] == s2.procs;
    PutNewKey(k, s2, p);
    RunOne(k, s2, RSendNew(p));
    RunCons(k, s1, RSendNew(p), [RSendNew(p)]);
    RunCons(k, s, mint, [RSendNew(p)] + [RSendNew(p)]);
    assert [mint] + ([RSendNew(p)] + [RSendNew(p)]) == [mint, RSendNew(p), RSendNew(p)];
    var s3 := Step(k, s2, RSendNew(p));
    assert s3.procs == s.procs[p := RUpdate(r.id, r.read, r.cr, r.copy, key, publicKey, ciphertext, s3.server.rv)];
  }

  /** The commit replaces the resource it read; the annotation update is refused. */
  lemma CommitSteps(k: Keys, s: State, p: nat, marks: map<string, string>)
    requires p in s.procs && s.procs[p].RUpdate?
    requires Overtaken(s.server, s.procs[p].id, s.procs[p].read, s.procs[p].wrote)
    requires s.procs[p].cr in s.server.crs && s.server.crs[s.procs[p].cr] == s.procs[p].copy
    ensures var r := s.procs[p];
            var end := Run(k, s, [RCommit(p), RMark(p, marks)]);
            && end.Some? && end.value.procs == s.procs - {p}
            && var sv := end.value.server;
               && sv.crs == s.server.crs[r.cr := Cr(sv.rv, r.publicKey, r.ciphertext, r.copy.output)]
               && sv.secrets == s.server.secrets
  {
    var s1 := Step(k, s, RCommit(p));
    RunOne(k, s1, RMark(p, marks));
    RunCons(k, s, RCommit(p), [RMark(p, marks)]);
    assert [RCommit(p)] + [RMark(p, marks)] == [RCommit(p), RMark(p, marks)];
  }

  /** The first half of an undisturbed rotation of an existing secret: read, and send the old key. */
  function OldKeyActions(p: nat, id: SecretId, read: Obj, cr: string, copy: Cr): seq<Action> {
    [RGet(p, id, read), RFind(p, cr, copy), RDecrypt(p)] + [RSendOld(p), RSendOld(p)]
  }

  /** The second half: mint, send the new key, commit, annotate. */
  function NewKeyActions(p: nat, key: Bytes, publicKey: string, ciphertext: Bytes, marks: map<string, string>): seq<Action> {
    [RMint(p, key, publicKey, ciphertext), RSendNew(p), RSendNew(p)] + [RCommit(p), RMark(p, marks)]
  }

  function RotationActions(
    p: nat, id: SecretId, read: Obj, cr: string, copy: Cr, key: Bytes, publicKey: string, ciphertext: Bytes,
    marks: map<string, string>): seq<Action>
  {
    OldKeyActions(p, id, read, cr, copy) + NewKeyActions(p, key, publicKey, ciphertext, marks)
  }

  lemma {:induction false} RunKeepsInv(k: Keys, s: State, acts: seq<Action>)
    requires Inv(k, s) && Run(k, s, acts).Some?
    ensures Inv(k, Run(k, s, acts).value)
  {
    if acts != [] {
      RunKeepsInv(k, s, acts[..|acts| - 1]);
      StepKeepsInv(k, Run(k, s, acts[..|acts| - 1]).value, acts[|acts| - 1]);
    }
  }

  lemma PendingUntouched(s: State, s': State, p: nat, proc: Proc, key: Bytes)
    requires !Pending(s, key) && !proc.RNew? && s'.procs == s.procs[p := proc]
    ensures !Pending(s', key)
  {
    forall q | q in s'.procs && s'.procs[q].RNew? ensures s'.procs[q].key != key {
      assert q in s.procs && s.procs[q] == s'.procs[q];
    }
  }

  /** Reading, and sending the old key once more. */
  lemma OldKeyHalf(k: Keys, s: State, p: nat, cr: string)
    requires Inv(k, s) && p !in s.procs && cr in s.server.crs && k.decrypt(s.server.crs[cr].ciphertext).Some?
    requires Primary(s.server.crs[cr].output).Id() in s.server.secrets
    ensures var c := s.server.crs[cr];
            var id := Primary(c.output).Id();
            var read := s.server.secrets[id];
            var end := Run(k, s, OldKeyActions(p, id, read, cr, c));
            && end.Some? && Inv(k, end.value)
            && end.value.procs == s.procs[p := RReady(id, read, cr, c)]
            && OnlySecret(s.server, end.value.server, id) && id in end.value.server.secrets
            && end.value.server.known == s.server.known
  {
    var c := s.server.crs[cr];
    var id := Primary(c.output).Id();
    var read := s.server.secrets[id];
    assert (cr, c) in s.server.crSeen && (id, read) in s.server.secretSeen;
    var a1, a2 := [RGet(p, id, read), RFind(p, cr, c), RDecrypt(p)], [RSendOld(p), RSendOld(p)];
    ReadSteps(k, s, p, id, read, cr, c);
    OldKeySteps(k, Run(k, s, a1).value, p);
    RunConcat(k, s, a1, a2);
    RunKeepsInv(k, s, a1 + a2);
  }

  /** Minting and sending the new key, and committing it. */
  lemma NewKeyHalf(
    k: Keys, s: State, p: nat, key: Bytes, publicKey: string, ciphertext: Bytes, marks: map<string, string>)
    requires Inv(k, s) && p in s.procs && s.procs[p].RReady?
    requires Enabled(k, s, RMint(p, key, publicKey, ciphertext))
    requires Primary(s.procs[p].copy.output).Id() in s.server.secrets
    requires s.procs[p].cr in s.server.crs && s.server.crs[s.procs[p].cr] == s.procs[p].copy
    ensures var r := s.procs[p];
            var t := Primary(r.copy.output);
            var end := Run(k, s, NewKeyActions(p, key, publicKey, ciphertext, marks));
            && end.Some? && end.value.procs == s.procs - {p}
            && var sv := end.value.server;
               && sv.crs == s.server.crs[r.cr := Cr(sv.rv, publicKey, ciphertext, r.copy.output)]
               && Holds(sv, t, key, Marks(r.cr, publicKey))
               && sv.secrets - {t.Id()} == s.server.secrets - {t.Id()}
  {
    var a3 := [RMint(p, key, publicKey, ciphertext), RSendNew(p), RSendNew(p)];
    var a4 := [RCommit(p), RMark(p, marks)];
    NewKeySteps(k, s, p, key, publicKey, ciphertext);
    var s3 := Run(k, s, a3).value;
    assert Overtaken(s3.server, s3.procs[p].id, s3.procs[p].read, s3.procs[p].wrote) by {
      RunKeepsInv(k, s, a3);
      assert ProcOk(k, s3.server, s3.procs[p]);
    }
    CommitSteps(k, s3, p, marks);
    RunConcat(k, s, a3, a4);
    assert Run(k, s3, a4).value.procs == s.procs - {p};
  }

  /**
   An undisturbed rotation moves the resource and the primary secret to the new key together; the
   secrets in the additional namespaces keep what they held until the next bootstrap pass.
   */
  lemma RotationMovesResourceAndPrimary(
    k: Keys, s: State, p: nat, cr: string, key: Bytes, publicKey: string, ciphertext: Bytes,
    marks: map<string, string>)
    requires Inv(k, s) && p !in s.procs && cr in s.server.crs && k.decrypt(s.server.crs[cr].ciphertext).Some?
    requires Primary(s.server.crs[cr].output).Id() in s.server.secrets
    requires k.publicKey(key) == Some(publicKey) && k.decrypt(ciphertext) == Some(key)
    requires key !in s.server.known && !Pending(s, key)
    ensures var c := s.server.crs[cr];
            var t := Primary(c.output);
            var end := Run(k, s, RotationActions(
              p, t.Id(), s.server.secrets[t.Id()], cr, c, key, publicKey, ciphertext, marks));
            && end.Some? && end.value.procs == s.procs
            && var sv := end.value.server;
               && sv.crs == s.server.crs[cr := Cr(sv.rv, publicKey, ciphertext, c.output)]
               && Holds(sv, Target(c.output.secretName, c.output.secretNamespace, c.output.secretKey), key,
                        Marks(cr, publicKey))
               && sv.secrets - {t.Id()} == s.server.secrets - {t.Id()}
  {
    var c := s.server.crs[cr];
    var id := Primary(c.output).Id();
    var read := s.server.secrets[id];
    OldKeyHalf(k, s, p, cr);
    var before := OldKeyActions(p, id, read, cr, c);
    var s2 := Run(k, s, before).value;
    PendingUntouched(s, s2, p, RReady(id, read, cr, c), key);
    NewKeyHalf(k, s2, p, key, publicKey, ciphertext, marks);
    RunConcat(k, s, before, NewKeyActions(p, key, publicKey, ciphertext, marks));
    assert s2.procs - {p} == s.procs;
  }

  /** A key that nothing has seen yet is in no secret. */
  lemma UnknownIsNowhere(k: Keys, s: Server, t: Target, key: Bytes)
    requires ServerOk(k, s) && key !in s.known
    ensures !(t.Id() in s.secrets && t.key in s.secrets[t.Id()].data && s.secrets[t.Id()].data[t.key] == key)
  {
    if t.Id() in s.secrets && t.key in s.secrets[t.Id()].data {
      assert (t.Id(), s.secrets[t.Id()]) in s.secretSeen;
      assert Justified(k, s, Target(t.Id().name, t.Id().namespace, t.key), s.secrets[t.Id()].data[t.key]);
    }
  }

  /**
   So an undisturbed rotation reaches all targets exactly when they are all in the primary secret; the
   secret of any other target is what it was, without the new key.
   */
  lemma RotationReachesAllExactly(
    k: Keys, s: State, p: nat, cr: string, key: Bytes, publicKey: string, ciphertext: Bytes,
    marks: map<string, string>)
    requires Inv(k, s) && p !in s.procs && cr in s.server.crs && k.decrypt(s.server.crs[cr].ciphertext).Some?
    requires Primary(s.server.crs[cr].output).Id() in s.server.secrets
    requires k.publicKey(key) == Some(publicKey) && k.decrypt(ciphertext) == Some(key)
    requires key !in s.server.known && !Pending(s, key)
    ensures var c := s.server.crs[cr];
            var t := Primary(c.output);
            var end := Run(k, s, RotationActions(
              p, t.Id(), s.server.secrets[t.Id()], cr, c, key, publicKey, ciphertext, marks));
            end.Some? &&
            var sv, o := end.value.server, c.output;
            && ((forall ns :: ns == o.secretNamespace || ns in o.additional ==>
                   HasKey(sv, SecretId(ns, o.secretName), o.secretKey, key))
                <==> forall ns :: ns in o.additional ==> ns == o.secretNamespace)
            && forall ns :: ns in o.additional && ns != o.secretNamespace ==>
                 var id := SecretId(ns, o.secretName);
                 && (id in sv.secrets <==> id in s.server.secrets)
                 && (id in sv.secrets ==> sv.secrets[id] == s.server.secrets[id])
                 && !HasKey(sv, id, o.secretKey, key)
  {
    RotationMovesResourceAndPrimary(k, s, p, cr, key, publicKey, ciphertext, marks);
    var c := s.server.crs[cr];
    var t := Primary(c.output);
    var sv := Run(k, s, RotationActions(
      p, t.Id(), s.server.secrets[t.Id()], cr, c, key, publicKey, ciphertext, marks)).value.server;
    assert HasKey(sv, t.Id(), t.key, key);
    forall ns | ns in c.output.additional && ns != c.output.secretNamespace
      ensures var id := SecretId(ns, c.output.secretName);
              && (id in sv.secrets <==> id in s.server.secrets)
              && (id in sv.secrets ==> sv.secrets[id] == s.server.secrets[id])
              && !HasKey(sv, id, c.output.secretKey, key)
    {
      var u := Target(c.output.secretName, ns, c.output.secretKey);
      assert u.Id() in sv.secrets - {t.Id()} <==> u.Id() in sv.secrets;
      assert u.Id() in s.server.secrets - {t.Id()} <==> u.Id() in s.server.secrets;
      if u.Id() in sv.secrets {
        assert (sv.secrets - {t.Id()})[u.Id()] == (s.server.secrets - {t.Id()})[u.Id()];
      }
      UnknownIsNowhere(k, s.server, u, key);
    }
  }

  /**
   A race the guards do not exclude.  A bootstrap pass that read the resource before a rotation and
   sends its requests after it puts the old key back everywhere, although the rotation succeeded
   and the resource has the new key; the next pass heals it.
   */
  lemma StaleBootstrapUndoesRotation(
    k: Keys, s: State, p: nat, q: nat, cr: string, key: Bytes, publicKey: string, ciphertext: Bytes)
    returns (acts: seq<Action>)
    requires Inv(k, s) && p != q && p !in s.procs && q !in s.procs && cr in s.server.crs
    requires k.decrypt(s.server.crs[cr].ciphertext).Some?
    requires Primary(s.server.crs[cr].output).Id() in s.server.secrets
    requires k.publicKey(key) == Some(publicKey) && k.decrypt(ciphertext) == Some(key)
    requires key !in s.server.known && !Pending(s, key)
    ensures var c := s.server.crs[cr];
            var end := Run(k, s, acts);
            && end.Some? && q !in end.value.procs && cr in end.value.server.crs
            && k.decrypt(end.value.server.crs[cr].ciphertext) == Some(key) && k.decrypt(c.ciphertext) != Some(key)
            && HoldAll(end.value.server, c.output, k.decrypt(c.ciphertext).value, Marks(cr, c.publicKey))
  {
    var c := s.server.crs[cr];
    assert (cr, c) in s.server.crSeen;
    var oldKey := k.decrypt(c.ciphertext).value;
    var read := [BGet(p, cr, c)] + [BDecrypt(p)];
    var s1 := State(s.server, s.procs[p := BInject(cr, c, oldKey, 0, false)]);
    RunOne(k, Step(k, s, BGet(p, cr, c)), BDecrypt(p));
    RunCons(k, s, BGet(p, cr, c), [BDecrypt(p)]);
    assert s.procs[p := BRead(cr, c)][p := BInject(cr, c, oldKey, 0, false)] == s1.procs;
    RunKeepsInv(k, s, read);
    PendingUntouched(s, s1, p, BInject(cr, c, oldKey, 0, false), key);
    var t := Primary(c.output);
    var rotation := RotationActions(q, t.Id(), s1.server.secrets[t.Id()], cr, c, key, publicKey, ciphertext, map[]);
    RotationMovesResourceAndPrimary(k, s1, q, cr, key, publicKey, ciphertext, map[]);
    var s2 := Run(k, s1, rotation).value;
    var sends := DriveIsRun(k, s2, p, cr, c, oldKey);
    AllHold(Drive(k, s2, p, cr, c, oldKey).server, c.output, oldKey, Marks(cr, c.publicKey));
    DriveServesAll(k, s2, p, cr, c, oldKey);
    RunConcat(k, s, read, rotation);
    RunConcat(k, s, read + rotation, sends);
    acts := read + rotation + sends;
    assert q !in s2.procs - {p};
  }
}
