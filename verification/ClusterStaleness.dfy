/**
 Secret writes carry no version.  Exactly when does a key that has been put into a secret get lost
 again?  First for one step, then for whole runs, then for the key that a rotation has committed.
 */
module ClusterStaleness {
  import opened Base
  import opened Injection
  import opened Targets
  import opened Cluster
  import opened ClusterSafety
  import opened ClusterConvergence

  /** The value that the server holds for a target. */
  function HeldAt(s: Server, t: Target): Option<Bytes> {
    if t.Id() in s.secrets && t.key in s.secrets[t.Id()].data then Some(s.secrets[t.Id()].data[t.key]) else None
  }

  // ---------- one step ----------

  predicate IsSender(a: Action) {
    a.BSend? || a.RSendOld? || a.RSendNew?
  }

  predicate Sending(q: Proc) {
    q.ROld? || q.RNew? || (q.BInject? && q.next < |TargetsFor(q.copy.output)|)
  }

  /** Where the process's next request goes. */
  function Aim(q: Proc): Target
    requires Sending(q)
  {
    if q.BInject? then TargetsFor(q.copy.output)[q.next] else Primary(q.copy.output)
  }

  /** A PUT that aims at the target's secret with another key, or under another key name. */
  predicate PutsAnother(q: Proc, t: Target, v: Bytes) {
    Sending(q) && q.put && Aim(q).Id() == t.Id() && (q.key != v || Aim(q).key != t.key)
  }

  lemma SendReplacesExactlyWhen(s: Server, u: Target, key: Bytes, marks: map<string, string>, put: bool, t: Target, v: Bytes)
    requires HeldAt(s, t) == Some(v)
    ensures HeldAt(Send(s, u, key, marks, put).0, t) != Some(v)
            <==> put && u.Id() == t.Id() && (key != v || u.key != t.key)
  {
  }

  lemma AimOk(k: Keys, s: State, a: Action)
    requires Inv(k, s) && Enabled(k, s, a) && IsSender(a)
    ensures Sending(s.procs[a.p])
    ensures !a.RSendNew? ==> k.decrypt(s.procs[a.p].copy.ciphertext) == Some(s.procs[a.p].key)
  {
    assert ProcOk(k, s.server, s.procs[a.p]);
  }

  lemma MintedSendReplacesExactlyWhen(k: Keys, s: Server, r: Proc, t: Target, v: Bytes)
    requires r.RNew? && HeldAt(s, t) == Some(v)
    ensures HeldAt(SendNew(s, r).server, t) != Some(v) <==> PutsAnother(r, t, v)
  {
    SendReplacesExactlyWhen(Count(s, Aim(r), r.key), Aim(r), r.key, Marks(r.cr, r.publicKey), r.put, t, v);
  }

  lemma SenderReplacesExactlyWhen(k: Keys, s: State, a: Action, t: Target, v: Bytes)
    requires Inv(k, s) && Enabled(k, s, a) && IsSender(a) && HeldAt(s.server, t) == Some(v)
    ensures HeldAt(Step(k, s, a).server, t) != Some(v) <==> PutsAnother(s.procs[a.p], t, v)
  {
    AimOk(k, s, a);
    var q := s.procs[a.p];
    if a.RSendNew? {
      MintedSendReplacesExactlyWhen(k, s.server, q, t, v);
    } else {
      SendReplacesExactlyWhen(s.server, Aim(q), q.key, Marks(q.cr, q.copy.publicKey), q.put, t, v);
    }
  }

  lemma OthersKeepSecrets(k: Keys, s: State, a: Action, t: Target)
    requires Inv(k, s) && Enabled(k, s, a) && !IsSender(a) && a != DeleteSecret(t.Id())
    ensures HeldAt(Step(k, s, a).server, t) == HeldAt(s.server, t)
  {
    if a.RMark? { assert ProcOk(k, s.server, s.procs[a.p]); }
  }

  /**
   In every invariant state a step takes a held key away from its target if and only if it deletes
   the secret, or it is the PUT of a process that aims at this secret with another key or key name.
   What a bootstrap pass or the old-key half of a rotation sends is the key in the copy it read.
   */
  lemma ReplacedExactlyWhen(k: Keys, s: State, a: Action, t: Target, v: Bytes)
    requires Inv(k, s) && Enabled(k, s, a) && HeldAt(s.server, t) == Some(v)
    ensures a.BSend? || a.RSendOld? ==> k.decrypt(s.procs[a.p].copy.ciphertext) == Some(s.procs[a.p].key)
    ensures HeldAt(Step(k, s, a).server, t) != Some(v)
            <==> a == DeleteSecret(t.Id()) || (IsSender(a) && PutsAnother(s.procs[a.p], t, v))
  {
    if IsSender(a) {
      AimOk(k, s, a);
      SenderReplacesExactlyWhen(k, s, a, t, v);
    } else if a != DeleteSecret(t.Id()) {
      OthersKeepSecrets(k, s, a, t);
    }
  }

  // ---------- processes that may still do it ----------

  /** Some target from the `next` one on is in this secret. */
  ghost predicate NamesFrom(o: Output, next: nat, id: SecretId) {
    exists j :: next <= j < |TargetsFor(o)| && TargetsFor(o)[j].Id() == id
  }

  predicate Wrong(key: Option<Bytes>, o: Output, t: Target, v: Bytes) {
    key != Some(v) || o.secretKey != t.key
  }

  /** A version of a resource that can be decrypted and names the target's secret, for another key or key name. */
  ghost predicate Disagrees(k: Keys, copy: Cr, t: Target, v: Bytes) {
    && NamesFrom(copy.output, 0, t.Id())
    && k.decrypt(copy.ciphertext).Some? && Wrong(k.decrypt(copy.ciphertext), copy.output, t, v)
  }

  /** A process that has read such a version, or minted another key, and has not written it everywhere yet. */
  ghost predicate Threat(k: Keys, q: Proc, t: Target, v: Bytes) {
    match q
    case BRead(_, copy) => Disagrees(k, copy, t, v)
    case BInject(_, copy, key, next, _) => NamesFrom(copy.output, next, t.Id()) && Wrong(Some(key), copy.output, t, v)
    case RFound(_, _, _, copy) =>
      && Primary(copy.output).Id() == t.Id()
      && k.decrypt(copy.ciphertext).Some? && Wrong(k.decrypt(copy.ciphertext), copy.output, t, v)
    case ROld(_, _, _, copy, key, _) => Primary(copy.output).Id() == t.Id() && Wrong(Some(key), copy.output, t, v)
    case RNew(_, _, _, copy, key, _, _, _) => Primary(copy.output).Id() == t.Id() && Wrong(Some(key), copy.output, t, v)
    case _ => false
  }

  ghost predicate NoThreat(k: Keys, s: State, t: Target, v: Bytes) {
    forall q :: q in s.procs ==> !Threat(k, s.procs[q], t, v)
  }

  /**
   What may happen from now on.  In any case nobody deletes the secret and no rotation mints a new
   key for it.  Resources that name the secret are read in versions that agree with the key; or only
   in the stored version of the resource `n`, which nobody edits; or not at all.
   */
  datatype Rule = Agreeing | Current | Aloof

  ghost predicate Allows(rule: Rule, k: Keys, s: State, a: Action, n: string, t: Target, v: Bytes)
    requires Enabled(k, s, a)
  {
    && (a.BGet? || a.RFind? ==> NamesFrom(a.copy.output, 0, t.Id()) ==>
          match rule
          case Agreeing => !Disagrees(k, a.copy, t, v)
          case Current => a.cr == n && n in s.server.crs && a.copy == s.server.crs[n]
          case Aloof => false)
    && (a.RMint? ==> Primary(s.procs[a.p].copy.output).Id() != t.Id())
    && a != DeleteSecret(t.Id())
    && (a.ApplyCr? && !rule.Agreeing? ==> a.cr != n)
  }

  ghost predicate RunUnder(rule: Rule, k: Keys, s: State, acts: seq<Action>, n: string, t: Target, v: Bytes)
    decreases |acts|
  {
    acts == [] ||
    var init, a := acts[..|acts| - 1], acts[|acts| - 1];
    && RunUnder(rule, k, s, init, n, t, v)
    && Run(k, s, init).Some? && Enabled(k, Run(k, s, init).value, a)
    && Allows(rule, k, Run(k, s, init).value, a, n, t, v)
  }

  lemma {:induction false} AloofIsEveryRule(rule: Rule, k: Keys, s: State, acts: seq<Action>, n: string, t: Target, v: Bytes)
    requires RunUnder(Aloof, k, s, acts, n, t, v)
    ensures RunUnder(rule, k, s, acts, n, t, v)
    decreases |acts|
  {
    if acts != [] { AloofIsEveryRule(rule, k, s, acts[..|acts| - 1], n, t, v); }
  }

  lemma {:induction false} RunUnderConcat(
    rule: Rule, k: Keys, s: State, a: seq<Action>, b: seq<Action>, n: string, t: Target, v: Bytes)
    requires RunUnder(rule, k, s, a, n, t, v) && Run(k, s, a).Some?
    requires RunUnder(rule, k, Run(k, s, a).value, b, n, t, v)
    ensures RunUnder(rule, k, s, a + b, n, t, v) && Run(k, s, a + b) == Run(k, Run(k, s, a).value, b)
    decreases |b|
  {
    RunConcat(k, s, a, b);
    if b == [] {
      assert a + b == a;
    } else {
      assert (a + b)[..|a + b| - 1] == a + b[..|b| - 1];
      RunUnderConcat(rule, k, s, a, b[..|b| - 1], n, t, v);
    }
  }

  lemma RunUnderOne(rule: Rule, k: Keys, s: State, a: Action, n: string, t: Target, v: Bytes)
    requires Enabled(k, s, a) && Allows(rule, k, s, a, n, t, v)
    ensures RunUnder(rule, k, s, [a], n, t, v) && Run(k, s, [a]) == Some(Step(k, s, a))
  {
    RunOne(k, s, a);
    assert [a][..0] == [];
    assert RunUnder(rule, k, s, [], n, t, v);
  }

  // ---------- without a threat the key stays ----------

  lemma PrimaryIsNamed(o: Output)
    ensures NamesFrom(o, 0, Primary(o).Id())
  {
    assert TargetsFor(o)[0] == Primary(o);
  }

  lemma SenderIsNoThreat(k: Keys, s: State, a: Action, t: Target, v: Bytes)
    requires Enabled(k, s, a) && IsSender(a) && !Threat(k, s.procs[a.p], t, v)
    ensures var m := ProcMove(k, s, a); m.next.Some? ==> !Threat(k, m.next.value, t, v)
  {
  }

  lemma ReaderIsNoThreat(k: Keys, s: State, a: Action, n: string, t: Target, v: Bytes)
    requires Enabled(k, s, a) && Allows(Agreeing, k, s, a, n, t, v)
    requires a.BDecrypt? || a.RDecrypt? ==> !Threat(k, s.procs[a.p], t, v)
    requires !IsSender(a) && !a.ApplyCr? && !a.DeleteCr? && !a.DeleteSecret?
    ensures var m := ProcMove(k, s, a); m.next.Some? ==> !Threat(k, m.next.value, t, v)
  {
    if a.RFind? { PrimaryIsNamed(a.copy.output); }
  }

  /** The process that moves is no threat afterwards. */
  lemma MoverIsNoThreat(k: Keys, s: State, a: Action, n: string, t: Target, v: Bytes)
    requires Enabled(k, s, a) && Allows(Agreeing, k, s, a, n, t, v) && NoThreat(k, s, t, v)
    requires !a.ApplyCr? && !a.DeleteCr? && !a.DeleteSecret?
    ensures var m := ProcMove(k, s, a); m.next.Some? ==> !Threat(k, m.next.value, t, v)
  {
    if IsSender(a) {
      SenderIsNoThreat(k, s, a, t, v);
    } else {
      ReaderIsNoThreat(k, s, a, n, t, v);
    }
  }

  lemma SendersSpareTheKey(k: Keys, s: State, a: Action, t: Target, v: Bytes)
    requires Inv(k, s) && Enabled(k, s, a) && IsSender(a) && NoThreat(k, s, t, v)
    ensures !PutsAnother(s.procs[a.p], t, v)
  {
    AimOk(k, s, a);
    assert !Threat(k, s.procs[a.p], t, v);
  }

  lemma StepKeepsHeld(k: Keys, s: State, a: Action, t: Target, v: Bytes)
    requires Inv(k, s) && Enabled(k, s, a) && a != DeleteSecret(t.Id())
    requires NoThreat(k, s, t, v) && HeldAt(s.server, t) == Some(v)
    ensures HeldAt(Step(k, s, a).server, t) == Some(v)
  {
    if IsSender(a) { SendersSpareTheKey(k, s, a, t, v); }
    ReplacedExactlyWhen(k, s, a, t, v);
  }

  lemma EditThreatensNothing(k: Keys, s: State, a: Action, t: Target, v: Bytes)
    requires Enabled(k, s, a) && NoThreat(k, s, t, v) && (a.ApplyCr? || a.DeleteCr? || a.DeleteSecret?)
    ensures NoThreat(k, Step(k, s, a), t, v)
  {
    assert Step(k, s, a).procs == s.procs;
  }

  lemma MoveThreatensNothing(k: Keys, s: State, a: Action, n: string, t: Target, v: Bytes)
    requires Enabled(k, s, a) && Allows(Agreeing, k, s, a, n, t, v) && NoThreat(k, s, t, v)
    requires !a.ApplyCr? && !a.DeleteCr? && !a.DeleteSecret?
    ensures NoThreat(k, Step(k, s, a), t, v)
  {
    MoverIsNoThreat(k, s, a, n, t, v);
    var m, s' := ProcMove(k, s, a), Step(k, s, a);
    assert s'.procs == if m.next.Some? then s.procs[a.p := m.next.value] else s.procs - {a.p};
  }

  lemma StepKeepsTheKey(k: Keys, s: State, a: Action, n: string, t: Target, v: Bytes)
    requires Inv(k, s) && Enabled(k, s, a) && Allows(Agreeing, k, s, a, n, t, v)
    requires NoThreat(k, s, t, v) && HeldAt(s.server, t) == Some(v)
    ensures NoThreat(k, Step(k, s, a), t, v) && HeldAt(Step(k, s, a).server, t) == Some(v)
  {
    StepKeepsHeld(k, s, a, t, v);
    if a.ApplyCr? || a.DeleteCr? || a.DeleteSecret? {
      EditThreatensNothing(k, s, a, t, v);
    } else {
      MoveThreatensNothing(k, s, a, n, t, v);
    }
  }

  lemma {:induction false} WithoutThreatTheKeyStays(
    k: Keys, s: State, acts: seq<Action>, n: string, t: Target, v: Bytes)
    requires Inv(k, s) && NoThreat(k, s, t, v) && HeldAt(s.server, t) == Some(v)
    requires RunUnder(Agreeing, k, s, acts, n, t, v)
    ensures Run(k, s, acts).Some? && Inv(k, Run(k, s, acts).value)
    ensures NoThreat(k, Run(k, s, acts).value, t, v) && HeldAt(Run(k, s, acts).value.server, t) == Some(v)
    decreases |acts|
  {
    if acts != [] {
      var init := acts[..|acts| - 1];
      WithoutThreatTheKeyStays(k, s, init, n, t, v);
      StepKeepsTheKey(k, Run(k, s, init).value, acts[|acts| - 1], n, t, v);
      StepKeepsInv(k, Run(k, s, init).value, acts[|acts| - 1]);
    }
  }

  // ---------- every threat can be carried out ----------

  /** These actions are allowed under every rule, and afterwards the target does not hold the key. */
  ghost predicate Undoes(k: Keys, s: State, acts: seq<Action>, n: string, t: Target, v: Bytes) {
    && RunUnder(Aloof, k, s, acts, n, t, v) && Run(k, s, acts).Some?
    && HeldAt(Run(k, s, acts).value.server, t) != Some(v)
  }

  lemma ThenUndoes(
    k: Keys, s: State, a: Action, rest: seq<Action>, n: string, t: Target, v: Bytes) returns (acts: seq<Action>)
    requires Enabled(k, s, a) && Allows(Aloof, k, s, a, n, t, v) && Undoes(k, Step(k, s, a), rest, n, t, v)
    ensures Undoes(k, s, acts, n, t, v)
  {
    RunUnderOne(Aloof, k, s, a, n, t, v);
    RunUnderConcat(Aloof, k, s, [a], rest, n, t, v);
    acts := [a] + rest;
  }

  lemma FreshProc(s: set<nat>, bound: nat) returns (q: nat)
    ensures q > bound && q !in s
    decreases s
  {
    q := bound + 1;
    if q in s { q := FreshProc(s - {q}, q); }
  }

  ghost predicate Leads(k: Keys, s: State, acts: seq<Action>, n: string, t: Target, v: Bytes, s': State) {
    RunUnder(Aloof, k, s, acts, n, t, v) && Run(k, s, acts) == Some(s')
  }

  lemma LeadsThen(k: Keys, s: State, acts: seq<Action>, n: string, t: Target, v: Bytes, mid: State, a: Action)
    requires Leads(k, s, acts, n, t, v, mid) && Enabled(k, mid, a) && Allows(Aloof, k, mid, a, n, t, v)
    ensures Leads(k, s, acts + [a], n, t, v, Step(k, mid, a))
  {
    RunUnderOne(Aloof, k, mid, a, n, t, v);
    RunUnderConcat(Aloof, k, s, acts, [a], n, t, v);
  }

  lemma LeadsKeepsInv(k: Keys, s: State, acts: seq<Action>, n: string, t: Target, v: Bytes, s': State)
    requires Inv(k, s) && Leads(k, s, acts, n, t, v, s')
    ensures Inv(k, s')
  {
    RunKeepsInv(k, s, acts);
  }

  /** Anybody may apply a resource with the envelope of one that is stored or has been. */
  lemma ReapplyEnabled(k: Keys, s: State, cr: string, copy: Cr, name: string, o: Output)
    requires Inv(k, s) && (cr, copy) in s.server.crSeen
    ensures Enabled(k, s, ApplyCr(name, copy.publicKey, copy.ciphertext, o))
  {
    forall r | r in s.procs && s.procs[r].RNew? ensures Some(s.procs[r].key) != k.decrypt(copy.ciphertext) {
      assert ProcOk(k, s.server, s.procs[r]);
    }
  }

  /** A pass that has decrypted a resource with one target creates its secret, when that is missing. */
  lemma CreateOnly(k: Keys, s: State, q: nat, name: string, c: Cr, id: SecretId, t: Target)
    requires q in s.procs && c.output == Output(id.name, id.namespace, t.key, []) && k.decrypt(c.ciphertext).Some?
    requires s.procs[q] == BInject(name, c, k.decrypt(c.ciphertext).value, 0, false)
    requires id !in s.server.secrets && id != t.Id()
    ensures Enabled(k, s, BSend(q))
    ensures var s' := Step(k, s, BSend(q));
            id in s'.server.secrets && HeldAt(s'.server, t) == HeldAt(s.server, t) && s'.procs - {q} == s.procs - {q}
  {
    assert TargetsFor(c.output) == [Target(id.name, id.namespace, t.key)];
  }

  /** Somebody applies a resource for one secret only, and a bootstrap pass reads and decrypts it. */
  lemma Reapply(
    k: Keys, s: State, q: nat, id: SecretId, cr: string, copy: Cr, name: string, n: string, t: Target, v: Bytes)
    returns (acts: seq<Action>, c: Cr, s': State)
    requires Inv(k, s) && (cr, copy) in s.server.crSeen && q !in s.procs && id != t.Id() && name != n
    requires k.decrypt(copy.ciphertext).Some?
    ensures Leads(k, s, acts, n, t, v, s') && s'.server.secrets == s.server.secrets
    ensures c.output == Output(id.name, id.namespace, t.key, []) && k.decrypt(c.ciphertext).Some?
    ensures s'.procs == s.procs[q := BInject(name, c, k.decrypt(c.ciphertext).value, 0, false)]
  {
    var o := Output(id.name, id.namespace, t.key, []);
    ReapplyEnabled(k, s, cr, copy, name, o);
    var apply := ApplyCr(name, copy.publicKey, copy.ciphertext, o);
    RunUnderOne(Aloof, k, s, apply, n, t, v);
    var s1 := Step(k, s, apply);
    c := s1.server.crs[name];
    assert TargetsFor(o) == [Target(id.name, id.namespace, t.key)];
    LeadsThen(k, s, [apply], n, t, v, s1, BGet(q, name, c));
    var s2 := State(s1.server, s1.procs[q := BRead(name, c)]);
    LeadsThen(k, s, [apply] + [BGet(q, name, c)], n, t, v, s2, BDecrypt(q));
    acts, s' := [apply] + [BGet(q, name, c)] + [BDecrypt(q)], Step(k, s2, BDecrypt(q));
    assert s2.procs[q := s'.procs[q]] == s.procs[q := s'.procs[q]];
  }

  lemma OtherName(n: string) returns (name: string)
    ensures name != n
  {
    name := n + "x";
    assert |name| != |n|;
  }

  /** The reapplied resource's pass creates the secret and touches no other process. */
  lemma CreateLeads(
    k: Keys, s: State, acts: seq<Action>, mid: State, q: nat, p: nat, name: string, c: Cr, id: SecretId, n: string,
    t: Target, v: Bytes)
    returns (s': State)
    requires Leads(k, s, acts, n, t, v, mid) && q in mid.procs && p in mid.procs && p != q
    requires c.output == Output(id.name, id.namespace, t.key, []) && k.decrypt(c.ciphertext).Some?
    requires mid.procs[q] == BInject(name, c, k.decrypt(c.ciphertext).value, 0, false)
    requires id !in mid.server.secrets && id != t.Id()
    ensures Leads(k, s, acts + [BSend(q)], n, t, v, s')
    ensures p in s'.procs && s'.procs[p] == mid.procs[p]
    ensures id in s'.server.secrets && HeldAt(s'.server, t) == HeldAt(mid.server, t)
  {
    CreateOnly(k, mid, q, name, c, id, t);
    LeadsThen(k, s, acts, n, t, v, mid, BSend(q));
    s' := Step(k, mid, BSend(q));
    assert p in s'.procs - {q} && (s'.procs - {q})[p] == (mid.procs - {q})[p];
  }

  /**
   A secret that has been deleted can come back: somebody applies a resource for it, and a bootstrap
   pass serves it.  So even a process that would fail on the missing secret is not harmless.
   */
  lemma Recreate(k: Keys, s: State, p: nat, id: SecretId, cr: string, copy: Cr, n: string, t: Target, v: Bytes)
    returns (acts: seq<Action>, s': State)
    requires Inv(k, s) && (cr, copy) in s.server.crSeen && k.decrypt(copy.ciphertext).Some? && p in s.procs
    requires id !in s.server.secrets && id != t.Id() && HeldAt(s.server, t) == Some(v)
    ensures Leads(k, s, acts, n, t, v, s') && Inv(k, s')
    ensures p in s'.procs && s'.procs[p] == s.procs[p]
    ensures id in s'.server.secrets && HeldAt(s'.server, t) == Some(v)
  {
    var name := OtherName(n);
    var q := FreshProc(s.procs.Keys, 0);
    var first, c, mid := Reapply(k, s, q, id, cr, copy, name, n, t, v);
    s' := CreateLeads(k, s, first, mid, q, p, name, c, id, n, t, v);
    acts := first + [BSend(q)];
    LeadsKeepsInv(k, s, acts, n, t, v, s');
  }

  /** A bootstrap pass with the wrong key, still ahead of the target at index `j`. */
  ghost predicate Ahead(q: Proc, j: nat, t: Target, v: Bytes) {
    && q.BInject? && q.next <= j < |TargetsFor(q.copy.output)|
    && TargetsFor(q.copy.output)[j].Id() == t.Id() && Wrong(Some(q.key), q.copy.output, t, v)
  }

  /** Either its next request takes the key away, or it is one request nearer. */
  lemma SendComesNearer(s: Server, q: Proc, j: nat, t: Target, v: Bytes)
    requires Ahead(q, j, t, v) && HeldAt(s, t) == Some(v) && (q.put ==> Aim(q).Id() in s.secrets)
    ensures var m := SendNext(s, q);
            || HeldAt(m.server, t) != Some(v)
            || (m.next.Some? && Ahead(m.next.value, j, t, v)
                && (m.next.value.next > q.next || (m.next.value.next == q.next && m.next.value.put && !q.put)))
  {
    SendReplacesExactlyWhen(s, Aim(q), q.key, Marks(q.cr, q.copy.publicKey), q.put, t, v);
  }

  lemma {:induction false} InjectionUndoes(k: Keys, s: State, p: nat, j: nat, n: string, t: Target, v: Bytes)
    returns (acts: seq<Action>)
    requires Inv(k, s) && p in s.procs && Ahead(s.procs[p], j, t, v) && HeldAt(s.server, t) == Some(v)
    ensures Undoes(k, s, acts, n, t, v)
    decreases j - s.procs[p].next, !s.procs[p].put, Aim(s.procs[p]).Id() !in s.server.secrets
  {
    if s.procs[p].put && Aim(s.procs[p]).Id() !in s.server.secrets {
      var q := s.procs[p];
      assert ProcOk(k, s.server, q);
      var back, s' := Recreate(k, s, p, Aim(q).Id(), q.cr, q.copy, n, t, v);
      var rest := InjectionUndoes(k, s', p, j, n, t, v);
      RunUnderConcat(Aloof, k, s, back, rest, n, t, v);
      acts := back + rest;
    } else {
      SendComesNearer(s.server, s.procs[p], j, t, v);
      var s' := Step(k, s, BSend(p));
      if HeldAt(s'.server, t) != Some(v) {
        RunUnderOne(Aloof, k, s, BSend(p), n, t, v);
        acts := [BSend(p)];
      } else {
        StepKeepsInv(k, s, BSend(p));
        var rest := InjectionUndoes(k, s', p, j, n, t, v);
        acts := ThenUndoes(k, s, BSend(p), rest, n, t, v);
      }
    }
  }

  /** One PUT with a wrong key. */
  lemma PutUndoes(k: Keys, s: State, a: Action, n: string, t: Target, v: Bytes)
    requires Inv(k, s) && Enabled(k, s, a) && IsSender(a) && HeldAt(s.server, t) == Some(v)
    requires PutsAnother(s.procs[a.p], t, v)
    ensures Undoes(k, s, [a], n, t, v)
  {
    ReplacedExactlyWhen(k, s, a, t, v);
    RunUnderOne(Aloof, k, s, a, n, t, v);
  }

  /** A rotation about to send an old key that is wrong for the target, whose secret exists. */
  lemma OldKeyUndoes(k: Keys, s: State, p: nat, n: string, t: Target, v: Bytes) returns (acts: seq<Action>)
    requires Inv(k, s) && p in s.procs && s.procs[p].ROld? && HeldAt(s.server, t) == Some(v)
    requires Primary(s.procs[p].copy.output).Id() == t.Id() && Wrong(Some(s.procs[p].key), s.procs[p].copy.output, t, v)
    ensures Undoes(k, s, acts, n, t, v)
  {
    var a := RSendOld(p);
    if s.procs[p].put {
      PutUndoes(k, s, a, n, t, v);
      acts := [a];
    } else {
      OldKeyConflicts(k, s, p);
      var s' := Step(k, s, a);
      StepKeepsInv(k, s, a);
      PutUndoes(k, s', a, n, t, v);
      acts := ThenUndoes(k, s, a, [a], n, t, v);
    }
  }

  /** A rotation about to send a new key to the target's secret, which exists. */
  lemma NewKeyUndoes(k: Keys, s: State, p: nat, n: string, t: Target, v: Bytes) returns (acts: seq<Action>)
    requires Inv(k, s) && p in s.procs && s.procs[p].RNew? && HeldAt(s.server, t) == Some(v)
    requires Primary(s.procs[p].copy.output).Id() == t.Id() && Wrong(Some(s.procs[p].key), s.procs[p].copy.output, t, v)
    ensures Undoes(k, s, acts, n, t, v)
  {
    var a := RSendNew(p);
    if s.procs[p].put {
      PutUndoes(k, s, a, n, t, v);
      acts := [a];
    } else {
      NewKeyConflicts(k, s, p);
      var s' := Step(k, s, a);
      StepKeepsInv(k, s, a);
      PutUndoes(k, s', a, n, t, v);
      acts := ThenUndoes(k, s, a, [a], n, t, v);
    }
  }

  /** Every threat has a continuation that takes the key away, allowed under every rule. */
  lemma ThreatUndoes(k: Keys, s: State, p: nat, n: string, t: Target, v: Bytes) returns (acts: seq<Action>)
    requires Inv(k, s) && p in s.procs && Threat(k, s.procs[p], t, v) && HeldAt(s.server, t) == Some(v)
    ensures Undoes(k, s, acts, n, t, v)
  {
    assert ProcOk(k, s.server, s.procs[p]);
    match s.procs[p] {
      case BRead(_, copy) =>
        assert Enabled(k, s, BDecrypt(p));
        StepKeepsInv(k, s, BDecrypt(p));
        var j :| 0 <= j < |TargetsFor(copy.output)| && TargetsFor(copy.output)[j].Id() == t.Id();
        var rest := InjectionUndoes(k, Step(k, s, BDecrypt(p)), p, j, n, t, v);
        acts := ThenUndoes(k, s, BDecrypt(p), rest, n, t, v);
      case BInject(_, copy, _, next, _) =>
        var j :| next <= j < |TargetsFor(copy.output)| && TargetsFor(copy.output)[j].Id() == t.Id();
        acts := InjectionUndoes(k, s, p, j, n, t, v);
      case RFound(_, _, _, copy) =>
        assert Enabled(k, s, RDecrypt(p));
        StepKeepsInv(k, s, RDecrypt(p));
        var rest := OldKeyUndoes(k, Step(k, s, RDecrypt(p)), p, n, t, v);
        acts := ThenUndoes(k, s, RDecrypt(p), rest, n, t, v);
      case ROld(_, _, _, _, _, _) =>
        acts := OldKeyUndoes(k, s, p, n, t, v);
      case _ =>
        acts := NewKeyUndoes(k, s, p, n, t, v);
    }
  }

  /** Whatever happens under the rule, the target keeps the key. */
  ghost predicate Stays(rule: Rule, k: Keys, s: State, n: string, t: Target, v: Bytes) {
    forall acts :: RunUnder(rule, k, s, acts, n, t, v) ==>
      Run(k, s, acts).Some? && HeldAt(Run(k, s, acts).value.server, t) == Some(v)
  }

  lemma ThreatsForbidStaying(rule: Rule, k: Keys, s: State, n: string, t: Target, v: Bytes)
    requires Inv(k, s) && HeldAt(s.server, t) == Some(v) && Stays(rule, k, s, n, t, v)
    ensures NoThreat(k, s, t, v)
  {
    forall p | p in s.procs ensures !Threat(k, s.procs[p], t, v) {
      if Threat(k, s.procs[p], t, v) {
        var acts := ThreatUndoes(k, s, p, n, t, v);
        AloofIsEveryRule(rule, k, s, acts, n, t, v);
        assert false;
      }
    }
  }

  /**
   From every reachable state: a key stays where it is in every continuation that reads agreeing
   versions if and only if no process is a threat to it now.
   */
  lemma StaysExactlyWithoutThreat(k: Keys, history: seq<Action>, n: string, t: Target, v: Bytes)
    requires Run(k, EMPTY, history).Some? && HeldAt(Run(k, EMPTY, history).value.server, t) == Some(v)
    ensures var s := Run(k, EMPTY, history).value;
            Stays(Agreeing, k, s, n, t, v) <==> NoThreat(k, s, t, v)
  {
    InvAlways(k, history);
    var s := Run(k, EMPTY, history).value;
    if NoThreat(k, s, t, v) {
      forall acts | RunUnder(Agreeing, k, s, acts, n, t, v)
        ensures Run(k, s, acts).Some? && HeldAt(Run(k, s, acts).value.server, t) == Some(v)
      {
        WithoutThreatTheKeyStays(k, s, acts, n, t, v);
      }
    }
    if Stays(Agreeing, k, s, n, t, v) { ThreatsForbidStaying(Agreeing, k, s, n, t, v); }
  }

  // ---------- the key that a rotation has committed ----------

  /** Resource `n`, while it exists, is for this key and target, and no open rotation can commit over it. */
  ghost predicate Committed(k: Keys, s: State, n: string, t: Target, v: Bytes) {
    n in s.server.crs ==>
      var c := s.server.crs[n];
      && k.decrypt(c.ciphertext) == Some(v) && Primary(c.output) == t
      && forall q :: q in s.procs && (s.procs[q].RNew? || s.procs[q].RUpdate?) && s.procs[q].cr == n ==>
           s.procs[q].copy.rv < c.rv
  }

  lemma CommittedReadsAgree(k: Keys, s: State, a: Action, n: string, t: Target, v: Bytes)
    requires Committed(k, s, n, t, v) && Enabled(k, s, a) && Allows(Current, k, s, a, n, t, v)
    ensures Allows(Agreeing, k, s, a, n, t, v)
  {
  }

  lemma CommitIsRefused(k: Keys, s: State, p: nat, n: string, t: Target, v: Bytes)
    requires Committed(k, s, n, t, v) && p in s.procs && s.procs[p].RUpdate?
    ensures SameResource(s.server, Commit(k, s.server, s.procs[p]).server, n)
  {
  }

  /** No process changes what `n` is for. */
  lemma MoverKeepsResource(k: Keys, s: State, a: Action, n: string, t: Target, v: Bytes)
    requires Inv(k, s) && Committed(k, s, n, t, v) && Enabled(k, s, a)
    requires !a.ApplyCr? && !a.DeleteCr? && !a.DeleteSecret?
    ensures SameResource(s.server, ProcMove(k, s, a).server, n)
  {
    if a.BFinalizer? || a.BFinish? {
      assert ProcOk(k, s.server, s.procs[a.p]);
      RefreshKeepsResource(k, s.server, s.procs[a.p].cr, s.procs[a.p].copy, n);
    } else if a.RCommit? {
      CommitIsRefused(k, s, a.p, n, t, v);
    } else {
      MoverKeepsResources(k, s, a);
    }
  }

  /** What a rotation that is about to mint holds is older than the resource, or it may not mint. */
  lemma MinterIsBehind(k: Keys, s: State, a: Action, n: string, t: Target, v: Bytes)
    requires Inv(k, s) && Committed(k, s, n, t, v) && Enabled(k, s, a) && Allows(Current, k, s, a, n, t, v) && a.RMint?
    ensures n in s.server.crs && s.procs[a.p].cr == n ==> s.procs[a.p].copy.rv < s.server.crs[n].rv
  {
    assert ProcOk(k, s.server, s.procs[a.p]);
  }

  lemma OnlyMintersAndSendersMayCommit(k: Keys, s: State, a: Action)
    requires Enabled(k, s, a) && !a.ApplyCr? && !a.DeleteCr? && !a.DeleteSecret? && !a.RMint? && !a.RSendNew?
    ensures var next := ProcMove(k, s, a).next; next.Some? ==> !next.value.RNew? && !next.value.RUpdate?
  {
  }

  /** A process that is about to commit to `n` has read an older version of it. */
  lemma MoverIsBehind(k: Keys, s: State, a: Action, n: string, t: Target, v: Bytes)
    requires Inv(k, s) && Committed(k, s, n, t, v) && Enabled(k, s, a) && Allows(Current, k, s, a, n, t, v)
    requires !a.ApplyCr? && !a.DeleteCr? && !a.DeleteSecret?
    ensures var next := ProcMove(k, s, a).next;
            n in s.server.crs && next.Some? && (next.value.RNew? || next.value.RUpdate?) && next.value.cr == n ==>
              next.value.copy.rv < s.server.crs[n].rv
  {
    if a.RMint? {
      MinterIsBehind(k, s, a, n, t, v);
    } else if !a.RSendNew? {
      OnlyMintersAndSendersMayCommit(k, s, a);
    }
  }

  lemma StepKeepsCommitted(k: Keys, s: State, a: Action, n: string, t: Target, v: Bytes)
    requires Inv(k, s) && Committed(k, s, n, t, v) && Enabled(k, s, a) && Allows(Current, k, s, a, n, t, v)
    ensures Committed(k, Step(k, s, a), n, t, v)
  {
    var s' := Step(k, s, a);
    if !a.ApplyCr? && !a.DeleteCr? && !a.DeleteSecret? {
      MoverKeepsResource(k, s, a, n, t, v);
      MoverIsBehind(k, s, a, n, t, v);
      assert forall q :: q in s'.procs && q != a.p ==> q in s.procs && s'.procs[q] == s.procs[q];
    }
  }

  lemma {:induction false} CurrentIsAgreeing(k: Keys, s: State, acts: seq<Action>, n: string, t: Target, v: Bytes)
    requires Inv(k, s) && Committed(k, s, n, t, v) && RunUnder(Current, k, s, acts, n, t, v)
    ensures RunUnder(Agreeing, k, s, acts, n, t, v) && Run(k, s, acts).Some?
    ensures Inv(k, Run(k, s, acts).value) && Committed(k, Run(k, s, acts).value, n, t, v)
    decreases |acts|
  {
    if acts != [] {
      var init, a := acts[..|acts| - 1], acts[|acts| - 1];
      CurrentIsAgreeing(k, s, init, n, t, v);
      CommittedReadsAgree(k, Run(k, s, init).value, a, n, t, v);
      StepKeepsCommitted(k, Run(k, s, init).value, a, n, t, v);
      StepKeepsInv(k, Run(k, s, init).value, a);
    }
  }

  /** A commit that is accepted leaves a committed key. */
  lemma CommitCommits(k: Keys, s: State, p: nat)
    requires Inv(k, s) && p in s.procs && s.procs[p].RUpdate?
    requires s.procs[p].cr in s.server.crs && s.server.crs[s.procs[p].cr].rv == s.procs[p].copy.rv
    ensures var r := s.procs[p]; Committed(k, Step(k, s, RCommit(p)), r.cr, Primary(r.copy.output), r.key)
  {
    var s' := Step(k, s, RCommit(p));
    assert ProcOk(k, s.server, s.procs[p]);
    forall q | q in s'.procs && (s'.procs[q].RNew? || s'.procs[q].RUpdate?) && s'.procs[q].cr == s.procs[p].cr
      ensures s'.procs[q].copy.rv < s'.server.crs[s.procs[p].cr].rv
    {
      assert ProcOk(k, s.server, s.procs[q]);
    }
  }

  /** Whoever threatens a committed key holds another version than the one that is stored. */
  lemma ThreatsAreStale(k: Keys, s: State, n: string, t: Target, v: Bytes, q: nat)
    requires Inv(k, s) && Committed(k, s, n, t, v) && n in s.server.crs
    requires q in s.procs && Threat(k, s.procs[q], t, v)
    ensures (s.procs[q].cr, s.procs[q].copy) != (n, s.server.crs[n])
    ensures s.procs[q].cr == n ==> s.procs[q].copy.rv < s.server.crs[n].rv
  {
    assert ProcOk(k, s.server, s.procs[q]);
  }

  /**
   After every accepted commit of every history: if the primary secret holds the new key, then it
   keeps it in all continuations that read current versions, leave the resource and the secret alone
   and start no further rotation of it, if and only if no process is a threat; and every threat holds
   an older version of the resource, or a version of another one that names the same secret.
   */
  lemma CommittedKeyStaysExactly(k: Keys, history: seq<Action>, p: nat)
    requires Run(k, EMPTY, history).Some?
    requires var s := Run(k, EMPTY, history).value;
             && p in s.procs && s.procs[p].RUpdate? && s.procs[p].cr in s.server.crs
             && s.server.crs[s.procs[p].cr].rv == s.procs[p].copy.rv
             && HeldAt(s.server, Primary(s.procs[p].copy.output)) == Some(s.procs[p].key)
    ensures var s := Run(k, EMPTY, history).value;
            var r, s' := s.procs[p], Step(k, s, RCommit(p));
            var n, t, v := r.cr, Primary(r.copy.output), r.key;
            && n in s'.server.crs && k.decrypt(s'.server.crs[n].ciphertext) == Some(v)
            && (Stays(Current, k, s', n, t, v) <==> NoThreat(k, s', t, v))
            && forall q :: q in s'.procs && Threat(k, s'.procs[q], t, v) ==>
                 && (s'.procs[q].cr, s'.procs[q].copy) != (n, s'.server.crs[n])
                 && (s'.procs[q].cr == n ==> s'.procs[q].copy.rv < s'.server.crs[n].rv)
  {
    InvAlways(k, history);
    var s := Run(k, EMPTY, history).value;
    var r, s' := s.procs[p], Step(k, s, RCommit(p));
    var n, t, v := r.cr, Primary(r.copy.output), r.key;
    assert ProcOk(k, s.server, r);
    CommitCommits(k, s, p);
    StepKeepsInv(k, s, RCommit(p));
    CommittedStays(k, s', n, t, v);
    forall q | q in s'.procs && Threat(k, s'.procs[q], t, v)
      ensures (s'.procs[q].cr, s'.procs[q].copy) != (n, s'.server.crs[n])
      ensures s'.procs[q].cr == n ==> s'.procs[q].copy.rv < s'.server.crs[n].rv
    {
      ThreatsAreStale(k, s', n, t, v, q);
    }
  }

  lemma CommittedStays(k: Keys, s: State, n: string, t: Target, v: Bytes)
    requires Inv(k, s) && Committed(k, s, n, t, v) && HeldAt(s.server, t) == Some(v)
    ensures Stays(Current, k, s, n, t, v) <==> NoThreat(k, s, t, v)
  {
    if NoThreat(k, s, t, v) {
      forall acts | RunUnder(Current, k, s, acts, n, t, v)
        ensures Run(k, s, acts).Some? && HeldAt(Run(k, s, acts).value.server, t) == Some(v)
      {
        CurrentIsAgreeing(k, s, acts, n, t, v);
        WithoutThreatTheKeyStays(k, s, acts, n, t, v);
      }
    }
    if Stays(Current, k, s, n, t, v) { ThreatsForbidStaying(Current, k, s, n, t, v); }
  }
}
