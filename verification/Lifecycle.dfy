/**
 The lifecycle machine (genesis-core/src/state.rs): its typed transitions, the wrapper that holds
 key material during injection, and runs of any length.

 A transition maps a machine to an `Outcome`: the next machine (none when the transition consumed
 its machine and failed), the audit events it emitted and the secrets it left behind.
 */
module Lifecycle {
  import opened Base
  import opened Kms
  import opened Injection

  datatype Config = Config(providerType: string, publicKey: Option<string>, envelope: Option<Bytes>)

  datatype Machine =
    | Uninitialized(config: Config)
    | Initialized(config: Config)
    | Bootstrapping(config: Config, key: Bytes)
    | Active(config: Config)
    | Rotating(config: Config)
    | Degraded(config: Config)

  datatype AuditEvent =
    | EvInit(publicKey: string)
    | EvVerify(success: bool)
    | EvSeal(length: nat)
    | EvUnseal(length: nat)
    | EvBeginBootstrap
    | EvInjectSecret(name: string, namespace: string, zeroed: bool)
    | EvAbortBootstrap
    | EvBootstrappingDropped
    | EvBeginRotation
    | EvCompleteRotation(newPublicKey: string)
    | EvAbortRotation
    | EvRecoverFromDegraded

  datatype Error =
    | NoEnvelope
    | NoPublicKey
    | InvalidTransition
    | InvalidInput
    | AgeKeyGenFailed
    | AgeEncryptFailed
    | AgeDecryptFailed
    | KmsCallFailed
    | K8sInjectFailed

  function ErrorCode(e: Error): nat {
    match e
    case NoEnvelope => 100
    case NoPublicKey => 101
    case InvalidTransition => 102
    case InvalidInput => 103
    case AgeKeyGenFailed => 200
    case AgeEncryptFailed => 201
    case AgeDecryptFailed => 202
    case KmsCallFailed => 300
    case K8sInjectFailed => 401
  }

  /** The KMS and age, as functions; the last argument of `ageEncrypt` is its randomness. */
  datatype Crypto = Crypto(
    kms: Kms,
    agePublic: Bytes -> Option<string>,
    ageEncrypt: (string, Bytes, nat) -> Option<Bytes>,
    ageDecrypt: (Bytes, Bytes) -> Option<Bytes>)
  {
    ghost predicate Lawful() {
      && kms.Lawful()
      && forall id: Bytes, rcpt: string, p: Bytes, r: nat ::
           agePublic(id) == Some(rcpt) && ageEncrypt(rcpt, p, r).Some?
           ==> ageDecrypt(id, ageEncrypt(rcpt, p, r).value) == Some(p)
    }

    function Encrypt(up: bool, p: Bytes, nonce: nat): Option<Bytes> {
      if up then kms.encrypt(p, nonce) else None
    }

    function Decrypt(up: bool, ciphertext: Bytes): Option<Bytes> {
      if up then kms.decrypt(ciphertext) else None
    }
  }

  /** A fresh private key with the randomness of its encryption, and whether the KMS answers. */
  datatype Mint = Mint(newKey: Bytes, nonce: nat, kmsUp: bool)

  /** One injection of a list: where to, and how the network behaves. */
  datatype Hop = Hop(target: Target, link: Link)

  function TargetsOf(hops: seq<Hop>): seq<Target> {
    seq(|hops|, i requires 0 <= i < |hops| => hops[i].target)
  }

  function LinksOf(hops: seq<Hop>): seq<Link> {
    seq(|hops|, i requires 0 <= i < |hops| => hops[i].link)
  }

  datatype Op =
    | Init(mint: Mint)
    | Load(publicKey: string, envelope: Bytes)
    | Verify(kmsUp: bool)
    | Seal(plaintext: Bytes, draw: nat)
    | Unseal(ciphertext: Bytes, kmsUp: bool)
    | BeginBootstrap(kmsUp: bool)
    | InjectSecret(hop: Hop, owner: Option<string>)
    | InjectSecrets(hops: seq<Hop>, owner: Option<string>)
    | Abort
    | Drop
    | Status
    | BeginRotation
    | CompleteRotation(mint: Mint, hop: Hop, owner: Option<string>)
    | AbortRotation
    | Retry(kmsUp: bool)

  datatype Outcome = Outcome(next: Option<Machine>, events: seq<AuditEvent>, store: Store, error: Option<Error>)

  function Moved(m: Machine, events: seq<AuditEvent>, store: Store): Outcome {
    Outcome(Some(m), events, store, None)
  }

  function Consumed(events: seq<AuditEvent>, store: Store, e: Error): Outcome {
    Outcome(None, events, store, Some(e))
  }

  function Refused(m: Machine, store: Store, e: Error): Outcome {
    Outcome(Some(m), [], store, Some(e))
  }

  function WithKeys(cfg: Config, publicKey: string, envelope: Bytes): Config {
    cfg.(publicKey := Some(publicKey), envelope := Some(envelope))
  }

  function DoInit(c: Crypto, cfg: Config, store: Store, mint: Mint): Outcome {
    var publicKey := c.agePublic(mint.newKey);
    if publicKey.None? then Consumed([], store, AgeKeyGenFailed) else
    var envelope := c.Encrypt(mint.kmsUp, mint.newKey, mint.nonce);
    if envelope.None? then Consumed([], store, KmsCallFailed) else
    Moved(Initialized(WithKeys(cfg, publicKey.value, envelope.value)), [EvInit(publicKey.value)], store)
  }

  /** Whether the key in the envelope belongs to the stored public key. */
  function VerifyAnswer(c: Crypto, cfg: Config, kmsUp: bool): Result<bool, Error> {
    if cfg.envelope.None? then Err(NoEnvelope)
    else if cfg.publicKey.None? then Err(NoPublicKey)
    else
      var key := c.Decrypt(kmsUp, cfg.envelope.value);
      if key.None? then Err(KmsCallFailed)
      else if c.agePublic(key.value).None? then Err(AgeKeyGenFailed)
      else Ok(c.agePublic(key.value) == cfg.publicKey)
  }

  function DoVerify(c: Crypto, m: Machine, store: Store, kmsUp: bool): Outcome {
    match VerifyAnswer(c, m.config, kmsUp)
    case Err(e) => Refused(m, store, e)
    case Ok(b) => Moved(m, [EvVerify(b)], store)
  }

  function SealAnswer(c: Crypto, cfg: Config, plaintext: Bytes, draw: nat): Result<Bytes, Error> {
    if cfg.publicKey.None? then Err(NoPublicKey)
    else if c.ageEncrypt(cfg.publicKey.value, plaintext, draw).None? then Err(AgeEncryptFailed)
    else Ok(c.ageEncrypt(cfg.publicKey.value, plaintext, draw).value)
  }

  function UnsealAnswer(c: Crypto, cfg: Config, ciphertext: Bytes, kmsUp: bool): Result<Bytes, Error> {
    if cfg.envelope.None? then Err(NoEnvelope)
    else
      var key := c.Decrypt(kmsUp, cfg.envelope.value);
      if key.None? then Err(KmsCallFailed)
      else if c.ageDecrypt(key.value, ciphertext).None? then Err(AgeDecryptFailed)
      else Ok(c.ageDecrypt(key.value, ciphertext).value)
  }

  // Both emit their event before the age operation that may still fail.
  function DoSeal(c: Crypto, m: Machine, store: Store, plaintext: Bytes, draw: nat): Outcome {
    match SealAnswer(c, m.config, plaintext, draw)
    case Ok(_) => Moved(m, [EvSeal(|plaintext|)], store)
    case Err(e) => Outcome(Some(m), if e.NoPublicKey? then [] else [EvSeal(|plaintext|)], store, Some(e))
  }

  function DoUnseal(c: Crypto, m: Machine, store: Store, ciphertext: Bytes, kmsUp: bool): Outcome {
    match UnsealAnswer(c, m.config, ciphertext, kmsUp)
    case Ok(_) => Moved(m, [EvUnseal(|ciphertext|)], store)
    case Err(e) => Outcome(Some(m), if e.AgeDecryptFailed? then [EvUnseal(|ciphertext|)] else [], store, Some(e))
  }

  function DoBeginBootstrap(c: Crypto, cfg: Config, store: Store, kmsUp: bool): Outcome {
    if cfg.envelope.None? then Consumed([], store, NoEnvelope) else
    var key := c.Decrypt(kmsUp, cfg.envelope.value);
    if key.None? then Consumed([], store, KmsCallFailed)
    else Moved(Bootstrapping(cfg, key.value), [EvBeginBootstrap], store)
  }

  /** One event per target; only the last says that the key material is gone. */
  function InjectEvents(ts: seq<Target>): (events: seq<AuditEvent>)
    ensures |events| == |ts|
  {
    if ts == [] then []
    else [EvInjectSecret(ts[0].name, ts[0].namespace, |ts| == 1)] + InjectEvents(ts[1..])
  }

  function DoInjectAll(cfg: Config, key: Bytes, store: Store, hops: seq<Hop>, owner: Option<string>): Outcome {
    var ts, links, metadata := TargetsOf(hops), LinksOf(hops), Metadata(cfg.publicKey, owner);
    var after := AllInjected(store, key, ts, metadata, links);
    // refused before the key material is taken, so the wrapper is dropped with it
    if hops == [] then Consumed([EvBootstrappingDropped], store, InvalidInput)
    else if Injection.Progress(store, key, ts, metadata, links) < |ts| then Consumed([], after, K8sInjectFailed)
    else Moved(Active(cfg), InjectEvents(ts), after)
  }

  function DoInject(cfg: Config, key: Bytes, store: Store, hop: Hop, owner: Option<string>): Outcome {
    var t, metadata := hop.target, Metadata(cfg.publicKey, owner);
    var after := InjectedStore(store, key, t, metadata, hop.link);
    if !Succeeds(store, t, hop.link) then Consumed([], after, K8sInjectFailed)
    else Moved(Active(cfg), [EvInjectSecret(t.name, t.namespace, true)], after)
  }

  function DoCompleteRotation(
    c: Crypto, cfg: Config, store: Store, mint: Mint, hop: Hop, owner: Option<string>): Outcome
  {
    var publicKey := c.agePublic(mint.newKey);
    if publicKey.None? then Consumed([], store, AgeKeyGenFailed) else
    var envelope := c.Encrypt(mint.kmsUp, mint.newKey, mint.nonce);
    if envelope.None? then Consumed([], store, KmsCallFailed) else
    var after := InjectedStore(store, mint.newKey, hop.target, Metadata(publicKey, owner), hop.link);
    if !Succeeds(store, hop.target, hop.link) then Consumed([], after, K8sInjectFailed)
    else Moved(
      Active(WithKeys(cfg, publicKey.value, envelope.value)), [EvCompleteRotation(publicKey.value)], after)
  }

  function DoRetry(c: Crypto, cfg: Config, store: Store, kmsUp: bool): Outcome {
    if cfg.envelope.None? then Consumed([], store, NoEnvelope)
    else if c.Decrypt(kmsUp, cfg.envelope.value).None? then Consumed([], store, KmsCallFailed)
    else Moved(Active(cfg), [EvRecoverFromDegraded], store)
  }

  /** One operation on a machine; an operation its state does not offer changes nothing. */
  function Apply(c: Crypto, m: Machine, store: Store, op: Op): Outcome {
    match (m, op)
    case (Uninitialized(cfg), Init(mint)) => DoInit(c, cfg, store, mint)
    case (Uninitialized(cfg), Load(pk, env)) => Moved(Initialized(WithKeys(cfg, pk, env)), [], store)
    case (Initialized(_), Verify(up)) => DoVerify(c, m, store, up)
    case (Initialized(_), Seal(p, draw)) => DoSeal(c, m, store, p, draw)
    case (Initialized(_), Unseal(ct, up)) => DoUnseal(c, m, store, ct, up)
    case (Initialized(cfg), BeginBootstrap(up)) => DoBeginBootstrap(c, cfg, store, up)
    case (Bootstrapping(cfg, key), InjectSecret(hop, owner)) => DoInject(cfg, key, store, hop, owner)
    case (Bootstrapping(cfg, key), InjectSecrets(hops, owner)) => DoInjectAll(cfg, key, store, hops, owner)
    case (Bootstrapping(cfg, _), Abort) => Moved(Initialized(cfg), [EvAbortBootstrap], store)
    case (Bootstrapping(_, _), Drop) => Outcome(None, [EvBootstrappingDropped], store, None)
    case (_, Drop) => Outcome(None, [], store, None)
    case (Active(_), Status) => Moved(m, [], store)
    case (Active(cfg), BeginRotation) => Moved(Rotating(cfg), [EvBeginRotation], store)
    case (Rotating(cfg), CompleteRotation(mint, hop, owner)) => DoCompleteRotation(c, cfg, store, mint, hop, owner)
    case (Rotating(cfg), AbortRotation) => Moved(Active(cfg), [EvAbortRotation], store)
    case (Degraded(cfg), Retry(up)) => DoRetry(c, cfg, store, up)
    case _ => Refused(m, store, InvalidTransition)
  }

  // ---------- the bootstrapping wrapper ----------

  /** Both fields are options so that a consuming call can take them before the wrapper is dropped. */
  class GenesisBootstrapping {
    var inner: Option<Config>
    var keyMaterial: Option<Bytes>
    var log: seq<AuditEvent>

    constructor (config: Config, key: Bytes)
      ensures inner == Some(config) && keyMaterial == Some(key) && log == []
    {
      inner, keyMaterial, log := Some(config), Some(key), [];
    }

    /** The destructor: an alert when the key material was never taken. */
    method Dropped()
      modifies this
      ensures inner.None? && keyMaterial.None?
      ensures log == if old(keyMaterial).Some? && old(inner).Some? then old(log) + [EvBootstrappingDropped] else old(log)
    {
      if keyMaterial.Some? && inner.Some? {
        log := log + [EvBootstrappingDropped];
      }
      inner, keyMaterial := None, None;
    }

    method InjectSecretWithMetadata(api: ApiServer, hop: Hop, owner: Option<string>)
      returns (r: Result<Config, Error>)
      requires inner.Some? && keyMaterial.Some?
      modifies this, api
      ensures var o := DoInject(old(inner).value, old(keyMaterial).value, old(api.secrets), hop, owner);
              && log == old(log) + o.events && api.secrets == o.store
              && (o.next.Some? ==> r == Ok(o.next.value.config)) && (o.next.None? ==> r == Err(o.error.value))
      ensures inner.None? && keyMaterial.None?
    {
      var key := keyMaterial.value;
      keyMaterial := None;
      var metadata := Metadata(inner.value.publicKey, owner);
      var sent := Inject(api, key, hop.target, metadata, hop.link);
      if !sent {
        Dropped();
        return Err(K8sInjectFailed);
      }
      var config := inner.value;
      inner := None;
      log := log + [EvInjectSecret(hop.target.name, hop.target.namespace, true)];
      Dropped();
      r := Ok(config);
    }

    method EmitInjections(targets: seq<Target>)
      modifies `log
      ensures log == old(log) + InjectEvents(targets)
    {
      for i := 0 to |targets|
        invariant log + InjectEvents(targets[i..]) == old(log) + InjectEvents(targets)
      {
        assert targets[i..][1..] == targets[i + 1..];
        log := log + [EvInjectSecret(targets[i].name, targets[i].namespace, i == |targets| - 1)];
      }
    }

    method InjectSecretsMulti(api: ApiServer, hops: seq<Hop>, owner: Option<string>)
      returns (r: Result<Config, Error>)
      requires inner.Some? && keyMaterial.Some?
      modifies this, api
      ensures var o := DoInjectAll(old(inner).value, old(keyMaterial).value, old(api.secrets), hops, owner);
              && log == old(log) + o.events && api.secrets == o.store
              && (o.next.Some? ==> r == Ok(o.next.value.config)) && (o.next.None? ==> r == Err(o.error.value))
      ensures inner.None? && keyMaterial.None?
    {
      var metadata := Metadata(inner.value.publicKey, owner);
      var targets, links := TargetsOf(hops), LinksOf(hops);
      if |targets| == 0 {
        Dropped();
        return Err(InvalidInput);
      }
      var key := keyMaterial.value;
      keyMaterial := None;
      var sent := InjectAll(api, key, targets, metadata, links);
      if !sent {
        Dropped();
        return Err(K8sInjectFailed);
      }
      var config := inner.value;
      inner := None;
      EmitInjections(targets);
      Dropped();
      r := Ok(config);
    }

    method Abort() returns (config: Config)
      requires inner.Some?
      modifies this
      ensures config == old(inner).value
      ensures log == old(log) + [EvAbortBootstrap]
      ensures inner.None? && keyMaterial.None?
    {
      keyMaterial := None;
      config := inner.value;
      inner := None;
      log := log + [EvAbortBootstrap];
      Dropped();
    }
  }

  // ---------- the audit bracket ----------

  datatype Phase = Closed | Open | MidRun | Broken

  function NextPhase(p: Phase, e: AuditEvent): Phase {
    match (p, e)
    case (Closed, EvBeginBootstrap) => Open
    case (Closed, EvInjectSecret(_, _, _)) => Broken
    case (Closed, EvAbortBootstrap) => Broken
    case (Closed, EvBootstrappingDropped) => Broken
    case (Closed, _) => Closed
    case (Open, EvInjectSecret(_, _, zeroed)) => if zeroed then Closed else MidRun
    case (Open, EvAbortBootstrap) => Closed
    case (Open, EvBootstrappingDropped) => Closed
    case (MidRun, EvInjectSecret(_, _, zeroed)) => if zeroed then Closed else MidRun
    case _ => Broken
  }

  /** Reads a log from left to right, starting in phase `p`. */
  function ReadLog(p: Phase, log: seq<AuditEvent>): Phase
    decreases |log|
  {
    if log == [] then p else ReadLog(NextPhase(p, log[0]), log[1..])
  }

  lemma {:induction false} ReadLogConcat(p: Phase, a: seq<AuditEvent>, b: seq<AuditEvent>)
    ensures ReadLog(p, a + b) == ReadLog(ReadLog(p, a), b)
    decreases |a|
  {
    if a == [] {
      assert a + b == b;
    } else {
      assert (a + b)[1..] == a[1..] + b;
      ReadLogConcat(NextPhase(p, a[0]), a[1..], b);
    }
  }

  lemma {:induction false} InjectEventsClose(p: Phase, ts: seq<Target>)
    requires ts != [] && (p == Open || p == MidRun)
    ensures ReadLog(p, InjectEvents(ts)) == Closed
    decreases |ts|
  {
    var e := EvInjectSecret(ts[0].name, ts[0].namespace, |ts| == 1);
    assert InjectEvents(ts)[1..] == InjectEvents(ts[1..]);
    if |ts| > 1 {
      InjectEventsClose(MidRun, ts[1..]);
    } else {
      assert InjectEvents(ts) == [e];
    }
  }

  // ---------- runs ----------

  /**
   A machine together with its log, the cluster's secrets, the targets its last injection still
   holds, and whether it has minted a keypair itself.
   */
  datatype Life = Life(
    machine: Option<Machine>, log: seq<AuditEvent>, store: Store, held: set<Target>, minted: bool)

  /** Either the machine's owner acts, or somebody else writes or deletes a secret. */
  datatype Happening = Do(op: Op) | Foreign(id: SecretId, secret: Option<Secret>)

  /** The targets of a list that still hold the key when the whole list has been written: the last in each secret. */
  function Survivors(ts: seq<Target>): set<Target> {
    set i | 0 <= i < |ts| && LastNaming(ts, |ts|, ts[i].Id(), i) :: ts[i]
  }

  function HeldAfter(l: Life, op: Op): set<Target> {
    match op
    case InjectSecret(hop, _) => {hop.target}
    case InjectSecrets(hops, _) => Survivors(TargetsOf(hops))
    case CompleteRotation(_, hop, _) => {hop.target}
    case _ => l.held
  }

  function Happen(c: Crypto, l: Life, h: Happening): Life {
    match h
    case Foreign(id, secret) =>
      l.(store := if secret.Some? then l.store[id := secret.value] else l.store - {id},
         held := set t | t in l.held && t.Id() != id)
    case Do(op) =>
      if l.machine.None? then l else
      var o := Apply(c, l.machine.value, l.store, op);
      Life(o.next, l.log + o.events, o.store,
           if o.error.None? then HeldAfter(l, op) else l.held,
           l.minted || (o.error.None? && (op.Init? || op.CompleteRotation?)))
  }

  function Run(c: Crypto, l: Life, hs: seq<Happening>): Life {
    if hs == [] then l else Happen(c, Run(c, l, hs[..|hs| - 1]), hs[|hs| - 1])
  }

  function Birth(cfg: Config, store: Store): Life {
    Life(Some(Uninitialized(cfg)), [], store, {}, false)
  }

  /**
   After an injection that works, the machine's targets are those whose secret no later target of the list
   names; after a rotation, its one target; and somebody else's write takes away only the targets in its secret.
   */
  lemma WhatIsHeld(c: Crypto, l: Life, h: Happening)
    requires l.machine.Some? && (h.Do? ==> Apply(c, l.machine.value, l.store, h.op).error.None?)
    ensures var l' := Happen(c, l, h);
            match h
            case Foreign(id, _) => forall t :: t in l'.held <==> t in l.held && t.Id() != id
            case Do(op) =>
              && (op.InjectSecret? || op.CompleteRotation? ==> l'.held == {op.hop.target})
              && (op.InjectSecrets? ==>
                    forall i :: 0 <= i < |op.hops| && LastNaming(TargetsOf(op.hops), |op.hops|, op.hops[i].target.Id(), i)
                      ==> op.hops[i].target in l'.held)
              && (!op.InjectSecret? && !op.InjectSecrets? && !op.CompleteRotation? ==> l'.held == l.held)
  {
    if h.Do? && h.op.InjectSecrets? {
      var hops, ts := h.op.hops, TargetsOf(h.op.hops);
      forall i | 0 <= i < |hops| && LastNaming(ts, |hops|, hops[i].target.Id(), i) ensures hops[i].target in Survivors(ts) {
        assert ts[i] == hops[i].target;
      }
    }
  }

  /** The envelope decrypts to a key whose public key is the stored one. */
  ghost predicate Matched(c: Crypto, cfg: Config) {
    && cfg.envelope.Some? && c.kms.decrypt(cfg.envelope.value).Some?
    && cfg.publicKey.Some? && c.agePublic(c.kms.decrypt(cfg.envelope.value).value) == cfg.publicKey
  }

  /** The secrets in `held` contain the key inside the envelope, and nothing else, labelled with its public key. */
  ghost predicate HoldsEnvelopeKey(c: Crypto, cfg: Config, store: Store, held: set<Target>) {
    forall t :: t in held ==>
      && cfg.envelope.Some? && c.kms.decrypt(cfg.envelope.value).Some?
      && t.Id() in store && store[t.Id()].metadata.publicKey == cfg.publicKey
      && store[t.Id()].data == map[t.key := c.kms.decrypt(cfg.envelope.value).value]
  }

  ghost predicate MachineAgrees(c: Crypto, m: Machine, store: Store, held: set<Target>, minted: bool) {
    && !m.Degraded?
    && (minted ==> !m.Uninitialized? && Matched(c, m.config))
    && (m.Bootstrapping? ==> m.config.envelope.Some? && c.kms.decrypt(m.config.envelope.value) == Some(m.key))
    && (m.Active? || m.Rotating? ==> HoldsEnvelopeKey(c, m.config, store, held))
  }

  ghost predicate KeysAgree(c: Crypto, l: Life) {
    l.machine.Some? ==> MachineAgrees(c, l.machine.value, l.store, l.held, l.minted)
  }

  /** The phase a log is in while its machine is in this state. */
  function PhaseOf(m: Machine): Phase {
    if m.Bootstrapping? then Open else Closed
  }

  ghost predicate Bracketed(l: Life) {
    var p := ReadLog(Closed, l.log);
    if l.machine.None? then p == Closed || p == Open else p == PhaseOf(l.machine.value)
  }

  lemma InitMatches(c: Crypto, cfg: Config, store: Store, mint: Mint)
    requires c.Lawful() && DoInit(c, cfg, store, mint).error.None?
    ensures Matched(c, DoInit(c, cfg, store, mint).next.value.config)
  {
  }

  /** A completed rotation moves its one target to the new key, with the new label; no other secret changes. */
  lemma CompleteRotationAgrees(
    c: Crypto, cfg: Config, store: Store, mint: Mint, hop: Hop, owner: Option<string>)
    requires c.Lawful() && DoCompleteRotation(c, cfg, store, mint, hop, owner).error.None?
    ensures var o := DoCompleteRotation(c, cfg, store, mint, hop, owner);
            && MachineAgrees(c, o.next.value, o.store, {hop.target}, true)
            && o.next.value.config.publicKey == c.agePublic(mint.newKey)
            && o.store == store[hop.target.Id() := Secret(map[hop.target.key := mint.newKey],
                                                          Metadata(c.agePublic(mint.newKey), owner))]
  {
  }

  lemma InjectAllAgrees(
    c: Crypto, m: Machine, store: Store, hops: seq<Hop>, owner: Option<string>, held: set<Target>, minted: bool)
    requires m.Bootstrapping? && MachineAgrees(c, m, store, held, minted)
    requires DoInjectAll(m.config, m.key, store, hops, owner).error.None?
    ensures var o := DoInjectAll(m.config, m.key, store, hops, owner);
            MachineAgrees(c, o.next.value, o.store, Survivors(TargetsOf(hops)), minted)
  {
    var o := DoInjectAll(m.config, m.key, store, hops, owner);
    var ts, metadata := TargetsOf(hops), Metadata(m.config.publicKey, owner);
    FailsExactlyWhen(store, m.key, ts, metadata, LinksOf(hops));
    AllWritten(store, m.key, ts, metadata, LinksOf(hops));
    forall t | t in Survivors(ts) ensures t.Id() in o.store && o.store[t.Id()] == Secret(map[t.key := m.key], metadata) {
      var i :| 0 <= i < |ts| && LastNaming(ts, |ts|, ts[i].Id(), i) && ts[i] == t;
    }
  }

  lemma KeyOpAgrees(c: Crypto, l: Life, op: Op)
    requires c.Lawful() && l.machine.Some? && KeysAgree(c, l)
    requires op.Init? || op.InjectSecrets? || op.CompleteRotation?
    ensures KeysAgree(c, Happen(c, l, Do(op)))
  {
    var m := l.machine.value;
    var o := Apply(c, m, l.store, op);
    match (m, op) {
      case (Uninitialized(cfg), Init(mint)) =>
        if o.error.None? { InitMatches(c, cfg, l.store, mint); }
      case (Bootstrapping(_, _), InjectSecrets(hops, owner)) =>
        if o.error.None? { InjectAllAgrees(c, m, l.store, hops, owner, l.held, l.minted); }
      case (Rotating(cfg), CompleteRotation(mint, hop, owner)) =>
        if o.error.None? { CompleteRotationAgrees(c, cfg, l.store, mint, hop, owner); }
      case _ =>
    }
  }

  lemma ApplyAgrees(c: Crypto, l: Life, op: Op)
    requires c.Lawful() && l.machine.Some? && KeysAgree(c, l)
    ensures KeysAgree(c, Happen(c, l, Do(op)))
  {
    if op.Init? || op.InjectSecrets? || op.CompleteRotation? {
      KeyOpAgrees(c, l, op);
    }
  }

  lemma HappenKeepsKeys(c: Crypto, l: Life, h: Happening)
    requires c.Lawful() && KeysAgree(c, l)
    ensures KeysAgree(c, Happen(c, l, h))
  {
    if h.Do? && l.machine.Some? {
      ApplyAgrees(c, l, h.op);
    }
  }

  /** What one operation logs takes the phase of its machine to the phase of the next one. */
  lemma ApplyKeepsPhase(c: Crypto, m: Machine, store: Store, op: Op)
    ensures var o := Apply(c, m, store, op);
            var p := ReadLog(PhaseOf(m), o.events);
            if o.next.None? then p == Closed || p == Open else p == PhaseOf(o.next.value)
  {
    var o := Apply(c, m, store, op);
    if m.Bootstrapping? && op.InjectSecrets? && o.next.Some? {
      InjectEventsClose(Open, TargetsOf(op.hops));
    } else {
      assert |o.events| <= 1;
      if |o.events| == 1 {
        assert o.events[1..] == [];
        assert ReadLog(PhaseOf(m), o.events) == NextPhase(PhaseOf(m), o.events[0]);
      }
    }
  }

  lemma HappenKeepsBracket(c: Crypto, l: Life, h: Happening)
    requires Bracketed(l)
    ensures Bracketed(Happen(c, l, h))
  {
    if h.Do? && l.machine.Some? {
      ApplyKeepsPhase(c, l.machine.value, l.store, h.op);
      ReadLogConcat(Closed, l.log, Apply(c, l.machine.value, l.store, h.op).events);
    }
  }

  lemma {:induction false} RunKeepsKeys(c: Crypto, l: Life, hs: seq<Happening>)
    requires c.Lawful() && KeysAgree(c, l)
    ensures KeysAgree(c, Run(c, l, hs))
  {
    if hs != [] {
      RunKeepsKeys(c, l, hs[..|hs| - 1]);
      HappenKeepsKeys(c, Run(c, l, hs[..|hs| - 1]), hs[|hs| - 1]);
    }
  }

  lemma {:induction false} RunKeepsBracket(c: Crypto, l: Life, hs: seq<Happening>)
    requires Bracketed(l)
    ensures Bracketed(Run(c, l, hs))
  {
    if hs != [] {
      RunKeepsBracket(c, l, hs[..|hs| - 1]);
      HappenKeepsBracket(c, Run(c, l, hs[..|hs| - 1]), hs[|hs| - 1]);
    }
  }

  /** The event that records a new keypair, with its public key. */
  function MintedIn(e: AuditEvent): Option<string> {
    match e
    case EvInit(publicKey) => Some(publicKey)
    case EvCompleteRotation(publicKey) => Some(publicKey)
    case _ => None
  }

  /** The public key that a log last recorded as new. */
  function LastMinted(log: seq<AuditEvent>): Option<string> {
    if log == [] then None
    else if MintedIn(log[|log| - 1]).Some? then MintedIn(log[|log| - 1])
    else LastMinted(log[..|log| - 1])
  }

  lemma {:induction false} LastMintedConcat(a: seq<AuditEvent>, b: seq<AuditEvent>)
    ensures LastMinted(a + b) == if LastMinted(b).Some? then LastMinted(b) else LastMinted(a)
    decreases |b|
  {
    if b == [] {
      assert a + b == a;
    } else {
      assert (a + b)[..|a + b| - 1] == a + b[..|b| - 1];
      LastMintedConcat(a, b[..|b| - 1]);
    }
  }

  lemma {:induction false} InjectionsMintNothing(ts: seq<Target>)
    ensures LastMinted(InjectEvents(ts)) == None
    decreases |ts|
  {
    if ts != [] {
      var first := [EvInjectSecret(ts[0].name, ts[0].namespace, |ts| == 1)];
      assert first[..0] == [];
      InjectionsMintNothing(ts[1..]);
      LastMintedConcat(first, InjectEvents(ts[1..]));
    }
  }

  lemma ShortLogs(c: Crypto, m: Machine, store: Store, op: Op)
    requires !(m.Bootstrapping? && op.InjectSecrets?)
    ensures |Apply(c, m, store, op).events| <= 1
  {
  }

  lemma LastOfShort(events: seq<AuditEvent>)
    requires |events| <= 1
    ensures LastMinted(events) == if |events| == 1 then MintedIn(events[0]) else None
  {
    if |events| == 1 { assert events[..0] == []; }
  }

  lemma ApplyLogsMinting(c: Crypto, m: Machine, store: Store, op: Op)
    ensures var o := Apply(c, m, store, op);
            if (op.Init? || op.CompleteRotation?) && o.error.None?
            then
              && o.next.Some? && !o.next.value.Uninitialized?
              && LastMinted(o.events).Some? && LastMinted(o.events) == o.next.value.config.publicKey
            else
              && LastMinted(o.events) == None
              && (o.next.Some? && !m.Uninitialized? ==>
                    !o.next.value.Uninitialized? && o.next.value.config.publicKey == m.config.publicKey)
  {
    var o := Apply(c, m, store, op);
    if m.Bootstrapping? && op.InjectSecrets? {
      InjectionsMintNothing(TargetsOf(op.hops));
      if o.next.None? { LastOfShort(o.events); }
    } else {
      ShortLogs(c, m, store, op);
      LastOfShort(o.events);
    }
  }

  ghost predicate LogNamesTheKey(l: Life) {
    && (l.minted <==> LastMinted(l.log).Some?)
    && (l.minted && l.machine.Some? ==>
          !l.machine.value.Uninitialized? && l.machine.value.config.publicKey == LastMinted(l.log))
  }

  lemma OutcomeNamesTheKey(l: Life, o: Outcome, mints: bool, held: set<Target>)
    requires LogNamesTheKey(l) && l.machine.Some?
    requires mints ==>
               && o.next.Some? && !o.next.value.Uninitialized?
               && LastMinted(o.events).Some? && LastMinted(o.events) == o.next.value.config.publicKey
    requires !mints ==>
               && LastMinted(o.events) == None
               && (o.next.Some? && !l.machine.value.Uninitialized? ==>
                     !o.next.value.Uninitialized? && o.next.value.config.publicKey == l.machine.value.config.publicKey)
    ensures LogNamesTheKey(Life(o.next, l.log + o.events, o.store, held, l.minted || mints))
  {
    LastMintedConcat(l.log, o.events);
  }

  lemma HappenNamesTheKey(c: Crypto, l: Life, h: Happening)
    requires LogNamesTheKey(l)
    ensures LogNamesTheKey(Happen(c, l, h))
  {
    if h.Do? && l.machine.Some? {
      var o := Apply(c, l.machine.value, l.store, h.op);
      ApplyLogsMinting(c, l.machine.value, l.store, h.op);
      OutcomeNamesTheKey(
        l, o, o.error.None? && (h.op.Init? || h.op.CompleteRotation?), if o.error.None? then HeldAfter(l, h.op) else l.held);
    }
  }

  /**
   The audit log tells which key is in force: in every run, a machine has minted exactly when its log
   says so, and then its public key is the one that the log recorded last.
   */
  lemma {:induction false} AuditNamesTheKey(c: Crypto, cfg: Config, store: Store, hs: seq<Happening>)
    ensures LogNamesTheKey(Run(c, Birth(cfg, store), hs))
  {
    if hs != [] {
      AuditNamesTheKey(c, cfg, store, hs[..|hs| - 1]);
      HappenNamesTheKey(c, Run(c, Birth(cfg, store), hs[..|hs| - 1]), hs[|hs| - 1]);
    }
  }

  /** A successful injection logs its targets in order, and only the last event says that the key is gone. */
  lemma {:induction false} OneEventPerTarget(ts: seq<Target>, i: nat)
    requires i < |ts|
    ensures InjectEvents(ts)[i] == EvInjectSecret(ts[i].name, ts[i].namespace, i == |ts| - 1)
    decreases |ts|
  {
    if i > 0 {
      OneEventPerTarget(ts[1..], i - 1);
    }
  }

  /**
   In every run of every machine: once its log shows a minted keypair, the public key is the last one
   logged and belongs to the envelope, verification with a reachable KMS answers true and unsealing
   undoes sealing; in any case verification tells the truth; while the machine is active or rotating,
   the secrets of its last injection that nobody else touched hold the key in its envelope, whether
   that was minted or loaded; and it never degrades.
   */
  lemma KeysAgreeInEveryRun(c: Crypto, cfg: Config, store: Store, hs: seq<Happening>)
    requires c.Lawful()
    ensures var l := Run(c, Birth(cfg, store), hs);
            l.machine.Some? ==>
              var m := l.machine.value;
              && !m.Degraded?
              && (LastMinted(l.log).Some? ==>
                    && m.config.publicKey == LastMinted(l.log) && Matched(c, m.config)
                    && VerifyAnswer(c, m.config, true) == Ok(true)
                    && forall p: Bytes, draw: nat :: SealAnswer(c, m.config, p, draw).Ok? ==>
                         UnsealAnswer(c, m.config, SealAnswer(c, m.config, p, draw).value, true) == Ok(p))
              && (VerifyAnswer(c, m.config, true).Ok? ==>
                    (VerifyAnswer(c, m.config, true).value <==> Matched(c, m.config)))
              && (m.Active? || m.Rotating? ==> HoldsEnvelopeKey(c, m.config, l.store, l.held))
  {
    RunKeepsKeys(c, Birth(cfg, store), hs);
    AuditNamesTheKey(c, cfg, store, hs);
  }

  lemma {:induction false} MintedStays(c: Crypto, l: Life, hs: seq<Happening>, more: seq<Happening>)
    requires Run(c, l, hs).minted
    ensures Run(c, l, hs + more).minted
    decreases |more|
  {
    if more == [] {
      assert hs + more == hs;
    } else {
      MintedStays(c, l, hs, more[..|more| - 1]);
      assert (hs + more)[..|hs + more| - 1] == hs + more[..|more| - 1];
    }
  }

  /**
   Whatever was loaded and whatever happens later: from the first initialisation or completed rotation
   that works, for the rest of the run, public key and envelope belong together.
   */
  lemma MintingIsForGood(
    c: Crypto, cfg: Config, store: Store, hs: seq<Happening>, op: Op, more: seq<Happening>)
    requires c.Lawful() && (op.Init? || op.CompleteRotation?)
    requires var l := Run(c, Birth(cfg, store), hs);
             l.machine.Some? && Apply(c, l.machine.value, l.store, op).error.None?
    ensures var end := Run(c, Birth(cfg, store), hs + [Do(op)] + more);
            end.machine.Some? ==>
              Matched(c, end.machine.value.config) && end.machine.value.config.publicKey == LastMinted(end.log)
  {
    assert (hs + [Do(op)])[..|hs|] == hs;
    MintedStays(c, Birth(cfg, store), hs + [Do(op)], more);
    RunKeepsKeys(c, Birth(cfg, store), hs + [Do(op)] + more);
    AuditNamesTheKey(c, cfg, store, hs + [Do(op)] + more);
  }

  /** The audit log of every run obeys the bracket rule, and no injection run is ever cut short. */
  lemma BracketRule(c: Crypto, cfg: Config, store: Store, hs: seq<Happening>)
    ensures Bracketed(Run(c, Birth(cfg, store), hs))
    ensures ReadLog(Closed, Run(c, Birth(cfg, store), hs).log) in {Closed, Open}
  {
    RunKeepsBracket(c, Birth(cfg, store), hs);
  }

  /** The injection that the operation attempts fails, by an error of the injector or by a panic. */
  predicate InjectionFails(store: Store, op: Op) {
    match op
    case InjectSecret(hop, _) => !(hop.link.post.Served? && (hop.target.Id() in store ==> hop.link.put.Served?))
    case InjectSecrets(hops, _) => exists i :: 0 <= i < |hops| && !HopWorks(store, TargetsOf(hops), LinksOf(hops), i)
    case _ => false
  }

  predicate EndsBootstrap(op: Op) {
    op.InjectSecret? || op.InjectSecrets? || op.Abort? || op.Drop?
  }

  /**
   How a bootstrap's bracket is left: open if and only if an injection was attempted and failed, by an
   error or a panic, and then nothing is logged; closed by everything else that ends a bootstrap.  The drop
   alert is raised exactly when the wrapper goes away with its key material untaken.
   */
  lemma BracketStaysOpenExactly(c: Crypto, cfg: Config, key: Bytes, store: Store, op: Op)
    requires EndsBootstrap(op)
    ensures var o := Apply(c, Bootstrapping(cfg, key), store, op);
            && (o.next.Some? ==> !o.next.value.Bootstrapping?)
            && ReadLog(Open, o.events) == (if InjectionFails(store, op) then Open else Closed)
            && (InjectionFails(store, op) <==> o.events == [])
            && (InjectionFails(store, op) ==> o.next.None?)
            && (EvBootstrappingDropped in o.events <==> op.Drop? || (op.InjectSecrets? && op.hops == []))
  {
    var o := Apply(c, Bootstrapping(cfg, key), store, op);
    if op.InjectSecrets? {
      var ts := TargetsOf(op.hops);
      FailsExactlyWhen(store, key, ts, Metadata(cfg.publicKey, op.owner), LinksOf(op.hops));
      NoAlertAmongInjections(ts);
      if o.next.Some? { InjectEventsClose(Open, ts); }
    }
    if |o.events| == 1 { assert o.events[1..] == []; }
  }

  lemma {:induction false} NoAlertAmongInjections(ts: seq<Target>)
    ensures EvBootstrappingDropped !in InjectEvents(ts)
  {
    if ts != [] {
      NoAlertAmongInjections(ts[1..]);
    }
  }
}
