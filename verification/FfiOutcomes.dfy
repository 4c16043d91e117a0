/**
 What every entry point of the C ABI answers on a live handle, case by case: which arguments are refused and
 with which code, when the machine is lost, and what success leaves.
 */
module FfiOutcomes {
  import opened Base
  import opened Injection
  import opened Lifecycle
  import opened Ffi

  // ---------- arguments ----------

  /** The state that a call is meant for. */
  predicate RightState(m: Machine, call: Call) {
    match call
    case CInit(_, _, _) => m.Uninitialized?
    case CLoad(_, _) => m.Uninitialized?
    case CVerify(_, _, _) => m.Initialized?
    case CBeginBootstrap(_, _) => m.Initialized?
    case CInjectSecret(_, _, _, _, _, _, _) => m.Bootstrapping?
    case CInjectSecrets(_, _, _, _, _) => m.Bootstrapping?
    case CStatus => m.Active?
    case CBeginRotation => m.Active?
    case CCompleteRotation(_, _, _, _, _, _, _, _, _, _) => m.Rotating?
    case CAbortRotation => m.Rotating?
  }

  /** The KMS configuration text parses. */
  predicate Parses(k: KmsArg) {
    k.json.Text? && k.wellFormed
  }

  predicate AllText(name: CStr, namespace: CStr, key: CStr) {
    name.Text? && namespace.Text? && key.Text?
  }

  /** All arguments are accepted and everything that the call has to build is built. */
  predicate Accepts(call: Call) {
    match call
    case CInit(kms, _, _) => Parses(kms) && kms.provider.Built?
    case CLoad(publicKey, envelope) => publicKey.Text? && envelope != []
    case CVerify(kms, _, panics) => Parses(kms) && kms.provider.Built? && !panics
    case CBeginBootstrap(kms, _) => Parses(kms) && kms.provider.Built?
    case CInjectSecret(name, ns, key, injector, _, _, _) => AllText(name, ns, key) && injector.Built?
    case CInjectSecrets(json, hops, injector, _, _) => json.Text? && hops.Some? && injector.Built?
    case CCompleteRotation(kms, _, name, ns, key, injector, _, _, _, _) =>
      Parses(kms) && kms.provider.Built? && AllText(name, ns, key) && injector.Built?
    case _ => true
  }

  /** A constructor that is reached panics, or the verification itself does. */
  predicate Explodes(call: Call) {
    match call
    case CInit(kms, _, _) => Parses(kms) && kms.provider.Panics?
    case CVerify(kms, _, panics) => Parses(kms) && (kms.provider.Panics? || (kms.provider.Built? && panics))
    case CBeginBootstrap(kms, _) => Parses(kms) && kms.provider.Panics?
    case CInjectSecret(name, ns, key, injector, _, _, _) => AllText(name, ns, key) && injector.Panics?
    case CInjectSecrets(json, hops, injector, _, _) => json.Text? && hops.Some? && injector.Panics?
    case CCompleteRotation(kms, _, name, ns, key, injector, _, _, _, _) =>
      Parses(kms) && (kms.provider.Panics? || (kms.provider.Built? && AllText(name, ns, key) && injector.Panics?))
    case _ => false
  }

  /** Null and text that is not UTF-8 give 1, malformed JSON 500, a provider that is not built its own code. */
  predicate KmsComplains(k: KmsArg, code: nat) {
    || (!k.json.Text? && code == 1)
    || (k.json.Text? && !k.wellFormed && code == 500)
    || (Parses(k) && k.provider == NotBuilt(code))
  }

  predicate InjectionComplains(name: CStr, namespace: CStr, key: CStr, injector: Ready, code: nat) {
    || (!AllText(name, namespace, key) && code == 1)
    || (AllText(name, namespace, key) && injector == NotBuilt(code))
  }

  /** The first argument that is not accepted is reported with this code. */
  predicate Complains(call: Call, code: nat) {
    match call
    case CInit(kms, _, _) => KmsComplains(kms, code)
    case CLoad(publicKey, envelope) =>
      (!publicKey.Text? && code == 1) || (publicKey.Text? && envelope == [] && code == 100)
    case CVerify(kms, _, _) => KmsComplains(kms, code)
    case CBeginBootstrap(kms, _) => KmsComplains(kms, code)
    case CInjectSecret(name, ns, key, injector, _, _, _) => InjectionComplains(name, ns, key, injector, code)
    case CInjectSecrets(json, hops, injector, _, _) =>
      || (!json.Text? && code == 1)
      || (json.Text? && hops.None? && code == 400)
      || (json.Text? && hops.Some? && injector == NotBuilt(code))
    case CCompleteRotation(kms, _, name, ns, key, injector, _, _, _, _) =>
      KmsComplains(kms, code) || (Parses(kms) && kms.provider.Built? && InjectionComplains(name, ns, key, injector, code))
    case _ => false
  }

  lemma ChecksExactly(call: Call, code: nat)
    ensures Check(call).None? <==> Accepts(call)
    ensures Check(call) == Some(Panicked) <==> Explodes(call)
    ensures Check(call) == Some(Recover(code)) <==> Complains(call, code)
  {
  }

  lemma NeedsExactly(m: Machine, call: Call)
    ensures TagOf(m) == Needs(call) <==> RightState(m, call)
  {
  }

  // ---------- answers ----------

  ghost predicate Live(w: Heap, h: Handle, at: nat) {
    h.ptr != 0 && h.ptr in w.boxes && Fresh(w, h, at)
  }

  /** The same machine and log are boxed again, under its own tag, and nothing else changes. */
  predicate Kept(w: Heap, h: Handle, at: nat, w': Heap, r: FfiResult, code: nat)
    requires h.ptr in w.boxes
  {
    && w' == w.(boxes := (w.boxes - {h.ptr})[at := w.boxes[h.ptr]])
    && !r.success && r.code == code && r.handle.ptr == at
    && match w.boxes[h.ptr].machine
       case Uninitialized(_) => r.handle.tag == TagUninitialized
       case Initialized(_) => r.handle.tag == TagInitialized
       case Bootstrapping(_, _) => r.handle.tag == TagBootstrapping
       case Active(_) => r.handle.tag == TagActive
       case Rotating(_) => r.handle.tag == TagRotating
       case Degraded(_) => r.handle.tag == TagDegraded
  }

  /** The machine is gone, its log ends with these events, and a null handle comes back. */
  predicate Gone(w: Heap, h: Handle, w': Heap, r: FfiResult, code: nat, events: seq<AuditEvent>, store: Store)
    requires h.ptr in w.boxes
  {
    && w' == w.(boxes := w.boxes - {h.ptr}, store := store, retired := w.retired + [w.boxes[h.ptr].log + events],
                lost := w.lost + 1)
    && r == FfiResult(false, code, Handle(0, TagUninitialized))
  }

  /** The next machine is boxed under this tag, its log grown by these events. */
  predicate Went(
    w: Heap, h: Handle, at: nat, w': Heap, r: FfiResult, m: Machine, tag: StateTag, events: seq<AuditEvent>, store: Store)
    requires h.ptr in w.boxes
  {
    && w' == w.(boxes := (w.boxes - {h.ptr})[at := Boxed(m, w.boxes[h.ptr].log + events)], store := store)
    && r.success && r.code == 0 && r.handle == Handle(at, tag)
  }

  /** Likewise, but the artifacts do not serialise: an error that carries the new machine. */
  predicate WentUnserialised(
    w: Heap, h: Handle, at: nat, w': Heap, r: FfiResult, m: Machine, tag: StateTag, events: seq<AuditEvent>, store: Store)
    requires h.ptr in w.boxes
  {
    Went(w, h, at, w', r.(success := true, code := 0), m, tag, events, store) && !r.success && r.code == 500
  }

  /**
   Before its transition a call keeps the machine, the log and the secrets: with code 102 in the wrong
   state, and in the right state with the code of the first argument that is not accepted.  It loses the
   machine exactly when a constructor that it reached panics, and then a bootstrapping one raises its alert.
   */
  lemma RefusedOrLostBeforehand(c: Crypto, w: Heap, h: Handle, call: Call, at: nat, code: nat)
    requires Live(w, h, at)
    ensures var (w', r) := Entry(c, w, h, call, at);
            var m := w.boxes[h.ptr].machine;
            && (!RightState(m, call) ==> Kept(w, h, at, w', r, 102))
            && (RightState(m, call) && Complains(call, code) ==> Kept(w, h, at, w', r, code))
            && (RightState(m, call) && Explodes(call) ==>
                  Gone(w, h, w', r, 999, if m.Bootstrapping? then [EvBootstrappingDropped] else [], w.store))
    ensures Accepts(call) || Explodes(call) || exists n: nat :: Complains(call, n)
  {
    NeedsExactly(w.boxes[h.ptr].machine, call);
    ChecksExactly(call, code);
    if Check(call).Some? && Check(call).value.Recover? {
      ChecksExactly(call, Check(call).value.code);
    }
  }

  /** The key of the envelope, as long as the KMS answers. */
  function EnvelopeKey(c: Crypto, cfg: Config, up: bool): Option<Bytes> {
    if up && cfg.envelope.Some? then c.kms.decrypt(cfg.envelope.value) else None
  }

  lemma InitAnswers(c: Crypto, w: Heap, h: Handle, call: Call, at: nat)
    requires Live(w, h, at) && call.CInit? && w.boxes[h.ptr].machine.Uninitialized? && Accepts(call)
    ensures var (w', r) := Entry(c, w, h, call, at);
            var cfg := w.boxes[h.ptr].machine.config;
            var publicKey, envelope := c.agePublic(call.mint.newKey), c.kms.encrypt(call.mint.newKey, call.mint.nonce);
            var m := Initialized(cfg.(publicKey := publicKey, envelope := envelope));
            && (publicKey.None? ==> Gone(w, h, w', r, 200, [], w.store))
            && (publicKey.Some? && !(call.mint.kmsUp && envelope.Some?) ==> Gone(w, h, w', r, 300, [], w.store))
            && (publicKey.Some? && call.mint.kmsUp && envelope.Some? ==>
                  var events := [EvInit(publicKey.value)];
                  if call.serializes then Went(w, h, at, w', r, m, TagInitialized, events, w.store)
                  else WentUnserialised(w, h, at, w', r, m, TagInitialized, events, w.store))
  {
    ChecksExactly(call, 0);
  }

  lemma LoadAnswers(c: Crypto, w: Heap, h: Handle, call: Call, at: nat)
    requires Live(w, h, at) && call.CLoad? && w.boxes[h.ptr].machine.Uninitialized? && Accepts(call)
    ensures var (w', r) := Entry(c, w, h, call, at);
            var cfg := w.boxes[h.ptr].machine.config;
            var m := Initialized(Config(cfg.providerType, Some(call.publicKey.s), Some(call.envelope)));
            Went(w, h, at, w', r, m, TagInitialized, [], w.store)
  {
    ChecksExactly(call, 0);
  }

  lemma VerifyAnswers(c: Crypto, w: Heap, h: Handle, call: Call, at: nat)
    requires Live(w, h, at) && call.CVerify? && w.boxes[h.ptr].machine.Initialized? && Accepts(call)
    ensures var (w', r) := Entry(c, w, h, call, at);
            var m := w.boxes[h.ptr].machine;
            var key := EnvelopeKey(c, m.config, call.kmsUp);
            && (m.config.envelope.None? ==> Kept(w, h, at, w', r, 100))
            && (m.config.envelope.Some? && m.config.publicKey.None? ==> Kept(w, h, at, w', r, 101))
            && (m.config.envelope.Some? && m.config.publicKey.Some? && key.None? ==> Kept(w, h, at, w', r, 300))
            && (key.Some? && m.config.publicKey.Some? && c.agePublic(key.value).None? ==> Kept(w, h, at, w', r, 200))
            && (key.Some? && m.config.publicKey.Some? && c.agePublic(key.value).Some? ==>
                  var events := [EvVerify(c.agePublic(key.value) == m.config.publicKey)];
                  Went(w, h, at, w', r, m, TagInitialized, events, w.store))
  {
    ChecksExactly(call, 0);
    assert w.boxes[h.ptr].log + [] == w.boxes[h.ptr].log;
  }

  lemma BeginBootstrapAnswers(c: Crypto, w: Heap, h: Handle, call: Call, at: nat)
    requires Live(w, h, at) && call.CBeginBootstrap? && w.boxes[h.ptr].machine.Initialized? && Accepts(call)
    ensures var (w', r) := Entry(c, w, h, call, at);
            var cfg := w.boxes[h.ptr].machine.config;
            var key := EnvelopeKey(c, cfg, call.kmsUp);
            && (cfg.envelope.None? ==> Gone(w, h, w', r, 100, [], w.store))
            && (cfg.envelope.Some? && key.None? ==> Gone(w, h, w', r, 300, [], w.store))
            && (key.Some? ==>
                  Went(w, h, at, w', r, Bootstrapping(cfg, key.value), TagBootstrapping, [EvBeginBootstrap], w.store))
  {
    ChecksExactly(call, 0);
  }

  /** What one injection leaves of the secrets. */
  function Sent(store: Store, key: Bytes, t: Target, metadata: Metadata, link: Link): Store {
    var arrived := if t.Id() in store then link.post.Served? && !link.put.RequestLost? else !link.post.RequestLost?;
    if arrived then store[SecretId(t.namespace, t.name) := Secret(map[t.key := key], metadata)] else store
  }

  predicate Works(store: Store, t: Target, link: Link) {
    link.post.Served? && (SecretId(t.namespace, t.name) in store ==> link.put.Served?)
  }

  lemma InjectSecretAnswers(c: Crypto, w: Heap, h: Handle, call: Call, at: nat)
    requires Live(w, h, at) && call.CInjectSecret? && w.boxes[h.ptr].machine.Bootstrapping? && Accepts(call)
    ensures var (w', r) := Entry(c, w, h, call, at);
            var m := w.boxes[h.ptr].machine;
            var t := Target(call.name.s, call.namespace.s, call.key.s);
            var after := Sent(w.store, m.key, t, Metadata(m.config.publicKey, call.owner), call.link);
            if Works(w.store, t, call.link)
            then Went(w, h, at, w', r, Active(m.config), TagActive, [EvInjectSecret(t.name, t.namespace, true)], after)
            else Gone(w, h, w', r, if call.panics then 999 else 401, [], after)
  {
    ChecksExactly(call, 0);
  }

  predicate AllWork(store: Store, ts: seq<Target>, links: seq<Link>)
    requires |links| == |ts|
  {
    forall i :: 0 <= i < |ts| ==> HopWorks(store, ts, links, i)
  }

  /** The network fails the list at target `n` first, and these are the secrets then. */
  ghost predicate BrokeOffAt(
    store: Store, key: Bytes, ts: seq<Target>, metadata: Metadata, links: seq<Link>, n: nat, after: Store)
    requires |links| == |ts|
  {
    && n < |ts| && (forall i :: 0 <= i < n ==> HopWorks(store, ts, links, i)) && !HopWorks(store, ts, links, n)
    && WrittenUpTo(store, key, ts, metadata, n + if HopLands(store, ts, links, n) then 1 else 0, after)
  }

  lemma BreaksOffWhere(store: Store, key: Bytes, ts: seq<Target>, metadata: Metadata, links: seq<Link>)
    requires |links| == |ts| && !AllWork(store, ts, links)
    ensures Injection.Progress(store, key, ts, metadata, links) < |ts|
    ensures exists n: nat ::
              BrokeOffAt(store, key, ts, metadata, links, n, AllInjected(store, key, ts, metadata, links))
  {
    FailsExactlyWhen(store, key, ts, metadata, links);
    StopsAtFirstFailure(store, key, ts, metadata, links);
    assert BrokeOffAt(store, key, ts, metadata, links, Injection.Progress(store, key, ts, metadata, links),
                      AllInjected(store, key, ts, metadata, links));
  }

  lemma ListOutcome(cfg: Config, key: Bytes, store: Store, hops: seq<Hop>, owner: Option<string>)
    ensures var o := DoInjectAll(cfg, key, store, hops, owner);
            var ts, links, metadata := TargetsOf(hops), LinksOf(hops), Metadata(cfg.publicKey, owner);
            if hops == [] then o == Outcome(None, [EvBootstrappingDropped], store, Some(InvalidInput))
            else if AllWork(store, ts, links) then
              && o == Outcome(Some(Active(cfg)), InjectEvents(ts), o.store, None)
              && WrittenUpTo(store, key, ts, metadata, |ts|, o.store)
            else
              && o == Outcome(None, [], o.store, Some(K8sInjectFailed))
              && exists n: nat :: BrokeOffAt(store, key, ts, metadata, links, n, o.store)
  {
    var ts, links, metadata := TargetsOf(hops), LinksOf(hops), Metadata(cfg.publicKey, owner);
    if AllWork(store, ts, links) {
      FailsExactlyWhen(store, key, ts, metadata, links);
      AllWritten(store, key, ts, metadata, links);
    } else {
      BreaksOffWhere(store, key, ts, metadata, links);
    }
  }

  /** A list is refused when it is empty, works when the network serves all of it, and is lost where it does not. */
  lemma InjectSecretsAnswers(c: Crypto, w: Heap, h: Handle, call: Call, at: nat)
    requires Live(w, h, at) && call.CInjectSecrets? && w.boxes[h.ptr].machine.Bootstrapping? && Accepts(call)
    ensures var (w', r) := Entry(c, w, h, call, at);
            var m, hops := w.boxes[h.ptr].machine, call.hops.value;
            var ts, links, metadata := TargetsOf(hops), LinksOf(hops), Metadata(m.config.publicKey, call.owner);
            if hops == [] then Gone(w, h, w', r, 103, [EvBootstrappingDropped], w.store)
            else if AllWork(w.store, ts, links) then
              && Went(w, h, at, w', r, Active(m.config), TagActive, InjectEvents(ts), w'.store)
              && WrittenUpTo(w.store, m.key, ts, metadata, |ts|, w'.store)
            else
              && Gone(w, h, w', r, if call.panics then 999 else 401, [], w'.store)
              && exists n: nat :: BrokeOffAt(w.store, m.key, ts, metadata, links, n, w'.store)
  {
    ChecksExactly(call, 0);
    var m := w.boxes[h.ptr].machine;
    ListOutcome(m.config, m.key, w.store, call.hops.value, call.owner);
  }

  lemma ActiveAnswers(c: Crypto, w: Heap, h: Handle, at: nat)
    requires Live(w, h, at) && w.boxes[h.ptr].machine.Active?
    ensures var (w', r) := Entry(c, w, h, CStatus, at);
            Went(w, h, at, w', r, w.boxes[h.ptr].machine, TagActive, [], w.store)
    ensures var (w', r) := Entry(c, w, h, CBeginRotation, at);
            Went(w, h, at, w', r, Rotating(w.boxes[h.ptr].machine.config), TagRotating, [EvBeginRotation], w.store)
  {
  }

  lemma AbortRotationAnswers(c: Crypto, w: Heap, h: Handle, at: nat)
    requires Live(w, h, at) && w.boxes[h.ptr].machine.Rotating?
    ensures var (w', r) := Entry(c, w, h, CAbortRotation, at);
            Went(w, h, at, w', r, Active(w.boxes[h.ptr].machine.config), TagActive, [EvAbortRotation], w.store)
  {
  }

  lemma CompleteRotationAnswers(c: Crypto, w: Heap, h: Handle, call: Call, at: nat)
    requires Live(w, h, at) && call.CCompleteRotation? && w.boxes[h.ptr].machine.Rotating? && Accepts(call)
    ensures var (w', r) := Entry(c, w, h, call, at);
            var cfg := w.boxes[h.ptr].machine.config;
            var publicKey, envelope := c.agePublic(call.mint.newKey), c.kms.encrypt(call.mint.newKey, call.mint.nonce);
            var t := Target(call.name.s, call.namespace.s, call.key.s);
            var after := Sent(w.store, call.mint.newKey, t, Metadata(publicKey, call.owner), call.link);
            && (publicKey.None? ==> Gone(w, h, w', r, 200, [], w.store))
            && (publicKey.Some? && !(call.mint.kmsUp && envelope.Some?) ==> Gone(w, h, w', r, 300, [], w.store))
            && (publicKey.Some? && call.mint.kmsUp && envelope.Some? ==>
                  var m := Active(cfg.(publicKey := publicKey, envelope := envelope));
                  var events := [EvCompleteRotation(publicKey.value)];
                  if !Works(w.store, t, call.link) then Gone(w, h, w', r, if call.panics then 999 else 401, [], after)
                  else if call.serializes then Went(w, h, at, w', r, m, TagActive, events, after)
                  else WentUnserialised(w, h, at, w', r, m, TagActive, events, after))
  {
    ChecksExactly(call, 0);
  }

  // ---------- operations that only Rust callers have ----------

  /** The states whose type has the operation. */
  predicate Offers(m: Machine, op: Op) {
    match op
    case Init(_) => m.Uninitialized?
    case Load(_, _) => m.Uninitialized?
    case Verify(_) => m.Initialized?
    case Seal(_, _) => m.Initialized?
    case Unseal(_, _) => m.Initialized?
    case BeginBootstrap(_) => m.Initialized?
    case InjectSecret(_, _) => m.Bootstrapping?
    case InjectSecrets(_, _) => m.Bootstrapping?
    case Abort => m.Bootstrapping?
    case Drop => true
    case Status => m.Active?
    case BeginRotation => m.Active?
    case CompleteRotation(_, _, _) => m.Rotating?
    case AbortRotation => m.Rotating?
    case Retry(_) => m.Degraded?
  }

  lemma OthersChangeNothing(c: Crypto, m: Machine, store: Store, op: Op)
    ensures !Offers(m, op) ==> Apply(c, m, store, op) == Outcome(Some(m), [], store, Some(InvalidTransition))
  {
  }

  /** Sealing and unsealing keep the machine; each logs its event once it has its key, before age may fail. */
  lemma SealAndUnseal(c: Crypto, cfg: Config, store: Store, text: Bytes, draw: nat, up: bool)
    ensures var m, o := Initialized(cfg), Apply(c, Initialized(cfg), store, Seal(text, draw));
            && o.next == Some(m) && o.store == store
            && o.events == (if cfg.publicKey.Some? then [EvSeal(|text|)] else [])
            && o.error == (if cfg.publicKey.None? then Some(NoPublicKey)
                           else if c.ageEncrypt(cfg.publicKey.value, text, draw).None? then Some(AgeEncryptFailed)
                           else None)
    ensures SealAnswer(c, cfg, text, draw).Ok?
            <==> cfg.publicKey.Some? && c.ageEncrypt(cfg.publicKey.value, text, draw).Some?
    ensures SealAnswer(c, cfg, text, draw).Ok? ==>
              Some(SealAnswer(c, cfg, text, draw).value) == c.ageEncrypt(cfg.publicKey.value, text, draw)
    ensures var m, o := Initialized(cfg), Apply(c, Initialized(cfg), store, Unseal(text, up));
            var key := EnvelopeKey(c, cfg, up);
            && o.next == Some(m) && o.store == store
            && o.events == (if key.Some? then [EvUnseal(|text|)] else [])
            && o.error == (if cfg.envelope.None? then Some(NoEnvelope) else if key.None? then Some(KmsCallFailed)
                           else if c.ageDecrypt(key.value, text).None? then Some(AgeDecryptFailed) else None)
    ensures var key := EnvelopeKey(c, cfg, up);
            && (UnsealAnswer(c, cfg, text, up).Ok? <==> key.Some? && c.ageDecrypt(key.value, text).Some?)
            && (UnsealAnswer(c, cfg, text, up).Ok? ==>
                  Some(UnsealAnswer(c, cfg, text, up).value) == c.ageDecrypt(key.value, text))
  {
  }

  /** Going back, going away and coming back. */
  lemma AbortDropAndRetry(c: Crypto, cfg: Config, key: Bytes, m: Machine, store: Store, up: bool)
    ensures Apply(c, Bootstrapping(cfg, key), store, Abort)
         == Outcome(Some(Initialized(cfg)), [EvAbortBootstrap], store, None)
    ensures Apply(c, m, store, Drop)
         == Outcome(None, if m.Bootstrapping? then [EvBootstrappingDropped] else [], store, None)
    ensures Apply(c, Degraded(cfg), store, Retry(up))
         == if EnvelopeKey(c, cfg, up).Some? then Outcome(Some(Active(cfg)), [EvRecoverFromDegraded], store, None)
            else Outcome(None, [], store, Some(if cfg.envelope.None? then NoEnvelope else KmsCallFailed))
  {
  }
}
