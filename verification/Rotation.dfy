/**
 The rotation executor (internal/controller/genesisrotationpolicy_controller.go): the whole bridge
 flow from a stored envelope to a new key, run against the C-ABI shell.
 */
module Rotation {
  import opened Base
  import opened Injection
  import opened Lifecycle
  import opened Ffi
  import opened FfiOutcomes
  import opened FfiRuns
  import opened Bridge

  /**
   One rotation's inputs: the resource's envelope, the target, and how the KMS, the injector and the
   network behave, each for the old key and again for the new one.
   */
  datatype Turn = Turn(
    json: CStr, config: Option<Config>, ciphertext: Option<Bytes>, publicKey: string, target: Target, owner: Option<string>,
    kms: KmsArg, kmsUp: bool, injector: Ready, link: Link, panics: bool,
    kmsAgain: KmsArg, mint: Mint, injectorAgain: Ready, linkAgain: Link, serializes: bool, panicsAgain: bool)
  {
    function LoadCall(): Call
      requires ciphertext.Some?
    {
      CLoad(Text(publicKey), ciphertext.value)
    }

    function BeginCall(): Call { CBeginBootstrap(kms, kmsUp) }

    function InjectCall(): Call {
      CInjectSecret(Text(target.name), Text(target.namespace), Text(target.key), injector, link, owner, panics)
    }

    function CompleteCall(): Call {
      CCompleteRotation(
        kmsAgain, mint, Text(target.name), Text(target.namespace), Text(target.key), injectorAgain, linkAgain, owner,
        serializes, panicsAgain)
    }

    function Loaded(): Config
      requires config.Some? && ciphertext.Some?
    {
      WithKeys(config.value, publicKey, ciphertext.value)
    }

    predicate Loads() {
      json.Text? && config.Some? && ciphertext.Some? && ciphertext.value != []
    }

    /** The old key can be had. */
    predicate Decrypts(c: Crypto) {
      Loads() && Parses(kms) && kms.provider.Built? && kmsUp && c.kms.decrypt(ciphertext.value).Some?
    }

    function OldKey(c: Crypto): Bytes
      requires Decrypts(c)
    {
      c.kms.decrypt(ciphertext.value).value
    }

    /** The old key has been written once more, so the machine is active and then rotating. */
    predicate Arrives(c: Crypto, store: Store) {
      Decrypts(c) && injector.Built? && Works(store, target, link)
    }

    /** The secrets once the old key has been written. */
    function Before(c: Crypto, store: Store): Store
      requires Arrives(c, store)
    {
      store[target.Id() := Secret(map[target.key := OldKey(c)], Metadata(Some(publicKey), owner))]
    }

    /** The secrets once the new key has been written over it. */
    function After(c: Crypto, store: Store): Store {
      store[target.Id() := Secret(map[target.key := mint.newKey], Metadata(c.agePublic(mint.newKey), owner))]
    }

    /** Decryption or the old key's injection loses the machine. */
    predicate LosesEarly(c: Crypto, store: Store) {
      && Loads() && Parses(kms)
      && (|| kms.provider.Panics?
          || (kms.provider.Built? && !Decrypts(c))
          || (Decrypts(c) && (injector.Panics? || (injector.Built? && !Works(store, target, link)))))
    }

    /** Minting the new key or its injection into the secret, which is there by now, loses the machine. */
    predicate LosesLate(c: Crypto, store: Store) {
      && Arrives(c, store) && Parses(kmsAgain)
      && (|| kmsAgain.provider.Panics?
          || (kmsAgain.provider.Built? && injectorAgain.Panics?)
          || (kmsAgain.provider.Built? && injectorAgain.Built?
              && !(CanMint(c, mint) && linkAgain.post.Served? && linkAgain.put.Served?)))
    }

    /** Everything that a rotation needs works. */
    predicate Rotates(c: Crypto, store: Store) {
      && Arrives(c, store) && Parses(kmsAgain) && kmsAgain.provider.Built? && injectorAgain.Built?
      && CanMint(c, mint) && linkAgain.post.Served? && linkAgain.put.Served?
    }
  }

  datatype Artifacts = Artifacts(publicKey: string, envelope: Bytes)

  /** A call in the right state settles with its check or with its transition. */
  lemma CallSettles(
    c: Crypto, w: Heap, before: map<nat, Boxed>, h: Handle, call: Call, w': Heap, ok: bool, h': Handle)
    requires OwnsOne(w, before, h) && RightState(w.boxes[h.ptr].machine, call)
    requires Called(c, w, h, call, w', ok, h')
    ensures Explodes(call) ==> !ok && Dangles(w', before, h') && w'.store == w.store
    ensures !Accepts(call) && !Explodes(call) ==>
              !ok && OwnsOne(w', before, h') && w'.boxes[h'.ptr] == w.boxes[h.ptr] && w'.store == w.store
    ensures Accepts(call) ==>
              && Check(call).None?
              && var o := Apply(c, w.boxes[h.ptr].machine, w.store, OpOf(call));
                 && w'.store == o.store
                 && (o.next.None? ==> !ok && Dangles(w', before, h'))
                 && (o.next.Some? ==>
                       && OwnsOne(w', before, h') && w'.boxes[h'.ptr].machine == o.next.value
                       && ok == (o.error.None? && Serializes(call)))
  {
    var at :| Fresh(w, h, at) &&
              var (w1, r) := Entry(c, w, h, call, at); w' == w1 && ok == r.success && h' == AfterCall(h, r);
    CallMovesOwnership(c, w, before, h, call, at);
    LiveAfterCall(c, w, h, call, at);
    NeedsExactly(w.boxes[h.ptr].machine, call);
    ChecksExactly(call, 0);
    if Check(call).None? { OutcomeShape(c, w.boxes[h.ptr], w.store, call); }
  }

  /** The rotation will not arrive; the handle dangles exactly when the machine was lost, and else no secret changed. */
  ghost predicate Stopped(c: Crypto, store: Store, turn: Turn, w: Heap, before: map<nat, Boxed>, h: Handle) {
    !turn.Arrives(c, store) &&
    if turn.LosesEarly(c, store) then Dangles(w, before, h) else OwnsOne(w, before, h) && w.store == store
  }

  /** The handle owns a machine with this content, and the secrets are these. */
  ghost predicate Holding(m: Machine, store: Store, w: Heap, before: map<nat, Boxed>, h: Handle) {
    OwnsOne(w, before, h) && w.boxes[h.ptr].machine == m && w.store == store
  }

  lemma LoadSettles(c: Crypto, w: Heap, before: map<nat, Boxed>, h: Handle, turn: Turn, w': Heap, ok: bool, h': Handle)
    requires turn.json.Text? && turn.config.Some? && turn.ciphertext.Some?
    requires Holding(Uninitialized(turn.config.value), w.store, w, before, h)
    requires Called(c, w, h, turn.LoadCall(), w', ok, h')
    ensures ok ==> turn.Loads() && Holding(Initialized(turn.Loaded()), w.store, w', before, h')
    ensures !ok ==> Stopped(c, w.store, turn, w', before, h')
  {
    CallSettles(c, w, before, h, turn.LoadCall(), w', ok, h');
  }

  lemma BeginSettles(c: Crypto, w: Heap, before: map<nat, Boxed>, h: Handle, turn: Turn, w': Heap, ok: bool, h': Handle)
    requires turn.Loads() && Holding(Initialized(turn.Loaded()), w.store, w, before, h)
    requires Called(c, w, h, turn.BeginCall(), w', ok, h')
    ensures ok ==> && turn.Decrypts(c)
                   && Holding(Bootstrapping(turn.Loaded(), turn.OldKey(c)),
                              w.store, w', before, h')
    ensures !ok ==> Stopped(c, w.store, turn, w', before, h')
  {
    CallSettles(c, w, before, h, turn.BeginCall(), w', ok, h');
  }

  lemma InjectSettles(c: Crypto, w: Heap, before: map<nat, Boxed>, h: Handle, turn: Turn, w': Heap, ok: bool, h': Handle)
    requires turn.Decrypts(c)
    requires Holding(Bootstrapping(turn.Loaded(), turn.OldKey(c)), w.store, w, before, h)
    requires Called(c, w, h, turn.InjectCall(), w', ok, h')
    ensures ok ==> && turn.Arrives(c, w.store) && !turn.LosesEarly(c, w.store)
                   && Holding(Active(turn.Loaded()), turn.Before(c, w.store), w', before, h')
    ensures !ok ==> Stopped(c, w.store, turn, w', before, h')
  {
    CallSettles(c, w, before, h, turn.InjectCall(), w', ok, h');
  }

  lemma RotatingSettles(c: Crypto, w: Heap, before: map<nat, Boxed>, h: Handle, cfg: Config, w': Heap, ok: bool, h': Handle)
    requires Holding(Active(cfg), w.store, w, before, h) && Called(c, w, h, CBeginRotation, w', ok, h')
    ensures ok && Holding(Rotating(cfg), w.store, w', before, h')
  {
    CallSettles(c, w, before, h, CBeginRotation, w', ok, h');
  }

  lemma CompleteSettles(
    c: Crypto, store: Store, w: Heap, before: map<nat, Boxed>, h: Handle, turn: Turn, w': Heap, ok: bool, h': Handle)
    requires turn.Arrives(c, store) && Holding(Rotating(turn.Loaded()), turn.Before(c, store), w, before, h)
    requires Called(c, w, h, turn.CompleteCall(), w', ok, h')
    ensures ok == (turn.Rotates(c, store) && turn.serializes)
    ensures if turn.LosesLate(c, store) then Dangles(w', before, h') else OwnsOne(w', before, h')
    ensures ok ==>
              && w'.boxes[h'.ptr].machine.config.publicKey == c.agePublic(turn.mint.newKey)
              && w'.boxes[h'.ptr].machine.config.envelope == c.kms.encrypt(turn.mint.newKey, turn.mint.nonce)
    ensures !turn.LosesLate(c, store) ==>
              w'.store == if turn.Rotates(c, store) then turn.After(c, store) else turn.Before(c, store)
  {
    CallSettles(c, w, before, h, turn.CompleteCall(), w', ok, h');
  }

  /** Load and decrypt. */
  method ToBootstrapping(core: GenesisCore, h: GoHandle, turn: Turn, ghost before: map<nat, Boxed>) returns (ok: bool)
    requires turn.json.Text? && turn.config.Some? && turn.ciphertext.Some?
    requires Holding(Uninitialized(turn.config.value), core.heap.store, core.heap, before, h.inner)
    modifies core, h
    ensures ok ==> && turn.Decrypts(core.crypto)
                   && Holding(Bootstrapping(turn.Loaded(), turn.OldKey(core.crypto)),
                              old(core.heap).store, core.heap, before, h.inner)
    ensures !ok ==> Stopped(core.crypto, old(core.heap).store, turn, core.heap, before, h.inner)
  {
    ghost var w, g := core.heap, h.inner;
    ok := h.Call(core, turn.LoadCall());
    LoadSettles(core.crypto, w, before, g, turn, core.heap, ok, h.inner);
    if !ok { return; }
    w, g := core.heap, h.inner;
    ok := h.Call(core, turn.BeginCall());
    BeginSettles(core.crypto, w, before, g, turn, core.heap, ok, h.inner);
  }

  /** Inject the old key and begin the rotation. */
  method ToRotating(core: GenesisCore, h: GoHandle, turn: Turn, ghost before: map<nat, Boxed>) returns (ok: bool)
    requires turn.Decrypts(core.crypto)
    requires Holding(Bootstrapping(turn.Loaded(), turn.OldKey(core.crypto)),
                     core.heap.store, core.heap, before, h.inner)
    modifies core, h
    ensures ok ==> var c, store := core.crypto, old(core.heap).store;
                   && turn.Arrives(c, store) && !turn.LosesEarly(c, store)
                   && Holding(Rotating(turn.Loaded()), turn.Before(c, store), core.heap, before, h.inner)
    ensures !ok ==> Stopped(core.crypto, old(core.heap).store, turn, core.heap, before, h.inner)
  {
    ghost var w, g := core.heap, h.inner;
    ok := h.Call(core, turn.InjectCall());
    InjectSettles(core.crypto, w, before, g, turn, core.heap, ok, h.inner);
    if !ok { return; }
    w, g := core.heap, h.inner;
    ok := h.Call(core, CBeginRotation);
    RotatingSettles(core.crypto, w, before, g, turn.Loaded(), core.heap, ok, h.inner);
  }

  /** Aborting never loses a machine and never touches a secret, whatever its state. */
  lemma AbortKeepsTheBox(c: Crypto, w: Heap, before: map<nat, Boxed>, h: Handle, w': Heap, ok: bool, h': Handle)
    requires OwnsOne(w, before, h) && Called(c, w, h, CAbortRotation, w', ok, h')
    ensures OwnsOne(w', before, h') && w'.store == w.store
  {
    var at :| Fresh(w, h, at) &&
              var (w1, r) := Entry(c, w, h, CAbortRotation, at);
              w' == w1 && ok == r.success && h' == AfterCall(h, r);
    CallMovesOwnership(c, w, before, h, CAbortRotation, at);
  }

  /** Completing, and on failure aborting: the handle owns its box still, unless completion lost it. */
  method CompleteOrAbort(core: GenesisCore, h: GoHandle, turn: Turn, ghost store: Store, ghost before: map<nat, Boxed>)
    returns (artifacts: Option<Artifacts>)
    requires turn.Arrives(core.crypto, store)
    requires Holding(Rotating(turn.Loaded()), turn.Before(core.crypto, store), core.heap, before, h.inner)
    modifies core, h
    ensures core.heap.broken <==> turn.LosesLate(core.crypto, store)
    ensures !core.heap.broken ==> OwnsOne(core.heap, before, h.inner)
    ensures artifacts.Some? <==> turn.Rotates(core.crypto, store) && turn.serializes
    ensures artifacts.Some? ==>
              && Some(artifacts.value.publicKey) == core.crypto.agePublic(turn.mint.newKey)
              && Some(artifacts.value.envelope) == core.crypto.kms.encrypt(turn.mint.newKey, turn.mint.nonce)
    ensures !core.heap.broken ==>
              core.heap.store
              == if turn.Rotates(core.crypto, store) then turn.After(core.crypto, store) else turn.Before(core.crypto, store)
  {
    ghost var c, w, g := core.crypto, core.heap, h.inner;
    var ok := h.Call(core, turn.CompleteCall());
    CompleteSettles(c, store, w, before, g, turn, core.heap, ok, h.inner);
    if ok {
      var config := core.heap.boxes[h.inner.ptr].machine.config;
      return Some(Artifacts(config.publicKey.value, config.envelope.value));
    }
    w, g := core.heap, h.inner;
    var aborted := h.Call(core, CAbortRotation);
    if !turn.LosesLate(c, store) {
      AbortKeepsTheBox(c, w, before, g, core.heap, aborted, h.inner);
    }
    artifacts := None;
  }

  /**
   A whole rotation.  It hands out artifacts exactly when every part worked: they are the public key
   and the envelope of the key that the target's secret now holds under that label, and no other secret has changed.
   It leaves no box behind, and it breaks the safety contract, by releasing or aborting a machine
   that is gone, exactly when decryption, injection or minting lost the machine.
   */
  method Rotate(core: GenesisCore, turn: Turn) returns (artifacts: Option<Artifacts>)
    requires !core.heap.broken
    modifies core
    ensures var c, store := core.crypto, old(core.heap).store;
            && (core.heap.broken <==> turn.LosesEarly(c, store) || turn.LosesLate(c, store))
            && (!core.heap.broken ==> core.heap.boxes == old(core.heap).boxes)
            && (artifacts.Some? <==> turn.Rotates(c, store) && turn.serializes)
            && (artifacts.Some? ==>
                  && Some(artifacts.value.publicKey) == c.agePublic(turn.mint.newKey)
                  && Some(artifacts.value.envelope) == c.kms.encrypt(turn.mint.newKey, turn.mint.nonce)
                  && core.heap.store == store[turn.target.Id() := Secret(
                       map[turn.target.key := turn.mint.newKey], Metadata(Some(artifacts.value.publicKey), turn.owner))])
            && (!core.heap.broken ==>
                  core.heap.store == if turn.Rotates(c, store) then turn.After(c, store)
                                     else if turn.Arrives(c, store) then turn.Before(c, store) else store)
  {
    artifacts := None;
    ghost var before, store := core.heap.boxes, core.heap.store;
    var created := NewHandle(core, turn.json, turn.config);
    if created.None? { return; }
    assert core.heap.boxes - {created.value.ptr} == before;
    var h := new GoHandle(created.value);
    if turn.ciphertext.None? {
      h.Release(core);
      return;
    }
    var ok := ToBootstrapping(core, h, turn, before);
    if ok {
      ok := ToRotating(core, h, turn, before);
    }
    if ok {
      artifacts := CompleteOrAbort(core, h, turn, store, before);
    }
    h.Release(core);
  }

  /** The artifacts of a rotation are a matched pair, so committing both keeps the resource matched. */
  lemma ArtifactsMatch(c: Crypto, mint: Mint, a: Artifacts, cfg: Config)
    requires c.Lawful() && Some(a.publicKey) == c.agePublic(mint.newKey)
    requires Some(a.envelope) == c.kms.encrypt(mint.newKey, mint.nonce)
    ensures c.kms.decrypt(a.envelope) == Some(mint.newKey) && Matched(c, WithKeys(cfg, a.publicKey, a.envelope))
  {
    assert c.kms.encrypt(mint.newKey, mint.nonce).Some?;
  }
}
