/**
 The Go side of the shell (internal/bridge/bridge.go) and the two flows that use it: the bootstrap
 injector with the reconciler's tracked handle (internal/controller/genesisbootstrap_controller.go)
 and the rotation executor (internal/controller/genesisrotationpolicy_controller.go).
 */
module Bridge {
  import opened Base
  import opened Injection
  import opened Targets
  import opened Lifecycle
  import opened Ffi
  import opened FfiOutcomes
  import opened FfiRuns

  // ---------- when a call loses its box ----------

  /** The call got past its arguments' checks, or panicked among them, and then lost the machine. */
  predicate Loses(c: Crypto, w: Heap, h: Handle, call: Call)
    requires h.ptr in w.boxes
  {
    var m := w.boxes[h.ptr].machine;
    RightState(m, call) && (Explodes(call) || (Accepts(call) && TransitionFails(c, m, w.store, call)))
  }

  /** The guards on which the consuming transitions fail: what the KMS, the network and the list do. */
  predicate TransitionFails(c: Crypto, m: Machine, store: Store, call: Call) {
    match call
    case CInit(_, mint, _) => !CanMint(c, mint)
    case CBeginBootstrap(_, up) => EnvelopeKey(c, m.config, up).None?
    case CInjectSecret(name, ns, key, _, link, _, _) =>
      AllText(name, ns, key) && !Works(store, Target(name.s, ns.s, key.s), link)
    case CInjectSecrets(_, hops, _, _, _) =>
      hops.Some? && (hops.value == [] || !AllWork(store, TargetsOf(hops.value), LinksOf(hops.value)))
    case CCompleteRotation(_, mint, name, ns, key, _, link, _, _, _) =>
      !CanMint(c, mint) || (AllText(name, ns, key) && !Works(store, Target(name.s, ns.s, key.s), link))
    case _ => false
  }

  predicate CanMint(c: Crypto, mint: Mint) {
    c.agePublic(mint.newKey).Some? && mint.kmsUp && c.kms.encrypt(mint.newKey, mint.nonce).Some?
  }

  /** The handle field after a call: a result without a handle leaves the old one in place. */
  function AfterCall(h: Handle, r: FfiResult): Handle {
    if r.success || r.handle.ptr != 0 then r.handle else h
  }

  /** What a Go method leaves when it makes a call through its handle, wherever the next box is put. */
  ghost predicate Called(c: Crypto, w: Heap, h: Handle, call: Call, w': Heap, ok: bool, h': Handle) {
    exists at :: Fresh(w, h, at) &&
      var (w1, r) := Entry(c, w, h, call, at);
      w' == w1 && ok == r.success && h' == AfterCall(h, r)
  }

  lemma TransitionFailsExactly(c: Crypto, m: Machine, store: Store, call: Call)
    requires RightState(m, call) && Accepts(call) && Check(call).None?
    ensures Apply(c, m, store, OpOf(call)).next.None? <==> TransitionFails(c, m, store, call)
  {
    if call.CInjectSecrets? { ListOutcome(m.config, m.key, store, call.hops.value, call.owner); }
  }

  lemma HandleExactlyWhenKept(c: Crypto, w: Heap, h: Handle, call: Call, at: nat)
    requires h.ptr != 0 && h.ptr in w.boxes && Fresh(w, h, at)
    ensures Entry(c, w, h, call, at).1.handle.ptr != 0 <==> !Loses(c, w, h, call)
  {
    var m := w.boxes[h.ptr].machine;
    NeedsExactly(m, call);
    ChecksExactly(call, 0);
    if RightState(m, call) && Accepts(call) {
      TransitionFailsExactly(c, m, w.store, call);
    }
  }

  /**
   After a call on a live handle, the handle is live if and only if the call did not lose its box;
   and freeing it is safe under exactly the same condition.
   */
  lemma LiveAfterCall(c: Crypto, w: Heap, h: Handle, call: Call, at: nat)
    requires !w.broken && h.ptr != 0 && h.ptr in w.boxes && Fresh(w, h, at)
    ensures var (w', r) := Entry(c, w, h, call, at);
            var h' := AfterCall(h, r);
            && (h'.ptr in w'.boxes <==> !Loses(c, w, h, call))
            && (r.handle.ptr != 0 <==> !Loses(c, w, h, call))
            && (Free(w', h').broken <==> Loses(c, w, h, call))
            && !w'.broken
            && w'.boxes - {h'.ptr} == w.boxes - {h.ptr}
            && (r.success ==> h' == HandleTo(w'.boxes[at], at) && h'.ptr == at)
  {
    CallOutcomes(c, w, h, call, at);
    HandleExactlyWhenKept(c, w, h, call, at);
    var (w', r) := Entry(c, w, h, call, at);
    if r.handle.ptr != 0 {
      assert w'.boxes - {at} == w.boxes - {h.ptr};
    } else {
      assert w'.boxes - {h.ptr} == w.boxes - {h.ptr};
    }
  }

  /** A call that fails while the KMS is down leaves the Go handle dangling, and freeing it is unsafe. */
  lemma DanglingHandle(c: Crypto, cfg: Config, at: nat)
    requires at != 0
    ensures var w := Box(Heap(map[], map[], [], 1, 0, 0, false), Boxed(Initialized(cfg), []), at);
            var h := Handle(at, TagInitialized);
            var (w', r) := Entry(c, w, h, CBeginBootstrap(KmsArg(Text("{}"), true, Built), false), at);
            && !r.success && AfterCall(h, r) == h && h.ptr !in w'.boxes && Free(w', AfterCall(h, r)).broken
  {
    var w := Box(Heap(map[], map[], [], 1, 0, 0, false), Boxed(Initialized(cfg), []), at);
    LiveAfterCall(c, w, Handle(at, TagInitialized), CBeginBootstrap(KmsArg(Text("{}"), true, Built), false), at);
  }

  /**
   The rotation executor aborts after a failed completion.  That is the clean return to the old key
   when the failure kept the machine, and a use of a lost box exactly when the completion lost it.
   */
  lemma AbortAfterFailedCompletion(c: Crypto, w: Heap, h: Handle, call: Call, at: nat, at': nat)
    requires !w.broken && h.ptr != 0 && h.ptr in w.boxes && Fresh(w, h, at) && call.CCompleteRotation?
    requires w.boxes[h.ptr].machine.Rotating? && Serializes(call) && !Entry(c, w, h, call, at).1.success
    requires Fresh(Entry(c, w, h, call, at).0, AfterCall(h, Entry(c, w, h, call, at).1), at')
    ensures var (w1, r1) := Entry(c, w, h, call, at);
            var (w2, r2) := Entry(c, w1, AfterCall(h, r1), CAbortRotation, at');
            && (w2.broken <==> Loses(c, w, h, call))
            && (r2.success <==> !Loses(c, w, h, call))
            && (r2.success ==> w2.boxes[at'].machine == Active(w.boxes[h.ptr].machine.config))
  {
    LiveAfterCall(c, w, h, call, at);
    CallOutcomes(c, w, h, call, at);
  }

  // ---------- the Go handle ----------

  lemma {:induction false} FreshAddress(s: set<nat>, bound: nat) returns (n: nat)
    ensures n > bound && n !in s
    decreases s
  {
    n := bound + 1;
    if n in s {
      var m := FreshAddress(s - {n}, n);
      n := m;
    }
  }

  /**
   The address of the next box: whatever the allocator chooses, the address that the call gives free
   included.
   */
  method Allocate(core: GenesisCore, h: Handle) returns (at: nat)
    ensures Fresh(core.heap, h, at)
  {
    ghost var n := FreshAddress(core.heap.boxes.Keys, 0);
    assert Fresh(core.heap, h, n);
    at :| Fresh(core.heap, h, at);
  }

  class GoHandle {
    var inner: Handle

    constructor (inner: Handle)
      ensures this.inner == inner
    {
      this.inner := inner;
    }

    method RecoverHandle(newH: Option<Handle>)
      modifies this
      ensures inner == if newH.Some? then newH.value else old(inner)
    {
      if newH.Some? {
        inner := newH.value;
      }
    }

    /** Any lifecycle method: call the entry point, turn the result into an error, recover the handle. */
    method Call(core: GenesisCore, call: Call) returns (ok: bool)
      modifies this, core
      ensures Called(core.crypto, old(core.heap), old(inner), call, core.heap, ok, inner)
    {
      var at := Allocate(core, inner);
      var r := core.Invoke(inner, call, at);
      var newH := if r.success || r.handle.ptr != 0 then Some(r.handle) else None;
      RecoverHandle(newH);
      ok := r.success;
    }

    method Release(core: GenesisCore)
      modifies this, core
      ensures core.heap == Free(old(core.heap), old(inner)) && inner == old(inner).(ptr := 0)
    {
      core.GenesisFree(inner);
      inner := inner.(ptr := 0);
    }
  }

  method NewHandle(core: GenesisCore, json: CStr, config: Option<Config>) returns (h: Option<Handle>)
    modifies core
    ensures h.Some? <==> json.Text? && config.Some?
    ensures h.None? ==> core.heap == old(core.heap)
    ensures h.Some? ==>
              && h.value.ptr != 0 && h.value.ptr !in old(core.heap).boxes
              && core.heap == Box(old(core.heap), Boxed(Uninitialized(config.value), []), h.value.ptr)
                                .(created := old(core.heap).created + 1)
  {
    var at := Allocate(core, NULL_HANDLE);
    var r := core.GenesisNew(json, config, at);
    h := if r.success then Some(r.handle) else None;
  }

  // ---------- the bootstrap injector ----------

  /** One reconcile pass's inputs: the custom resource and how the KMS and the network behave. */
  datatype Pass = Pass(
    json: CStr, config: Option<Config>, ciphertext: Option<Bytes>, publicKey: string, kms: KmsArg, kmsUp: bool,
    output: Output, links: nat -> Link, injector: Ready, owner: Option<string>,
    panics: bool)
  {
    function Hops(): seq<Hop> {
      var ts := TargetsFor(output);
      seq(|ts|, i requires 0 <= i < |ts| => Hop(ts[i], links(i)))
    }

    function Loaded(): Option<Config> {
      if json.Text? && config.Some? && ciphertext.Some? && ciphertext.value != [] && publicKey != ""
      then Some(WithKeys(config.value, publicKey, ciphertext.value)) else None
    }

    /** The namespace of the target at index `i`: the secret's own, then the additional ones in order. */
    function Namespace(i: nat): string
      requires i <= |output.additional|
    {
      if i == 0 then output.secretNamespace else output.additional[i - 1]
    }

    /** The network serves every target: its POST, and its PUT where the secret is there when its turn comes. */
    predicate Served(store: Store) {
      forall i :: 0 <= i <= |output.additional| ==>
        && links(i).post.Served?
        && (SecretId(Namespace(i), output.secretName) in store || (exists j :: 0 <= j < i && Namespace(j) == Namespace(i))
            ==> links(i).put.Served?)
    }

    /** The envelope is loaded and decrypted. */
    predicate Decrypts(c: Crypto) {
      && Loaded().Some? && kms.json.Text? && kms.wellFormed && kms.provider.Built?
      && kmsUp && c.kms.decrypt(ciphertext.value).Some?
    }

    predicate Succeeds(c: Crypto, store: Store) {
      Decrypts(c) && injector.Built? && Served(store)
    }

    /** The envelope was loaded, and then decryption or injection lost the machine. */
    predicate Loses(c: Crypto, store: Store) {
      && Loaded().Some? && kms.json.Text? && kms.wellFormed
      && (|| kms.provider.Panics?
          || (kms.provider.Built? && !Decrypts(c))
          || (Decrypts(c) && (injector.Panics? || (injector.Built? && !Served(store)))))
    }

    /** Every wanted namespace has the secret with the decrypted key and its label; nothing else has changed. */
    ghost predicate Delivered(c: Crypto, store: Store, after: Store)
      requires Decrypts(c)
    {
      var key := c.kms.decrypt(ciphertext.value).value;
      var secret := Secret(map[output.secretKey := key], Metadata(Some(publicKey), owner));
      && (forall ns :: ns == output.secretNamespace || ns in output.additional ==>
            SecretId(ns, output.secretName) in after && after[SecretId(ns, output.secretName)] == secret)
      && (forall id: SecretId :: id.name != output.secretName || !output.Wants(id.namespace) ==>
            (id in after <==> id in store) && (id in store ==> after[id] == store[id]))
    }
  }

  lemma ServedExactly(pass: Pass, store: Store)
    ensures pass.Served(store) <==> AllWork(store, TargetsOf(pass.Hops()), LinksOf(pass.Hops()))
  {
    var ts, links := TargetsOf(pass.Hops()), LinksOf(pass.Hops());
    assert |ts| == 1 + |pass.output.additional|;
    forall i | 0 <= i < |ts|
      ensures ts[i] == Target(pass.output.secretName, pass.Namespace(i), pass.output.secretKey) && links[i] == pass.links(i)
    {
      assert i > 0 ==> TargetsFor(pass.output)[i].namespace == pass.output.additional[i - 1];
    }
    forall i | 0 <= i < |ts|
      ensures There(store, ts, i) <==>
              || SecretId(pass.Namespace(i), pass.output.secretName) in store
              || exists j :: 0 <= j < i && pass.Namespace(j) == pass.Namespace(i)
    {
      if j :| 0 <= j < i && pass.Namespace(j) == pass.Namespace(i) { assert ts[j].Id() == ts[i].Id(); }
      if j :| 0 <= j < i && ts[j].Id() == ts[i].Id() { assert pass.Namespace(j) == pass.Namespace(i); }
    }
    if AllWork(store, ts, links) {
      forall i | 0 <= i <= |pass.output.additional|
        ensures pass.links(i).post.Served? && (There(store, ts, i) ==> pass.links(i).put.Served?)
      {
        assert HopWorks(store, ts, links, i);
      }
    }
  }

  /** `h` owns one box, and the others are those of `before`. */
  ghost predicate OwnsOne(w: Heap, before: map<nat, Boxed>, h: Handle) {
    !w.broken && h.ptr != 0 && h.ptr in w.boxes && h.ptr !in before && w.boxes - {h.ptr} == before
  }

  /** The box behind `h` is gone; releasing `h` now breaks the contract. */
  ghost predicate Dangles(w: Heap, before: map<nat, Boxed>, h: Handle) {
    !w.broken && h.ptr != 0 && h.ptr !in w.boxes && w.boxes == before
  }

  lemma CallMovesOwnership(c: Crypto, w: Heap, before: map<nat, Boxed>, h: Handle, call: Call, at: nat)
    requires OwnsOne(w, before, h) && Fresh(w, h, at)
    ensures var (w', r) := Entry(c, w, h, call, at);
            var h' := AfterCall(h, r);
            && (Loses(c, w, h, call) ==> !r.success && Dangles(w', before, h'))
            && (!Loses(c, w, h, call) ==> OwnsOne(w', before, h'))
  {
    LiveAfterCall(c, w, h, call, at);
    CallOutcomes(c, w, h, call, at);
    var (w', r) := Entry(c, w, h, call, at);
    if Loses(c, w, h, call) {
      assert w'.boxes - {h.ptr} == w'.boxes;
    }
  }

  /**
   One pass of the bootstrap injector.  It breaks the safety contract exactly when decryption or
   injection loses the machine, because the error path then frees a handle that no longer owns a
   box.  It hands over a handle exactly when everything it needs works: one new box, active, and every
   wanted namespace written.  Every other failure leaves no box behind and no secret changed.
   */
  method Bootstrap(core: GenesisCore, pass: Pass) returns (handle: Option<Handle>)
    modifies core
    ensures !old(core.heap).broken ==> (core.heap.broken <==> pass.Loses(core.crypto, old(core.heap).store))
    ensures !old(core.heap).broken ==> (handle.Some? <==> pass.Succeeds(core.crypto, old(core.heap).store))
    ensures !old(core.heap).broken && handle.Some? ==>
              && OwnsOne(core.heap, old(core.heap).boxes, handle.value)
              && core.heap.boxes[handle.value.ptr].machine == Active(pass.Loaded().value)
              && pass.Delivered(core.crypto, old(core.heap).store, core.heap.store)
    ensures !old(core.heap).broken && !core.heap.broken && handle.None? ==>
              core.heap.boxes == old(core.heap).boxes && core.heap.store == old(core.heap).store
  {
    ghost var c, w0 := core.crypto, core.heap;
    var created := NewHandle(core, pass.json, pass.config);
    if created.None? {
      return None;
    }
    var h := new GoHandle(created.value);
    ghost var w1 := core.heap;
    if pass.ciphertext.None? || pass.publicKey == "" {
      h.Release(core);
      assert !w0.broken ==> core.heap.boxes == w0.boxes;
      return None;
    }
    var ok := h.Call(core, CLoad(Text(pass.publicKey), pass.ciphertext.value));
    ghost var w2, h2 := core.heap, h.inner;
    if !w0.broken {
      LoadStep(c, w0, w1, created.value, pass, w2, ok, h2);
    }
    if !ok {
      h.Release(core);
      return None;
    }
    ok := h.Call(core, CBeginBootstrap(pass.kms, pass.kmsUp));
    ghost var w3, h3 := core.heap, h.inner;
    if !w0.broken {
      BeginStep(c, w0.boxes, w2, h2, pass, w3, ok, h3);
    }
    if !ok {
      h.Release(core);
      return None;
    }
    var targets := BuildTargets(pass.output);
    var hops := seq(|targets|, i requires 0 <= i < |targets| => Hop(targets[i], pass.links(i)));
    ok := h.Call(core, CInjectSecrets(Text("targets"), Some(hops), pass.injector, pass.owner, pass.panics));
    if !w0.broken {
      InjectStep(c, w0.boxes, w3, h3, pass, core.heap, ok, h.inner);
    }
    if !ok {
      h.Release(core);
      return None;
    }
    handle := Some(h.inner);
  }

  lemma LoadStep(c: Crypto, w0: Heap, w: Heap, h: Handle, pass: Pass, w': Heap, ok: bool, h': Handle)
    requires !w0.broken && pass.json.Text? && pass.config.Some? && pass.ciphertext.Some? && pass.publicKey != ""
    requires h.ptr != 0 && h.ptr !in w0.boxes
    requires w == Box(w0, Boxed(Uninitialized(pass.config.value), []), h.ptr).(created := w0.created + 1)
    requires Called(c, w, h, CLoad(Text(pass.publicKey), pass.ciphertext.value), w', ok, h')
    ensures OwnsOne(w', w0.boxes, h') && ok == (pass.ciphertext.value != []) && w'.store == w0.store
    ensures ok ==> pass.Loaded().Some? && w'.boxes[h'.ptr].machine == Initialized(pass.Loaded().value)
  {
    var load := CLoad(Text(pass.publicKey), pass.ciphertext.value);
    var at :| Fresh(w, h, at) &&
              var (w1, r) := Entry(c, w, h, load, at);
              w' == w1 && ok == r.success && h' == AfterCall(h, r);
    assert w.boxes - {h.ptr} == w0.boxes;
    CallMovesOwnership(c, w, w0.boxes, h, load, at);
  }

  lemma BeginStep(c: Crypto, before: map<nat, Boxed>, w: Heap, h: Handle, pass: Pass, w': Heap, ok: bool, h': Handle)
    requires OwnsOne(w, before, h) && pass.Loaded().Some?
    requires w.boxes[h.ptr].machine == Initialized(pass.Loaded().value)
    requires Called(c, w, h, CBeginBootstrap(pass.kms, pass.kmsUp), w', ok, h')
    ensures && ok == pass.Decrypts(c)
            && w'.store == w.store
            && (if Parses(pass.kms) && (pass.kms.provider.Panics? || (pass.kms.provider.Built? && !pass.Decrypts(c)))
                then Dangles(w', before, h') else OwnsOne(w', before, h'))
            && (ok ==> w'.boxes[h'.ptr].machine
                       == Bootstrapping(pass.Loaded().value, c.kms.decrypt(pass.ciphertext.value).value))
  {
    var call := CBeginBootstrap(pass.kms, pass.kmsUp);
    var at :| Fresh(w, h, at) &&
              var (w1, r) := Entry(c, w, h, call, at); w' == w1 && ok == r.success && h' == AfterCall(h, r);
    CallMovesOwnership(c, w, before, h, call, at);
    if Accepts(call) { BeginBootstrapAnswers(c, w, h, call, at); }
  }

  lemma InjectStep(c: Crypto, before: map<nat, Boxed>, w: Heap, h: Handle, pass: Pass, w': Heap, ok: bool, h': Handle)
    requires OwnsOne(w, before, h) && pass.Decrypts(c)
    requires w.boxes[h.ptr].machine == Bootstrapping(pass.Loaded().value, c.kms.decrypt(pass.ciphertext.value).value)
    requires Called(
               c, w, h, CInjectSecrets(Text("targets"), Some(pass.Hops()), pass.injector, pass.owner, pass.panics), w', ok, h')
    ensures && ok == (pass.injector.Built? && pass.Served(w.store))
            && (if pass.injector.Panics? || (pass.injector.Built? && !pass.Served(w.store))
                then Dangles(w', before, h') else OwnsOne(w', before, h'))
            && (pass.injector.NotBuilt? ==> w'.store == w.store)
            && (ok ==> w'.boxes[h'.ptr].machine == Active(pass.Loaded().value) && pass.Delivered(c, w.store, w'.store))
  {
    var call := CInjectSecrets(Text("targets"), Some(pass.Hops()), pass.injector, pass.owner, pass.panics);
    var at :| Fresh(w, h, at) &&
              var (w1, r) := Entry(c, w, h, call, at); w' == w1 && ok == r.success && h' == AfterCall(h, r);
    CallMovesOwnership(c, w, before, h, call, at);
    ServedExactly(pass, w.store);
    if pass.injector.Built? {
      InjectSecretsAnswers(c, w, h, call, at);
      if ok { DeliveredWhenWritten(c, pass, w.store, w'.store); }
    } else if pass.injector.NotBuilt? {
      RefusedOrLostBeforehand(c, w, h, call, at, pass.injector.code);
    }
  }

  lemma DeliveredWhenWritten(c: Crypto, pass: Pass, store: Store, after: Store)
    requires pass.Decrypts(c)
    requires var ts := TargetsOf(pass.Hops());
             WrittenUpTo(store, c.kms.decrypt(pass.ciphertext.value).value, ts,
                         Metadata(Some(pass.publicKey), pass.owner), |ts|, after)
    ensures pass.Delivered(c, store, after)
  {
    assert TargetsOf(pass.Hops()) == TargetsFor(pass.output);
    WrittenEverywhere(store, c.kms.decrypt(pass.ciphertext.value).value, pass.output,
                      Metadata(Some(pass.publicKey), pass.owner), after);
  }

  // ---------- the reconciler's tracked handle ----------

  class BootstrapReconciler {
    var genesisHandle: Option<Handle>

    constructor ()
      ensures genesisHandle == None
    {
      genesisHandle := None;
    }

    /** Besides other people's boxes, the handle owns the one live box, or there is neither handle nor box. */
    ghost predicate Owns(w: Heap, others: map<nat, Boxed>)
      reads this
    {
      !w.broken && if genesisHandle.None? then w.boxes == others else OwnsOne(w, others, genesisHandle.value)
    }

    /**
     A pass replaces the tracked handle only after success, and frees the old one.  No pass leaks a
     box, whatever other boxes are alive, of a rotation running beside it for instance: unless the
     injector broke the contract, at most one box is added to them and it is tracked.
     */
    method ReconcilePass(core: GenesisCore, pass: Pass, ghost others: map<nat, Boxed>) returns (ok: bool)
      requires Owns(core.heap, others)
      modifies this, core
      ensures core.heap.broken <==> pass.Loses(core.crypto, old(core.heap).store)
      ensures ok <==> pass.Succeeds(core.crypto, old(core.heap).store)
      ensures !core.heap.broken ==> Owns(core.heap, others)
      ensures ok ==>
                && genesisHandle.Some? && genesisHandle.value.ptr !in old(core.heap).boxes
                && core.heap.boxes[genesisHandle.value.ptr].machine == Active(pass.Loaded().value)
                && pass.Delivered(core.crypto, old(core.heap).store, core.heap.store)
      ensures !ok && !core.heap.broken ==> core.heap.boxes == old(core.heap).boxes && core.heap.store == old(core.heap).store
      ensures !ok ==> genesisHandle == old(genesisHandle)
    {
      var handle := Bootstrap(core, pass);
      if handle.None? {
        return false;
      }
      ghost var w := core.heap;
      if genesisHandle.Some? {
        core.GenesisFree(genesisHandle.value);
        if !w.broken {
          FreeTheOther(w, old(core.heap).boxes, others, genesisHandle.value, handle.value);
        }
      }
      genesisHandle := handle;
      ok := true;
    }

    method HandleDeletion(core: GenesisCore, ghost others: map<nat, Boxed>)
      requires Owns(core.heap, others)
      modifies this, core
      ensures genesisHandle.None? && Owns(core.heap, others)
    {
      if genesisHandle.Some? {
        core.GenesisFree(genesisHandle.value);
        genesisHandle := None;
      }
    }
  }

  lemma FreeTheOther(w: Heap, before: map<nat, Boxed>, others: map<nat, Boxed>, tracked: Handle, h: Handle)
    requires OwnsOne(w, before, h) && tracked.ptr != 0
    requires tracked.ptr in before && tracked.ptr !in others && before - {tracked.ptr} == others
    ensures OwnsOne(Free(w, tracked), others, h)
    ensures Free(w, tracked).boxes[h.ptr] == w.boxes[h.ptr]
  {
    assert tracked.ptr != h.ptr && h.ptr !in others;
    assert (w.boxes - {tracked.ptr}) - {h.ptr} == (w.boxes - {h.ptr}) - {tracked.ptr};
  }
}
