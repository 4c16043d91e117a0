/**
 The C-ABI shell (genesis-core/src/ffi.rs): machines live in heap boxes behind tagged handles, and
 every entry point takes its box apart and boxes the result again.

 `Entry` specifies all entry points at once; each method follows the program and is proved against
 it.  Passing a handle whose box is gone breaks the safety contract of the interface: `broken`
 records that this has happened.
 */
module Ffi {
  import opened Base
  import opened Injection
  import opened Lifecycle

  datatype StateTag = TagUninitialized | TagInitialized | TagBootstrapping | TagActive | TagRotating | TagDegraded

  function TagOf(m: Machine): StateTag {
    match m
    case Uninitialized(_) => TagUninitialized
    case Initialized(_) => TagInitialized
    case Bootstrapping(_, _) => TagBootstrapping
    case Active(_) => TagActive
    case Rotating(_) => TagRotating
    case Degraded(_) => TagDegraded
  }

  /** A pointer, zero when null, and the tag that the host sees. */
  datatype Handle = Handle(ptr: nat, tag: StateTag)

  const NULL_HANDLE := Handle(0, TagUninitialized)

  datatype Boxed = Boxed(machine: Machine, log: seq<AuditEvent>)

  /** The live boxes, the cluster's secrets, the logs of machines that are gone, and three counters. */
  datatype Heap = Heap(
    boxes: map<nat, Boxed>, store: Store, retired: seq<seq<AuditEvent>>,
    created: nat, freed: nat, lost: nat, broken: bool)

  datatype FfiResult = FfiResult(success: bool, code: nat, handle: Handle)

  function ErrorResult(code: nat): FfiResult {
    FfiResult(false, code, NULL_HANDLE)
  }

  // ---------- arguments ----------

  datatype CStr = NullPtr | BadUtf8 | Text(s: string)

  /** Building a KMS provider or a secret injector: done, refused with a code, or a panic. */
  datatype Ready = Built | NotBuilt(code: nat) | Panics

  datatype KmsArg = KmsArg(json: CStr, wellFormed: bool, provider: Ready)

  datatype Call =
    | CInit(kms: KmsArg, mint: Mint, serializes: bool)
    | CLoad(publicKey: CStr, envelope: Bytes)
    | CVerify(kms: KmsArg, kmsUp: bool, panics: bool)
    | CBeginBootstrap(kms: KmsArg, kmsUp: bool)
    | CInjectSecret(name: CStr, namespace: CStr, key: CStr, injector: Ready, link: Link, owner: Option<string>, panics: bool)
    | CInjectSecrets(json: CStr, hops: Option<seq<Hop>>, injector: Ready, owner: Option<string>, panics: bool)
    | CStatus
    | CBeginRotation
    | CCompleteRotation(
        kms: KmsArg, mint: Mint, name: CStr, namespace: CStr, key: CStr, injector: Ready, link: Link,
        owner: Option<string>, serializes: bool, panics: bool)
    | CAbortRotation

  /** The state each entry point asks for. */
  function Needs(call: Call): StateTag {
    match call
    case CInit(_, _, _) => TagUninitialized
    case CLoad(_, _) => TagUninitialized
    case CVerify(_, _, _) => TagInitialized
    case CBeginBootstrap(_, _) => TagInitialized
    case CInjectSecret(_, _, _, _, _, _, _) => TagBootstrapping
    case CInjectSecrets(_, _, _, _, _) => TagBootstrapping
    case CStatus => TagActive
    case CBeginRotation => TagActive
    case CCompleteRotation(_, _, _, _, _, _, _, _, _, _) => TagRotating
    case CAbortRotation => TagRotating
  }

  /** What ends a call before its transition: an error that keeps the handle, or a panic that loses it. */
  datatype Stop = Recover(code: nat) | Panicked

  function CheckStr(s: CStr): Option<Stop> {
    if s.Text? then None else Some(Recover(1))
  }

  function CheckReady(r: Ready): Option<Stop> {
    match r
    case Built => None
    case NotBuilt(code) => Some(Recover(code))
    case Panics => Some(Panicked)
  }

  function Then(first: Option<Stop>, second: Option<Stop>): Option<Stop> {
    if first.Some? then first else second
  }

  function CheckKms(k: KmsArg): Option<Stop> {
    Then(CheckStr(k.json), if k.wellFormed then CheckReady(k.provider) else Some(Recover(500)))
  }

  function CheckNames(name: CStr, namespace: CStr, key: CStr): Option<Stop> {
    Then(CheckStr(name), Then(CheckStr(namespace), CheckStr(key)))
  }

  function Check(call: Call): Option<Stop> {
    match call
    case CInit(kms, _, _) => CheckKms(kms)
    case CLoad(pk, envelope) => Then(CheckStr(pk), if envelope == [] then Some(Recover(100)) else None)
    case CVerify(kms, _, panics) => Then(CheckKms(kms), if panics then Some(Panicked) else None)
    case CBeginBootstrap(kms, _) => CheckKms(kms)
    case CInjectSecret(name, ns, key, injector, _, _, _) => Then(CheckNames(name, ns, key), CheckReady(injector))
    case CInjectSecrets(json, hops, injector, _, _) =>
      Then(CheckStr(json), if hops.None? then Some(Recover(400)) else CheckReady(injector))
    case CCompleteRotation(kms, _, name, ns, key, injector, _, _, _, _) =>
      Then(CheckKms(kms), Then(CheckNames(name, ns, key), CheckReady(injector)))
    case _ => None
  }

  /** The typed operation of a call whose arguments passed. */
  function OpOf(call: Call): Op
    requires Check(call).None?
  {
    match call
    case CInit(_, mint, _) => Init(mint)
    case CLoad(pk, envelope) => Load(pk.s, envelope)
    case CVerify(_, up, _) => Verify(up)
    case CBeginBootstrap(_, up) => BeginBootstrap(up)
    case CInjectSecret(name, ns, key, _, link, owner, _) => InjectSecret(Hop(Target(name.s, ns.s, key.s), link), owner)
    case CInjectSecrets(_, hops, _, owner, _) => InjectSecrets(hops.value, owner)
    case CStatus => Status
    case CBeginRotation => BeginRotation
    case CCompleteRotation(_, mint, name, ns, key, _, link, owner, _, _) =>
      CompleteRotation(mint, Hop(Target(name.s, ns.s, key.s), link), owner)
    case CAbortRotation => AbortRotation
  }

  predicate Serializes(call: Call) {
    match call
    case CInit(_, _, serializes) => serializes
    case CCompleteRotation(_, _, _, _, _, _, _, _, serializes, _) => serializes
    case _ => true
  }

  /** An injection that fails may do so by a panic of the injector instead of an error. */
  predicate PanicsOnFailure(call: Call) {
    match call
    case CInjectSecret(_, _, _, _, _, _, panics) => panics
    case CInjectSecrets(_, _, _, _, panics) => panics
    case CCompleteRotation(_, _, _, _, _, _, _, _, _, panics) => panics
    case _ => false
  }

  /** How the loss of a machine in its transition is reported. */
  function LossCode(error: Option<Error>, panics: bool): nat {
    if error.None? then 0
    else if error.value.K8sInjectFailed? && panics then 999
    else ErrorCode(error.value)
  }

  // ---------- the specification ----------

  /** An address the allocator may hand out once the argument's box is gone. */
  predicate Fresh(w: Heap, h: Handle, at: nat) {
    at != 0 && (at in w.boxes ==> at == h.ptr)
  }

  function Without(w: Heap, ptr: nat): Heap {
    w.(boxes := w.boxes - {ptr})
  }

  function Box(w: Heap, b: Boxed, at: nat): Heap {
    w.(boxes := w.boxes[at := b])
  }

  function HandleTo(b: Boxed, at: nat): Handle {
    Handle(at, TagOf(b.machine))
  }

  /** Dropping a machine for good: a bootstrapping one still holds its key and raises the alert. */
  function LogAfterDrop(b: Boxed): seq<AuditEvent> {
    b.log + (if b.machine.Bootstrapping? then [EvBootstrappingDropped] else [])
  }

  /** The box that a transition's outcome leaves. */
  function Reboxed(w: Heap, b: Boxed, o: Outcome, at: nat): Heap
    requires o.next.Some?
  {
    Box(w, Boxed(o.next.value, b.log + o.events), at).(store := o.store)
  }

  function Entry(c: Crypto, w: Heap, h: Handle, call: Call, at: nat): (Heap, FfiResult) {
    if h.ptr == 0 then (w, ErrorResult(1))
    else if h.ptr !in w.boxes then (w.(broken := true), ErrorResult(999))
    else
      var b, rest := w.boxes[h.ptr], Without(w, h.ptr);
      if TagOf(b.machine) != Needs(call) then
        (Box(rest, b, at), FfiResult(false, 102, HandleTo(b, at)))
      else if Check(call).Some? then
        match Check(call).value
        case Recover(code) => (Box(rest, b, at), FfiResult(false, code, HandleTo(b, at)))
        case Panicked =>
          (rest.(retired := rest.retired + [LogAfterDrop(b)], lost := rest.lost + 1), ErrorResult(999))
      else
        var o := Apply(c, b.machine, w.store, OpOf(call));
        if o.next.None? then
          (rest.(store := o.store, retired := rest.retired + [b.log + o.events], lost := rest.lost + 1),
           ErrorResult(LossCode(o.error, PanicsOnFailure(call))))
        else
          var code := if o.error.Some? then ErrorCode(o.error.value) else if !Serializes(call) then 500 else 0;
          (Reboxed(rest, b, o, at), FfiResult(code == 0, code, Handle(at, TagOf(o.next.value))))
  }

  /** `genesis_new`: the configuration string and whether it parses. */
  function New(w: Heap, json: CStr, config: Option<Config>, at: nat): (Heap, FfiResult) {
    if !json.Text? then (w, ErrorResult(1))
    else if config.None? then (w, ErrorResult(500))
    else
      (Box(w, Boxed(Uninitialized(config.value), []), at).(created := w.created + 1),
       FfiResult(true, 0, Handle(at, TagUninitialized)))
  }

  function Free(w: Heap, h: Handle): Heap {
    if h.ptr == 0 then w
    else if h.ptr !in w.boxes then w.(broken := true)
    else Without(w, h.ptr).(retired := w.retired + [LogAfterDrop(w.boxes[h.ptr])], freed := w.freed + 1)
  }

  // ---------- the program ----------

  /** The wrapper and the injector that a single-target call makes, and what comes of them. */
  method InjectOne(config: Config, key: Bytes, store: Store, hop: Hop, owner: Option<string>) returns (o: Outcome)
    ensures o == DoInject(config, key, store, hop, owner)
  {
    var wrapper := new GenesisBootstrapping(config, key);
    var api := new ApiServer(store);
    var active := wrapper.InjectSecretWithMetadata(api, hop, owner);
    o := if active.Ok? then Moved(Active(active.value), wrapper.log, api.secrets)
         else Consumed(wrapper.log, api.secrets, active.error);
    assert [] + DoInject(config, key, store, hop, owner).events == wrapper.log;
  }

  method InjectMany(config: Config, key: Bytes, store: Store, hops: seq<Hop>, owner: Option<string>)
    returns (o: Outcome)
    ensures o == DoInjectAll(config, key, store, hops, owner)
  {
    var wrapper := new GenesisBootstrapping(config, key);
    var api := new ApiServer(store);
    var active := wrapper.InjectSecretsMulti(api, hops, owner);
    o := if active.Ok? then Moved(Active(active.value), wrapper.log, api.secrets)
         else Consumed(wrapper.log, api.secrets, active.error);
    assert [] + DoInjectAll(config, key, store, hops, owner).events == wrapper.log;
  }

  class GenesisCore {
    const crypto: Crypto
    var heap: Heap

    constructor (crypto: Crypto, store: Store)
      ensures this.crypto == crypto && heap == Heap(map[], store, [], 0, 0, 0, false)
    {
      this.crypto := crypto;
      heap := Heap(map[], store, [], 0, 0, 0, false);
    }

    method InnerToHandle(b: Boxed, at: nat) returns (h: Handle)
      modifies this
      ensures heap == Box(old(heap), b, at) && h == HandleTo(b, at)
    {
      heap := heap.(boxes := heap.boxes[at := b]);
      h := Handle(at, TagOf(b.machine));
    }

    method TakeInner(h: Handle) returns (r: Result<Boxed, FfiResult>)
      modifies this
      ensures h.ptr == 0 ==> r == Err(ErrorResult(1)) && heap == old(heap)
      ensures h.ptr != 0 && h.ptr !in old(heap).boxes ==>
                r == Err(ErrorResult(999)) && heap == old(heap).(broken := true)
      ensures h.ptr != 0 && h.ptr in old(heap).boxes ==>
                r == Ok(old(heap).boxes[h.ptr]) && heap == Without(old(heap), h.ptr)
    {
      if h.ptr == 0 {
        return Err(ErrorResult(1));
      }
      if h.ptr !in heap.boxes {
        heap := heap.(broken := true);
        return Err(ErrorResult(999));
      }
      r := Ok(heap.boxes[h.ptr]);
      heap := heap.(boxes := heap.boxes - {h.ptr});
    }

    /** Boxes the machine again and reports an error together with its handle. */
    method ErrorWithHandle(code: nat, b: Boxed, at: nat) returns (r: FfiResult)
      modifies this
      ensures heap == Box(old(heap), b, at) && r == FfiResult(false, code, HandleTo(b, at))
    {
      var h := InnerToHandle(b, at);
      r := FfiResult(false, code, h);
    }

    /** The machine is gone: unwinding drops what is left of it. */
    method CatchPanic(b: Boxed) returns (r: FfiResult)
      modifies this
      ensures heap == old(heap).(retired := old(heap).retired + [LogAfterDrop(b)], lost := old(heap).lost + 1)
      ensures r == ErrorResult(999)
    {
      heap := heap.(retired := heap.retired + [LogAfterDrop(b)], lost := heap.lost + 1);
      r := ErrorResult(999);
    }

    method StopWith(stop: Stop, b: Boxed, at: nat) returns (r: FfiResult)
      modifies this
      ensures stop.Recover? ==> heap == Box(old(heap), b, at) && r == FfiResult(false, stop.code, HandleTo(b, at))
      ensures stop.Panicked? ==>
                && heap == old(heap).(retired := old(heap).retired + [LogAfterDrop(b)], lost := old(heap).lost + 1)
                && r == ErrorResult(999)
    {
      match stop {
        case Recover(code) => r := ErrorWithHandle(code, b, at);
        case Panicked => r := CatchPanic(b);
      }
    }

    /** Settles a call with the outcome of its transition. */
    method Settle(b: Boxed, o: Outcome, serializes: bool, panics: bool, at: nat) returns (r: FfiResult)
      modifies this
      ensures o.next.None? ==>
                && heap == old(heap).(store := o.store, retired := old(heap).retired + [b.log + o.events],
                                      lost := old(heap).lost + 1)
                && r == ErrorResult(LossCode(o.error, panics))
      ensures o.next.Some? ==>
                var code := if o.error.Some? then ErrorCode(o.error.value) else if !serializes then 500 else 0;
                && heap == Reboxed(old(heap), b, o, at)
                && r == FfiResult(code == 0, code, Handle(at, TagOf(o.next.value)))
    {
      heap := heap.(store := o.store);
      if o.next.None? {
        heap := heap.(retired := heap.retired + [b.log + o.events], lost := heap.lost + 1);
        return ErrorResult(LossCode(o.error, panics));
      }
      var code := if o.error.Some? then ErrorCode(o.error.value) else if !serializes then 500 else 0;
      var h := InnerToHandle(Boxed(o.next.value, b.log + o.events), at);
      r := FfiResult(code == 0, code, h);
    }

    method GenesisNew(json: CStr, config: Option<Config>, at: nat) returns (r: FfiResult)
      requires Fresh(heap, NULL_HANDLE, at)
      modifies this
      ensures (heap, r) == New(old(heap), json, config, at)
    {
      if !json.Text? {
        return ErrorResult(1);
      }
      if config.None? {
        return ErrorResult(500);
      }
      heap := heap.(created := heap.created + 1);
      var h := InnerToHandle(Boxed(Uninitialized(config.value), []), at);
      r := FfiResult(true, 0, h);
    }

    method GenesisInit(h: Handle, kms: KmsArg, mint: Mint, serializes: bool, at: nat) returns (r: FfiResult)
      requires Fresh(heap, h, at)
      modifies this
      ensures (heap, r) == Entry(crypto, old(heap), h, CInit(kms, mint, serializes), at)
    {
      var taken := TakeInner(h);
      if taken.Err? {
        return taken.error;
      }
      var b := taken.value;
      if !b.machine.Uninitialized? {
        r := ErrorWithHandle(102, b, at);
        return;
      }
      var stop := CheckKms(kms);
      if stop.Some? {
        r := StopWith(stop.value, b, at);
        return;
      }
      r := Settle(b, DoInit(crypto, b.machine.config, heap.store, mint), serializes, false, at);
    }

    method GenesisLoad(h: Handle, publicKey: CStr, envelope: Bytes, at: nat) returns (r: FfiResult)
      requires Fresh(heap, h, at)
      modifies this
      ensures (heap, r) == Entry(crypto, old(heap), h, CLoad(publicKey, envelope), at)
    {
      var taken := TakeInner(h);
      if taken.Err? {
        return taken.error;
      }
      var b := taken.value;
      if !b.machine.Uninitialized? {
        r := ErrorWithHandle(102, b, at);
        return;
      }
      if !publicKey.Text? {
        r := ErrorWithHandle(1, b, at);
        return;
      }
      if envelope == [] {
        r := ErrorWithHandle(100, b, at);
        return;
      }
      var loaded := Initialized(WithKeys(b.machine.config, publicKey.s, envelope));
      r := Settle(b, Moved(loaded, [], heap.store), true, false, at);
    }

    method GenesisVerify(h: Handle, kms: KmsArg, kmsUp: bool, panics: bool, at: nat) returns (r: FfiResult)
      requires Fresh(heap, h, at)
      modifies this
      ensures (heap, r) == Entry(crypto, old(heap), h, CVerify(kms, kmsUp, panics), at)
    {
      var taken := TakeInner(h);
      if taken.Err? {
        return taken.error;
      }
      var b := taken.value;
      if !b.machine.Initialized? {
        r := ErrorWithHandle(102, b, at);
        return;
      }
      var stop := Then(CheckKms(kms), if panics then Some(Panicked) else None);
      if stop.Some? {
        r := StopWith(stop.value, b, at);
        return;
      }
      r := Settle(b, DoVerify(crypto, b.machine, heap.store, kmsUp), true, false, at);
    }

    method GenesisBeginBootstrap(h: Handle, kms: KmsArg, kmsUp: bool, at: nat) returns (r: FfiResult)
      requires Fresh(heap, h, at)
      modifies this
      ensures (heap, r) == Entry(crypto, old(heap), h, CBeginBootstrap(kms, kmsUp), at)
    {
      var taken := TakeInner(h);
      if taken.Err? {
        return taken.error;
      }
      var b := taken.value;
      if !b.machine.Initialized? {
        r := ErrorWithHandle(102, b, at);
        return;
      }
      var stop := CheckKms(kms);
      if stop.Some? {
        r := StopWith(stop.value, b, at);
        return;
      }
      r := Settle(b, DoBeginBootstrap(crypto, b.machine.config, heap.store, kmsUp), true, false, at);
    }

    method GenesisInjectSecret(
      h: Handle, name: CStr, namespace: CStr, key: CStr, injector: Ready, link: Link, owner: Option<string>,
      panics: bool, at: nat)
      returns (r: FfiResult)
      requires Fresh(heap, h, at)
      modifies this
      ensures (heap, r) == Entry(
                crypto, old(heap), h, CInjectSecret(name, namespace, key, injector, link, owner, panics), at)
    {
      var taken := TakeInner(h);
      if taken.Err? {
        return taken.error;
      }
      var b := taken.value;
      if !b.machine.Bootstrapping? {
        r := ErrorWithHandle(102, b, at);
        return;
      }
      var stop := Then(CheckNames(name, namespace, key), CheckReady(injector));
      if stop.Some? {
        r := StopWith(stop.value, b, at);
        return;
      }
      var hop := Hop(Target(name.s, namespace.s, key.s), link);
      var o := InjectOne(b.machine.config, b.machine.key, heap.store, hop, owner);
      r := Settle(b, o, true, panics, at);
    }

    method GenesisInjectSecrets(
      h: Handle, json: CStr, hops: Option<seq<Hop>>, injector: Ready, owner: Option<string>, panics: bool, at: nat)
      returns (r: FfiResult)
      requires Fresh(heap, h, at)
      modifies this
      ensures (heap, r) == Entry(crypto, old(heap), h, CInjectSecrets(json, hops, injector, owner, panics), at)
    {
      var taken := TakeInner(h);
      if taken.Err? {
        return taken.error;
      }
      var b := taken.value;
      if !b.machine.Bootstrapping? {
        r := ErrorWithHandle(102, b, at);
        return;
      }
      if !json.Text? {
        r := ErrorWithHandle(1, b, at);
        return;
      }
      if hops.None? {
        r := ErrorWithHandle(400, b, at);
        return;
      }
      var stop := CheckReady(injector);
      if stop.Some? {
        r := StopWith(stop.value, b, at);
        return;
      }
      var o := InjectMany(b.machine.config, b.machine.key, heap.store, hops.value, owner);
      r := Settle(b, o, true, panics, at);
    }

    method GenesisStatus(h: Handle, at: nat) returns (r: FfiResult)
      requires Fresh(heap, h, at)
      modifies this
      ensures (heap, r) == Entry(crypto, old(heap), h, CStatus, at)
    {
      var taken := TakeInner(h);
      if taken.Err? {
        return taken.error;
      }
      var b := taken.value;
      if !b.machine.Active? {
        r := ErrorWithHandle(102, b, at);
        return;
      }
      r := Settle(b, Moved(b.machine, [], heap.store), true, false, at);
    }

    method GenesisBeginRotation(h: Handle, at: nat) returns (r: FfiResult)
      requires Fresh(heap, h, at)
      modifies this
      ensures (heap, r) == Entry(crypto, old(heap), h, CBeginRotation, at)
    {
      var taken := TakeInner(h);
      if taken.Err? {
        return taken.error;
      }
      var b := taken.value;
      if !b.machine.Active? {
        r := ErrorWithHandle(102, b, at);
        return;
      }
      r := Settle(b, Moved(Rotating(b.machine.config), [EvBeginRotation], heap.store), true, false, at);
    }

    method GenesisAbortRotation(h: Handle, at: nat) returns (r: FfiResult)
      requires Fresh(heap, h, at)
      modifies this
      ensures (heap, r) == Entry(crypto, old(heap), h, CAbortRotation, at)
    {
      var taken := TakeInner(h);
      if taken.Err? {
        return taken.error;
      }
      var b := taken.value;
      if !b.machine.Rotating? {
        r := ErrorWithHandle(102, b, at);
        return;
      }
      r := Settle(b, Moved(Active(b.machine.config), [EvAbortRotation], heap.store), true, false, at);
    }

    method GenesisCompleteRotation(
      h: Handle, kms: KmsArg, mint: Mint, name: CStr, namespace: CStr, key: CStr, injector: Ready, link: Link,
      owner: Option<string>, serializes: bool, panics: bool, at: nat)
      returns (r: FfiResult)
      requires Fresh(heap, h, at)
      modifies this
      ensures (heap, r) == Entry(
                crypto, old(heap), h,
                CCompleteRotation(kms, mint, name, namespace, key, injector, link, owner, serializes, panics), at)
    {
      var taken := TakeInner(h);
      if taken.Err? {
        return taken.error;
      }
      var b := taken.value;
      if !b.machine.Rotating? {
        r := ErrorWithHandle(102, b, at);
        return;
      }
      var stop := Then(CheckKms(kms), Then(CheckNames(name, namespace, key), CheckReady(injector)));
      if stop.Some? {
        r := StopWith(stop.value, b, at);
        return;
      }
      var hop := Hop(Target(name.s, namespace.s, key.s), link);
      r := Settle(b, DoCompleteRotation(crypto, b.machine.config, heap.store, mint, hop, owner), serializes, panics, at);
    }

    method GenesisFree(h: Handle)
      modifies this
      ensures heap == Free(old(heap), h)
    {
      if h.ptr != 0 {
        if h.ptr !in heap.boxes {
          heap := heap.(broken := true);
        } else {
          var b := heap.boxes[h.ptr];
          heap := heap.(boxes := heap.boxes - {h.ptr}, retired := heap.retired + [LogAfterDrop(b)],
                        freed := heap.freed + 1);
        }
      }
    }

    /** Any of the lifecycle entry points. */
    method Invoke(h: Handle, call: Call, at: nat) returns (r: FfiResult)
      requires Fresh(heap, h, at)
      modifies this
      ensures (heap, r) == Entry(crypto, old(heap), h, call, at)
    {
      match call {
        case CInit(kms, mint, serializes) => r := GenesisInit(h, kms, mint, serializes, at);
        case CLoad(pk, envelope) => r := GenesisLoad(h, pk, envelope, at);
        case CVerify(kms, up, panics) => r := GenesisVerify(h, kms, up, panics, at);
        case CBeginBootstrap(kms, up) => r := GenesisBeginBootstrap(h, kms, up, at);
        case CInjectSecret(name, ns, key, inj, link, owner, panics) =>
          r := GenesisInjectSecret(h, name, ns, key, inj, link, owner, panics, at);
        case CInjectSecrets(json, hops, inj, owner, panics) =>
          r := GenesisInjectSecrets(h, json, hops, inj, owner, panics, at);
        case CStatus => r := GenesisStatus(h, at);
        case CBeginRotation => r := GenesisBeginRotation(h, at);
        case CCompleteRotation(kms, mint, name, ns, key, inj, link, owner, serializes, panics) =>
          r := GenesisCompleteRotation(h, kms, mint, name, ns, key, inj, link, owner, serializes, panics, at);
        case CAbortRotation => r := GenesisAbortRotation(h, at);
      }
    }
  }
}
