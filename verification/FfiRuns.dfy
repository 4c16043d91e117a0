/**
 Runs of the C-ABI shell under a host that threads handles: box ownership is conserved, no box is
 used after it is gone, and every boxed machine is one the typed lifecycle can reach.
 */
module FfiRuns {
  import opened Base
  import opened Injection
  import opened Lifecycle
  import opened Ffi

  // ---------- single calls ----------

  /** The edges of the lifecycle's state graph that the shell exposes; two calls stay where they are. */
  predicate Edge(a: StateTag, b: StateTag, call: Call) {
    match call
    case CInit(_, _, _) => a == TagUninitialized && b == TagInitialized
    case CLoad(_, _) => a == TagUninitialized && b == TagInitialized
    case CVerify(_, _, _) => a == TagInitialized && b == TagInitialized
    case CBeginBootstrap(_, _) => a == TagInitialized && b == TagBootstrapping
    case CInjectSecret(_, _, _, _, _, _, _) => a == TagBootstrapping && b == TagActive
    case CInjectSecrets(_, _, _, _, _) => a == TagBootstrapping && b == TagActive
    case CStatus => a == TagActive && b == TagActive
    case CBeginRotation => a == TagActive && b == TagRotating
    case CCompleteRotation(_, _, _, _, _, _, _, _, _, _) => a == TagRotating && b == TagActive
    case CAbortRotation => a == TagRotating && b == TagActive
  }

  /**
   What a call does to the machine behind a live handle.  Success is an edge of the state graph,
   and so is the one error that reports a finished transition (the artifacts do not serialise);
   every other error with a handle returns the very same machine; an error without one has
   consumed the box.  The tag that comes back is the tag of what is in the box.
   */
  lemma CallOutcomes(c: Crypto, w: Heap, h: Handle, call: Call, at: nat)
    requires h.ptr != 0 && h.ptr in w.boxes && Fresh(w, h, at)
    ensures var (w', r) := Entry(c, w, h, call, at);
            var b := w.boxes[h.ptr];
            && w'.broken == w.broken
            && (r.success ==> r.handle.ptr == at)
            && (r.handle.ptr != 0 ==>
                  && r.handle == HandleTo(w'.boxes[at], at)
                  && w'.boxes == (w.boxes - {h.ptr})[at := w'.boxes[at]]
                  && w'.lost == w.lost && w'.retired == w.retired
                  && if r.success || (r.code == 500 && !Serializes(call) && w'.boxes[at] != b)
                     then Edge(TagOf(b.machine), r.handle.tag, call)
                     else w'.boxes[at] == b && w'.store == w.store)
            && (r.handle.ptr == 0 ==> w'.boxes == w.boxes - {h.ptr} && w'.lost == w.lost + 1)
  {
    var b := w.boxes[h.ptr];
    if TagOf(b.machine) == Needs(call) && Check(call).None? {
      OutcomeShape(c, b, w.store, call);
    } else {
      assert (w.boxes - {h.ptr})[at := b][at] == b;
    }
  }

  lemma OutcomeShape(c: Crypto, b: Boxed, store: Store, call: Call)
    requires TagOf(b.machine) == Needs(call) && Check(call).None?
    ensures var o := Apply(c, b.machine, store, OpOf(call));
            && (o.next.Some? && o.error.None? ==> Edge(TagOf(b.machine), TagOf(o.next.value), call))
            && (o.next.Some? && o.error.Some? ==>
                  o.next == Some(b.machine) && o.events == [] && o.store == store && ErrorCode(o.error.value) != 0)
            && (o.next.None? ==> o.error.Some?)
  {
  }

  // ---------- a host that threads its handles ----------

  datatype Event =
    | ENew(json: CStr, config: Option<Config>, at: nat)
    | ECall(ptr: nat, call: Call, at: nat)
    | EFree(ptr: nat)

  /** The heap and the handles the host holds, as a map from pointer to tag. */
  datatype World = World(heap: Heap, held: map<nat, StateTag>) {
    function HandleFor(ptr: nat): Handle {
      if ptr in held then Handle(ptr, held[ptr]) else NULL_HANDLE
    }

    function Keep(w: Heap, given: nat, r: FfiResult): World {
      World(w, if r.handle.ptr != 0 then (held - {given})[r.handle.ptr := r.handle.tag] else held - {given})
    }
  }

  /** The host passes null or a handle it holds, and the allocator hands out unused addresses. */
  predicate Allowed(w: World, e: Event) {
    match e
    case ENew(_, _, at) => Fresh(w.heap, NULL_HANDLE, at)
    case ECall(ptr, _, at) => (ptr == 0 || ptr in w.held) && Fresh(w.heap, w.HandleFor(ptr), at)
    case EFree(ptr) => ptr == 0 || ptr in w.held
  }

  /**
   Nothing else is asked of the host or the allocator: any configuration may be opened, any call made on any
   handle that is held or null, and any handle released, at any address that is free or becomes so.
   */
  lemma NothingElseIsAsked(w: World, json: CStr, config: Option<Config>, ptr: nat, call: Call, at: nat)
    requires (ptr == 0 || ptr in w.held) && at != 0
    ensures Allowed(w, EFree(ptr))
    ensures at !in w.heap.boxes ==> Allowed(w, ENew(json, config, at))
    ensures at !in w.heap.boxes || at == ptr ==> Allowed(w, ECall(ptr, call, at))
  {
  }

  function Step(c: Crypto, w: World, e: Event): World {
    match e
    case ENew(json, config, at) =>
      var (heap, r) := New(w.heap, json, config, at);
      w.Keep(heap, 0, r)
    case ECall(ptr, call, at) =>
      var (heap, r) := Entry(c, w.heap, w.HandleFor(ptr), call, at);
      w.Keep(heap, ptr, r)
    case EFree(ptr) => World(Free(w.heap, w.HandleFor(ptr)), w.held - {ptr})
  }

  function RunWorld(c: Crypto, w: World, es: seq<Event>): World {
    if es == [] then w else Step(c, RunWorld(c, w, es[..|es| - 1]), es[|es| - 1])
  }

  ghost predicate Legal(c: Crypto, w: World, es: seq<Event>) {
    forall i :: 0 <= i < |es| ==> Allowed(RunWorld(c, w, es[..i]), es[i])
  }

  function Start(store: Store): World {
    World(Heap(map[], store, [], 0, 0, 0, false), map[])
  }

  ghost predicate Owned(w: World) {
    && !w.heap.broken && 0 !in w.heap.boxes
    && w.held.Keys == w.heap.boxes.Keys
    && (forall p :: p in w.heap.boxes ==> w.held[p] == TagOf(w.heap.boxes[p].machine))
    && |w.heap.boxes| + w.heap.freed + w.heap.lost == w.heap.created
    && |w.heap.retired| == w.heap.freed + w.heap.lost
  }

  lemma Removed<K, V>(m: map<K, V>, k: K)
    requires k in m
    ensures |m - {k}| == |m| - 1
  {
    assert m.Keys == (m - {k}).Keys + {k};
  }

  lemma Added<K, V>(m: map<K, V>, k: K, v: V)
    requires k !in m
    ensures |m[k := v]| == |m| + 1
  {
    assert m[k := v].Keys == m.Keys + {k};
  }

  lemma CountersMove(c: Crypto, w: Heap, h: Handle, call: Call, at: nat)
    requires h.ptr != 0 && h.ptr in w.boxes && Fresh(w, h, at)
    ensures var (w', r) := Entry(c, w, h, call, at);
            && w'.created == w.created && w'.freed == w.freed
            && |w'.retired| == |w.retired| + (w'.lost - w.lost)
  {
  }

  lemma NewKeepsOwnership(c: Crypto, w: World, e: Event)
    requires e.ENew? && Owned(w) && Allowed(w, e)
    ensures Owned(Step(c, w, e))
  {
    if e.json.Text? && e.config.Some? {
      Added(w.heap.boxes, e.at, Boxed(Uninitialized(e.config.value), []));
      assert w.held - {0} == w.held;
    }
  }

  lemma FreeKeepsOwnership(c: Crypto, w: World, ptr: nat)
    requires Owned(w) && (ptr == 0 || ptr in w.held)
    ensures Owned(Step(c, w, EFree(ptr)))
  {
    if ptr != 0 {
      Removed(w.heap.boxes, ptr);
    }
  }

  lemma CallKeepsOwnership(c: Crypto, w: World, ptr: nat, call: Call, at: nat)
    requires Owned(w) && ptr != 0 && Allowed(w, ECall(ptr, call, at))
    ensures Owned(Step(c, w, ECall(ptr, call, at)))
  {
    var h := w.HandleFor(ptr);
    var (heap, r) := Entry(c, w.heap, h, call, at);
    CallOutcomes(c, w.heap, h, call, at);
    Removed(w.heap.boxes, ptr);
    if r.handle.ptr != 0 {
      Added(w.heap.boxes - {ptr}, at, heap.boxes[at]);
    }
    CountersMove(c, w.heap, h, call, at);
  }

  lemma StepKeepsOwnership(c: Crypto, w: World, e: Event)
    requires Owned(w) && Allowed(w, e)
    ensures Owned(Step(c, w, e))
  {
    match e {
      case ENew(_, _, _) => NewKeepsOwnership(c, w, e);
      case EFree(ptr) => FreeKeepsOwnership(c, w, ptr);
      case ECall(ptr, call, at) =>
        if ptr != 0 {
          CallKeepsOwnership(c, w, ptr, call, at);
        }
    }
  }

  /**
   In every run: live boxes = successful news - frees - losses, the handles the host holds are
   exactly the live boxes and their tags are true, and the safety contract is never broken, so no
   box is consumed twice.
   */
  lemma {:induction false} OwnershipIsConserved(c: Crypto, store: Store, es: seq<Event>)
    requires Legal(c, Start(store), es)
    ensures Owned(RunWorld(c, Start(store), es))
  {
    if es != [] {
      LegalPrefix(c, Start(store), es);
      OwnershipIsConserved(c, store, es[..|es| - 1]);
      StepKeepsOwnership(c, RunWorld(c, Start(store), es[..|es| - 1]), es[|es| - 1]);
    }
  }

  lemma LegalPrefix(c: Crypto, w: World, es: seq<Event>)
    requires es != [] && Legal(c, w, es)
    ensures Legal(c, w, es[..|es| - 1]) && Allowed(RunWorld(c, w, es[..|es| - 1]), es[|es| - 1])
  {
    var init := es[..|es| - 1];
    forall i | 0 <= i < |init| ensures Allowed(RunWorld(c, w, init[..i]), init[i]) {
      assert init[..i] == es[..i];
    }
  }

  // ---------- refinement of the typed lifecycle ----------

  ghost predicate Reaches(l: Life, m: Option<Machine>, log: seq<AuditEvent>, store: Store) {
    l.machine == m && l.log == log && l.store == store
  }

  /** Some run of the typed lifecycle ends in this machine, with this log and these secrets. */
  ghost predicate IsLife(c: Crypto, m: Option<Machine>, log: seq<AuditEvent>, store: Store) {
    exists cfg: Config, store0: Store, hs: seq<Happening> ::
      Reaches(Run(c, Birth(cfg, store0), hs), m, log, store)
  }

  lemma BirthIsLife(c: Crypto, cfg: Config, store: Store)
    ensures IsLife(c, Some(Uninitialized(cfg)), [], store)
  {
    assert Reaches(Run(c, Birth(cfg, store), []), Some(Uninitialized(cfg)), [], store);
  }

  lemma LifeGoesOn(c: Crypto, m: Machine, log: seq<AuditEvent>, store: Store, op: Op)
    requires IsLife(c, Some(m), log, store)
    ensures var o := Apply(c, m, store, op); IsLife(c, o.next, log + o.events, o.store)
  {
    var cfg: Config, store0: Store, hs: seq<Happening> :|
      Reaches(Run(c, Birth(cfg, store0), hs), Some(m), log, store);
    var more := hs + [Do(op)];
    assert more[..|more| - 1] == hs;
    var o := Apply(c, m, store, op);
    assert Reaches(Run(c, Birth(cfg, store0), more), o.next, log + o.events, o.store);
  }

  lemma LifeSeesWrite(c: Crypto, m: Machine, log: seq<AuditEvent>, store: Store, id: SecretId, s: Option<Secret>)
    requires IsLife(c, Some(m), log, store)
    ensures IsLife(c, Some(m), log, if s.Some? then store[id := s.value] else store - {id})
  {
    var cfg: Config, store0: Store, hs: seq<Happening> :|
      Reaches(Run(c, Birth(cfg, store0), hs), Some(m), log, store);
    var more := hs + [Foreign(id, s)];
    assert more[..|more| - 1] == hs;
    assert Reaches(Run(c, Birth(cfg, store0), more), Some(m), log,
                   if s.Some? then store[id := s.value] else store - {id});
  }

  /** What other machines do to the secrets is, to this one, somebody else's writing. */
  lemma {:induction false} LifeFollowsStore(
    c: Crypto, m: Machine, log: seq<AuditEvent>, store: Store, target: Store, ids: set<SecretId>)
    requires IsLife(c, Some(m), log, store)
    requires store - ids == target - ids
    ensures IsLife(c, Some(m), log, target)
    decreases ids
  {
    if ids == {} {
      assert store - {} == store && target - {} == target;
    } else {
      var id :| id in ids;
      var s := if id in target then Some(target[id]) else None;
      var next := if s.Some? then store[id := s.value] else store - {id};
      LifeSeesWrite(c, m, log, store, id, s);
      assert next - (ids - {id}) == target - (ids - {id}) by {
        assert forall k :: k in store && k !in ids <==> k in store - ids;
        assert forall k :: k in target && k !in ids <==> k in target - ids;
        assert forall k :: k in store && k !in ids ==> store[k] == (store - ids)[k];
        assert forall k :: k in target && k !in ids ==> target[k] == (target - ids)[k];
      }
      LifeFollowsStore(c, m, log, next, target, ids - {id});
    }
  }

  /** Some run of the typed lifecycle has lost its machine and left this log. */
  ghost predicate Ended(c: Crypto, log: seq<AuditEvent>) {
    exists store: Store :: IsLife(c, None, log, store)
  }

  ghost predicate Refines(c: Crypto, w: Heap) {
    && (forall p :: p in w.boxes ==> IsLife(c, Some(w.boxes[p].machine), w.boxes[p].log, w.store))
    && (forall i :: 0 <= i < |w.retired| ==> Ended(c, w.retired[i]))
  }

  /** Whatever became of the acting box, the other boxes follow the change of the secrets. */
  lemma OthersFollow(c: Crypto, w: Heap, ptr: nat, target: Store)
    requires Refines(c, w)
    ensures forall p :: p in w.boxes && p != ptr ==> IsLife(c, Some(w.boxes[p].machine), w.boxes[p].log, target)
  {
    forall p | p in w.boxes && p != ptr ensures IsLife(c, Some(w.boxes[p].machine), w.boxes[p].log, target) {
      var ids := w.store.Keys + target.Keys;
      assert w.store - ids == target - ids;
      LifeFollowsStore(c, w.boxes[p].machine, w.boxes[p].log, w.store, target, ids);
    }
  }

  lemma DropIsLife(c: Crypto, b: Boxed, store: Store)
    requires IsLife(c, Some(b.machine), b.log, store)
    ensures Ended(c, LogAfterDrop(b))
  {
    LifeGoesOn(c, b.machine, b.log, store, Drop);
    assert IsLife(c, None, LogAfterDrop(b), store);
  }

  /** Replacing the box at `ptr` by another typed run's, when the other boxes follow. */
  lemma ReboxedRefines(c: Crypto, w: Heap, ptr: nat, w': Heap, b: Boxed, at: nat)
    requires Refines(c, w) && w'.boxes == (w.boxes - {ptr})[at := b] && w'.retired == w.retired
    requires IsLife(c, Some(b.machine), b.log, w'.store)
    ensures Refines(c, w')
  {
    OthersFollow(c, w, ptr, w'.store);
  }

  /** Losing the box at `ptr` with a log that ends a typed run. */
  lemma LostRefines(c: Crypto, w: Heap, ptr: nat, w': Heap, log: seq<AuditEvent>)
    requires Refines(c, w) && w'.boxes == w.boxes - {ptr} && w'.retired == w.retired + [log] && Ended(c, log)
    ensures Refines(c, w')
  {
    OthersFollow(c, w, ptr, w'.store);
  }

  lemma TransitionRefines(c: Crypto, w: Heap, h: Handle, call: Call, at: nat)
    requires Refines(c, w) && h.ptr != 0 && h.ptr in w.boxes && Fresh(w, h, at)
    requires TagOf(w.boxes[h.ptr].machine) == Needs(call) && Check(call).None?
    ensures Refines(c, Entry(c, w, h, call, at).0)
  {
    var b, w' := w.boxes[h.ptr], Entry(c, w, h, call, at).0;
    var o := Apply(c, b.machine, w.store, OpOf(call));
    LifeGoesOn(c, b.machine, b.log, w.store, OpOf(call));
    if o.next.None? {
      assert IsLife(c, None, b.log + o.events, o.store);
      LostRefines(c, w, h.ptr, w', b.log + o.events);
    } else {
      ReboxedRefines(c, w, h.ptr, w', Boxed(o.next.value, b.log + o.events), at);
    }
  }

  lemma CallRefines(c: Crypto, w: Heap, h: Handle, call: Call, at: nat)
    requires Refines(c, w) && h.ptr in w.boxes && Fresh(w, h, at)
    ensures Refines(c, Entry(c, w, h, call, at).0)
  {
    if h.ptr != 0 {
      var b, w' := w.boxes[h.ptr], Entry(c, w, h, call, at).0;
      if TagOf(b.machine) == Needs(call) && Check(call).None? {
        TransitionRefines(c, w, h, call, at);
      } else if TagOf(b.machine) == Needs(call) && Check(call) == Some(Panicked) {
        DropIsLife(c, b, w.store);
        LostRefines(c, w, h.ptr, w', LogAfterDrop(b));
      } else {
        ReboxedRefines(c, w, h.ptr, w', b, at);
      }
    }
  }

  lemma StepRefines(c: Crypto, w: World, e: Event)
    requires Owned(w) && Allowed(w, e) && Refines(c, w.heap)
    ensures Refines(c, Step(c, w, e).heap)
  {
    match e {
      case ENew(json, config, at) =>
        if json.Text? && config.Some? {
          BirthIsLife(c, config.value, w.heap.store);
        }
      case ECall(ptr, call, at) =>
        if ptr != 0 {
          CallRefines(c, w.heap, w.HandleFor(ptr), call, at);
        }
      case EFree(ptr) =>
        if ptr != 0 {
          DropIsLife(c, w.heap.boxes[ptr], w.heap.store);
        }
    }
  }

  /** The shell refines the typed lifecycle: each live box, and each log that ended, is a typed run's. */
  lemma {:induction false} ShellRefinesLifecycle(c: Crypto, store: Store, es: seq<Event>)
    requires Legal(c, Start(store), es)
    ensures Refines(c, RunWorld(c, Start(store), es).heap)
  {
    if es != [] {
      LegalPrefix(c, Start(store), es);
      var init := es[..|es| - 1];
      OwnershipIsConserved(c, store, init);
      ShellRefinesLifecycle(c, store, init);
      StepRefines(c, RunWorld(c, Start(store), init), es[|es| - 1]);
    }
  }

  /**
   What the host may rely on, through the shell, for every handle it holds: the machine never
   degrades, its log obeys the bracket rule, and once its log shows a minted keypair its public key
   is the one logged last and belongs to its envelope.
   */
  lemma EveryHandle(c: Crypto, store: Store, es: seq<Event>, p: nat)
    requires c.Lawful() && Legal(c, Start(store), es)
    requires p in RunWorld(c, Start(store), es).held
    ensures var w := RunWorld(c, Start(store), es);
            p in w.heap.boxes &&
            var b := w.heap.boxes[p];
            && w.held[p] == TagOf(b.machine) && w.held[p] != TagDegraded
            && ReadLog(Closed, b.log) == PhaseOf(b.machine)
            && (LastMinted(b.log).Some? ==> Matched(c, b.machine.config) && b.machine.config.publicKey == LastMinted(b.log))
  {
    OwnershipIsConserved(c, store, es);
    ShellRefinesLifecycle(c, store, es);
    var w := RunWorld(c, Start(store), es);
    var b := w.heap.boxes[p];
    assert IsLife(c, Some(b.machine), b.log, w.heap.store);
    var cfg: Config, store0: Store, hs: seq<Happening> :|
      Reaches(Run(c, Birth(cfg, store0), hs), Some(b.machine), b.log, w.heap.store);
    KeysAgreeInEveryRun(c, cfg, store0, hs);
    BracketRule(c, cfg, store0, hs);
  }

  /** The log of a live box is in the phase of its machine. */
  lemma BoxIsBracketed(c: Crypto, store: Store, es: seq<Event>, p: nat)
    requires Legal(c, Start(store), es) && p in RunWorld(c, Start(store), es).heap.boxes
    ensures var b := RunWorld(c, Start(store), es).heap.boxes[p]; ReadLog(Closed, b.log) == PhaseOf(b.machine)
  {
    ShellRefinesLifecycle(c, store, es);
    var w := RunWorld(c, Start(store), es).heap;
    var b := w.boxes[p];
    assert IsLife(c, Some(b.machine), b.log, w.store);
    var cfg: Config, store0: Store, hs: seq<Happening> :|
      Reaches(Run(c, Birth(cfg, store0), hs), Some(b.machine), b.log, w.store);
    BracketRule(c, cfg, store0, hs);
  }

  /** The event is an injection into a bootstrapping machine, its arguments are accepted, and it fails. */
  ghost predicate FailsInjection(w: Heap, e: Event) {
    && e.ECall? && e.ptr in w.boxes && w.boxes[e.ptr].machine.Bootstrapping?
    && Needs(e.call) == TagBootstrapping && Check(e.call).None?
    && InjectionFails(w.store, OpOf(e.call))
  }

  /** A transition that loses its machine leaves the log open exactly after a failed injection. */
  lemma LosingTransition(c: Crypto, b: Boxed, store: Store, call: Call)
    requires TagOf(b.machine) == Needs(call) && Check(call).None? && ReadLog(Closed, b.log) == PhaseOf(b.machine)
    ensures var o := Apply(c, b.machine, store, OpOf(call));
            var fails := b.machine.Bootstrapping? && InjectionFails(store, OpOf(call));
            && (fails ==> o.next.None?)
            && (o.next.None? ==> (ReadLog(Closed, b.log + o.events) == Open <==> fails))
  {
    var op := OpOf(call);
    ReadLogConcat(Closed, b.log, Apply(c, b.machine, store, op).events);
    if b.machine.Bootstrapping? {
      BracketStaysOpenExactly(c, b.machine.config, b.machine.key, store, op);
    }
  }

  /** A log that ends, of a box whose log is in phase, is open exactly after a failed injection. */
  lemma EndedLogIsOpenExactly(c: Crypto, w: World, e: Event)
    requires Owned(w) && Allowed(w, e) && !e.ENew? && e.ptr in w.heap.boxes
    requires ReadLog(Closed, w.heap.boxes[e.ptr].log) == PhaseOf(w.heap.boxes[e.ptr].machine)
    ensures var old', new' := w.heap.retired, Step(c, w, e).heap.retired;
            || (new' == old' && !FailsInjection(w.heap, e))
            || (&& |new'| == |old'| + 1 && new'[..|old'|] == old'
                && (ReadLog(Closed, new'[|old'|]) == Open <==> FailsInjection(w.heap, e)))
  {
    var b := w.heap.boxes[e.ptr];
    ReadLogConcat(Closed, b.log, [EvBootstrappingDropped]);
    assert [EvBootstrappingDropped][1..] == [] && b.log + [] == b.log;
    if e.ECall? && TagOf(b.machine) == Needs(e.call) && Check(e.call).None? {
      LosingTransition(c, b, w.heap.store, e.call);
    }
  }

  /** The machine of retired log `i` went at event `j`. */
  ghost predicate RetiredAt(c: Crypto, store: Store, es: seq<Event>, i: nat, j: nat) {
    && j < |es|
    && |RunWorld(c, Start(store), es[..j]).heap.retired| == i
    && |RunWorld(c, Start(store), es[..j + 1]).heap.retired| == i + 1
  }

  ghost predicate OpenExactlyBy(c: Crypto, store: Store, es: seq<Event>, i: nat, j: nat, log: seq<AuditEvent>) {
    && RetiredAt(c, store, es, i, j)
    && ReadLog(Closed, log) in {Closed, Open}
    && (ReadLog(Closed, log) == Open <==> FailsInjection(RunWorld(c, Start(store), es[..j]).heap, es[j]))
  }

  lemma StepRetires(c: Crypto, store: Store, es: seq<Event>, e: Event)
    requires Legal(c, Start(store), es) && Allowed(RunWorld(c, Start(store), es), e)
    ensures var w := RunWorld(c, Start(store), es);
            var old', new' := w.heap.retired, Step(c, w, e).heap.retired;
            || new' == old'
            || (&& |new'| == |old'| + 1 && new'[..|old'|] == old'
                && (ReadLog(Closed, new'[|old'|]) == Open <==> FailsInjection(w.heap, e)))
  {
    OwnershipIsConserved(c, store, es);
    var w := RunWorld(c, Start(store), es);
    if !e.ENew? && e.ptr in w.heap.boxes {
      BoxIsBracketed(c, store, es, e.ptr);
      EndedLogIsOpenExactly(c, w, e);
    }
  }

  lemma OpenExactlyByExtends(c: Crypto, store: Store, es: seq<Event>, i: nat, j: nat, log: seq<AuditEvent>)
    requires es != [] && OpenExactlyBy(c, store, es[..|es| - 1], i, j, log)
    ensures OpenExactlyBy(c, store, es, i, j, log)
  {
    var init := es[..|es| - 1];
    assert init[..j] == es[..j] && init[..j + 1] == es[..j + 1] && init[j] == es[j];
  }

  lemma OpenExactlyByTheLast(c: Crypto, store: Store, es: seq<Event>, i: nat)
    requires es != [] && Legal(c, Start(store), es)
    requires |RunWorld(c, Start(store), es[..|es| - 1]).heap.retired| == i
    requires i < |RunWorld(c, Start(store), es).heap.retired|
    ensures OpenExactlyBy(c, store, es, i, |es| - 1, RunWorld(c, Start(store), es).heap.retired[i])
  {
    LegalPrefix(c, Start(store), es);
    StepRetires(c, store, es[..|es| - 1], es[|es| - 1]);
    RetiredPhase(c, store, es, i);
    assert es[..|es|] == es;
  }

  /**
   The log of every machine that is gone obeys the bracket rule, and its last bracket is still open if
   and only if the event at which the machine went was an injection that the network failed.
   */
  lemma {:induction false} EveryRetiredLog(c: Crypto, store: Store, es: seq<Event>, i: nat)
    requires Legal(c, Start(store), es) && i < |RunWorld(c, Start(store), es).heap.retired|
    ensures exists j: nat :: OpenExactlyBy(c, store, es, i, j, RunWorld(c, Start(store), es).heap.retired[i])
    decreases |es|
  {
    LegalPrefix(c, Start(store), es);
    var init := es[..|es| - 1];
    StepRetires(c, store, init, es[|es| - 1]);
    var before := RunWorld(c, Start(store), init).heap.retired;
    if i < |before| {
      EveryRetiredLog(c, store, init, i);
      var j: nat :| OpenExactlyBy(c, store, init, i, j, before[i]);
      OpenExactlyByExtends(c, store, es, i, j, before[i]);
    } else {
      OpenExactlyByTheLast(c, store, es, i);
    }
  }

  lemma RetiredPhase(c: Crypto, store: Store, es: seq<Event>, i: nat)
    requires Legal(c, Start(store), es) && i < |RunWorld(c, Start(store), es).heap.retired|
    ensures ReadLog(Closed, RunWorld(c, Start(store), es).heap.retired[i]) in {Closed, Open}
  {
    ShellRefinesLifecycle(c, store, es);
    var log := RunWorld(c, Start(store), es).heap.retired[i];
    assert Ended(c, log);
    var s: Store :| IsLife(c, None, log, s);
    var cfg: Config, store0: Store, hs: seq<Happening> :| Reaches(Run(c, Birth(cfg, store0), hs), None, log, s);
    BracketRule(c, cfg, store0, hs);
  }
}
