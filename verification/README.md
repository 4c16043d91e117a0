# Genesis: verification of the key lifecycle

Genesis keeps an age private key encrypted under a key management service (KMS), decrypts it inside a
Rust core, injects it into Kubernetes secrets and rotates it. This project models the parts in which
that can go wrong over time and proves properties of every run. Paths below are relative to the
repository's root.

| file | models |
|---|---|
| `Base.dfy` | optional values, results, byte strings |
| `Codec.dfy` | the binary wire format of hybrid envelopes, printer and parser |
| `Hybrid.dfy` | sealing, opening and upgrading envelopes; the local KMS and its file |
| `Kms.dfy` | the KMS law and the XOR mock that meets it |
| `Injection.dfy` | the mock's flat secret store; POST-then-PUT injection; lists of targets |
| `Targets.dfy` | the targets that a bootstrap resource asks for |
| `Lifecycle.dfy` | the typed lifecycle machine, the key-holding wrapper and its destructor, the audit log |
| `Ffi.dfy`, `FfiOutcomes.dfy`, `FfiRuns.dfy` | the C-ABI shell over heap boxes and tagged handles; its answers case by case; hosts that thread handles |
| `Bridge.dfy` | the Go handle, the bootstrap injector and the reconciler's tracked handle |
| `Rotation.dfy` | the rotation executor, from a stored envelope to a new key |
| `Cluster.dfy`, `ClusterSafety.dfy`, `ClusterConvergence.dfy`, `ClusterStaleness.dfy`, `ClusterRules.dfy` | both controllers, interleaved, over one API server |
| `Conditions.dfy`, `Schedule.dfy`, `SchedulePlans.dfy`, `ScheduleRuns.dfy`, `ScheduleCrowding.dfy` | status conditions; when a policy rotates and what it records |
| `Jwks.dfy`, `JwksCalls.dfy` | the JWKS cache: key parsing, any number of concurrent callers, and one of them alone |
| `Rewrap.dfy`, `RewrapRules.dfy` | the CLI `rotate` command over any sequence of providers; which keys configs and flags name |

Cryptography is never modelled from inside. Primitives are function parameters of which only algebraic
laws are used: decryption undoes encryption, decapsulation undoes encapsulation, verification accepts
what was signed. `Kms.MockKmsIsLawful`, `Hybrid.LawsAreSatisfiable` and `Rewrap.LawsAreSatisfiable`
exhibit instances, so no theorem is about nothing. The KMS, the network, the clock, the allocator and
parsers of JSON, YAML and base64 appear as inputs that may fail at any point.

Code that updates state is written as classes and methods, each proved against a function of its
inputs and old state; concurrency is a state machine whose every action is one atomic step. The
theorems are about those functions and state machines.

## What the proofs found

- **Go handle after a consuming failure.** `recoverHandle` keeps the old pointer when a result carries
  no handle. The pointer is then dangling, and the `Free` on the error path of the bootstrap injector,
  like the `AbortRotation` and the deferred `Free` of the rotation executor, uses it again. The comment
  at `internal/bridge/bridge.go:140-141` says otherwise. `Bridge.LiveAfterCall` gives the exact condition
  for one call, `Bridge.Bootstrap` and `Rotation.Rotate` for whole flows, as guards on what the KMS, the
  network and the target list do; `Bridge.DanglingHandle` is the concrete case of an unreachable KMS.
- **Annotations after a rotation never land.** The update carries the secret read before the rotation and
  is refused in every interleaving (`ClusterSafety.AnnotationsNeverLand`): the old key is never restored
  this way, but no annotation is ever written either.
- **A stale process can undo a rotation.** Secret writes carry no version, so a bootstrap pass that read
  the resource before a rotation and writes after it puts the old key back everywhere
  (`ClusterConvergence.StaleBootstrapUndoesRotation`). The next pass heals it. `ClusterStaleness` says
  exactly when this happens: for one step (`ReplacedExactlyWhen`), for all continuations of every
  reachable state (`StaysExactlyWithoutThreat`), and for the key a rotation has committed
  (`CommittedKeyStaysExactly`).
- **Spacing is guaranteed for stored rotation times only.** After any rotation, whoever still reads the
  version it was based on rotates again at the same instant (`ScheduleCrowding.EveryRotationCanBeRepeated`);
  that update is refused after the key has been replaced. A pass can crowd the last rotation exactly when the
  interval is not over and the copy it loaded lacks that rotation
  (`ScheduleCrowding.LoadedPassCrowdsExactlyWhen`); performed rotations are spaced when nothing is lost
  (`ScheduleCrowding.NothingLostMeansSpaced`).
- **PUT replaces the whole secret.** The server agrees with the flat mock store exactly when no secret is
  named with two keys (`Injection.StoresAgree`); lists built by the controller are such.
- **Compound keys collide** exactly when some part contains a slash (`Injection.CompoundKeyIsUniqueExactly`).
- **The RSA exponent** is folded into a 64-bit integer and is right exactly below 2^63
  (`Jwks.ExponentIsExact`); up to seven octets always are.
- **A signature covers an envelope's parts run together**, not the boundaries between them
  (`Hybrid.SignatureCoversConcatenationExactly`, `Hybrid.BoundariesAreNotSigned`).
- **The length word** of an envelope is written and never read (`Codec.LengthWordIgnored`).
- **CLI rotate never succeeds towards Azure Key Vault**, since no flag names the key
  (`Rewrap.TargetIsBuiltIff`), nor away from YubiKey, TPM or local configs (`Rewrap.SomeProvidersAreStuck`).
- **An injection that fails, by an error or a panic, leaves its audit bracket open**, and nothing else does
  (`Lifecycle.BracketStaysOpenExactly`; for whole runs through the C ABI, `FfiRuns.EveryRetiredLog`).

## Model

| member | source | states |
|---|---|---|
| Codec.RoundTrip | genesis-core/src/envelope.rs:199-252 | printing then parsing gives the envelope back if and only if it is a V2 envelope with every field below 2^32 bytes |
| Codec.ParseIsCanonical | genesis-core/src/envelope.rs:225-252 | accepted bytes are the printed form of the result plus the untouched rest, except for the four length bytes |
| Codec.LengthWordIgnored | genesis-core/src/envelope.rs:225-252 | replacing the length word never changes the result, accepted or not |
| Codec.ParseExtends | genesis-core/src/envelope.rs:225-252 | trailing bytes are handed through and never change what is parsed |
| Codec.NoStrictPrefix | genesis-core/src/envelope.rs:225-252 | no strict prefix of a printed envelope parses |
| Codec.HeaderLength | genesis-core/src/envelope.rs:199-222 | an encoding is 28 bytes plus its fields; the length word is fields plus 20 modulo 2^32, and right exactly when that fits |
| Codec.EncodedLayout | genesis-core/src/envelope.rs:199-222 | byte for byte: the magic, the length of what follows, and the five fields in order, each behind its own length |
| Codec.AcceptsExactly | genesis-core/src/envelope.rs:225-252 | an input is accepted as an envelope and a rest if and only if it is the printed form of an envelope that fits, with any length word, followed by that rest |
| Codec.RefusesExactly | genesis-core/src/envelope.rs:225-306 | it is refused as too short or for its magic exactly when it is so, and otherwise with the error of the field at which it breaks off after complete fields, if and only if it does |
| Codec.LeDigits | genesis-core/src/envelope.rs:285-288 | length words are written lowest octet first |
| Codec.LeRoundTrip | genesis-core/src/envelope.rs:199-222 | a length written as a 32-bit little-endian word reads back modulo 2^32 |
| Codec.Buffer.WriteLengthPrefixed | genesis-core/src/envelope.rs:285-288 | appends exactly one length-prefixed field to the buffer |
| Codec.ToBytes | genesis-core/src/envelope.rs:199-222 | the growing, back-patched buffer ends as the specified encoding |
| Codec.ReadLengthPrefixed | genesis-core/src/envelope.rs:290-306 | for every buffer and cursor: the field or error at the cursor, the cursor stays in the buffer, no 64-bit sum wraps |
| Codec.FromBytes | genesis-core/src/envelope.rs:225-252 | the cursor-driven parser is total and equals the specified parse on every byte string |
| Hybrid.OpenSealed | genesis-core/src/envelope.rs:71-196 | opening with matching keys undoes sealing |
| Hybrid.SealsExactly | genesis-core/src/envelope.rs:71-143 | sealing gives an envelope if and only if both draws and all primitives work and its parts are the specified ones, with the drawn nonce before what it encrypts and a signature over the three parts |
| Hybrid.OpensExactly | genesis-core/src/envelope.rs:146-196 | opening gives a plaintext if and only if the signature holds over the three parts, both secrets are recovered and combine, and the cipher opens under the nonce in front |
| Hybrid.FailsInOrder | genesis-core/src/envelope.rs:71-196 | the first step that fails, in the order of the steps, gives the error of sealing and of opening |
| Hybrid.SignatureCoversConcatenationExactly | genesis-core/src/envelope.rs:71-196 | under the signature and key of a sealed envelope, other parts pass the signature check if and only if they give the same bytes when run together |
| Hybrid.BoundariesAreNotSigned | genesis-core/src/envelope.rs:71-196 | for every sealed envelope with a non-empty age part, moving a byte across the boundary gives another envelope that passes the signature check |
| Hybrid.ReplacedPartsDoNotOpen | genesis-core/src/envelope.rs:71-196 | where the first two parts keep their lengths, only the sealed envelope itself opens under its signature and key, and only for both private keys |
| Hybrid.SealedFits | genesis-core/src/envelope.rs:71-143 | a sealed envelope survives the wire exactly when the plaintext plus 28 bytes is below 2^32 |
| Hybrid.OpenFromTheWire | genesis-core/src/envelope.rs:71-252 | seal, print, append anything, parse, open: the plaintext comes back |
| Hybrid.OpenUpgraded | genesis-core/src/envelope.rs:255-283 | an upgraded V1 blob is detected as V2 and opens to the V1 plaintext |
| Hybrid.Generate | genesis-core/src/kms/local.rs:53-80 | success exactly when random bytes, sealing and writing all work; then the file holds the printed envelope of the returned key, and a failure changes the file only when writing it was cut short |
| Hybrid.FromEnvelope | genesis-core/src/kms/local.rs:34-48 | succeeds if and only if the file is there, parses and opens, with the key that opening gives; otherwise reports which of these failed |
| Hybrid.LocalKmsExactly | genesis-core/src/kms/local.rs:89-120 | encryption and decryption succeed if and only if the key has 32 bytes, the nonce is drawn or stands in front of the ciphertext, and the cipher works; the drawn nonce is put in front |
| Hybrid.ReloadedDecryptsEverything | genesis-core/src/kms/local.rs:34-120 | the reloaded provider is the generated one and decrypts everything that one encrypted |
| Hybrid.LawsAreSatisfiable | genesis-core/src/envelope.rs:71-196 | one suite meets all laws and size bounds, and one meets all laws with signatures that bind, so what is assumed above can hold |
| Kms.XorTransformTwice | genesis-core/src/kms/mock.rs:38-45 | XOR with the repeating pad is its own inverse on data of any length |
| Kms.XorTransformBits | genesis-core/src/kms/mock.rs:38-45 | every bit of the result differs from that of the data exactly where the pad octet at the index modulo 32 has its bit set |
| Kms.MockKmsIsLawful | genesis-core/src/kms/mock.rs:54-71 | the mock meets the KMS law, and round-trips everything when not told to fail |
| Injection.CompoundKeyIsInjective | genesis-core/src/k8s/inject.rs:148-151 | slash-free names: equal compound keys and prefixes mean equal targets and secrets |
| Injection.CompoundKeyIsUniqueExactly | genesis-core/src/k8s/inject.rs:148-151 | a compound key is no other target's if and only if namespace, name and key are all slash-free |
| Injection.SlashesCollide | genesis-core/src/k8s/inject.rs:148-151 | for every target with a slash in some part, a target in another secret has the same compound key |
| Injection.FlatStoreRefinesMap | genesis-core/src/k8s/inject.rs:148-193 | after any writes the flat store answers every lookup and every prefix query as a map keyed by targets does |
| Injection.MockSecretInjector.Inject | genesis-core/src/k8s/inject.rs:161-182 | one write under namespace/name/key, and one to the metadata log when metadata is given |
| Injection.MockSecretInjector.SecretExists | genesis-core/src/k8s/inject.rs:184-192 | true exactly when some stored key starts with the secret's prefix |
| Injection.Inject | genesis-core/src/k8s/inject.rs:349-394 | success if and only if the POST is served and, for a secret that exists, the PUT too; the secret is the new object exactly when the deciding request reached the server, and no other secret changes |
| Injection.InjectAll | genesis-core/src/state.rs:409-411 | the loop over the targets succeeds if and only if the network serves every target, each with its PUT where the secret exists or an earlier target has created it, and leaves the specified secrets |
| Injection.AllWritten | genesis-core/src/state.rs:395-433 | when every target is served, for any list with duplicates, each named secret holds exactly the key under the name that the last target naming it uses; all others are untouched |
| Injection.StopsAtFirstFailure | genesis-core/src/state.rs:395-433 | a loop, whole or broken off at index n, leaves exactly the writes before n, and that at n if its request arrived and only the answer was lost |
| Injection.FailsExactlyWhen | genesis-core/src/state.rs:395-433 | the first injection that fails is the first whose requests the network does not serve, in terms of the links, the initial secrets and the earlier names; the loop succeeds if and only if there is none |
| Injection.StoresAgree | genesis-core/src/k8s/inject.rs:148-193 | when every target is served, flat store and replacing server agree on all targets if and only if no secret is named with two keys |
| Targets.BuildTargets | internal/controller/genesisbootstrap_controller.go:259-277 | the appending loop yields the primary target and then one per additional namespace, in order |
| Targets.TargetsExactly | internal/controller/genesisbootstrap_controller.go:259-277 | a target is in the list if and only if it is the primary one or names the secret in one of the additional namespaces |
| Targets.OneKeyForAllTargets | internal/controller/genesisbootstrap_controller.go:259-283 | with all requests served the loop over such a list succeeds whole, and the secret holds the key in its own namespace and in every additional one |
| Targets.WrittenEverywhere | internal/controller/genesisbootstrap_controller.go:259-283 | once such a list has been written, the secret in every wanted namespace is exactly the new object, and no other secret has changed |
| Lifecycle.GenesisBootstrapping.Dropped | genesis-core/src/state.rs:475-485 | the destructor alerts exactly when key material is still there |
| Lifecycle.GenesisBootstrapping.InjectSecretWithMetadata | genesis-core/src/state.rs:353-383 | emptying the option fields in place has the effect of the specified transition on log, secrets and result, and always takes the key |
| Lifecycle.GenesisBootstrapping.InjectSecretsMulti | genesis-core/src/state.rs:395-433 | likewise for a list: events for all targets on success, none on failure, the alert on an empty list |
| Lifecycle.GenesisBootstrapping.Abort | genesis-core/src/state.rs:459-473 | returns the configuration, drops the key and logs the abort without an alert |
| Lifecycle.KeysAgreeInEveryRun | genesis-core/src/state.rs:134-616 | any run, other writers included: once the log shows a minted keypair, the public key is the last one logged and matches the envelope, verify answers true and unseal undoes seal; verification always answers true exactly for a matched pair; while active or rotating the untouched targets of the last injection hold exactly the envelope's key under the machine's public key as label; the machine never degrades |
| Lifecycle.WhatIsHeld | genesis-core/src/state.rs:353-573 | the targets of which the run theorem speaks: the last to name each secret of an injection that worked, the one of a rotation, less those whose secret somebody else has written |
| Lifecycle.MintingIsForGood | genesis-core/src/state.rs:149-573 | whatever was loaded: from the first init or completed rotation that works, in every continuation of the run, public key and envelope match and are the ones logged last |
| Lifecycle.AuditNamesTheKey | genesis-core/src/state.rs:149-573 | in every run a machine has minted exactly when its log says so, and then its public key is the last one logged |
| Lifecycle.OneEventPerTarget | genesis-core/src/state.rs:418-424 | a successful injection logs its targets in order, and exactly the last event says that the key is gone |
| Lifecycle.BracketRule | genesis-core/src/state.rs:284-485 | in the log of any run each BeginBootstrap is closed by at most one of a complete injection run with exactly its last event marked zeroed, an abort, or the drop alert, and these occur nowhere else |
| Lifecycle.BracketStaysOpenExactly | genesis-core/src/state.rs:353-485 | of the operations that end a bootstrap, exactly an injection that fails, by an error or a panic of the injector, leaves the bracket open and logs nothing; all others close it; the alert is raised exactly when the key is untaken |
| Lifecycle.CompleteRotationAgrees | genesis-core/src/state.rs:522-573 | a completed rotation matches public key and envelope, makes the secret of its one target exactly the new key labelled with the new public key, and leaves every other secret as it was |
| Ffi.GenesisCore.TakeInner | genesis-core/src/ffi.rs:241-246 | a live handle gives up its box, null is an error, a box that is gone breaks the contract |
| Ffi.GenesisCore.InnerToHandle | genesis-core/src/ffi.rs:119-126 | one new box whose handle carries the tag of what is inside |
| Ffi.GenesisCore.GenesisNew | genesis-core/src/ffi.rs:260-285 | one new uninitialised box, or an error and none |
| Ffi.GenesisCore.GenesisInit | genesis-core/src/ffi.rs:297-358 | heap, log, secrets and result are those of the common entry-point specification, which `FfiOutcomes` states case by case |
| Ffi.GenesisCore.GenesisLoad | genesis-core/src/ffi.rs:368-411 | the same, with an empty envelope refused and the handle kept |
| Ffi.GenesisCore.GenesisVerify | genesis-core/src/ffi.rs:425-493 | the same; failures of verification keep the machine |
| Ffi.GenesisCore.GenesisBeginBootstrap | genesis-core/src/ffi.rs:502-550 | the same; a failed decryption loses the machine, a refused argument keeps it |
| Ffi.GenesisCore.GenesisInjectSecret | genesis-core/src/ffi.rs:560-675 | the same; an injection that fails or panics loses the machine |
| Ffi.GenesisCore.GenesisInjectSecrets | genesis-core/src/ffi.rs:688-800 | the same for a list of targets |
| Ffi.GenesisCore.GenesisStatus | genesis-core/src/ffi.rs:812-855 | the same; the machine stays |
| Ffi.GenesisCore.GenesisBeginRotation | genesis-core/src/ffi.rs:863-887 | the same |
| Ffi.GenesisCore.GenesisAbortRotation | genesis-core/src/ffi.rs:895-919 | the same; back to the old configuration |
| Ffi.GenesisCore.GenesisCompleteRotation | genesis-core/src/ffi.rs:932-1073 | the same; a failure after the checks loses the machine |
| Ffi.GenesisCore.GenesisFree | genesis-core/src/ffi.rs:1085-1097 | null is a no-op, a live box is dropped once, with the alert if it was bootstrapping |
| Ffi.GenesisCore.Invoke | genesis-core/src/ffi.rs:297-1073 | all entry points meet one specification |
| FfiOutcomes.RefusedOrLostBeforehand | genesis-core/src/ffi.rs:205-1073 | before its transition a call on a live handle keeps box, log and secrets, with code 102 in the wrong state and else with the code of the first argument not accepted (1 for null or not UTF-8, 500 for malformed KMS JSON, 400 for malformed targets, 100 for an empty envelope, the constructor's own); it loses the machine exactly when a constructor it reached panics |
| FfiOutcomes.ChecksExactly | genesis-core/src/ffi.rs:205-233 | accepted, refused with which code, or exploding: the checks of every entry point on the fields of its arguments, in order |
| FfiOutcomes.InitAnswers | genesis-core/src/ffi.rs:297-358 | minted keys in the new box under the initialised tag; 200 or 300 and a lost machine when the key or its encryption fails; 500 with the new machine when the artifacts do not serialise |
| FfiOutcomes.LoadAnswers | genesis-core/src/ffi.rs:368-411 | the new box holds exactly the given public key and envelope |
| FfiOutcomes.VerifyAnswers | genesis-core/src/ffi.rs:425-493 | the box is kept with 100, 101, 300 or 200 for a missing envelope, public key, KMS answer or derivation; else the event tells whether the envelope's key is that of the public key |
| FfiOutcomes.BeginBootstrapAnswers | genesis-core/src/ffi.rs:502-550 | the box holds the decrypted key, or the machine is lost with 100 or 300 |
| FfiOutcomes.InjectSecretAnswers | genesis-core/src/ffi.rs:560-675 | active with the one event and the labelled secret if and only if the network serves the requests; else lost with 401, or 999 for a panic |
| FfiOutcomes.InjectSecretsAnswers | genesis-core/src/ffi.rs:688-800 | an empty list is lost with 103 and the alert; a list that the network serves is written whole; any other is lost with 401 or 999, with the writes up to where it broke off |
| FfiOutcomes.ActiveAnswers | genesis-core/src/ffi.rs:812-887 | status keeps the active machine and begin-rotation makes it rotate |
| FfiOutcomes.AbortRotationAnswers | genesis-core/src/ffi.rs:895-919 | active again with the configuration from before |
| FfiOutcomes.CompleteRotationAnswers | genesis-core/src/ffi.rs:932-1073 | new keys in the active machine and the new key in the secret, labelled with the new public key; lost with 200, 300, 401 or 999 where minting or injection fails |
| FfiOutcomes.SealAndUnseal | genesis-core/src/state.rs:246-282 | sealing and unsealing keep the machine and the secrets, succeed exactly when key and age work, and log once they have their key |
| FfiOutcomes.AbortDropAndRetry | genesis-core/src/state.rs:459-616 | abort returns to the initialised configuration, a drop alerts only while bootstrapping, and retry needs the envelope's key |
| FfiRuns.CallOutcomes | genesis-core/src/ffi.rs:93-164 | success is an edge of the state graph and the tag is true; an error with a handle returns the same machine, log and secrets; an error without one has consumed exactly that box |
| FfiRuns.OwnershipIsConserved | genesis-core/src/ffi.rs:119-126 | over any run of a host that threads handles: live boxes = news - frees - losses, held handles are exactly the live boxes with true tags, the contract is never broken |
| FfiRuns.NothingElseIsAsked | genesis-core/src/ffi.rs:119-126 | the runs allow any call on any held handle or null, any release, and any address that is free or becomes so |
| FfiRuns.ShellRefinesLifecycle | genesis-core/src/ffi.rs:93-126 | every live box and every ended log is that of some run of the typed lifecycle |
| FfiRuns.LifeFollowsStore | genesis-core/src/ffi.rs:93-126 | what other machines write is, to one machine, an outside change that a typed run can contain |
| FfiRuns.EveryHandle | genesis-core/src/ffi.rs:93-126 | behind every held handle: never degraded, bracketed log, and once the log shows a minted key, matched keys of which the public one is the last logged |
| FfiRuns.EveryRetiredLog | genesis-core/src/ffi.rs:1085-1097 | in every run the log of each machine that is gone obeys the bracket rule, and is still open if and only if the machine went in an injection that failed, by an error or a panic |
| Bridge.LiveAfterCall | internal/bridge/bridge.go:84-146 | after a call the Go handle is live, and freeing it safe, if and only if the result had a handle, which is if and only if no listed guard lost the machine |
| Bridge.DanglingHandle | internal/bridge/bridge.go:213-221 | with an unreachable KMS the handle dangles and freeing it breaks the contract |
| Bridge.AbortAfterFailedCompletion | internal/controller/genesisrotationpolicy_controller.go:85-94 | the abort after a failed completion restores the old key exactly when the machine survived, and otherwise uses a lost box |
| Bridge.GoHandle.RecoverHandle | internal/bridge/bridge.go:140-146 | the field is overwritten only by a result that carries a handle |
| Bridge.GoHandle.Call | internal/bridge/bridge.go:84-114 | a lifecycle method performs one entry-point call, wherever the allocator puts the next box, and recovers the handle from it |
| Bridge.GoHandle.Release | internal/bridge/bridge.go:351-356 | frees the pointer in the field and nulls it, so a second release does nothing |
| Bridge.NewHandle | internal/bridge/bridge.go:118-125 | one fresh uninitialised box exactly when the configuration parses |
| Bridge.Bootstrap | internal/controller/genesisbootstrap_controller.go:223-286 | a handle is returned if and only if the configuration parses, the envelope is not empty, the KMS is built and decrypts, the injector is built and the network serves every namespace; then one active box exists and every wanted namespace has the labelled key; the contract breaks exactly when decryption or injection lost the machine; any other failure leaves no box and changes no secret |
| Bridge.BootstrapReconciler.ReconcilePass | internal/controller/genesisbootstrap_controller.go:541-560 | true if and only if everything the pass needs works; then the tracked handle is a new active box and every wanted namespace has the key; whatever other boxes are alive, no pass leaks; any failure keeps the old handle, and one that keeps the contract changes no secret |
| Bridge.BootstrapReconciler.HandleDeletion | internal/controller/genesisbootstrap_controller.go:579-584 | deletion releases the tracked box, no other one, and forgets it |
| Rotation.CallSettles | internal/bridge/bridge.go:84-146 | a call in the right state keeps the box, moves it along its transition or leaves the handle dangling, by its checks and its transition alone |
| Rotation.ToBootstrapping | internal/controller/genesisrotationpolicy_controller.go:59-73 | after load and begin the handle owns a machine holding the old key; on failure it dangles exactly when a listed guard lost the machine |
| Rotation.ToRotating | internal/controller/genesisrotationpolicy_controller.go:75-83 | after the old key's injection the machine rotates and the target holds the old key; on failure as above |
| Rotation.CompleteOrAbort | internal/controller/genesisrotationpolicy_controller.go:85-96 | artifacts exactly when all of minting, injection and serialisation worked; otherwise the abort keeps the box unless completion lost it; the secret holds the new key exactly when minting and injection worked |
| Rotation.Rotate | internal/controller/genesisrotationpolicy_controller.go:46-97 | artifacts if and only if every constructor, KMS call and request on the way works and they serialise: public key and envelope of the key the target now holds under that label; unless the contract breaks, the secrets are exactly those of how far it came; no box is left; the contract breaks exactly when a listed guard lost the machine |
| Rotation.ArtifactsMatch | internal/controller/genesisrotationpolicy_controller.go:329-334 | committing both artifacts keeps public key and ciphertext matched |
| Cluster.FindGenesisBootstrap | internal/controller/genesisrotationpolicy_controller.go:363-378 | the first listed resource that manages the secret, or none exactly when none does |
| ClusterSafety.InvAlways | internal/controller/genesisrotationpolicy_controller.go:305-361 | versions identify stored objects, every stored pair matches, every key is accounted for, every process's reads are versions that were stored, in every reachable state |
| ClusterSafety.KeyPairsNeverTorn | internal/controller/genesisrotationpolicy_controller.go:329-334 | every version of every resource has public key = pub(dec(ciphertext)), unless somebody applied this very pair: the controllers never mix two |
| ClusterSafety.EveryKeyIsAccountedFor | internal/controller/genesisbootstrap_controller.go:223-286 | every key in every secret is the key of some version of a resource that has this secret, key name and namespace, primary or additional, or one a rotation had injected there |
| ClusterSafety.SendNewOk | genesis-core/src/k8s/inject.rs:349-394 | sending a new key is never a no-op: it advances the secret's version |
| ClusterSafety.AnnotationsNeverLand | internal/controller/genesisrotationpolicy_controller.go:381-392 | the annotation update is refused in every reachable state, so the old key is never put back |
| ClusterSafety.CommitReplacesWhatItRead | internal/controller/genesisrotationpolicy_controller.go:329-334 | a commit changes nothing or replaces both envelope fields of exactly the version it had read |
| ClusterSafety.OnlyCommitsChangeEnvelopes | internal/controller/genesisbootstrap_controller.go:513-568 | status and finalizer updates from stale copies never change an envelope |
| ClusterConvergence.OnePassHeals | internal/controller/genesisbootstrap_controller.go:500-574 | from every invariant state one undisturbed pass makes the secret exactly the resource's key, in its own namespace and in every additional one, whatever was there |
| ClusterConvergence.SecondPassIsIdle | internal/controller/genesisbootstrap_controller.go:500-574 | the next pass changes no secret at all |
| ClusterConvergence.PassIsRun | internal/controller/genesisbootstrap_controller.go:500-574 | the undisturbed pass is a run of the interleaved steps |
| ClusterConvergence.EveryHistoryHeals | internal/controller/genesisbootstrap_controller.go:500-574 | after any history, failed rotations included: a pass gives the secret in the primary and every additional namespace the resource's key, and the next pass changes no secret |
| ClusterConvergence.RotationMovesResourceAndPrimary | internal/controller/genesisrotationpolicy_controller.go:305-361 | an undisturbed rotation moves resource and primary secret to the new key together; every other secret and resource stays |
| ClusterConvergence.RotationReachesAllExactly | internal/controller/genesisrotationpolicy_controller.go:305-361 | after it the secret holds the new key in every wanted namespace if and only if all additional namespaces are the primary one; any other namespace is as before, without the new key |
| ClusterConvergence.StaleBootstrapUndoesRotation | internal/controller/genesisbootstrap_controller.go:223-286 | from every state with a current resource: a run in which a pass that read it before a whole rotation rewrites the secret in every namespace with the old key afterwards |
| ClusterStaleness.ReplacedExactlyWhen | genesis-core/src/k8s/inject.rs:349-394 | in every invariant state a step takes a held key from its target if and only if it deletes the secret or is the PUT of a process aiming at that secret with another key or key name; bootstrap and old-key sends carry the key of the copy they read |
| ClusterStaleness.WithoutThreatTheKeyStays | internal/controller/genesisbootstrap_controller.go:223-286 | with no threatening process, every continuation that reads agreeing versions keeps the key |
| ClusterStaleness.ThreatUndoes | internal/controller/genesisbootstrap_controller.go:223-286 | every process that has read a disagreeing version, or minted another key, and not finished writing has a continuation that takes the key away, even if a secret on its way is missing |
| ClusterStaleness.StaysExactlyWithoutThreat | internal/controller/genesisbootstrap_controller.go:500-574 | from every reachable state a held key stays in all continuations that read agreeing versions if and only if no process is a threat |
| ClusterStaleness.CommittedKeyStaysExactly | internal/controller/genesisrotationpolicy_controller.go:305-361 | after every accepted commit whose new key is in place: it stays in all continuations that read current versions, edit neither resource nor secret and start no further rotation, if and only if no process is a threat; every threat to it holds an older version or another resource |
| ClusterRules.GuardedUpdates | internal/controller/genesisrotationpolicy_controller.go:329-392 | finalizer, status, commit and annotation updates land, with the specified content, if and only if the version that was read is the stored one |
| ClusterRules.BootstrapRequests | genesis-core/src/k8s/inject.rs:349-394 | a pass writes namespace after namespace in order: POST creates what is missing, PUT replaces what differs, a conflict leads to the PUT and a miss ends the pass |
| ClusterRules.OldKeyRequests | internal/controller/genesisrotationpolicy_controller.go:75-83 | a rotation writes the old key into the primary secret by the same requests |
| ClusterRules.NewKeyRequests | internal/controller/genesisrotationpolicy_controller.go:85-97 | and then the new key, remembering the version it wrote |
| ClusterRules.MarksNameTheKey | genesis-core/src/k8s/inject.rs:44-66 | a secret carries its resource's name and the first twelve characters of its public key |
| ClusterRules.OnlyNewKeysAreMinted | internal/controller/genesisrotationpolicy_controller.go:305-327 | a key counts as minted for a target exactly when a rotation's request with it was answered |
| ClusterRules.OutsideEdits | internal/controller/genesisbootstrap_controller.go:500-574 | people may apply and delete anything, except that nobody can have a new key before it is sent |
| ClusterRules.AnyStoredVersionCanBeRead | internal/controller/genesisbootstrap_controller.go:500-574 | caches may be arbitrarily old: whatever was stored at some point of a run can be read at every later one |
| ClusterRules.EveryProcessCanGoOn | internal/controller/genesisrotationpolicy_controller.go:305-361 | in every reachable state every process can stop, and go on unless it waits for a decryptable envelope, a managing resource or a new key |
| Conditions.List.Set | internal/controller/genesisrotationpolicy_controller.go:785-812 | the in-place loop has the effect of the specified update |
| Conditions.UpdatedIsFound | internal/controller/genesisbootstrap_controller.go:658-685 | the new report is found, dated now exactly when it differs from the one before |
| Conditions.OthersAreKept | internal/controller/genesisbootstrap_controller.go:658-685 | conditions of other types are untouched |
| Conditions.KindsAreStable | internal/controller/genesisbootstrap_controller.go:658-685 | order and types stay; the list grows only by a type that was absent |
| Conditions.UniqueIsKept | internal/controller/genesisrotationpolicy_controller.go:785-812 | at most one condition of each type, if it was so before |
| Conditions.RepeatIsNoop | internal/controller/genesisrotationpolicy_controller.go:785-812 | repeating a report changes nothing, transition time included |
| Schedule.PolicyServer.UpdateStatus | internal/controller/genesisrotationpolicy_controller.go:277-279 | accepted only under the version that was read; stores whole seconds; a no-op keeps the version |
| Schedule.PolicyServer.UpdateMetadata | internal/controller/genesisrotationpolicy_controller.go:144-150 | a finalizer update is accepted only under the version that was read, and moves it |
| Schedule.Policy.Prepare | internal/controller/genesisrotationpolicy_controller.go:152-276 | every branch leaves the specified status in the object and gives the specified answer |
| Schedule.Policy.Reconcile | internal/controller/genesisrotationpolicy_controller.go:123-286 | a pass stores its whole plan or nothing; finalizer and status updates are guarded by and move the version; it fails exactly when an update it needed was refused or the source was unreadable; the stored count moves exactly when active, due, rotated and accepted |
| SchedulePlans.DueInstant | internal/controller/genesisrotationpolicy_controller.go:194-205 | due an interval after the last rotation, else after the secret's creation, else from now |
| SchedulePlans.BlockedPlans | internal/controller/genesisrotationpolicy_controller.go:138-192 | deleted, without finalizer, suspended, unparsable, unreadable or missing: what the readiness condition says, that nothing else changes, and when the pass comes back |
| SchedulePlans.EarlyPlan | internal/controller/genesisrotationpolicy_controller.go:207-229 | too early: the due instant is noted in status and conditions and the pass comes back exactly then |
| SchedulePlans.BrokenPlan | internal/controller/genesisrotationpolicy_controller.go:232-249 | a failed rotation is not counted, stays in progress, is reported with its error and tried again in a minute |
| SchedulePlans.RotatedPlan | internal/controller/genesisrotationpolicy_controller.go:251-285 | a rotation is recorded with its time and the secret's version, counted, reported in both conditions, and the pass comes back after the interval |
| SchedulePlans.KeptExactly | internal/controller/genesisrotationpolicy_controller.go:277-279 | the server keeps all of a status but the fractions of its seconds |
| ScheduleRuns.WaitsExactlyUntilDue | internal/controller/genesisrotationpolicy_controller.go:211-229 | an early pass requeues strictly later, at exactly the due instant |
| ScheduleRuns.OwnRequeueIsDue | internal/controller/genesisrotationpolicy_controller.go:251-285 | the requeue after a rotation is never early against the truncated stored time |
| ScheduleRuns.IdlePassIsNoop | internal/controller/genesisrotationpolicy_controller.go:207-229 | once an early pass is stored, further early passes write what is there already |
| ScheduleRuns.ConditionsStayUnique | internal/controller/genesisrotationpolicy_controller.go:152-277 | no pass stores two conditions of one type |
| ScheduleRuns.StoredRotationsAreSpaced | internal/controller/genesisrotationpolicy_controller.go:163-286 | any interleaving with stale reads and any interval: stored rotation times are at least the interval's whole seconds apart, hence the interval itself when it has no fraction; the last is the policy's and the count is their number |
| ScheduleRuns.CountIsBoundedByTime | internal/controller/genesisrotationpolicy_controller.go:251-258 | n stored rotations span at least n - 1 times the interval's whole seconds |
| ScheduleRuns.AnyStoredVersionCanBeLoaded | internal/controller/genesisrotationpolicy_controller.go:123-286 | in these runs any version ever stored can be loaded at any later point, any pass can die, and anything but the interval may be edited |
| ScheduleCrowding.SpacingIsAttained | internal/controller/genesisrotationpolicy_controller.go:163-286 | for every interval that is not negative, some run stores two rotations exactly the interval's whole seconds apart |
| ScheduleCrowding.PerformedIsStoredOrLost | internal/controller/genesisrotationpolicy_controller.go:237-279 | performed rotations = stored + lost + not yet written, in every run |
| ScheduleCrowding.CurrentFinishIsSpaced | internal/controller/genesisrotationpolicy_controller.go:194-258 | a rotation performed on the stored version comes a full interval after the last stored one |
| ScheduleCrowding.NothingLostMeansSpaced | internal/controller/genesisrotationpolicy_controller.go:237-279 | in a run that has lost nothing and owes nothing, the stored times are the performed instants one by one, truncated, and each comes a full interval after the stored time before it |
| ScheduleCrowding.CrowdsExactlyWhen | internal/controller/genesisrotationpolicy_controller.go:194-211 | a pass on a loaded copy can come due less than an interval after a performed rotation if and only if that time is not over and the copy lacks the rotation |
| ScheduleCrowding.LoadedPassCrowdsExactlyWhen | internal/controller/genesisrotationpolicy_controller.go:194-258 | in every state, a loaded pass can go on to rotate within an interval of the last performed rotation if and only if the interval is not over and its copy lacks that rotation |
| ScheduleCrowding.CrowdingNeedsStaleOrLost | internal/controller/genesisrotationpolicy_controller.go:237-279 | in every run, a rotation performed too soon is based on a copy that lacks the last one; so the copy is outdated, or the policy itself lacks the last rotation, which then is lost or unstored |
| ScheduleCrowding.EveryRotationCanBeRepeated | internal/controller/genesisrotationpolicy_controller.go:236-279 | after every performed rotation of every run a second reader of the same version rotates again at the same instant |
| ScheduleCrowding.PerformedRotationsCanCrowd | internal/controller/genesisrotationpolicy_controller.go:236-279 | the smallest case: one worker with a stale cache, two rotations at one instant, one stored and one lost |
| Jwks.Exponent | internal/identity/github/github.go:461-465 | the fold is the big-endian value wrapped to 64 bits |
| Jwks.ExponentIsExact | internal/identity/github/github.go:461-465 | it is the value itself if and only if that is below 2^63, always so up to 7 octets |
| Jwks.BigEndianSplits | internal/identity/github/github.go:461-470 | the first octet of a number is the most significant one |
| Jwks.ParseKeys | internal/identity/github/github.go:444-473 | the map has exactly the ids of RSA signing keys whose numbers decode, each with the numbers of the last such entry |
| Jwks.JwksCache.Refresh | internal/identity/github/github.go:381-479 | both fields change together or not at all, and only when expired; the new lifetime ends at least an hour later |
| Jwks.JwksCache.GetKey | internal/identity/github/github.go:355-379 | with one caller: a live hit changes nothing; a live miss answers nothing; after expiry the map is that of the download and answers for its ids, or stays when the download fails; a returned key is in a map that outlives the call's start |
| Jwks.InvAlways | internal/identity/github/github.go:355-479 | lock bookkeeping, the pair of fields, the spacing of installs and what each caller may know, in every interleaving |
| Jwks.ReturnedKeysAreFresh | internal/identity/github/github.go:355-379 | every returned key stands in a key map that was alive at some instant between call and return |
| Jwks.RefreshDiscipline | internal/identity/github/github.go:381-479 | installs are at least an hour apart, and no reader ever sees a torn pair |
| Jwks.StepDiscipline | internal/identity/github/github.go:381-479 | expiration never decreases, only the lock's writer changes either field, a failed refresh changes neither |
| Jwks.AbsentIdsWaitForExpiry | internal/identity/github/github.go:355-388 | from any reachable state until its map expires, in every interleaving: nothing is downloaded, the map stays, and no later caller gets a key for an absent id |
| JwksCalls.LookupsAreExact | internal/identity/github/github.go:355-379 | a lookup, fast or slow, returns exactly the key in the map; without one the fast lookup goes on to refresh and the slow one fails |
| JwksCalls.CallAlone | internal/identity/github/github.go:355-479 | from every state with a free lock, for any clock readings and download: the call alone ends with a key or a failure exactly as the sequential `getKey`, gives the lock back and moves nobody else |
| JwksCalls.AnyUndisturbedCall | internal/identity/github/github.go:355-479 | however the steps of an undisturbed call are timed, its answer and the map it leaves are those of the sequential `getKey` for some clock readings and download |
| JwksCalls.WaitsOnlyForTheLock | internal/identity/github/github.go:355-388 | readers wait for the writer only, the writer for everybody, and nobody for anything else |
| JwksCalls.NoDeadlock | internal/identity/github/github.go:355-479 | in every reachable state with somebody inside, somebody can take the next step |
| Rewrap.CreateThenOpen | internal/envelope/envelope.go:20-60 | an envelope opens under its key exactly when the sealed text is an age private key |
| Rewrap.TargetIsBuiltIff | cmd/genesis/rotate.go:248-300 | the flags give a provider exactly under the listed conditions, never for Azure, and its name is the one saved |
| RewrapRules.FlagsNameTheirKey | cmd/genesis/rotate.go:248-300 | which key the flags name, the region of a bare ARN included |
| RewrapRules.ConfigNamesItsKey | cmd/genesis/rotate.go:173-246 | which key a config names under each provider, with defaults and derived regions, and when it names none |
| RewrapRules.RegionOfArn | internal/kms/awskms/awskms.go:111-117 | the region is what stands behind the third colon, up to the fourth or the end, and empty before that |
| RewrapRules.PartsOfOcid | internal/kms/ocivault/ocivault.go:190-211 | the region is an OCID's fourth part and the vault the first eight characters of its fifth, or "default" |
| RewrapRules.PartsJoin | internal/kms/awskms/awskms.go:111-117 | splitting at a separator gives parts without it that join to the whole |
| RewrapRules.JoinParts | internal/kms/awskms/awskms.go:111-117 | and parts without it that were joined are split again as they were |
| RewrapRules.ValidatesExactly | internal/config/config.go:93-142 | which fields each provider needs for a config to be valid |
| RewrapRules.ValidatedConfigsBuild | cmd/genesis/rotate.go:173-246 | a valid config names a key unless it is local, lacks an Azure key name, or misnames a slot or PCRs |
| Rewrap.RewrittenNamesItsKey | cmd/genesis/rotate.go:302-327 | from the rewritten config the same key is rebuilt that encrypted |
| Rewrap.Config.UpdateRotateConfigSpec | cmd/genesis/rotate.go:302-327 | all sections are cleared and the new provider's is set; nothing else changes |
| RewrapRules.OneSectionIsLeft | cmd/genesis/rotate.go:302-327 | exactly the new provider's section is left, filled from the flags |
| Rewrap.Disk.RunRotate | cmd/genesis/rotate.go:78-164 | file and outcome are those of the specified command, for every failure |
| RewrapRules.SecretExactly | internal/envelope/envelope.go:40-60 | a config opens to a key if and only if its software provider decrypts the decoded ciphertext to it and it is an age private key |
| RewrapRules.RotatesExactlyWhen | cmd/genesis/rotate.go:78-164 | the command succeeds if and only if the config is valid and opens, the flags name a key whose service encrypts, and the file can be written |
| RewrapRules.WhatSuccessWrites | cmd/genesis/rotate.go:78-164 | then the file holds the encoded new ciphertext under the new provider's name, and the report names both providers |
| RewrapRules.FailsInOrder | cmd/genesis/rotate.go:78-142 | a failure is that of the first step that did not work |
| Rewrap.SuccessKeepsTheKey | cmd/genesis/rotate.go:78-164 | success moves the same private key under the target key, leaves exactly the new provider's section, changes nothing else, and validates exactly when the ciphertext is not empty |
| Rewrap.FailureKeepsTheFile | cmd/genesis/rotate.go:78-142 | failure leaves the file as it was, except when the final write itself was cut short |
| Rewrap.SomeProvidersAreStuck | cmd/genesis/rotate.go:173-246 | YubiKey, TPM and local configs are never rotated away from |
| Rewrap.ChainKeepsTheKey | cmd/genesis/rotate.go:78-164 | after any sequence of attempts over any providers, each with either service up or down, the config opens to the original key, with public key and output unchanged, and validates unless a provider returned an empty ciphertext |
| Rewrap.InvalidIsFinal | cmd/genesis/rotate.go:88-91 | a config that does not validate is never changed again |
| Rewrap.TornIsFinal | cmd/genesis/rotate.go:82-86 | a torn file is never repaired by later attempts |
| Rewrap.LawsAreSatisfiable | internal/envelope/envelope.go:20-60 | some world meets the laws the chain theorem assumes |

## Left out

- Injection.Inject: the labels and annotations are a record of public key and owner; the provider type, which never changes, and the remaining fixed labels are not spelt out.
- Lifecycle.KeysAgreeInEveryRun: one KMS for the whole run, which may be unreachable at any call; a run that changes the KMS between calls is outside it.
- Bridge.BootstrapReconciler.ReconcilePass: other people's boxes may be alive but do not change during the pass.
- FfiRuns.OwnershipIsConserved: assumes a host that passes null or a handle it holds; what the Go code does with other handles is stated in Bridge and Rotation.
- Ffi.GenesisCore.Invoke: panics are modelled where providers and injectors are built, in verification and in injections, and error texts and result strings are reduced to their codes.
- ClusterSafety.EveryKeyIsAccountedFor: secrets are written by the two controllers and deleted by anybody; other writers are excluded, since a stranger may store anything.
- Cluster.FindGenesisBootstrap: the lookup is a method, but the interleaved rotation may find any cached resource that manages the secret, a superset; the controllers' other reads and writes are steps of the state machine instead of method bodies, so that anything may happen between them.
- ClusterConvergence.EveryHistoryHeals: the healing pass itself is undisturbed, with KMS and API server answering and a ciphertext that can be decrypted; for any other the pass stops before it writes.
- ScheduleRuns.StoredRotationsAreSpaced: the rotation count is unbounded instead of 64 bits wide, the policy object is never deleted and created anew, and parse errors in condition messages are shortened.
- Codec.FromBytes: inputs are at most 2^63 - 1 bytes long, which Rust guarantees of every slice.
- Hybrid.ReplacedPartsDoNotOpen: signatures and digests bind to one message, an idealisation of what their designs make infeasible to break.
- Hybrid.FromEnvelope: the parser's different error texts are one error.
- Rewrap.SuccessKeepsTheKey: loading what was saved gives the same config back (YAML and base64 round trips are assumed); provider names, PIV slots and hash names are enumerations with a case for any other text.
- Cryptographic primitives (age, ML-KEM, ML-DSA, ChaCha20-Poly1305, HKDF, AES-GCM, RSA): only their laws are used, and nothing is claimed about secrecy.
- Cloud and hardware KMS clients, identity providers, SigV4, TLS and in-cluster authentication: inputs that may fail.
- JSON, YAML, base64 and C-string parsing, and Go's decoding of result data: outcomes are inputs.
- Building the KMS configuration JSON: the outcome of constructing a provider is an input.
- The mock-injector fallback of builds with the mock feature: the injector is an input.
- Cleanup of secrets by ownership label, the legacy bootstrap injector, attestation, notifications, events and logging: they add no state that the properties speak about.
- JWT claims, policy matching and signature checks of the identity verifier: only the key cache has state.
- CLI printing, SOPS, audit loggers, provider registry, generated copies: straight-line code.
- Locking and zeroing of key memory: only the taking of the key is modelled.
- The post-quantum keyset functions of the C ABI: each borrows a pointer and returns.
