/**
 The CLI `rotate` command: re-encrypting the private key of a bootstrap config under another KMS key
 (cmd/genesis/rotate.go, internal/envelope/envelope.go, internal/config/config.go and the provider
 constructors under internal/kms).
 */
module Rewrap {
  import opened Base
  import opened Targets

  // ---------- the config file ----------

  /** A provider's name as written in the config or on the command line. */
  datatype Provider =
    | Unset | AwsKms | GcpKms | AzureKeyVault | OciVault | YubiKeyPiv | TpmDevice | MockProvider | LocalFile
    | Unknown(text: string)

  datatype Aws = Aws(keyArn: string, region: string)
  datatype Gcp = Gcp(keyName: string)
  datatype Azure = Azure(vaultUrl: string, keyName: string, keyVersion: string)
  datatype Oci = Oci(keyOcid: string, cryptoEndpoint: string)
  /** PIV slots "9a", "9c", "9d" and "9e". */
  datatype Slot = NoSlot | Authentication | Signature | KeyManagement | CardAuth | OtherSlot(text: string)
  datatype YubiKey = YubiKey(slot: Slot, fingerprint: string)
  datatype Hash = Sha256 | Sha384 | Sha512 | OtherHash(text: string)
  datatype Pcrs = Pcrs(hash: Hash, indices: seq<int>)
  /** No path means "/dev/tpmrm0". */
  datatype Device = DefaultDevice | Path(text: string)
  datatype Tpm = Tpm(device: Device, pcrs: Option<Pcrs>)
  datatype Local = Local(mlkemPublicKey: string, signingPublicKey: string, envelopePath: string)

  datatype Sections = Sections(
    aws: Option<Aws>, gcp: Option<Gcp>, azure: Option<Azure>, oci: Option<Oci>, yubikey: Option<YubiKey>, tpm: Option<Tpm>)

  /** The accepted "genesis.io/v1alpha1" and "GenesisBootstrap", against any other text. */
  datatype ApiVersion = V1Alpha1 | OtherVersion(text: string)
  datatype Kind = GenesisBootstrap | OtherKind(text: string)

  datatype Head = Head(apiVersion: ApiVersion, kind: Kind, name: string, namespace: string)

  datatype Doc = Doc(
    head: Head, provider: Provider, publicKey: string, sections: Sections, ciphertext: string, local: Local, output: Output)

  predicate SectionOk(d: Doc) {
    if d.provider == LocalFile then d.local.envelopePath != ""
    else if d.provider == AwsKms then d.sections.aws.Some? && d.sections.aws.value.keyArn != ""
    else if d.provider == GcpKms then d.sections.gcp.Some? && d.sections.gcp.value.keyName != ""
    else if d.provider == AzureKeyVault then d.sections.azure.Some? && d.sections.azure.value.vaultUrl != ""
    else if d.provider == OciVault then
      d.sections.oci.Some? && d.sections.oci.value.keyOcid != "" && d.sections.oci.value.cryptoEndpoint != ""
    else d.provider in {YubiKeyPiv, TpmDevice, MockProvider}
  }

  predicate Validates(d: Doc) {
    && d.head.apiVersion.V1Alpha1? && d.head.kind.GenesisBootstrap?
    && d.provider != Unset && (d.provider == LocalFile || d.ciphertext != "")
    && SectionOk(d)
  }

  // ---------- providers ----------

  /** The crypto endpoint as given, or as derived from the vault and region parts of the key's OCID. */
  datatype Endpoint = Explicit(text: string) | Derived(vault: string, region: string)

  /** A provider as it addresses its key; two providers with the same value use the same key. */
  datatype Key =
    | AwsKey(arn: string, region: string)
    | GcpKey(name: string)
    | AzureKey(vaultUrl: string, name: string, version: string)
    | OciKey(ocid: string, endpoint: Endpoint)
    | YubiKeySlot(slot: Slot, fingerprint: string)
    | TpmSeal(device: Device, pcrs: Pcrs)
    | MockKey

  datatype Stage = Loading | Validating | Current | Decoding | Opening | Target | Creating | Saving

  /** The pieces of `s` between separators; always at least one. */
  function Parts(s: string, sep: char): (r: seq<string>)
    ensures |r| >= 1
  {
    if s == "" then [""]
    else
      var rest := Parts(s[1..], sep);
      if s[0] == sep then [""] + rest else [[s[0]] + rest[0]] + rest[1..]
  }

  function Fourth(s: string, sep: char): string {
    var parts := Parts(s, sep);
    if |parts| >= 4 then parts[3] else ""
  }

  function NewAws(arn: string, region: string): Option<Key> {
    if arn == "" then None else Some(AwsKey(arn, if region == "" then Fourth(arn, ':') else region))
  }

  function NewGcp(name: string): Option<Key> {
    if name == "" then None else Some(GcpKey(name))
  }

  function NewAzure(vaultUrl: string, name: string, version: string): Option<Key> {
    if vaultUrl == "" || name == "" then None else Some(AzureKey(vaultUrl, name, version))
  }

  function VaultId(ocid: string): string {
    var parts := Parts(ocid, '.');
    if |parts| < 5 then "default" else if |parts[4]| > 8 then parts[4][..8] else parts[4]
  }

  function NewOci(ocid: string, endpoint: string): Option<Key> {
    if ocid == "" then None
    else if endpoint != "" then Some(OciKey(ocid, Explicit(endpoint)))
    else
      var region := Fourth(ocid, '.');
      if region == "" then None
      else Some(OciKey(ocid, Derived(VaultId(ocid), region)))
  }

  function NewYubiKey(slot: Slot, fingerprint: string): Option<Key> {
    var slot := if slot.NoSlot? then Authentication else slot;
    if slot.OtherSlot? then None else Some(YubiKeySlot(slot, fingerprint))
  }

  const DEFAULT_PCRS := Pcrs(Sha256, [0, 1, 2, 3, 7])

  predicate ValidPcrs(p: Pcrs) {
    !p.hash.OtherHash? && p.indices != [] && forall i :: i in p.indices ==> 0 <= i <= 23
  }

  function NewTpm(device: Device, pcrs: Option<Pcrs>): Option<Key> {
    var p := if pcrs.Some? then pcrs.value else DEFAULT_PCRS;
    if ValidPcrs(p) then Some(TpmSeal(device, p)) else None
  }

  /** The provider that the config asks for. */
  function ProviderOf(d: Doc): Option<Key> {
    var s := d.sections;
    if d.provider == AwsKms then if s.aws.None? then None else NewAws(s.aws.value.keyArn, s.aws.value.region)
    else if d.provider == GcpKms then if s.gcp.None? then None else NewGcp(s.gcp.value.keyName)
    else if d.provider == AzureKeyVault then
      if s.azure.None? then None else NewAzure(s.azure.value.vaultUrl, s.azure.value.keyName, s.azure.value.keyVersion)
    else if d.provider == YubiKeyPiv then
      if s.yubikey.None? then NewYubiKey(Authentication, "")
      else NewYubiKey(s.yubikey.value.slot, s.yubikey.value.fingerprint)
    else if d.provider == OciVault then if s.oci.None? then None else NewOci(s.oci.value.keyOcid, s.oci.value.cryptoEndpoint)
    else if d.provider == TpmDevice then
      if s.tpm.None? then NewTpm(DefaultDevice, None) else NewTpm(s.tpm.value.device, s.tpm.value.pcrs)
    else if d.provider == MockProvider then Some(MockKey)
    else None
  }

  datatype Flags = Flags(
    provider: Provider, keyArn: string, keyName: string, vaultUrl: string, keyOcid: string, cryptoEndpoint: string)

  /** A key ARN alone means AWS. */
  function TargetName(f: Flags): Provider {
    if f.provider == Unset && f.keyArn != "" then AwsKms else f.provider
  }

  /** The provider that the flags ask for; an Azure key has no flag for its name. */
  function TargetOf(f: Flags): Option<Key> {
    var name := TargetName(f);
    if name == AwsKms then if f.keyArn == "" then None else NewAws(f.keyArn, "")
    else if name == GcpKms then if f.keyName == "" then None else NewGcp(f.keyName)
    else if name == AzureKeyVault then if f.vaultUrl == "" then None else NewAzure(f.vaultUrl, "", "")
    else if name == OciVault then
      if f.keyOcid == "" || f.cryptoEndpoint == "" then None else NewOci(f.keyOcid, f.cryptoEndpoint)
    else if name == MockProvider then Some(MockKey)
    else None
  }

  function SectionsFor(f: Flags, name: Provider): Sections {
    Sections(
      if name == AwsKms then Some(Aws(f.keyArn, "")) else None,
      if name == GcpKms then Some(Gcp(f.keyName)) else None,
      if name == AzureKeyVault then Some(Azure(f.vaultUrl, "", "")) else None,
      if name == OciVault then Some(Oci(f.keyOcid, f.cryptoEndpoint)) else None,
      None,
      None)
  }

  // ---------- envelopes ----------

  /** The services behind the providers, age key parsing and base64. */
  datatype World = World(
    encrypt: (Key, Bytes, nat) -> Option<Bytes>,
    decrypt: (Key, Bytes) -> Option<Bytes>,
    publicKey: Bytes -> Option<string>,
    encode: Bytes -> string,
    decode: string -> Option<Bytes>)
  {
    ghost predicate Lawful() {
      && (forall k: Key, p: Bytes, nonce: nat ::
            encrypt(k, p, nonce).Some? ==> decrypt(k, encrypt(k, p, nonce).value) == Some(p))
      && (forall b: Bytes :: decode(encode(b)) == Some(b))
    }

    /** Hardware providers are built without a client and refuse every operation. */
    function Encrypt(k: Key, p: Bytes, nonce: nat): Option<Bytes> {
      if k.YubiKeySlot? || k.TpmSeal? then None else encrypt(k, p, nonce)
    }

    function Decrypt(k: Key, c: Bytes): Option<Bytes> {
      if k.YubiKeySlot? || k.TpmSeal? then None else decrypt(k, c)
    }

    predicate ValidPrivateKey(p: Bytes) {
      PREFIX <= p && publicKey(p).Some?
    }
  }

  /** "AGE-SECRET-KEY-1" */
  const PREFIX: Bytes := [65, 71, 69, 45, 83, 69, 67, 82, 69, 84, 45, 75, 69, 89, 45, 49]

  datatype Envelope = Envelope(provider: Provider, publicKey: string, ciphertext: Bytes, ciphertextB64: string)

  function Name(k: Key): Provider {
    match k
    case AwsKey(_, _) => AwsKms
    case GcpKey(_) => GcpKms
    case AzureKey(_, _, _) => AzureKeyVault
    case OciKey(_, _) => OciVault
    case YubiKeySlot(_, _) => YubiKeyPiv
    case TpmSeal(_, _) => TpmDevice
    case MockKey => MockProvider
  }

  function Create(w: World, k: Key, privateKey: Bytes, nonce: nat): Option<Envelope> {
    var parsed := w.publicKey(privateKey);
    if parsed.None? then None
    else
      var c := w.Encrypt(k, privateKey, nonce);
      if c.None? then None else Some(Envelope(Name(k), parsed.value, c.value, w.encode(c.value)))
  }

  function Open(w: World, k: Key, e: Envelope): Option<Bytes> {
    var c := if e.ciphertext == [] && e.ciphertextB64 != "" then w.decode(e.ciphertextB64) else Some(e.ciphertext);
    if c.None? then None
    else
      var p := w.Decrypt(k, c.value);
      if p.Some? && w.ValidPrivateKey(p.value) then p else None
  }

  /** An envelope opens under its own key exactly when what was sealed is an age private key. */
  lemma CreateThenOpen(w: World, k: Key, privateKey: Bytes, nonce: nat)
    requires w.Lawful() && Create(w, k, privateKey, nonce).Some?
    ensures Open(w, k, Create(w, k, privateKey, nonce).value)
         == if w.ValidPrivateKey(privateKey) then Some(privateKey) else None
    ensures Some(Create(w, k, privateKey, nonce).value.publicKey) == w.publicKey(privateKey)
  {
    assert !k.YubiKeySlot? && !k.TpmSeal?;
    assert w.encrypt(k, privateKey, nonce).Some?;
  }

  // ---------- the command ----------

  /** A file that is missing, unreadable or not YAML is `Garbage`. */
  datatype File = Yaml(doc: Doc) | Garbage

  /** How writing the file goes: done, refused before it was touched, or cut short. */
  datatype Write = Written | Refused | Torn

  datatype Outcome = Success(oldProvider: Provider, newProvider: Provider, publicKey: string) | Failed(stage: Stage)

  function Rewritten(d: Doc, f: Flags, ciphertext: string): Doc {
    d.(provider := TargetName(f), ciphertext := ciphertext, sections := SectionsFor(f, TargetName(f)))
  }

  /** The private key that the config's own provider gets out of it. */
  function Secret(w: World, d: Doc): Option<Bytes> {
    var k, c := ProviderOf(d), w.decode(d.ciphertext);
    if k.None? || c.None? then None else Open(w, k.value, Envelope(d.provider, d.publicKey, c.value, ""))
  }

  /** Whether the current and the target service answer during one attempt. */
  datatype Reach = Reach(current: bool, target: bool)

  /** The first half of the command: the private key, or where it stops. */
  function Opened(w: World, file: File, up: Reach): Result<Bytes, Stage> {
    if file.Garbage? then Err(Loading)
    else if !Validates(file.doc) then Err(Validating)
    else if ProviderOf(file.doc).None? then Err(Current)
    else if w.decode(file.doc.ciphertext).None? then Err(Decoding)
    else
      var privateKey := if up.current then Secret(w, file.doc) else None;
      if privateKey.None? then Err(Opening) else Ok(privateKey.value)
  }

  /** The second half, up to saving: the new envelope, or where it stops. */
  function Resealed(w: World, f: Flags, privateKey: Bytes, nonce: nat, up: Reach): Result<Envelope, Stage> {
    if TargetOf(f).None? then Err(Target)
    else
      var e := if up.target then Create(w, TargetOf(f).value, privateKey, nonce) else None;
      if e.None? then Err(Creating) else Ok(e.value)
  }

  function Prepared(w: World, file: File, f: Flags, nonce: nat, up: Reach): Result<Envelope, Stage> {
    match Opened(w, file, up)
    case Err(stage) => Err(stage)
    case Ok(privateKey) => Resealed(w, f, privateKey, nonce, up)
  }

  /** What the command leaves in the file and reports. */
  function Saved(file: File, f: Flags, prepared: Result<Envelope, Stage>, write: Write): (File, Outcome)
    requires prepared.Ok? ==> file.Yaml?
  {
    match prepared
    case Err(stage) => (file, Failed(stage))
    case Ok(e) =>
      match write
      case Written =>
        (Yaml(Rewritten(file.doc, f, e.ciphertextB64)), Success(file.doc.provider, TargetName(f), file.doc.publicKey))
      case Refused => (file, Failed(Saving))
      case Torn => (Garbage, Failed(Saving))
  }

  function Rotated(w: World, file: File, f: Flags, nonce: nat, up: Reach, write: Write): (File, Outcome) {
    Saved(file, f, Prepared(w, file, f, nonce, up), write)
  }

  /** The loaded config, updated in place. */
  class Config {
    const head: Head
    var provider: Provider
    const publicKey: string
    var aws: Option<Aws>
    var gcp: Option<Gcp>
    var azure: Option<Azure>
    var oci: Option<Oci>
    var yubikey: Option<YubiKey>
    var tpm: Option<Tpm>
    var ciphertext: string
    const local: Local
    const output: Output

    constructor (d: Doc)
      ensures Value() == d
    {
      head, provider, publicKey := d.head, d.provider, d.publicKey;
      ciphertext, local, output := d.ciphertext, d.local, d.output;
      var s := d.sections;
      aws, gcp, azure, oci, yubikey, tpm := s.aws, s.gcp, s.azure, s.oci, s.yubikey, s.tpm;
    }

    function Value(): Doc
      reads this
    {
      Doc(head, provider, publicKey, Sections(aws, gcp, azure, oci, yubikey, tpm), ciphertext, local, output)
    }

    method UpdateRotateConfigSpec(f: Flags, name: Provider)
      modifies this
      ensures Value() == old(Value()).(sections := SectionsFor(f, name))
    {
      aws, gcp, azure, oci, yubikey, tpm := None, None, None, None, None, None;
      if name == AwsKms {
        aws := Some(Aws(f.keyArn, ""));
      } else if name == GcpKms {
        gcp := Some(Gcp(f.keyName));
      } else if name == AzureKeyVault {
        azure := Some(Azure(f.vaultUrl, "", ""));
      } else if name == OciVault {
        oci := Some(Oci(f.keyOcid, f.cryptoEndpoint));
      }
      assert Sections(aws, gcp, azure, oci, yubikey, tpm) == SectionsFor(f, name);
    }
  }

  class Disk {
    var file: File

    constructor (file: File)
      ensures this.file == file
    {
      this.file := file;
    }

    method Save(d: Doc, write: Write) returns (ok: bool)
      modifies this
      ensures ok == write.Written?
      ensures file == match write case Written => Yaml(d) case Refused => old(file) case Torn => Garbage
    {
      ok := write.Written?;
      file := match write case Written => Yaml(d) case Refused => file case Torn => Garbage;
    }

    /** Load, validate, build the current provider, decode and decrypt. */
    method OpenCurrent(w: World, up: Reach) returns (r: Result<(Config, Bytes), Stage>)
      ensures match Opened(w, file, up)
              case Err(stage) => r == Err(stage)
              case Ok(privateKey) => r.Ok? && fresh(r.value.0) && r.value.0.Value() == file.doc && r.value.1 == privateKey
    {
      if file.Garbage? {
        return Err(Loading);
      }
      var cfg := new Config(file.doc);
      if !Validates(cfg.Value()) {
        return Err(Validating);
      }
      var current := ProviderOf(cfg.Value());
      if current.None? {
        return Err(Current);
      }
      var ciphertext := w.decode(cfg.ciphertext);
      if ciphertext.None? {
        return Err(Decoding);
      }
      var env := Envelope(cfg.provider, cfg.publicKey, ciphertext.value, "");
      var privateKey := if up.current then Open(w, current.value, env) else None;
      if privateKey.None? {
        return Err(Opening);
      }
      r := Ok((cfg, privateKey.value));
    }

    method RunRotate(w: World, f: Flags, nonce: nat, up: Reach, write: Write) returns (r: Outcome)
      modifies this
      ensures (file, r) == Rotated(w, old(file), f, nonce, up, write)
    {
      var current := OpenCurrent(w, up);
      if current.Err? {
        return Failed(current.error);
      }
      var (cfg, privateKey) := current.value;
      var target := TargetOf(f);
      if target.None? {
        return Failed(Target);
      }
      var newEnv := if up.target then Create(w, target.value, privateKey, nonce) else None;
      if newEnv.None? {
        return Failed(Creating);
      }
      var oldProvider := cfg.provider;
      cfg.provider := TargetName(f);
      cfg.ciphertext := newEnv.value.ciphertextB64;
      cfg.UpdateRotateConfigSpec(f, TargetName(f));
      var saved := Save(cfg.Value(), write);
      if !saved {
        return Failed(Saving);
      }
      r := Success(oldProvider, TargetName(f), cfg.publicKey);
    }
  }

  // ---------- what it keeps ----------

  /** A target is built exactly when its flags are complete, and never for Azure. */
  lemma TargetIsBuiltIff(f: Flags)
    ensures TargetOf(f).Some? <==>
            || (f.provider in {Unset, AwsKms} && f.keyArn != "")
            || (f.provider == GcpKms && f.keyName != "")
            || (f.provider == OciVault && f.keyOcid != "" && f.cryptoEndpoint != "")
            || f.provider == MockProvider
    ensures TargetOf(f).Some? ==> Name(TargetOf(f).value) == TargetName(f)
  {
  }

  /** The rewritten sections lead back to the very key that encrypted. */
  lemma RewrittenNamesItsKey(d: Doc, f: Flags, ciphertext: string)
    requires TargetOf(f).Some?
    ensures ProviderOf(Rewritten(d, f, ciphertext)) == TargetOf(f)
    ensures SectionOk(Rewritten(d, f, ciphertext))
  {
  }

  /**
   Success moves the same private key under the target key; exactly the new provider's section is left,
   so that no stale one can be read; nothing else changes.
   */
  lemma SuccessKeepsTheKey(w: World, file: File, f: Flags, nonce: nat, up: Reach, write: Write)
    requires w.Lawful() && Rotated(w, file, f, nonce, up, write).1.Success?
    ensures var after := Rotated(w, file, f, nonce, up, write).0;
            && file.Yaml? && after.Yaml?
            && Secret(w, file.doc).Some? && Secret(w, after.doc) == Secret(w, file.doc)
            && ProviderOf(after.doc) == TargetOf(f) && TargetOf(f).Some?
            && after.doc.publicKey == file.doc.publicKey && after.doc.output == file.doc.output
            && after.doc.head == file.doc.head && after.doc.local == file.doc.local
            && (Validates(after.doc) <==> after.doc.ciphertext != "")
            && after.doc.sections == SectionsFor(f, after.doc.provider)
            && after.doc.provider in {AwsKms, GcpKms, OciVault, MockProvider}
  {
    TargetIsBuiltIff(f);
    var d, k := file.doc, Secret(w, file.doc).value;
    var e := Create(w, TargetOf(f).value, k, nonce).value;
    CreateThenOpen(w, TargetOf(f).value, k, nonce);
    RewrittenNamesItsKey(d, f, e.ciphertextB64);
    assert w.decode(e.ciphertextB64) == Some(e.ciphertext);
    assert e.ciphertext == [] ==> Open(w, TargetOf(f).value, e) == Open(w, TargetOf(f).value, e.(ciphertextB64 := ""));
  }

  lemma PreparingStopsBeforeSaving(w: World, file: File, f: Flags, nonce: nat, up: Reach)
    ensures Prepared(w, file, f, nonce, up) != Err(Saving)
  {
  }

  /** Failure leaves the file alone, unless the very last step tore it. */
  lemma FailureKeepsTheFile(w: World, file: File, f: Flags, nonce: nat, up: Reach, write: Write)
    requires Rotated(w, file, f, nonce, up, write).1.Failed?
    ensures var (after, r) := Rotated(w, file, f, nonce, up, write);
            if r.stage == Saving && write == Torn then after == Garbage else after == file
  {
    PreparingStopsBeforeSaving(w, file, f, nonce, up);
  }

  lemma HardwareOpensNothing(w: World, d: Doc)
    requires d.provider in {YubiKeyPiv, TpmDevice, LocalFile}
    ensures Secret(w, d).None?
  {
    var k := ProviderOf(d);
    assert k.None? || k.value.YubiKeySlot? || k.value.TpmSeal?;
  }

  lemma OnlyOpenConfigsAreRotated(w: World, file: File, f: Flags, nonce: nat, up: Reach)
    requires Prepared(w, file, f, nonce, up).Ok?
    ensures file.Yaml? && Secret(w, file.doc).Some?
  {
  }

  /** Hardware and local configs can never be rotated away from, whether or not they validate. */
  lemma SomeProvidersAreStuck(w: World, d: Doc, f: Flags, nonce: nat, up: Reach, write: Write)
    requires d.provider in {YubiKeyPiv, TpmDevice, LocalFile}
    ensures Rotated(w, Yaml(d), f, nonce, up, write).1.Failed? && Rotated(w, Yaml(d), f, nonce, up, write).0 == Yaml(d)
  {
    HardwareOpensNothing(w, d);
    PreparingStopsBeforeSaving(w, Yaml(d), f, nonce, up);
    if Prepared(w, Yaml(d), f, nonce, up).Ok? {
      OnlyOpenConfigsAreRotated(w, Yaml(d), f, nonce, up);
      assert false;
    }
  }

  // ---------- any sequence of rotations ----------

  datatype Attempt = Attempt(flags: Flags, nonce: nat, up: Reach, write: Write)

  function Chain(w: World, file: File, attempts: seq<Attempt>): File
    decreases |attempts|
  {
    if attempts == [] then file
    else
      var a := attempts[0];
      Chain(w, Rotated(w, file, a.flags, a.nonce, a.up, a.write).0, attempts[1..])
  }

  /**
   However many rotations are attempted across however many providers, failing wherever they like
   short of tearing the file: the config still opens to the original private key under the provider
   it names, with the original public key and output, and validates unless a provider has returned an
   empty ciphertext.
   */
  lemma {:induction false} ChainKeepsTheKey(w: World, d: Doc, attempts: seq<Attempt>)
    requires w.Lawful() && Secret(w, d).Some?
    requires forall a :: a in attempts ==> !a.write.Torn?
    ensures var after := Chain(w, Yaml(d), attempts);
            && after.Yaml? && Secret(w, after.doc) == Secret(w, d)
            && after.doc.publicKey == d.publicKey && after.doc.output == d.output
            && after.doc.head == d.head && after.doc.local == d.local
            && (Validates(d) ==> (Validates(after.doc) <==> after.doc.ciphertext != "" || after.doc.provider == LocalFile))
    decreases |attempts|
  {
    if attempts != [] {
      var a := attempts[0];
      var (next, r) := Rotated(w, Yaml(d), a.flags, a.nonce, a.up, a.write);
      if r.Success? {
        SuccessKeepsTheKey(w, Yaml(d), a.flags, a.nonce, a.up, a.write);
      } else {
        FailureKeepsTheFile(w, Yaml(d), a.flags, a.nonce, a.up, a.write);
      }
      if Validates(next.doc) {
        ChainKeepsTheKey(w, next.doc, attempts[1..]);
      } else {
        ChainKeepsTheKey(w, next.doc, attempts[1..]);
        InvalidIsFinal(w, next.doc, attempts[1..]);
      }
    }
  }

  /** A config that does not validate is never rotated again. */
  lemma {:induction false} InvalidIsFinal(w: World, d: Doc, attempts: seq<Attempt>)
    requires !Validates(d)
    ensures Chain(w, Yaml(d), attempts) == Yaml(d)
    decreases |attempts|
  {
    if attempts != [] { InvalidIsFinal(w, d, attempts[1..]); }
  }

  /** A torn write loses the config for good: no later attempt brings it back. */
  lemma {:induction false} TornIsFinal(w: World, attempts: seq<Attempt>)
    ensures Chain(w, Garbage, attempts) == Garbage
    decreases |attempts|
  {
    if attempts != [] { TornIsFinal(w, attempts[1..]); }
  }

  /** A world that meets the laws and in which rotations do succeed. */
  function PlainWorld(): World {
    World(
      (k: Key, p: Bytes, nonce: nat) => Some(p),
      (k: Key, c: Bytes) => Some(c),
      (p: Bytes) => Some("public"),
      (b: Bytes) => seq(|b|, i requires 0 <= i < |b| => b[i] as char),
      (s: string) => if forall i :: 0 <= i < |s| ==> s[i] as int < 256
                     then Some(seq(|s|, i requires 0 <= i < |s| && s[i] as int < 256 => s[i] as int)) else None)
  }

  lemma LawsAreSatisfiable()
    ensures PlainWorld().Lawful()
  {
    var w := PlainWorld();
    forall b: Bytes ensures w.decode(w.encode(b)) == Some(b) {
      assert w.decode(w.encode(b)).value == b;
    }
  }
}
