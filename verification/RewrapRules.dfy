/**
 Which key each config and each set of flags leads to, and exactly when the CLI `rotate` command succeeds
 (cmd/genesis/rotate.go, internal/config/config.go and the provider constructors under internal/kms).
 */
module RewrapRules {
  import opened Base
  import opened Rewrap

  // ---------- names with parts ----------

  function Join(parts: seq<string>, sep: char): string
    requires parts != []
  {
    if |parts| == 1 then parts[0] else parts[0] + [sep] + Join(parts[1..], sep)
  }

  lemma {:induction false} OnePart(p: string, sep: char)
    requires sep !in p
    ensures Parts(p, sep) == [p]
  {
    if p != "" {
      OnePart(p[1..], sep);
      assert [p[0]] + p[1..] == p;
    }
  }

  lemma {:induction false} PartsCons(p: string, sep: char, rest: string)
    requires sep !in p
    ensures Parts(p + [sep] + rest, sep) == [p] + Parts(rest, sep)
  {
    var s := p + [sep] + rest;
    if p == "" {
      assert s[1..] == rest;
    } else {
      assert s[1..] == p[1..] + [sep] + rest;
      PartsCons(p[1..], sep, rest);
      assert [p[0]] + p[1..] == p;
    }
  }

  lemma {:induction false} JoinSnocChar(c: char, parts: seq<string>, sep: char)
    requires parts != []
    ensures Join([[c] + parts[0]] + parts[1..], sep) == [c] + Join(parts, sep)
  {
    var more := [[c] + parts[0]] + parts[1..];
    if |parts| > 1 {
      assert more[1..] == parts[1..];
      assert [c] + (parts[0] + [sep] + Join(parts[1..], sep)) == ([c] + parts[0]) + [sep] + Join(parts[1..], sep);
    }
  }

  /** Splitting and joining undo each other, and no part contains the separator. */
  lemma {:induction false} PartsJoin(s: string, sep: char)
    ensures Join(Parts(s, sep), sep) == s
    ensures forall i :: 0 <= i < |Parts(s, sep)| ==> sep !in Parts(s, sep)[i]
  {
    if s != "" {
      PartsJoin(s[1..], sep);
      var rest := Parts(s[1..], sep);
      if s[0] == sep {
        assert ([""] + rest)[1..] == rest;
        assert "" + [sep] + s[1..] == s;
      } else {
        JoinSnocChar(s[0], rest, sep);
        assert [s[0]] + s[1..] == s;
      }
    }
  }

  lemma {:induction false} JoinParts(parts: seq<string>, sep: char)
    requires parts != [] && forall i :: 0 <= i < |parts| ==> sep !in parts[i]
    ensures Parts(Join(parts, sep), sep) == parts
  {
    if |parts| == 1 {
      OnePart(parts[0], sep);
    } else {
      JoinParts(parts[1..], sep);
      PartsCons(parts[0], sep, Join(parts[1..], sep));
    }
  }

  /** The region of an ARN is what stands behind its third colon, up to the fourth or the end. */
  lemma RegionOfArn(a: string, b: string, c: string, region: string, rest: string)
    requires ':' !in a && ':' !in b && ':' !in c && ':' !in region
    ensures Fourth(a + ":" + (b + ":" + (c + ":" + (region + ":" + rest))), ':') == region
    ensures Fourth(a + ":" + (b + ":" + (c + ":" + region)), ':') == region
    ensures Fourth(a + ":" + (b + ":" + c), ':') == ""
  {
    PartsCons(region, ':', rest);
    OnePart(region, ':');
    OnePart(c, ':');
    BehindThree(a, b, c, region + ":" + rest);
    BehindThree(a, b, c, region);
    PartsCons(b, ':', c);
    PartsCons(a, ':', b + ":" + c);
  }

  lemma BehindThree(a: string, b: string, c: string, rest: string)
    requires ':' !in a && ':' !in b && ':' !in c
    ensures |Parts(a + ":" + (b + ":" + (c + ":" + rest)), ':')| >= 4
    ensures Fourth(a + ":" + (b + ":" + (c + ":" + rest)), ':') == Parts(rest, ':')[0]
  {
    PartsCons(c, ':', rest);
    PartsCons(b, ':', c + ":" + rest);
    PartsCons(a, ':', b + ":" + (c + ":" + rest));
    assert Parts(a + ":" + (b + ":" + (c + ":" + rest)), ':') == [a] + ([b] + ([c] + Parts(rest, ':')));
  }

  /** An OCID's region is its fourth part, and its vault the first eight characters of the fifth. */
  lemma PartsOfOcid(ocid: string, parts: seq<string>)
    requires parts == Parts(ocid, '.')
    ensures Fourth(ocid, '.') == if |parts| > 3 then parts[3] else ""
    ensures |parts| <= 4 ==> VaultId(ocid) == "default"
    ensures |parts| > 4 ==> VaultId(ocid) <= parts[4] && |VaultId(ocid)| <= 8
                            && (|VaultId(ocid)| < 8 ==> VaultId(ocid) == parts[4])
  {
  }

  // ---------- keys ----------

  /** The key that a config's provider and section name, and none where the section does not say enough. */
  lemma ConfigNamesItsKey(d: Doc)
    ensures var s, k := d.sections, ProviderOf(d);
            && (d.provider == AwsKms ==>
                  k == if s.aws.None? || s.aws.value.keyArn == "" then None
                       else Some(AwsKey(s.aws.value.keyArn, if s.aws.value.region != "" then s.aws.value.region
                                                            else Fourth(s.aws.value.keyArn, ':'))))
            && (d.provider == GcpKms ==>
                  k == if s.gcp.None? || s.gcp.value.keyName == "" then None else Some(GcpKey(s.gcp.value.keyName)))
            && (d.provider == AzureKeyVault ==>
                  k == if s.azure.None? || s.azure.value.vaultUrl == "" || s.azure.value.keyName == "" then None
                       else Some(AzureKey(s.azure.value.vaultUrl, s.azure.value.keyName, s.azure.value.keyVersion)))
            && (d.provider == OciVault ==>
                  k == if s.oci.None? || s.oci.value.keyOcid == "" then None
                       else if s.oci.value.cryptoEndpoint != ""
                       then Some(OciKey(s.oci.value.keyOcid, Explicit(s.oci.value.cryptoEndpoint)))
                       else if Fourth(s.oci.value.keyOcid, '.') == "" then None
                       else Some(OciKey(s.oci.value.keyOcid,
                                        Derived(VaultId(s.oci.value.keyOcid), Fourth(s.oci.value.keyOcid, '.')))))
            && (d.provider == YubiKeyPiv ==>
                  k == if s.yubikey.None? then Some(YubiKeySlot(Authentication, ""))
                       else match s.yubikey.value.slot
                            case NoSlot => Some(YubiKeySlot(Authentication, s.yubikey.value.fingerprint))
                            case OtherSlot(_) => None
                            case slot => Some(YubiKeySlot(slot, s.yubikey.value.fingerprint)))
            && (d.provider == TpmDevice ==>
                  var device := if s.tpm.Some? then s.tpm.value.device else DefaultDevice;
                  var pcrs := if s.tpm.Some? && s.tpm.value.pcrs.Some? then s.tpm.value.pcrs.value
                              else Pcrs(Sha256, [0, 1, 2, 3, 7]);
                  k == if pcrs.hash.OtherHash? || pcrs.indices == [] || exists i :: i in pcrs.indices && !(0 <= i <= 23)
                       then None
                       else Some(TpmSeal(device, pcrs)))
            && (d.provider == MockProvider ==> k == Some(MockKey))
            && (d.provider.Unset? || d.provider.LocalFile? || d.provider.Unknown? ==> k == None)
  {
  }

  /** The key that the flags name. */
  lemma FlagsNameTheirKey(f: Flags)
    ensures f.provider in {Unset, AwsKms} && f.keyArn != "" ==>
              TargetName(f) == AwsKms && TargetOf(f) == Some(AwsKey(f.keyArn, Fourth(f.keyArn, ':')))
    ensures f.provider == GcpKms && f.keyName != "" ==> TargetOf(f) == Some(GcpKey(f.keyName))
    ensures f.provider == OciVault && f.keyOcid != "" && f.cryptoEndpoint != "" ==>
              TargetOf(f) == Some(OciKey(f.keyOcid, Explicit(f.cryptoEndpoint)))
    ensures f.provider == MockProvider ==> TargetOf(f) == Some(MockKey)
    ensures !f.provider.Unset? ==> TargetName(f) == f.provider
  {
  }

  /** One section is left, and it is the new provider's; the mock has none. */
  lemma OneSectionIsLeft(f: Flags, name: Provider)
    ensures var s := SectionsFor(f, name);
            && s.aws == (if name == AwsKms then Some(Aws(f.keyArn, "")) else None)
            && s.gcp == (if name == GcpKms then Some(Gcp(f.keyName)) else None)
            && s.azure == (if name == AzureKeyVault then Some(Azure(f.vaultUrl, "", "")) else None)
            && s.oci == (if name == OciVault then Some(Oci(f.keyOcid, f.cryptoEndpoint)) else None)
            && s.yubikey.None? && s.tpm.None?
  {
  }

  /** A validated config leads to a key, unless it lacks an Azure key name, misnames hardware, or is a local one. */
  lemma ValidatedConfigsBuild(d: Doc)
    requires Validates(d)
    ensures ProviderOf(d).None? <==>
              || d.provider == LocalFile
              || (d.provider == AzureKeyVault && d.sections.azure.value.keyName == "")
              || (d.provider == YubiKeyPiv && d.sections.yubikey.Some? && d.sections.yubikey.value.slot.OtherSlot?)
              || (d.provider == TpmDevice && d.sections.tpm.Some? && d.sections.tpm.value.pcrs.Some?
                  && !ValidPcrs(d.sections.tpm.value.pcrs.value))
  {
  }

  /** Validation asks for the version, the kind, a ciphertext for all but local configs, and the provider's own fields. */
  lemma ValidatesExactly(d: Doc)
    ensures Validates(d) <==>
              && d.head.apiVersion.V1Alpha1? && d.head.kind.GenesisBootstrap?
              && match d.provider
                 case LocalFile => d.local.envelopePath != ""
                 case AwsKms => d.ciphertext != "" && d.sections.aws.Some? && d.sections.aws.value.keyArn != ""
                 case GcpKms => d.ciphertext != "" && d.sections.gcp.Some? && d.sections.gcp.value.keyName != ""
                 case AzureKeyVault => d.ciphertext != "" && d.sections.azure.Some? && d.sections.azure.value.vaultUrl != ""
                 case OciVault =>
                   && d.ciphertext != "" && d.sections.oci.Some?
                   && d.sections.oci.value.keyOcid != "" && d.sections.oci.value.cryptoEndpoint != ""
                 case Unset => false
                 case Unknown(_) => false
                 case _ => d.ciphertext != ""
  {
  }

  // ---------- the command ----------

  /** This key is the config's own, in software, and decrypts the decoded ciphertext to this age private key. */
  predicate OpensWith(w: World, d: Doc, k: Key, ciphertext: Bytes, privateKey: Bytes) {
    && ProviderOf(d) == Some(k) && !k.YubiKeySlot? && !k.TpmSeal? && w.decode(d.ciphertext) == Some(ciphertext)
    && w.decrypt(k, ciphertext) == Some(privateKey) && PREFIX <= privateKey && w.publicKey(privateKey).Some?
  }

  lemma OpenDecrypts(w: World, k: Key, e: Envelope, privateKey: Bytes)
    requires e.ciphertextB64 == ""
    ensures Open(w, k, e) == Some(privateKey) <==>
              && !k.YubiKeySlot? && !k.TpmSeal? && w.decrypt(k, e.ciphertext) == Some(privateKey)
              && PREFIX <= privateKey && w.publicKey(privateKey).Some?
  {
  }

  /** What a config's own provider gets out of it. */
  lemma SecretExactly(w: World, d: Doc, privateKey: Bytes)
    ensures Secret(w, d) == Some(privateKey) <==> exists k, c :: OpensWith(w, d, k, c, privateKey)
  {
    var k, c := ProviderOf(d), w.decode(d.ciphertext);
    if k.Some? && c.Some? {
      OpenDecrypts(w, k.value, Envelope(d.provider, d.publicKey, c.value, ""), privateKey);
      assert Secret(w, d) == Some(privateKey) ==> OpensWith(w, d, k.value, c.value, privateKey);
    }
  }

  /**
   The command succeeds if and only if the file is a valid config whose own provider answers and opens it, the
   flags name a key whose service answers and encrypts, and the file can be written.
   */
  lemma RotatesExactlyWhen(w: World, file: File, f: Flags, nonce: nat, up: Reach, write: Write)
    ensures Rotated(w, file, f, nonce, up, write).1.Success? <==>
              && file.Yaml? && Validates(file.doc) && up.current && Secret(w, file.doc).Some?
              && TargetOf(f).Some? && up.target && w.encrypt(TargetOf(f).value, Secret(w, file.doc).value, nonce).Some?
              && write.Written?
  {
    TargetIsBuiltIff(f);
    FlagsNameTheirKey(f);
  }

  /** Then the file holds the encrypted key, encoded, under the new provider's name. */
  lemma WhatSuccessWrites(w: World, file: File, f: Flags, nonce: nat, up: Reach, write: Write)
    requires Rotated(w, file, f, nonce, up, write).1.Success?
    ensures && file.Yaml? && Secret(w, file.doc).Some? && TargetOf(f).Some?
            && w.encrypt(TargetOf(f).value, Secret(w, file.doc).value, nonce).Some?
            && var (after, r) := Rotated(w, file, f, nonce, up, write);
               var ciphertext := w.encrypt(TargetOf(f).value, Secret(w, file.doc).value, nonce).value;
               && r == Success(file.doc.provider, TargetName(f), file.doc.publicKey)
               && after == Yaml(file.doc.(provider := TargetName(f), ciphertext := w.encode(ciphertext),
                                          sections := SectionsFor(f, TargetName(f))))
  {
    TargetIsBuiltIff(f);
    FlagsNameTheirKey(f);
  }

  lemma OpeningFailsInOrder(w: World, file: File, up: Reach)
    ensures Opened(w, file, up)
         == if file.Garbage? then Err(Loading)
            else if !Validates(file.doc) then Err(Validating)
            else if ProviderOf(file.doc).None? then Err(Current)
            else if w.decode(file.doc.ciphertext).None? then Err(Decoding)
            else if up.current && Secret(w, file.doc).Some? then Ok(Secret(w, file.doc).value) else Err(Opening)
  {
  }

  lemma ResealingFailsInOrder(w: World, f: Flags, privateKey: Bytes, nonce: nat, up: Reach)
    requires w.publicKey(privateKey).Some?
    ensures var r := Resealed(w, f, privateKey, nonce, up);
            if TargetOf(f).None? then r == Err(Target)
            else if up.target && w.encrypt(TargetOf(f).value, privateKey, nonce).Some? then r.Ok? else r == Err(Creating)
  {
    TargetIsBuiltIff(f);
    FlagsNameTheirKey(f);
  }

  /** A failure names the first step that did not work. */
  lemma FailsInOrder(w: World, file: File, f: Flags, nonce: nat, up: Reach, write: Write)
    requires Rotated(w, file, f, nonce, up, write).1.Failed?
    ensures var stage := Rotated(w, file, f, nonce, up, write).1.stage;
            if file.Garbage? then stage == Loading
            else if !Validates(file.doc) then stage == Validating
            else if ProviderOf(file.doc).None? then stage == Current
            else if w.decode(file.doc.ciphertext).None? then stage == Decoding
            else if !(up.current && Secret(w, file.doc).Some?) then stage == Opening
            else if TargetOf(f).None? then stage == Target
            else if !(up.target && w.encrypt(TargetOf(f).value, Secret(w, file.doc).value, nonce).Some?)
            then stage == Creating
            else stage == Saving
  {
    OpeningFailsInOrder(w, file, up);
    if Opened(w, file, up).Ok? {
      SecretIsAnAgeKey(w, file.doc);
      ResealingFailsInOrder(w, f, Secret(w, file.doc).value, nonce, up);
    }
  }

  lemma SecretIsAnAgeKey(w: World, d: Doc)
    requires Secret(w, d).Some?
    ensures w.publicKey(Secret(w, d).value).Some?
  {
  }
}
