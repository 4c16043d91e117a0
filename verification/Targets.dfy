/**
 The output section of a bootstrap resource and the injection targets built from it
 (internal/controller/genesisbootstrap_controller.go).
 */
module Targets {
  import opened Base
  import opened Injection

  datatype Output = Output(secretName: string, secretNamespace: string, secretKey: string, additional: seq<string>) {
    /** The namespaces that are to have the secret: its own and the additional ones. */
    predicate Wants(namespace: string) {
      namespace == secretNamespace || namespace in additional
    }
  }

  function TargetsFor(o: Output): (ts: seq<Target>)
    ensures |ts| == 1 + |o.additional|
  {
    [Target(o.secretName, o.secretNamespace, o.secretKey)]
    + seq(|o.additional|, i requires 0 <= i < |o.additional| => Target(o.secretName, o.additional[i], o.secretKey))
  }

  /** A target is built if and only if it is the primary one or names the secret in a listed namespace. */
  lemma TargetsExactly(o: Output, t: Target)
    ensures t in TargetsFor(o)
            <==> || t == Target(o.secretName, o.secretNamespace, o.secretKey)
                 || exists i :: 0 <= i < |o.additional| && t == Target(o.secretName, o.additional[i], o.secretKey)
  {
    var ts := TargetsFor(o);
    if t in ts {
      var j :| 0 <= j < |ts| && ts[j] == t;
      assert j > 0 ==> t == Target(o.secretName, o.additional[j - 1], o.secretKey);
    }
    if t == Target(o.secretName, o.secretNamespace, o.secretKey) { assert ts[0] == t; }
    if i :| 0 <= i < |o.additional| && t == Target(o.secretName, o.additional[i], o.secretKey) { assert ts[i + 1] == t; }
  }

  /** Every wanted namespace has its index in the list. */
  lemma WantedIsBuilt(o: Output, ns: string) returns (i: nat)
    requires o.Wants(ns)
    ensures i < |TargetsFor(o)| && TargetsFor(o)[i] == Target(o.secretName, ns, o.secretKey)
  {
    if ns == o.secretNamespace {
      i := 0;
    } else {
      var j :| 0 <= j < |o.additional| && o.additional[j] == ns;
      i := j + 1;
    }
  }

  lemma BuiltIsWanted(o: Output, i: nat)
    requires i < |TargetsFor(o)|
    ensures var t := TargetsFor(o)[i]; o.Wants(t.namespace) && t == Target(o.secretName, t.namespace, o.secretKey)
  {
    assert i > 0 ==> TargetsFor(o)[i].namespace == o.additional[i - 1];
  }

  /** The primary target first, then one for each additional namespace in order. */
  method BuildTargets(o: Output) returns (ts: seq<Target>)
    ensures ts == TargetsFor(o)
    ensures |ts| == 1 + |o.additional| && ts[0] == Target(o.secretName, o.secretNamespace, o.secretKey)
    ensures forall i :: 0 <= i < |o.additional| ==> ts[i + 1] == Target(o.secretName, o.additional[i], o.secretKey)
  {
    ts := [Target(o.secretName, o.secretNamespace, o.secretKey)];
    for i := 0 to |o.additional|
      invariant ts == TargetsFor(o.(additional := o.additional[..i]))
    {
      assert o.additional[..i + 1][..i] == o.additional[..i];
      ts := ts + [Target(o.secretName, o.additional[i], o.secretKey)];
    }
    assert o.additional[..|o.additional|] == o.additional;
  }

  /** All targets of a bootstrap name the same key, so each wanted namespace gets it, and no other secret is written. */
  lemma WrittenEverywhere(store: Store, key: Bytes, o: Output, metadata: Metadata, after: Store)
    requires WrittenUpTo(store, key, TargetsFor(o), metadata, |TargetsFor(o)|, after)
    ensures forall ns :: o.Wants(ns) ==>
              && SecretId(ns, o.secretName) in after
              && after[SecretId(ns, o.secretName)] == Secret(map[o.secretKey := key], metadata)
    ensures forall id: SecretId :: !(id.name == o.secretName && o.Wants(id.namespace)) ==>
              (id in after <==> id in store) && (id in store ==> after[id] == store[id])
  {
    var ts := TargetsFor(o);
    forall ns | o.Wants(ns)
      ensures SecretId(ns, o.secretName) in after
      ensures after[SecretId(ns, o.secretName)] == Secret(map[o.secretKey := key], metadata)
    {
      var i := WantedIsBuilt(o, ns);
      var j := LastNamingExists(ts, |ts|, i);
      BuiltIsWanted(o, j);
    }
    forall id: SecretId | !(id.name == o.secretName && o.Wants(id.namespace))
      ensures (id in after <==> id in store) && (id in store ==> after[id] == store[id])
    {
      forall j | 0 <= j < |ts| ensures ts[j].Id() != id {
        BuiltIsWanted(o, j);
      }
    }
  }

  /** One loop whose requests are all served gives every wanted namespace the key. */
  lemma OneKeyForAllTargets(store: Store, key: Bytes, o: Output, metadata: Metadata, links: seq<Link>)
    requires |links| == |TargetsFor(o)|
    requires forall i :: 0 <= i < |links| ==> links[i].post.Served? && links[i].put.Served?
    ensures Progress(store, key, TargetsFor(o), metadata, links) == 1 + |o.additional|
    ensures forall ns :: ns == o.secretNamespace || ns in o.additional ==>
              Lookup(AllInjected(store, key, TargetsFor(o), metadata, links), Target(o.secretName, ns, o.secretKey)) == Some(key)
  {
    FailsExactlyWhen(store, key, TargetsFor(o), metadata, links);
    AllWritten(store, key, TargetsFor(o), metadata, links);
    WrittenEverywhere(store, key, o, metadata, AllInjected(store, key, TargetsFor(o), metadata, links));
    assert forall ns :: ns == o.secretNamespace || ns in o.additional ==> o.Wants(ns);
  }
}
