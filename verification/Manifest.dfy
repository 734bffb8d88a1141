/** Decoded manifest objects, and the names that matter in them. */
module Manifest {
  import opened Wrappers

  type Strings = map<string, string>

  const CERTIFICATE := "Certificate"
  const ISSUER := "Issuer"
  const SERVICE := "Service"
  const MUTATING := "MutatingWebhookConfiguration"
  const VALIDATING := "ValidatingWebhookConfiguration"
  const CRD := "CustomResourceDefinition"

  const NEED_A_CERT := "need-a-cert.cattle.io/secret-name"
  const INJECT := "cert-manager.io/inject-ca-from"
  const CLUSTER_INDEXED := "auth.cattle.io/cluster-indexed"

  /** `spec.secretName`: absent, not a string, or a string. */
  datatype SecretName = NoName | NotAString | Named(name: string)

  datatype ServiceRef = ServiceRef(ns: string, name: string)

  /** The webhooks of a configuration, each with the service it calls if it calls one; or a
      configuration that does not decode. */
  datatype Webhooks = Undecodable | Hooks(hooks: seq<Option<ServiceRef>>)

  /** An object as a value; `rest` stands for everything no function here looks at. */
  datatype Obj = Obj(
    kind: string,
    ns: string,
    name: string,
    labels: Option<Strings>,
    annotations: Option<Strings>,
    secretName: SecretName,
    webhooks: Webhooks,
    rest: string)

  /** An unstructured object: the reconcilers edit its labels and annotations in place. */
  class Unstructured {
    const kind: string
    const ns: string
    const name: string
    const secretName: SecretName
    const webhooks: Webhooks
    const rest: string
    var labels: Option<Strings>
    var annotations: Option<Strings>

    constructor (o: Obj)
      ensures View() == o
    {
      kind, ns, name, secretName, webhooks, rest := o.kind, o.ns, o.name, o.secretName, o.webhooks, o.rest;
      labels, annotations := o.labels, o.annotations;
    }

    function View(): Obj
      reads this
    {
      Obj(kind, ns, name, labels, annotations, secretName, webhooks, rest)
    }
  }

  function Views(objs: seq<Unstructured>): (views: seq<Obj>)
    reads objs
    ensures |views| == |objs| && forall i | 0 <= i < |objs| :: views[i] == objs[i].View()
  {
    seq(|objs|, i requires 0 <= i < |objs| reads objs => objs[i].View())
  }

  predicate Apart(objs: seq<Unstructured>) {
    forall i, j | 0 <= i < j < |objs| :: objs[i] != objs[j]
  }

  /** "namespace/name", the key of certificates and services. */
  function NameKey(ns: string, name: string): string {
    ns + "/" + name
  }

  predicate SlashFree(s: string) {
    '/' !in s
  }

  /** Keys tell names apart as long as namespaces have no slash. */
  lemma NameKeyInjective(a: ServiceRef, b: ServiceRef)
    requires SlashFree(a.ns) && SlashFree(b.ns)
    requires NameKey(a.ns, a.name) == NameKey(b.ns, b.name)
    ensures a == b
  {
    var k, k' := NameKey(a.ns, a.name), NameKey(b.ns, b.name);
    assert k[|a.ns|] == '/' && k'[|b.ns|] == '/';
    assert forall i | 0 <= i < |a.ns| :: k[i] == a.ns[i] && a.ns[i] in a.ns;
    assert forall i | 0 <= i < |b.ns| :: k'[i] == b.ns[i] && b.ns[i] in b.ns;
    assert |a.ns| == |b.ns|;
    assert a.ns == k[..|a.ns|] && b.ns == k'[..|b.ns|];
    assert a.name == k[|a.ns| + 1..] && b.name == k'[|b.ns| + 1..];
  }
}
