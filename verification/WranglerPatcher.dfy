/** The rewrite of a cert-manager manifest into a wrangler one, first as functions on values. */
module WranglerPatcher {
  import opened Manifest
  import opened Wrappers

  datatype Error =
    | NoCertificateSecret
    | MalformedSecretName
    | UnknownCertificate(cited: string)
    | MalformedWebhooks

  /** The secret a service is to be given, from a webhook configuration that calls it. */
  datatype Service = Service(ns: string, name: string, secret: string)

  type Certificates = map<string, string>
  type Services = map<string, Service>

  function KeyOf(s: Service): string {
    NameKey(s.ns, s.name)
  }

  // ---- step 1: certificates ----

  function GetCertificates(objs: seq<Obj>): Result<Certificates, Error> {
    if objs == [] then Success(map[])
    else
      var o := objs[|objs| - 1];
      var before :- GetCertificates(objs[..|objs| - 1]);
      if o.kind != CERTIFICATE then Success(before)
      else match o.secretName
           case NotAString => Failure(MalformedSecretName)
           case NoName => Failure(NoCertificateSecret)
           case Named(name) => Success(before[NameKey(o.ns, o.name) := name])
  }

  // ---- step 2: services ----

  predicate Injects(o: Obj) {
    o.annotations.Some? && INJECT in o.annotations.value
  }

  predicate IsWebhookConfig(o: Obj) {
    o.kind == MUTATING || o.kind == VALIDATING
  }

  /** The services one configuration calls, in webhook order. */
  function Called(hooks: seq<Option<ServiceRef>>, secret: string): seq<Service> {
    if hooks == [] then []
    else
      var h := hooks[|hooks| - 1];
      Called(hooks[..|hooks| - 1], secret) +
      (if h.None? then [] else [Service(h.value.ns, h.value.name, secret)])
  }

  /** What one object contributes. */
  function Contribution(o: Obj, certificates: Certificates): Result<seq<Service>, Error> {
    if !Injects(o) then Success([])
    else
      var cited := o.annotations.value[INJECT];
      if cited !in certificates then Failure(UnknownCertificate(cited))
      else if !IsWebhookConfig(o) then Success([])
      else if o.webhooks.Undecodable? then Failure(MalformedWebhooks)
      else Success(Called(o.webhooks.hooks, certificates[cited]))
  }

  /** Every service that an annotated configuration calls, in manifest order. */
  function Calls(objs: seq<Obj>, certificates: Certificates): Result<seq<Service>, Error> {
    if objs == [] then Success([])
    else
      var before :- Calls(objs[..|objs| - 1], certificates);
      var last :- Contribution(objs[|objs| - 1], certificates);
      Success(before + last)
  }

  /** The services map: a later call replaces an earlier one with the same key. */
  function Collected(calls: seq<Service>): Services {
    if calls == [] then map[]
    else
      var s := calls[|calls| - 1];
      Collected(calls[..|calls| - 1])[KeyOf(s) := s]
  }

  /** The services map once one object's contribution, if it has one, has been added. */
  function WithMore(calls: seq<Service>, more: Result<seq<Service>, Error>): Result<Services, Error> {
    match more
    case Success(added) => Success(Collected(calls + added))
    case Failure(error) => Failure(error)
  }

  // ---- steps 3 and 4 ----

  predicate Matches(o: Obj, s: Service) {
    o.kind == SERVICE && o.name == s.name && o.ns == s.ns
  }

  function WithAnnotation(o: Obj, key: string, value: string): Obj {
    o.(annotations := Some((if o.annotations.Some? then o.annotations.value else map[])[key := value]))
  }

  function Patched(o: Obj, services: Services): Obj {
    var key := NameKey(o.ns, o.name);
    if key in services && Matches(o, services[key]) then WithAnnotation(o, NEED_A_CERT, services[key].secret)
    else o
  }

  function Cleaned(o: Obj): Obj {
    if o.annotations.None? then o else o.(annotations := Some(o.annotations.value - {INJECT}))
  }

  predicate Kept(o: Obj) {
    o.kind != CERTIFICATE && o.kind != ISSUER
  }

  function Filtered(objs: seq<Obj>): seq<Obj> {
    if objs == [] then []
    else
      var o := objs[|objs| - 1];
      Filtered(objs[..|objs| - 1]) + (if Kept(o) then [o] else [])
  }

  /** The objects after the rewrite, those that are filtered out included. */
  function Rewritten(objs: seq<Obj>, services: Services): (result: seq<Obj>)
    ensures |result| == |objs|
  {
    seq(|objs|, i requires 0 <= i < |objs| => Cleaned(Patched(objs[i], services)))
  }

  function ServicesOf(objs: seq<Obj>): Result<Services, Error> {
    var certificates :- GetCertificates(objs);
    var calls :- Calls(objs, certificates);
    Success(Collected(calls))
  }

  function Wrangle(objs: seq<Obj>): Result<seq<Obj>, Error> {
    var services :- ServicesOf(objs);
    Success(Filtered(Rewritten(objs, services)))
  }

  // ---- what the maps hold ----

  /** Index of the last certificate with this key, if any. */
  predicate LastCertificate(objs: seq<Obj>, key: string, i: nat) {
    && i < |objs| && IsCertificateOf(objs[i], key)
    && forall j | i < j < |objs| :: !IsCertificateOf(objs[j], key)
  }

  predicate IsCertificateOf(o: Obj, key: string) {
    o.kind == "Certificate" && o.ns + "/" + o.name == key
  }

  predicate BadCertificate(o: Obj) {
    o.kind == "Certificate" && !o.secretName.Named?
  }

  lemma {:induction false} CertificatesFailExactly(objs: seq<Obj>)
    ensures GetCertificates(objs).Failure? <==> exists i | 0 <= i < |objs| :: BadCertificate(objs[i])
  {
    if objs != [] {
      var n := |objs| - 1;
      CertificatesFailExactly(objs[..n]);
      assert forall i | 0 <= i < n :: objs[..n][i] == objs[i];
      if exists i | 0 <= i < |objs| :: BadCertificate(objs[i]) {
        var i :| 0 <= i < |objs| && BadCertificate(objs[i]);
        assert i < n ==> BadCertificate(objs[..n][i]);
      }
    }
  }

  lemma {:induction false} CertificatesHeld(objs: seq<Obj>, key: string)
    requires GetCertificates(objs).Success?
    ensures var m := GetCertificates(objs).value;
            key in m ==> exists i: nat :: LastCertificate(objs, key, i) && objs[i].secretName == Named(m[key])
  {
    if objs != [] && key in GetCertificates(objs).value {
      var n := |objs| - 1;
      CertificatesHeld(objs[..n], key);
      if objs[n].kind == CERTIFICATE && NameKey(objs[n].ns, objs[n].name) == key {
        assert LastCertificate(objs, key, n);
      } else {
        var m := GetCertificates(objs[..n]).value;
        var i: nat :| LastCertificate(objs[..n], key, i) && objs[..n][i].secretName == Named(m[key]);
        assert LastCertificate(objs, key, i);
      }
    }
  }

  lemma {:induction false} CertificatesListed(objs: seq<Obj>, i: nat)
    requires GetCertificates(objs).Success? && i < |objs| && objs[i].kind == CERTIFICATE
    ensures NameKey(objs[i].ns, objs[i].name) in GetCertificates(objs).value
  {
    if i < |objs| - 1 {
      CertificatesListed(objs[..|objs| - 1], i);
    }
  }

  lemma CertificatesMeaning(objs: seq<Obj>)
    ensures GetCertificates(objs).Failure? <==> exists i | 0 <= i < |objs| :: BadCertificate(objs[i])
    ensures GetCertificates(objs).Success? ==>
              var m := GetCertificates(objs).value;
              && (forall key | key in m :: exists i: nat :: LastCertificate(objs, key, i) && objs[i].secretName == Named(m[key]))
              && (forall i | 0 <= i < |objs| && objs[i].kind == CERTIFICATE :: NameKey(objs[i].ns, objs[i].name) in m)
  {
    CertificatesFailExactly(objs);
    if GetCertificates(objs).Success? {
      var m := GetCertificates(objs).value;
      forall key | key in m ensures exists i: nat :: LastCertificate(objs, key, i) && objs[i].secretName == Named(m[key]) {
        CertificatesHeld(objs, key);
      }
      forall i | 0 <= i < |objs| && objs[i].kind == CERTIFICATE ensures NameKey(objs[i].ns, objs[i].name) in m {
        CertificatesListed(objs, i);
      }
    }
  }

  /** The last call with this key. */
  predicate LastCall(calls: seq<Service>, key: string, i: nat) {
    && i < |calls| && KeyOf(calls[i]) == key
    && forall j | i < j < |calls| :: KeyOf(calls[j]) != key
  }

  lemma CollectedSnoc(calls: seq<Service>, s: Service)
    ensures Collected(calls + [s]) == Collected(calls)[KeyOf(s) := s]
  {
    assert (calls + [s])[..|calls|] == calls;
  }

  /** One more webhook: it adds the service it calls. */
  lemma CalledStep(hooks: seq<Option<ServiceRef>>, secret: string, i: nat, calls: seq<Service>)
    requires i < |hooks|
    ensures calls + Called(hooks[..i + 1], secret) ==
            (if hooks[i].None? then calls + Called(hooks[..i], secret)
             else calls + Called(hooks[..i], secret) + [Service(hooks[i].value.ns, hooks[i].value.name, secret)])
  {
    assert hooks[..i + 1][..i] == hooks[..i];
  }

  lemma CallsSnoc(objs: seq<Obj>, o: Obj, certificates: Certificates)
    ensures Calls(objs + [o], certificates) ==
            var before, last := Calls(objs, certificates), Contribution(o, certificates);
            if before.Failure? then before
            else if last.Failure? then Failure(last.error)
            else Success(before.value + last.value)
  {
    assert (objs + [o])[..|objs|] == objs;
  }

  lemma {:induction false} CollectedMeaning(calls: seq<Service>, key: string)
    ensures key in Collected(calls) <==> exists i | 0 <= i < |calls| :: KeyOf(calls[i]) == key
    ensures key in Collected(calls) ==> exists i: nat :: LastCall(calls, key, i) && calls[i] == Collected(calls)[key]
  {
    if calls != [] {
      var n := |calls| - 1;
      var most, last := calls[..n], calls[n];
      CollectedMeaning(most, key);
      assert calls == most + [last];
      CollectedSnoc(most, last);
      if KeyOf(last) == key {
        assert LastCall(calls, key, n);
      } else if key in Collected(most) {
        var i: nat :| LastCall(most, key, i) && most[i] == Collected(most)[key];
        assert calls[i] == most[i];
        assert LastCall(calls, key, i);
      } else {
        assert forall i | 0 <= i < n :: calls[i] == most[i];
      }
    }
  }

  lemma CollectedKeyed(calls: seq<Service>, key: string)
    requires key in Collected(calls)
    ensures KeyOf(Collected(calls)[key]) == key
  {
    CollectedMeaning(calls, key);
  }
}
