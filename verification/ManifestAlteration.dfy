/** The alterations of a provider's components as they are written: passes over the objects that
    edit them in place. */
module ManifestAlteration {
  import opened Manifest
  import W = WranglerPatcher
  import Spec = WranglerSpec
  import opened Wrappers

  /** `AddClusterIndexedLabelFn` */
  method AddClusterIndexedLabel(objs: seq<Unstructured>)
    requires Apart(objs)
    modifies objs
    ensures Views(objs) == Spec.Map(old(Views(objs)), Spec.Indexed)
  {
    ghost var before := Views(objs);
    for i := 0 to |objs|
      invariant forall j | 0 <= j < i :: objs[j].View() == Spec.Indexed(before[j])
      invariant forall j | i <= j < |objs| :: objs[j].View() == before[j]
    {
      var o := objs[i];
      if o.kind == CRD {
        var labels := if o.labels.Some? then o.labels.value else map[];
        o.labels := Some(labels[CLUSTER_INDEXED := "true"]);
      }
    }
  }

  method GetCertificates(objs: seq<Unstructured>) returns (r: Result<W.Certificates, W.Error>)
    ensures r == W.GetCertificates(Views(objs))
  {
    ghost var views := Views(objs);
    var certificates: W.Certificates := map[];
    for i := 0 to |objs|
      invariant W.GetCertificates(views[..i]) == Success(certificates)
    {
      assert views[..i + 1][..i] == views[..i];
      assert views[..i + 1] <= views;
      var o := objs[i];
      if o.kind == CERTIFICATE {
        if !o.secretName.Named? {
          r := Failure(if o.secretName.NotAString? then W.MalformedSecretName else W.NoCertificateSecret);
          CertificatesFailEarly(views, i + 1);
          return;
        }
        certificates := certificates[NameKey(o.ns, o.name) := o.secretName.name];
      }
    }
    assert views[..|objs|] == views;
    r := Success(certificates);
  }

  lemma {:induction false} CertificatesFailEarly(views: seq<Obj>, i: nat)
    requires i <= |views| && W.GetCertificates(views[..i]).Failure?
    ensures W.GetCertificates(views) == W.GetCertificates(views[..i])
    decreases |views|
  {
    if i < |views| {
      var n := |views| - 1;
      assert views[..n][..i] == views[..i];
      CertificatesFailEarly(views[..n], i);
    } else {
      assert views[..i] == views;
    }
  }

  lemma {:induction false} CallsFailEarly(views: seq<Obj>, certificates: W.Certificates, i: nat)
    requires i <= |views| && W.Calls(views[..i], certificates).Failure?
    ensures W.Calls(views, certificates) == W.Calls(views[..i], certificates)
    decreases |views|
  {
    if i < |views| {
      var n := |views| - 1;
      assert views[..n][..i] == views[..i];
      CallsFailEarly(views[..n], certificates, i);
    } else {
      assert views[..i] == views;
    }
  }

  /** `addMutatingWebhookServices` and its validating twin. */
  method AddWebhookServices(hooks: seq<Option<ServiceRef>>, services: W.Services, secret: string, ghost calls: seq<W.Service>)
    returns (all: W.Services)
    requires services == W.Collected(calls)
    ensures all == W.Collected(calls + W.Called(hooks, secret))
  {
    all := services;
    assert calls + [] == calls;
    for i := 0 to |hooks|
      invariant all == W.Collected(calls + W.Called(hooks[..i], secret))
    {
      W.CalledStep(hooks, secret, i, calls);
      if hooks[i].Some? {
        var ref := hooks[i].value;
        var s := W.Service(ref.ns, ref.name, secret);
        W.CollectedSnoc(calls + W.Called(hooks[..i], secret), s);
        all := all[NameKey(ref.ns, ref.name) := s];
      }
    }
    assert hooks[..|hooks|] == hooks;
  }

  /** The body of the loop: what one object adds to the services, or why it cannot. */
  method AddObjectServices(o: Unstructured, services: W.Services, certificates: W.Certificates, ghost calls: seq<W.Service>)
    returns (r: Result<W.Services, W.Error>)
    requires services == W.Collected(calls)
    ensures r == W.WithMore(calls, W.Contribution(o.View(), certificates))
  {
    assert calls + [] == calls;
    if o.annotations.Some? && INJECT in o.annotations.value {
      var cited := o.annotations.value[INJECT];
      if cited !in certificates {
        return Failure(W.UnknownCertificate(cited));
      }
      if o.kind == MUTATING || o.kind == VALIDATING {
        if o.webhooks.Undecodable? {
          return Failure(W.MalformedWebhooks);
        }
        var all := AddWebhookServices(o.webhooks.hooks, services, certificates[cited], calls);
        return Success(all);
      }
    }
    r := Success(services);
  }

  method GetServices(objs: seq<Unstructured>, certificates: W.Certificates) returns (r: Result<W.Services, W.Error>)
    ensures r == match W.Calls(Views(objs), certificates)
                 case Success(calls) => Success(W.Collected(calls))
                 case Failure(error) => Failure(error)
  {
    ghost var views := Views(objs);
    var services: W.Services := map[];
    ghost var calls: seq<W.Service> := [];
    for i := 0 to |objs|
      invariant W.Calls(views[..i], certificates) == Success(calls)
      invariant services == W.Collected(calls)
    {
      W.CallsSnoc(views[..i], objs[i].View(), certificates);
      assert views[..i + 1] == views[..i] + [objs[i].View()];
      r := AddObjectServices(objs[i], services, certificates, calls);
      if r.Failure? {
        CallsFailEarly(views, certificates, i + 1);
        return;
      }
      services := r.value;
      calls := calls + W.Contribution(objs[i].View(), certificates).value;
    }
    assert views[..|objs|] == views;
    r := Success(services);
  }

  /** Step 3 on one object: every entry of the map is tried, in whatever order the map yields them. */
  method PatchService(o: Unstructured, services: W.Services)
    requires forall key | key in services :: W.KeyOf(services[key]) == key
    modifies o
    ensures o.View() == W.Patched(old(o.View()), services)
  {
    var todo := services.Keys;
    var own := NameKey(o.ns, o.name);
    while todo != {}
      invariant todo <= services.Keys
      invariant o.View() == if own in todo then old(o.View()) else W.Patched(old(o.View()), services)
      decreases todo
    {
      var key :| key in todo;
      todo := todo - {key};
      var service := services[key];
      if o.kind == SERVICE && o.name == service.name && o.ns == service.ns {
        var annotations := if o.annotations.Some? then o.annotations.value else map[];
        o.annotations := Some(annotations[NEED_A_CERT := service.secret]);
      }
    }
  }

  method PatchServices(objs: seq<Unstructured>, services: W.Services)
    requires Apart(objs)
    requires forall key | key in services :: W.KeyOf(services[key]) == key
    modifies objs
    ensures forall i | 0 <= i < |objs| :: objs[i].View() == W.Patched(old(objs[i].View()), services)
  {
    for i := 0 to |objs|
      invariant forall j | 0 <= j < i :: objs[j].View() == W.Patched(old(objs[j].View()), services)
      invariant forall j | i <= j < |objs| :: objs[j].View() == old(objs[j].View())
    {
      PatchService(objs[i], services);
    }
  }

  /** The kept objects; an object's kind never changes. */
  function KeptOf(objs: seq<Unstructured>): (kept: seq<Unstructured>)
    ensures forall o | o in kept :: o in objs
  {
    if objs == [] then []
    else
      var o := objs[|objs| - 1];
      KeptOf(objs[..|objs| - 1]) + (if o.kind != CERTIFICATE && o.kind != ISSUER then [o] else [])
  }

  lemma {:induction false} KeptViews(objs: seq<Unstructured>)
    ensures Views(KeptOf(objs)) == W.Filtered(Views(objs))
  {
    if objs != [] {
      var n := |objs| - 1;
      KeptViews(objs[..n]);
      assert Views(objs)[..n] == Views(objs[..n]);
      var kept := KeptOf(objs[..n]);
      assert Views(kept + [objs[n]]) == Views(kept) + [objs[n].View()];
    }
  }

  /** Step 4: the inject annotation goes from every object, and Certificates and Issuers go. */
  method Cleanup(objs: seq<Unstructured>) returns (filtered: seq<Unstructured>)
    requires Apart(objs)
    modifies objs
    ensures Views(objs) == Spec.Map(old(Views(objs)), W.Cleaned)
    ensures filtered == KeptOf(objs)
  {
    filtered := [];
    for i := 0 to |objs|
      invariant forall j | 0 <= j < i :: objs[j].View() == W.Cleaned(old(objs[j].View()))
      invariant forall j | i <= j < |objs| :: objs[j].View() == old(objs[j].View())
      invariant filtered == KeptOf(objs[..i])
    {
      var o := objs[i];
      if o.annotations.Some? {
        o.annotations := Some(o.annotations.value - {INJECT});
      }
      if o.kind != CERTIFICATE && o.kind != ISSUER {
        filtered := filtered + [o];
      }
      assert objs[..i + 1][..i] == objs[..i];
    }
    assert objs[..|objs|] == objs;
  }

  /** `WranglerPatcher`. On an error nothing has been touched; otherwise the kept objects, edited
      in place, are returned in order. */
  method Wrangle(objs: seq<Unstructured>) returns (r: Result<seq<Unstructured>, W.Error>)
    requires Apart(objs)
    modifies objs
    ensures r.Failure? ==> W.Wrangle(old(Views(objs))) == Failure(r.error) && Views(objs) == old(Views(objs))
    ensures r.Success? ==>
              && W.ServicesOf(old(Views(objs))).Success?
              && Views(objs) == W.Rewritten(old(Views(objs)), W.ServicesOf(old(Views(objs))).value)
              && (forall o | o in r.value :: o in objs)
              && W.Wrangle(old(Views(objs))) == Success(Views(r.value))
  {
    ghost var before := Views(objs);
    if |objs| == 0 {
      return Success([]);
    }

    var certificates := GetCertificates(objs);
    if certificates.Failure? { return Failure(certificates.error); }
    var found := GetServices(objs, certificates.value);
    if found.Failure? { return Failure(found.error); }
    var services := found.value;
    forall key | key in services ensures W.KeyOf(services[key]) == key {
      W.CollectedKeyed(W.Calls(before, certificates.value).value, key);
    }

    PatchServices(objs, services);
    var filtered := Cleanup(objs);
    KeptViews(objs);
    assert Views(objs) == W.Rewritten(before, services);
    r := Success(filtered);
  }
}
