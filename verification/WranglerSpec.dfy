/** What the wrangler rewrite amounts to, stated without its maps. */
module WranglerSpec {
  import opened Manifest
  import opened WranglerPatcher
  import opened Wrappers

  // ---- which secret a service is given ----

  /** An annotated webhook configuration that calls this service. */
  predicate CallsService(o: Obj, ns: string, name: string) {
    && o.annotations.Some? && "cert-manager.io/inject-ca-from" in o.annotations.value
    && (o.kind == "MutatingWebhookConfiguration" || o.kind == "ValidatingWebhookConfiguration")
    && o.webhooks.Hooks? && Some(ServiceRef(ns, name)) in o.webhooks.hooks
  }

  predicate LastCaller(objs: seq<Obj>, ns: string, name: string, i: nat) {
    && i < |objs| && CallsService(objs[i], ns, name)
    && forall j | i < j < |objs| :: !CallsService(objs[j], ns, name)
  }

  predicate IsFor(s: Service, ns: string, name: string) {
    s.ns == ns && s.name == name
  }

  /** The last call for a service. */
  predicate LastFor(calls: seq<Service>, ns: string, name: string, i: nat) {
    && i < |calls| && IsFor(calls[i], ns, name)
    && forall j | i < j < |calls| :: !IsFor(calls[j], ns, name)
  }

  predicate SomeFor(calls: seq<Service>, ns: string, name: string) {
    exists i | 0 <= i < |calls| :: IsFor(calls[i], ns, name)
  }

  lemma {:induction false} CalledMeaning(hooks: seq<Option<ServiceRef>>, secret: string, ns: string, name: string)
    ensures forall i | 0 <= i < |Called(hooks, secret)| :: Called(hooks, secret)[i].secret == secret
    ensures SomeFor(Called(hooks, secret), ns, name) <==> Some(ServiceRef(ns, name)) in hooks
  {
    if hooks != [] {
      var n := |hooks| - 1;
      CalledMeaning(hooks[..n], secret, ns, name);
      var before, after := Called(hooks[..n], secret), Called(hooks, secret);
      assert forall i | 0 <= i < |before| :: after[i] == before[i];
      assert hooks == hooks[..n] + [hooks[n]];
      if Some(ServiceRef(ns, name)) in hooks[..n] {
        var i :| 0 <= i < |before| && IsFor(before[i], ns, name);
        assert IsFor(after[i], ns, name);
      } else if hooks[n] == Some(ServiceRef(ns, name)) {
        assert IsFor(after[|after| - 1], ns, name);
      } else {
        forall i | 0 <= i < |after| ensures !IsFor(after[i], ns, name) {
          assert i < |before| ==> after[i] == before[i];
        }
      }
    }
  }

  lemma LastExists(calls: seq<Service>, ns: string, name: string, k: nat) returns (i: nat)
    requires k < |calls| && IsFor(calls[k], ns, name)
    ensures LastFor(calls, ns, name, i)
  {
    i := |calls| - 1;
    while !IsFor(calls[i], ns, name)
      invariant k <= i < |calls|
      invariant forall j | i < j < |calls| :: !IsFor(calls[j], ns, name)
      decreases i
    {
      i := i - 1;
    }
  }

  predicate SomeCaller(objs: seq<Obj>, ns: string, name: string) {
    exists i | 0 <= i < |objs| :: CallsService(objs[i], ns, name)
  }

  lemma LastCallerExists(objs: seq<Obj>, ns: string, name: string) returns (i: nat)
    requires SomeCaller(objs, ns, name)
    ensures LastCaller(objs, ns, name, i)
  {
    var k :| 0 <= k < |objs| && CallsService(objs[k], ns, name);
    i := |objs| - 1;
    while !CallsService(objs[i], ns, name)
      invariant k <= i < |objs|
      invariant forall j | i < j < |objs| :: !CallsService(objs[j], ns, name)
      decreases i
    {
      i := i - 1;
    }
  }

  /** The calls reflect the manifest: a service is called exactly if some annotated configuration
      calls it, and its last call carries the secret of the certificate the last one cites. */
  ghost predicate Reflects(calls: seq<Service>, objs: seq<Obj>, certificates: Certificates, ns: string, name: string) {
    && (SomeFor(calls, ns, name) <==> SomeCaller(objs, ns, name))
    && forall k: nat, i: nat | LastFor(calls, ns, name, k) && LastCaller(objs, ns, name, i) ::
         && objs[i].annotations.value[INJECT] in certificates
         && calls[k].secret == certificates[objs[i].annotations.value[INJECT]]
  }

  /** What one more object adds. */
  ghost predicate Adds(new_: seq<Service>, o: Obj, certificates: Certificates, ns: string, name: string) {
    && (SomeFor(new_, ns, name) <==> CallsService(o, ns, name))
    && (CallsService(o, ns, name) ==>
          && o.annotations.value[INJECT] in certificates
          && forall j | 0 <= j < |new_| :: new_[j].secret == certificates[o.annotations.value[INJECT]])
  }

  lemma ContributionAdds(o: Obj, certificates: Certificates, ns: string, name: string)
    requires Contribution(o, certificates).Success?
    ensures Adds(Contribution(o, certificates).value, o, certificates, ns, name)
  {
    if Injects(o) && IsWebhookConfig(o) {
      CalledMeaning(o.webhooks.hooks, certificates[o.annotations.value[INJECT]], ns, name);
    }
  }

  lemma ReflectsMore(old_: seq<Service>, new_: seq<Service>, objs: seq<Obj>, o: Obj, certificates: Certificates, ns: string, name: string)
    requires Reflects(old_, objs, certificates, ns, name) && Adds(new_, o, certificates, ns, name)
    ensures Reflects(old_ + new_, objs + [o], certificates, ns, name)
  {
    var calls, all := old_ + new_, objs + [o];
    assert forall i | 0 <= i < |objs| :: all[i] == objs[i];
    assert forall i | 0 <= i < |old_| :: calls[i] == old_[i];
    assert forall i | 0 <= i < |new_| :: calls[|old_| + i] == new_[i];
    assert all[|objs|] == o;
    assert SomeFor(calls, ns, name) <==> SomeFor(old_, ns, name) || SomeFor(new_, ns, name) by {
      if SomeFor(calls, ns, name) {
        var i :| 0 <= i < |calls| && IsFor(calls[i], ns, name);
        assert if i < |old_| then IsFor(old_[i], ns, name) else IsFor(new_[i - |old_|], ns, name);
      }
    }
    forall k: nat, i: nat | LastFor(calls, ns, name, k) && LastCaller(all, ns, name, i)
      ensures all[i].annotations.value[INJECT] in certificates
      ensures calls[k].secret == certificates[all[i].annotations.value[INJECT]]
    {
      if CallsService(o, ns, name) {
        assert i == |objs|;
        var j :| 0 <= j < |new_| && IsFor(new_[j], ns, name);
        assert IsFor(calls[|old_| + j], ns, name);
        assert k >= |old_| + j;
        assert calls[k] == new_[k - |old_|];
      } else {
        assert forall j | |old_| <= j < |calls| :: calls[j] == new_[j - |old_|] && !IsFor(calls[j], ns, name);
        assert LastFor(old_, ns, name, k) && LastCaller(objs, ns, name, i);
      }
    }
  }

  lemma {:induction false} CallsMeaning(objs: seq<Obj>, certificates: Certificates, ns: string, name: string)
    requires Calls(objs, certificates).Success?
    ensures Reflects(Calls(objs, certificates).value, objs, certificates, ns, name)
  {
    if objs != [] {
      var n := |objs| - 1;
      CallsMeaning(objs[..n], certificates, ns, name);
      ContributionAdds(objs[n], certificates, ns, name);
      ReflectsMore(Calls(objs[..n], certificates).value, Contribution(objs[n], certificates).value,
                   objs[..n], objs[n], certificates, ns, name);
      assert objs == objs[..n] + [objs[n]];
    }
  }

  /** No two different services share a key. */
  predicate NoClash(calls: seq<Service>) {
    forall i, j | 0 <= i < |calls| && 0 <= j < |calls| && KeyOf(calls[i]) == KeyOf(calls[j]) ::
      IsFor(calls[j], calls[i].ns, calls[i].name)
  }

  /** The last call with a service's key is for that very service. */
  ghost predicate OwnCall(calls: seq<Service>, ns: string, name: string) {
    exists k: nat :: LastCall(calls, NameKey(ns, name), k) && IsFor(calls[k], ns, name)
  }

  /** Exactly when the services map gives a secret to a service: the last call with its key is
      for that very service. */
  lemma GivenExactly(calls: seq<Service>, ns: string, name: string)
    ensures var services, key := Collected(calls), NameKey(ns, name);
            (key in services && IsFor(services[key], ns, name)) <==> OwnCall(calls, ns, name)
  {
    var services, key := Collected(calls), NameKey(ns, name);
    CollectedMeaning(calls, key);
    if OwnCall(calls, ns, name) {
      var k: nat :| LastCall(calls, key, k) && IsFor(calls[k], ns, name);
      assert KeyOf(calls[k]) == key;
    }
  }

  /** Without clashes the last call with a service's key is for that service. */
  lemma LastCallIsFor(calls: seq<Service>, ns: string, name: string, k: nat) returns (i: nat)
    requires NoClash(calls) && k < |calls| && IsFor(calls[k], ns, name)
    ensures var services, key := Collected(calls), NameKey(ns, name);
            k <= i && LastCall(calls, key, i) && IsFor(calls[i], ns, name) && key in services && services[key] == calls[i]
  {
    var key := NameKey(ns, name);
    CollectedMeaning(calls, key);
    assert KeyOf(calls[k]) == key;
    i :| LastCall(calls, key, i) && calls[i] == Collected(calls)[key];
  }

  lemma CalledIsGiven(calls: seq<Service>, ns: string, name: string)
    requires NoClash(calls) && SomeFor(calls, ns, name)
    ensures var services, key := Collected(calls), NameKey(ns, name);
            key in services && IsFor(services[key], ns, name)
  {
    var k :| 0 <= k < |calls| && IsFor(calls[k], ns, name);
    var i := LastCallIsFor(calls, ns, name, k);
  }

  lemma GivenIsCalled(calls: seq<Service>, ns: string, name: string)
    requires var services, key := Collected(calls), NameKey(ns, name);
             key in services && IsFor(services[key], ns, name)
    ensures SomeFor(calls, ns, name)
  {
    var key := NameKey(ns, name);
    CollectedMeaning(calls, key);
    var i: nat :| LastCall(calls, key, i) && calls[i] == Collected(calls)[key];
  }

  /** Webhook references with slash-free namespaces cannot clash. */
  predicate SlashFreeRefs(o: Obj) {
    o.webhooks.Hooks? ==> forall i | 0 <= i < |o.webhooks.hooks| && o.webhooks.hooks[i].Some? ::
                            SlashFree(o.webhooks.hooks[i].value.ns)
  }

  lemma {:induction false} CalledSlashFree(hooks: seq<Option<ServiceRef>>, secret: string)
    requires forall i | 0 <= i < |hooks| && hooks[i].Some? :: SlashFree(hooks[i].value.ns)
    ensures forall i | 0 <= i < |Called(hooks, secret)| :: SlashFree(Called(hooks, secret)[i].ns)
  {
    if hooks != [] {
      CalledSlashFree(hooks[..|hooks| - 1], secret);
    }
  }

  lemma {:induction false} CallsSlashFree(objs: seq<Obj>, certificates: Certificates)
    requires Calls(objs, certificates).Success? && forall i | 0 <= i < |objs| :: SlashFreeRefs(objs[i])
    ensures forall i | 0 <= i < |Calls(objs, certificates).value| :: SlashFree(Calls(objs, certificates).value[i].ns)
  {
    if objs != [] {
      var o := objs[|objs| - 1];
      CallsSlashFree(objs[..|objs| - 1], certificates);
      if Injects(o) && IsWebhookConfig(o) {
        CalledSlashFree(o.webhooks.hooks, certificates[o.annotations.value[INJECT]]);
      }
    }
  }

  lemma SlashFreeNoClash(objs: seq<Obj>, certificates: Certificates)
    requires Calls(objs, certificates).Success? && forall i | 0 <= i < |objs| :: SlashFreeRefs(objs[i])
    ensures NoClash(Calls(objs, certificates).value)
  {
    CallsSlashFree(objs, certificates);
    var calls := Calls(objs, certificates).value;
    forall i, j | 0 <= i < |calls| && 0 <= j < |calls| && KeyOf(calls[i]) == KeyOf(calls[j])
      ensures IsFor(calls[j], calls[i].ns, calls[i].name)
    {
      NameKeyInjective(ServiceRef(calls[i].ns, calls[i].name), ServiceRef(calls[j].ns, calls[j].name));
    }
  }

  // ---- the whole rewrite ----

  function WithoutInject(annotations: Option<Strings>): Option<Strings> {
    if annotations.None? then None else Some(annotations.value - {"cert-manager.io/inject-ca-from"})
  }

  /** The secret of the certificate that the last caller of a service cites. */
  ghost predicate Due(objs: seq<Obj>, ns: string, name: string, secret: string) {
    exists i: nat, c: nat ::
      && LastCaller(objs, ns, name, i)
      && LastCertificate(objs, objs[i].annotations.value["cert-manager.io/inject-ca-from"], c)
      && objs[c].secretName == Named(secret)
  }

  /** The rewrite of one object: the inject annotation goes, a called Service is told the secret
      of the certificate that its last caller cites, and nothing else changes. */
  ghost predicate RewrittenAs(objs: seq<Obj>, o: Obj, o': Obj) {
    && o' == o.(annotations := o'.annotations)
    && (if o.kind == "Service" && SomeCaller(objs, o.ns, o.name)
        then exists secret ::
               && Due(objs, o.ns, o.name, secret)
               && o'.annotations ==
                  Some((if o.annotations.None? then map[] else o.annotations.value)["need-a-cert.cattle.io/secret-name" := secret]
                       - {"cert-manager.io/inject-ca-from"})
        else o'.annotations == WithoutInject(o.annotations))
  }

  /** Certificates and Issuers go; every other kind stays. */
  predicate Stays(o: Obj) {
    o.kind != "Certificate" && o.kind != "Issuer"
  }

  /** Where the objects that stay stood, in ascending order. */
  ghost predicate Selects(objs: seq<Obj>, idx: seq<nat>) {
    && (forall k | 0 <= k < |idx| :: idx[k] < |objs| && Stays(objs[idx[k]]))
    && (forall k, l | 0 <= k < l < |idx| :: idx[k] < idx[l])
    && (forall i | 0 <= i < |objs| && Stays(objs[i]) :: i in idx)
  }

  /** The filter keeps exactly what stays. */
  lemma KeptIsStays(o: Obj)
    ensures Kept(o) <==> Stays(o)
  {
  }

  lemma SelectsSnoc(objs: seq<Obj>, idx: seq<nat>, o: Obj)
    requires Selects(objs, idx)
    ensures Selects(objs + [o], idx + if Kept(o) then [|objs|] else [])
  {
    var all, more := objs + [o], idx + if Kept(o) then [|objs|] else [];
    assert forall i | 0 <= i < |objs| :: all[i] == objs[i];
    forall i | 0 <= i < |all| && Kept(all[i]) ensures i in more {
      if i < |objs| {
        assert i in idx;
      } else {
        assert more[|idx|] == i;
      }
    }
  }

  lemma FilteredSnoc(objs: seq<Obj>, o: Obj)
    ensures Filtered(objs + [o]) == Filtered(objs) + if Kept(o) then [o] else []
  {
    assert (objs + [o])[..|objs|] == objs;
  }

  lemma {:induction false} FilteredSelects(objs: seq<Obj>) returns (idx: seq<nat>)
    ensures Selects(objs, idx)
    ensures |Filtered(objs)| == |idx| && forall k | 0 <= k < |idx| :: Filtered(objs)[k] == objs[idx[k]]
    decreases |objs|
  {
    if objs == [] {
      idx := [];
    } else {
      var most, o := objs[..|objs| - 1], objs[|objs| - 1];
      var before := FilteredSelects(most);
      assert objs == most + [o];
      SelectsSnoc(most, before, o);
      FilteredSnoc(most, o);
      idx := before + if Kept(o) then [|most|] else [];
    }
  }

  lemma DueUnique(objs: seq<Obj>, ns: string, name: string, secret: string, other: string)
    requires Due(objs, ns, name, secret) && Due(objs, ns, name, other)
    ensures secret == other
  {
    var i: nat, c: nat :|
      && LastCaller(objs, ns, name, i)
      && LastCertificate(objs, objs[i].annotations.value[INJECT], c)
      && objs[c].secretName == Named(secret);
    var i': nat, c': nat :|
      && LastCaller(objs, ns, name, i')
      && LastCertificate(objs, objs[i'].annotations.value[INJECT], c')
      && objs[c'].secretName == Named(other);
    assert i == i';
    assert c == c';
  }

  lemma CitedCertificate(objs: seq<Obj>, certificates: Certificates, cited: string) returns (c: nat)
    requires GetCertificates(objs) == Success(certificates) && cited in certificates
    ensures LastCertificate(objs, cited, c) && objs[c].secretName == Named(certificates[cited])
  {
    CertificatesHeld(objs, cited);
    c :| LastCertificate(objs, cited, c) && objs[c].secretName == Named(certificates[cited]);
  }

  /** A called service is due a secret, and its last call carries it. */
  lemma CalledIsDue(objs: seq<Obj>, certificates: Certificates, ns: string, name: string) returns (secret: string)
    requires GetCertificates(objs) == Success(certificates) && Calls(objs, certificates).Success?
    requires SomeCaller(objs, ns, name)
    ensures Due(objs, ns, name, secret)
    ensures var calls := Calls(objs, certificates).value;
            forall k: nat | LastFor(calls, ns, name, k) :: calls[k].secret == secret
  {
    CallsMeaning(objs, certificates, ns, name);
    var calls := Calls(objs, certificates).value;
    var i := LastCallerExists(objs, ns, name);
    var k0 :| 0 <= k0 < |calls| && IsFor(calls[k0], ns, name);
    var k := LastExists(calls, ns, name, k0);
    var cited := objs[i].annotations.value[INJECT];
    assert cited in certificates;
    var c := CitedCertificate(objs, certificates, cited);
    secret := certificates[cited];
  }

  /** What the map gives a service is the secret of its last call. */
  lemma GivenIsLast(calls: seq<Service>, ns: string, name: string) returns (k: nat)
    requires var services, key := Collected(calls), NameKey(ns, name);
             key in services && IsFor(services[key], ns, name)
    ensures LastFor(calls, ns, name, k) && Collected(calls)[NameKey(ns, name)] == calls[k]
  {
    var key := NameKey(ns, name);
    CollectedMeaning(calls, key);
    k :| LastCall(calls, key, k) && calls[k] == Collected(calls)[key];
    forall j | k < j < |calls| ensures !IsFor(calls[j], ns, name) {
      assert KeyOf(calls[j]) != key;
    }
  }

  /** The manifest brings the annotation that the service is due. */
  ghost predicate ToldAlready(objs: seq<Obj>, o: Obj) {
    && o.annotations.Some? && NEED_A_CERT in o.annotations.value
    && Due(objs, o.ns, o.name, o.annotations.value[NEED_A_CERT])
  }

  /** If `o` is a called Service, the last call with its key is its own, or it has the right
      annotation already. */
  ghost predicate Served(objs: seq<Obj>, calls: seq<Service>, o: Obj) {
    o.kind == SERVICE && SomeCaller(objs, o.ns, o.name) ==> OwnCall(calls, o.ns, o.name) || ToldAlready(objs, o)
  }

  lemma CalledRewriteExactly(objs: seq<Obj>, certificates: Certificates, o: Obj)
    requires GetCertificates(objs) == Success(certificates) && Calls(objs, certificates).Success?
    requires o.kind == SERVICE && SomeCaller(objs, o.ns, o.name)
    ensures var calls := Calls(objs, certificates).value;
            RewrittenAs(objs, o, Cleaned(Patched(o, Collected(calls)))) <==>
              OwnCall(calls, o.ns, o.name) || ToldAlready(objs, o)
  {
    var calls := Calls(objs, certificates).value;
    var services, key := Collected(calls), NameKey(o.ns, o.name);
    var secret := CalledIsDue(objs, certificates, o.ns, o.name);
    GivenExactly(calls, o.ns, o.name);
    if OwnCall(calls, o.ns, o.name) {
      var k := GivenIsLast(calls, o.ns, o.name);
    } else {
      var annotations: Strings := if o.annotations.None? then map[] else o.annotations.value;
      var o' := Cleaned(Patched(o, services));
      assert o' == Cleaned(o);
      if ToldAlready(objs, o) {
        assert annotations[NEED_A_CERT := annotations[NEED_A_CERT]] == annotations;
      }
      if RewrittenAs(objs, o, o') {
        var told :| Due(objs, o.ns, o.name, told) && o'.annotations == Some(annotations[NEED_A_CERT := told] - {INJECT});
        assert NEED_A_CERT in o'.annotations.value && o'.annotations.value[NEED_A_CERT] == told;
      }
    }
  }

  /** Exactly when one object is rewritten as it should be, slashes or not. */
  lemma RewriteExactly(objs: seq<Obj>, certificates: Certificates, o: Obj)
    requires GetCertificates(objs) == Success(certificates) && Calls(objs, certificates).Success?
    ensures var calls := Calls(objs, certificates).value;
            RewrittenAs(objs, o, Cleaned(Patched(o, Collected(calls)))) <==> Served(objs, calls, o)
  {
    if o.kind == SERVICE && SomeCaller(objs, o.ns, o.name) {
      CalledRewriteExactly(objs, certificates, o);
    } else if o.kind == SERVICE {
      NotGiven(objs, certificates, o.ns, o.name);
    }
  }

  lemma NotGiven(objs: seq<Obj>, certificates: Certificates, ns: string, name: string)
    requires Calls(objs, certificates).Success? && !SomeCaller(objs, ns, name)
    ensures var services, key := Collected(Calls(objs, certificates).value), NameKey(ns, name);
            !(key in services && IsFor(services[key], ns, name))
  {
    CallsMeaning(objs, certificates, ns, name);
    var calls := Calls(objs, certificates).value;
    if NameKey(ns, name) in Collected(calls) && IsFor(Collected(calls)[NameKey(ns, name)], ns, name) {
      GivenIsCalled(calls, ns, name);
    }
  }

  lemma PatchedMeaning(objs: seq<Obj>, certificates: Certificates, o: Obj)
    requires GetCertificates(objs) == Success(certificates) && Calls(objs, certificates).Success?
    requires NoClash(Calls(objs, certificates).value)
    ensures RewrittenAs(objs, o, Cleaned(Patched(o, Collected(Calls(objs, certificates).value))))
  {
    var calls := Calls(objs, certificates).value;
    CallsMeaning(objs, certificates, o.ns, o.name);
    if SomeCaller(objs, o.ns, o.name) {
      CalledIsGiven(calls, o.ns, o.name);
      GivenExactly(calls, o.ns, o.name);
    }
    RewriteExactly(objs, certificates, o);
  }

  /** The rewrite meets its declarative meaning: the input in order minus Certificates and
      Issuers, each object rewritten as above. */
  lemma WrangleMeetsSpec(objs: seq<Obj>) returns (idx: seq<nat>)
    requires Wrangle(objs).Success? && forall i | 0 <= i < |objs| :: SlashFreeRefs(objs[i])
    ensures Selects(objs, idx)
    ensures var result := Wrangle(objs).value;
            |result| == |idx| && forall k | 0 <= k < |idx| :: RewrittenAs(objs, objs[idx[k]], result[k])
  {
    var certificates := GetCertificates(objs).value;
    var services := Collected(Calls(objs, certificates).value);
    var rewritten := Rewritten(objs, services);
    SlashFreeNoClash(objs, certificates);
    idx := FilteredSelects(rewritten);
    forall i | 0 <= i < |objs| ensures Kept(rewritten[i]) <==> Kept(objs[i]) {
    }
    forall k | 0 <= k < |idx| ensures RewrittenAs(objs, objs[idx[k]], Filtered(rewritten)[k]) {
      PatchedMeaning(objs, certificates, objs[idx[k]]);
    }
  }

  lemma SelectsBelow(objs: seq<Obj>, idx: seq<nat>, k: nat)
    requires Selects(objs, idx) && k < |idx|
    ensures idx[k] < |objs|
  {
  }

  lemma SelectsNothing(idx: seq<nat>)
    requires Selects([], idx)
    ensures idx == []
  {
    if idx != [] {
      SelectsBelow([], idx, 0);
      assert false;
    }
  }

  lemma {:induction false} SelectsUnique(objs: seq<Obj>, idx: seq<nat>, other: seq<nat>)
    requires Selects(objs, idx) && Selects(objs, other)
    ensures idx == other
    decreases |objs|
  {
    if objs != [] {
      var n := |objs| - 1;
      var a := SelectsPrefix(objs, idx);
      var b := SelectsPrefix(objs, other);
      SelectsUnique(objs[..n], a, b);
    } else {
      SelectsNothing(idx);
      SelectsNothing(other);
    }
  }

  lemma LastSelected(objs: seq<Obj>, idx: seq<nat>)
    requires objs != [] && Selects(objs, idx) && Kept(objs[|objs| - 1])
    ensures idx != [] && idx[|idx| - 1] == |objs| - 1
  {
    var n := |objs| - 1;
    assert n in idx;
    var k :| 0 <= k < |idx| && idx[k] == n;
    SelectsBelow(objs, idx, |idx| - 1);
    assert idx[k] <= idx[|idx| - 1];
  }

  lemma SelectsWithoutLast(objs: seq<Obj>, idx: seq<nat>, before: seq<nat>)
    requires objs != [] && Selects(objs, idx) && before <= idx
    requires forall k | 0 <= k < |before| :: idx[k] < |objs| - 1
    requires forall k | |before| <= k < |idx| :: idx[k] == |objs| - 1
    ensures Selects(objs[..|objs| - 1], before)
  {
    var most := objs[..|objs| - 1];
    assert forall k | 0 <= k < |before| :: before[k] == idx[k];
    forall i | 0 <= i < |most| && Kept(most[i]) ensures i in before {
      assert objs[i] == most[i];
      assert i in idx;
      var k :| 0 <= k < |idx| && idx[k] == i;
      assert k < |before|;
      assert before[k] == i;
    }
  }

  lemma SelectsPrefix(objs: seq<Obj>, idx: seq<nat>) returns (before: seq<nat>)
    requires objs != [] && Selects(objs, idx)
    ensures Selects(objs[..|objs| - 1], before)
    ensures idx == before + if Kept(objs[|objs| - 1]) then [|objs| - 1] else []
  {
    before := idx;
    if Kept(objs[|objs| - 1]) {
      LastSelected(objs, idx);
      before := idx[..|idx| - 1];
    }
    SelectsWithoutLast(objs, idx, before);
  }

  /** The meaning leaves no choice: an object can be rewritten in one way only. */
  lemma RewrittenAsUnique(objs: seq<Obj>, o: Obj, a: Obj, b: Obj)
    requires RewrittenAs(objs, o, a) && RewrittenAs(objs, o, b)
    ensures a == b
  {
    if o.kind == SERVICE && SomeCaller(objs, o.ns, o.name) {
      var annotations: Strings := if o.annotations.None? then map[] else o.annotations.value;
      var s :| Due(objs, o.ns, o.name, s) && a.annotations == Some(annotations[NEED_A_CERT := s] - {INJECT});
      var t :| Due(objs, o.ns, o.name, t) && b.annotations == Some(annotations[NEED_A_CERT := t] - {INJECT});
      DueUnique(objs, o.ns, o.name, s, t);
    }
  }

  /** `result` consists of the objects at `idx`, rewritten as they should be. */
  ghost predicate MeetsAt(objs: seq<Obj>, result: seq<Obj>, idx: seq<nat>) {
    && Selects(objs, idx) && |result| == |idx|
    && forall k | 0 <= k < |idx| :: RewrittenAs(objs, objs[idx[k]], result[k])
  }

  /** The declarative meaning of the whole rewrite. */
  ghost predicate MeetsSpec(objs: seq<Obj>, result: seq<Obj>) {
    exists idx: seq<nat> :: MeetsAt(objs, result, idx)
  }

  lemma MeetsAtOnce(objs: seq<Obj>, result: seq<Obj>, other: seq<Obj>, idx: seq<nat>)
    requires MeetsAt(objs, result, idx) && MeetsAt(objs, other, idx)
    ensures result == other
  {
    forall k | 0 <= k < |idx| ensures result[k] == other[k] {
      RewrittenAsUnique(objs, objs[idx[k]], result[k], other[k]);
    }
  }

  /** So a manifest has at most one result that meets the meaning. */
  lemma MeaningDeterminesResult(objs: seq<Obj>, result: seq<Obj>, other: seq<Obj>)
    requires MeetsSpec(objs, result) && MeetsSpec(objs, other)
    ensures result == other
  {
    var idx: seq<nat> :| MeetsAt(objs, result, idx);
    var idx': seq<nat> :| MeetsAt(objs, other, idx');
    SelectsUnique(objs, idx, idx');
    MeetsAtOnce(objs, result, other, idx);
  }

  lemma WrangledAt(objs: seq<Obj>, idx: seq<nat>)
    requires Wrangle(objs).Success? && Selects(objs, idx)
    ensures var result, services := Wrangle(objs).value, ServicesOf(objs).value;
            |result| == |idx| && forall k | 0 <= k < |idx| :: result[k] == Cleaned(Patched(objs[idx[k]], services))
  {
    var rewritten := Rewritten(objs, ServicesOf(objs).value);
    assert forall i | 0 <= i < |objs| :: Kept(rewritten[i]) <==> Kept(objs[i]);
    var all := FilteredSelects(rewritten);
    assert Selects(objs, all);
    SelectsUnique(objs, idx, all);
  }

  /** A result that meets the meaning has each kept object rewritten as it should be. */
  /** The object at `i` is rewritten as it should be. */
  ghost predicate RightAt(objs: seq<Obj>, i: nat)
    requires ServicesOf(objs).Success? && i < |objs|
  {
    RewrittenAs(objs, objs[i], Cleaned(Patched(objs[i], ServicesOf(objs).value)))
  }

  /** The object at `i` is served. */
  ghost predicate ServedAt(objs: seq<Obj>, i: nat)
    requires ServicesOf(objs).Success? && i < |objs|
  {
    Served(objs, Calls(objs, GetCertificates(objs).value).value, objs[i])
  }

  lemma RightAtExactly(objs: seq<Obj>, i: nat)
    requires ServicesOf(objs).Success? && i < |objs|
    ensures RightAt(objs, i) <==> ServedAt(objs, i)
  {
    RewriteExactly(objs, GetCertificates(objs).value, objs[i]);
  }

  /** A result that meets the meaning has each kept object rewritten as it should be. */
  lemma MeetsSpecEach(objs: seq<Obj>, i: nat)
    requires Wrangle(objs).Success? && MeetsSpec(objs, Wrangle(objs).value)
    requires i < |objs| && Kept(objs[i])
    ensures RightAt(objs, i)
  {
    var result := Wrangle(objs).value;
    var idx: seq<nat> :| MeetsAt(objs, result, idx);
    WrangledAt(objs, idx);
    assert i in idx;
  }

  lemma EachMeetsSpec(objs: seq<Obj>)
    requires Wrangle(objs).Success? && forall i | 0 <= i < |objs| :: RightAt(objs, i)
    ensures MeetsSpec(objs, Wrangle(objs).value)
  {
    var idx := FilteredSelects(objs);
    WrangledAt(objs, idx);
    forall k | 0 <= k < |idx| ensures RewrittenAs(objs, objs[idx[k]], Wrangle(objs).value[k]) {
      assert RightAt(objs, idx[k]);
    }
    assert MeetsAt(objs, Wrangle(objs).value, idx);
  }

  lemma MeaningServes(objs: seq<Obj>, i: nat)
    requires Wrangle(objs).Success? && MeetsSpec(objs, Wrangle(objs).value) && i < |objs|
    ensures ServedAt(objs, i)
  {
    if objs[i].kind == SERVICE {
      MeetsSpecEach(objs, i);
      RightAtExactly(objs, i);
    }
  }

  /** Exactly when the rewrite meets its meaning, slashes or not: every called Service is served,
      that is, the last call with its key is its own, or the manifest brings its annotation. */
  lemma WrangleMeetsSpecExactly(objs: seq<Obj>)
    requires Wrangle(objs).Success?
    ensures MeetsSpec(objs, Wrangle(objs).value) <==> forall i | 0 <= i < |objs| :: ServedAt(objs, i)
  {
    if MeetsSpec(objs, Wrangle(objs).value) {
      forall i | 0 <= i < |objs| ensures ServedAt(objs, i) {
        MeaningServes(objs, i);
      }
    } else if forall i | 0 <= i < |objs| :: ServedAt(objs, i) {
      forall i | 0 <= i < |objs| ensures RightAt(objs, i) {
        RightAtExactly(objs, i);
      }
      EachMeetsSpec(objs);
    }
  }

  /** A Service that an annotated webhook configuration of either kind calls leaves with the secret
      name of the certificate that the last such configuration cites, and without the citation. */
  lemma CalledServiceIsTold(objs: seq<Obj>, i: nat, j: nat) returns (k: nat, c: nat)
    requires Wrangle(objs).Success? && forall m | 0 <= m < |objs| :: SlashFreeRefs(objs[m])
    requires i < |objs| && objs[i].kind == "Service"
    requires j < |objs| && (objs[j].kind == "MutatingWebhookConfiguration" || objs[j].kind == "ValidatingWebhookConfiguration")
    requires objs[j].annotations.Some? && "cert-manager.io/inject-ca-from" in objs[j].annotations.value
    requires objs[j].webhooks.Hooks? && Some(ServiceRef(objs[i].ns, objs[i].name)) in objs[j].webhooks.hooks
    requires forall m | j < m < |objs| :: !CallsService(objs[m], objs[i].ns, objs[i].name)
    ensures k < |Wrangle(objs).value| && c < |objs| && objs[c].kind == "Certificate" && objs[c].secretName.Named?
    ensures objs[c].ns + "/" + objs[c].name == objs[j].annotations.value["cert-manager.io/inject-ca-from"]
    ensures forall m | c < m < |objs| && objs[m].kind == "Certificate" ::
              objs[m].ns + "/" + objs[m].name != objs[c].ns + "/" + objs[c].name
    ensures var o := Wrangle(objs).value[k];
            && o.(annotations := objs[i].annotations) == objs[i]
            && o.annotations.Some? && "cert-manager.io/inject-ca-from" !in o.annotations.value
            && "need-a-cert.cattle.io/secret-name" in o.annotations.value
            && o.annotations.value["need-a-cert.cattle.io/secret-name"] == objs[c].secretName.name
  {
    var idx := WrangleMeetsSpec(objs);
    assert Stays(objs[i]);
    assert i in idx;
    k :| 0 <= k < |idx| && idx[k] == i;
    assert LastCaller(objs, objs[i].ns, objs[i].name, j);
    c := ToldWhat(objs, objs[i], Wrangle(objs).value[k], j);
  }

  lemma ToldWhat(objs: seq<Obj>, o: Obj, o': Obj, j: nat) returns (c: nat)
    requires RewrittenAs(objs, o, o') && o.kind == "Service" && LastCaller(objs, o.ns, o.name, j)
    ensures LastCertificate(objs, objs[j].annotations.value["cert-manager.io/inject-ca-from"], c)
    ensures objs[c].secretName.Named? && o'.annotations.Some?
    ensures "cert-manager.io/inject-ca-from" !in o'.annotations.value
    ensures "need-a-cert.cattle.io/secret-name" in o'.annotations.value
    ensures o'.annotations.value["need-a-cert.cattle.io/secret-name"] == objs[c].secretName.name
  {
    var annotations: Strings := if o.annotations.None? then map[] else o.annotations.value;
    var secret :| Due(objs, o.ns, o.name, secret)
      && o'.annotations == Some(annotations["need-a-cert.cattle.io/secret-name" := secret] - {"cert-manager.io/inject-ca-from"});
    var i: nat;
    i, c :| LastCaller(objs, o.ns, o.name, i)
      && LastCertificate(objs, objs[i].annotations.value["cert-manager.io/inject-ca-from"], c)
      && objs[c].secretName == Named(secret);
    assert i == j;
  }

  // ---- errors ----

  /** An annotated object whose citation no certificate of the manifest answers. */
  predicate Dangling(objs: seq<Obj>, o: Obj) {
    && o.annotations.Some? && "cert-manager.io/inject-ca-from" in o.annotations.value
    && forall i | 0 <= i < |objs| :: !IsCertificateOf(objs[i], o.annotations.value["cert-manager.io/inject-ca-from"])
  }

  predicate BadWebhooks(o: Obj) {
    && o.annotations.Some? && "cert-manager.io/inject-ca-from" in o.annotations.value
    && (o.kind == "MutatingWebhookConfiguration" || o.kind == "ValidatingWebhookConfiguration")
    && o.webhooks.Undecodable?
  }

  lemma {:induction false} CallsFailure(objs: seq<Obj>, certificates: Certificates)
    ensures Calls(objs, certificates).Failure? <==>
            exists i | 0 <= i < |objs| :: Contribution(objs[i], certificates).Failure?
  {
    if objs != [] {
      var n := |objs| - 1;
      CallsFailure(objs[..n], certificates);
      assert forall i | 0 <= i < n :: objs[..n][i] == objs[i];
    }
  }

  /** The rewrite fails exactly if a Certificate has no usable secret name, an annotated object
      cites a certificate that is not there, or an annotated configuration does not decode. */
  lemma WrangleFailsExactly(objs: seq<Obj>)
    ensures Wrangle(objs).Failure? <==>
            exists i | 0 <= i < |objs| :: BadCertificate(objs[i]) || Dangling(objs, objs[i]) || BadWebhooks(objs[i])
  {
    CertificatesMeaning(objs);
    if GetCertificates(objs).Success? {
      var certificates := GetCertificates(objs).value;
      CallsFailure(objs, certificates);
      forall i | 0 <= i < |objs|
        ensures Contribution(objs[i], certificates).Failure? <==> Dangling(objs, objs[i]) || BadWebhooks(objs[i])
      {
        if Injects(objs[i]) {
          var cited := objs[i].annotations.value[INJECT];
          if cited in certificates {
            var c: nat :| LastCertificate(objs, cited, c);
            assert objs[c].kind == CERTIFICATE && NameKey(objs[c].ns, objs[c].name) == cited;
            assert !Dangling(objs, objs[i]);
          }
        }
      }
    }
  }

  // ---- laws ----

  /** The manifest has what the error complains of. */
  ghost predicate Explains(error: Error, objs: seq<Obj>) {
    match error
    case MalformedSecretName => exists i | 0 <= i < |objs| :: objs[i].kind == "Certificate" && objs[i].secretName.NotAString?
    case NoCertificateSecret => exists i | 0 <= i < |objs| :: objs[i].kind == "Certificate" && objs[i].secretName.NoName?
    case UnknownCertificate(key) =>
      exists i | 0 <= i < |objs| ::
        && objs[i].annotations.Some? && "cert-manager.io/inject-ca-from" in objs[i].annotations.value
        && objs[i].annotations.value["cert-manager.io/inject-ca-from"] == key && Dangling(objs, objs[i])
    case MalformedWebhooks => exists i | 0 <= i < |objs| :: BadWebhooks(objs[i])
  }

  lemma {:induction false} CertificatesErrorExplained(objs: seq<Obj>)
    requires GetCertificates(objs).Failure?
    ensures !GetCertificates(objs).error.UnknownCertificate? && !GetCertificates(objs).error.MalformedWebhooks?
    ensures Explains(GetCertificates(objs).error, objs)
  {
    var most := objs[..|objs| - 1];
    if GetCertificates(most).Failure? {
      CertificatesErrorExplained(most);
      assert forall i | 0 <= i < |most| :: objs[i] == most[i];
    } else {
      assert objs[|objs| - 1].kind == "Certificate";
    }
  }

  lemma {:induction false} CallsErrorExplained(objs: seq<Obj>, certificates: Certificates) returns (i: nat)
    requires Calls(objs, certificates).Failure?
    ensures i < |objs| && Contribution(objs[i], certificates) == Failure(Calls(objs, certificates).error)
  {
    var most := objs[..|objs| - 1];
    if Calls(most, certificates).Failure? {
      i := CallsErrorExplained(most, certificates);
      assert objs[i] == most[i];
    } else {
      i := |objs| - 1;
    }
  }

  /** An error names a cause that the manifest has: a Certificate whose secret name is not a text, or
      is missing; a citation that no certificate answers; or an annotated configuration that does
      not decode. */
  lemma WrangleErrorExplained(objs: seq<Obj>)
    requires Wrangle(objs).Failure?
    ensures Explains(Wrangle(objs).error, objs)
  {
    if GetCertificates(objs).Failure? {
      CertificatesErrorExplained(objs);
    } else {
      var certificates := GetCertificates(objs).value;
      var i := CallsErrorExplained(objs, certificates);
      CertificatesMeaning(objs);
      if Wrangle(objs).error.UnknownCertificate? {
        forall j | 0 <= j < |objs| ensures !IsCertificateOf(objs[j], objs[i].annotations.value[INJECT]) {
          assert objs[j].kind == CERTIFICATE ==> NameKey(objs[j].ns, objs[j].name) in certificates;
        }
        assert Dangling(objs, objs[i]);
      } else {
        assert BadWebhooks(objs[i]);
      }
    }
  }

  lemma {:induction false} FilteredMap(objs: seq<Obj>, f: Obj -> Obj)
    requires forall o :: Kept(f(o)) <==> Kept(o)
    ensures Filtered(Map(objs, f)) == Map(Filtered(objs), f)
  {
    if objs == [] {
    } else {
      var n := |objs| - 1;
      FilteredMap(objs[..n], f);
      assert Map(objs, f)[..n] == Map(objs[..n], f);
      var before := Filtered(objs[..n]);
      assert Map(before + [objs[n]], f) == Map(before, f) + [f(objs[n])];
    }
  }

  function Map(objs: seq<Obj>, f: Obj -> Obj): (result: seq<Obj>)
    ensures |result| == |objs| && forall i | 0 <= i < |objs| :: result[i] == f(objs[i])
  {
    seq(|objs|, i requires 0 <= i < |objs| => f(objs[i]))
  }

  /** A wrangler manifest: nothing left of cert-manager. */
  predicate Wrangled(o: Obj) {
    Kept(o) && !Injects(o)
  }

  lemma {:induction false} WrangledIsFixed(objs: seq<Obj>)
    requires forall i | 0 <= i < |objs| :: Wrangled(objs[i])
    ensures GetCertificates(objs) == Success(map[])
    ensures Calls(objs, map[]) == Success([])
    ensures Filtered(objs) == objs
  {
    if objs != [] {
      var n := |objs| - 1;
      WrangledIsFixed(objs[..n]);
      assert objs == objs[..n] + [objs[n]];
      var none: seq<Service> := [];
      assert Contribution(objs[n], map[]) == Success(none) && none + none == none;
      CallsSnoc(objs[..n], objs[n], map[]);
      FilteredSnoc(objs[..n], objs[n]);
    }
  }

  lemma {:induction false} FilteredKept(objs: seq<Obj>)
    requires forall i | 0 <= i < |objs| :: !Injects(objs[i])
    ensures forall i | 0 <= i < |Filtered(objs)| :: Wrangled(Filtered(objs)[i])
  {
    if objs != [] {
      FilteredKept(objs[..|objs| - 1]);
    }
  }

  /** Wrangling a wrangled manifest changes nothing. */
  lemma WrangleIdempotent(objs: seq<Obj>)
    requires Wrangle(objs).Success?
    ensures Wrangle(Wrangle(objs).value) == Wrangle(objs)
  {
    var services := ServicesOf(objs).value;
    var result := Wrangle(objs).value;
    FilteredKept(Rewritten(objs, services));
    WrangledIsFixed(result);
    forall i | 0 <= i < |result| ensures Cleaned(Patched(result[i], map[])) == result[i] {
      assert Wrangled(result[i]);
      if result[i].annotations.Some? {
        assert result[i].annotations.value - {INJECT} == result[i].annotations.value;
      }
    }
    assert Rewritten(result, map[]) == result;
  }

  /** `AddClusterIndexedLabelFn` on one object. */
  function Indexed(o: Obj): Obj {
    if o.kind != CRD then o
    else o.(labels := Some((if o.labels.Some? then o.labels.value else map[])[CLUSTER_INDEXED := "true"]))
  }

  /** Exactly the CRDs get the label, and nothing else of any object changes. */
  lemma IndexedMeans(o: Obj)
    ensures Indexed(o).(labels := o.labels) == o
    ensures o.kind == "CustomResourceDefinition" ==>
              var was: Strings := if o.labels.Some? then o.labels.value else map[];
              Indexed(o).labels == Some(was["auth.cattle.io/cluster-indexed" := "true"])
    ensures o.kind != "CustomResourceDefinition" ==> Indexed(o) == o
  {
  }

  lemma {:induction false} IndexedCertificates(objs: seq<Obj>)
    ensures GetCertificates(Map(objs, Indexed)) == GetCertificates(objs)
  {
    if objs != [] {
      var n := |objs| - 1;
      assert Map(objs, Indexed)[..n] == Map(objs[..n], Indexed);
      IndexedCertificates(objs[..n]);
    }
  }

  lemma {:induction false} IndexedCalls(objs: seq<Obj>, certificates: Certificates)
    ensures Calls(Map(objs, Indexed), certificates) == Calls(objs, certificates)
  {
    if objs != [] {
      var n := |objs| - 1;
      assert Map(objs, Indexed)[..n] == Map(objs[..n], Indexed);
      IndexedCalls(objs[..n], certificates);
      assert Contribution(Indexed(objs[n]), certificates) == Contribution(objs[n], certificates);
    }
  }

  /** The two alterations of a provider's components may be made in either order, errors included. */
  lemma WrangleCommutesWithIndexing(objs: seq<Obj>)
    ensures Wrangle(Map(objs, Indexed)) ==
            match Wrangle(objs)
            case Success(result) => Success(Map(result, Indexed))
            case Failure(error) => Failure(error)
  {
    IndexedCertificates(objs);
    if GetCertificates(objs).Success? {
      IndexedCalls(objs, GetCertificates(objs).value);
    }
    if Wrangle(objs).Success? {
      var services := ServicesOf(objs).value;
      assert Rewritten(Map(objs, Indexed), services) == Map(Rewritten(objs, services), Indexed);
      FilteredMap(Rewritten(objs, services), Indexed);
    }
  }

  // ---- names with slashes ----

  /** A manifest in which two services of different namespaces share a key; it holds the first. */
  function Clashing(): seq<Obj> {
    [Obj(CERTIFICATE, "n", "c", None, None, Named("tls"), Hooks([]), ""),
     Obj(MUTATING, "", "w", None, Some(map[INJECT := "n/c"]), NoName,
         Hooks([Some(ServiceRef("a", "b/s")), Some(ServiceRef("a/b", "s"))]), ""),
     Obj(SERVICE, "a", "b/s", None, None, NoName, Hooks([]), "")]
  }

  /** The two calls of the clashing manifest. */
  function ClashingCalls(): seq<Service> {
    [Service("a", "b/s", "tls"), Service("a/b", "s", "tls")]
  }

  lemma CertificatesSnoc(objs: seq<Obj>, o: Obj)
    requires o.kind != CERTIFICATE
    ensures GetCertificates(objs + [o]) == GetCertificates(objs)
  {
    assert (objs + [o])[..|objs|] == objs;
  }

  lemma ClashingCertificates()
    ensures GetCertificates(Clashing()) == Success(map["n/c" := "tls"])
  {
    var objs := Clashing();
    assert [objs[0]][..0] == [];
    assert NameKey("n", "c") == "n/c";
    assert GetCertificates([objs[0]]) == Success(map["n/c" := "tls"]);
    CertificatesSnoc([objs[0]], objs[1]);
    CertificatesSnoc([objs[0]] + [objs[1]], objs[2]);
    assert objs == [objs[0]] + [objs[1]] + [objs[2]];
  }

  lemma ClashingCalled()
    ensures Called(Clashing()[1].webhooks.hooks, "tls") == ClashingCalls()
  {
    var hooks := Clashing()[1].webhooks.hooks;
    assert hooks[..1] == [hooks[0]] && [hooks[0]][..0] == [];
    assert Called([hooks[0]], "tls") == [ClashingCalls()[0]];
  }

  /** The calls of three objects of which the second alone makes any. */
  lemma CallsOfThree(first: Obj, second: Obj, third: Obj, certificates: Certificates, calls: seq<Service>)
    requires Contribution(first, certificates) == Success([]) && Contribution(second, certificates) == Success(calls)
    requires Contribution(third, certificates) == Success([])
    ensures Calls([first, second, third], certificates) == Success(calls)
  {
    var none: seq<Service> := [];
    assert none + none == none && none + calls == calls && calls + none == calls;
    assert Calls([], certificates) == Success(none);
    CallsSnoc([], first, certificates);
    assert [] + [first] == [first];
    CallsSnoc([first], second, certificates);
    CallsSnoc([first] + [second], third, certificates);
    assert [first] + [second] + [third] == [first, second, third];
  }

  lemma ClashingNotOwn()
    ensures !OwnCall(ClashingCalls(), "a", "b/s")
  {
    var calls := ClashingCalls();
    assert NameKey("a", "b/s") == "a/b/s" == NameKey("a/b", "s");
    assert KeyOf(calls[1]) == NameKey("a", "b/s");
    assert "a/b" != "a";
  }

  lemma ClashingParses()
    ensures GetCertificates(Clashing()) == Success(map["n/c" := "tls"])
    ensures Calls(Clashing(), map["n/c" := "tls"]) == Success(ClashingCalls())
  {
    ClashingCertificates();
    ClashingCalled();
    CallsOfThree(Clashing()[0], Clashing()[1], Clashing()[2], map["n/c" := "tls"], ClashingCalls());
  }

  lemma ClashingIsCalled()
    ensures SomeCaller(Clashing(), "a", "b/s")
  {
    assert CallsService(Clashing()[1], "a", "b/s") by {
      assert Clashing()[1].webhooks.hooks[0] == Some(ServiceRef("a", "b/s"));
    }
  }

  lemma ClashingComesOutBare()
    requires Wrangle(Clashing()).Success? && ServicesOf(Clashing()) == Success(Collected(ClashingCalls()))
    ensures Clashing()[2] in Wrangle(Clashing()).value
  {
    var objs := Clashing();
    ClashingNotOwn();
    GivenExactly(ClashingCalls(), "a", "b/s");
    var idx := FilteredSelects(objs);
    WrangledAt(objs, idx);
    assert Kept(objs[2]);
    var k :| 0 <= k < |idx| && idx[k] == 2;
    assert Wrangle(objs).value[k] == objs[2];
  }

  /** With a slash in a namespace the meaning fails: the Service is called by the annotated
      configuration, the rewrite succeeds, and the Service comes out without its annotation. */
  lemma SlashesLoseServices()
    ensures Wrangle(Clashing()).Success?
    ensures Clashing()[2].kind == SERVICE && SomeCaller(Clashing(), Clashing()[2].ns, Clashing()[2].name)
    ensures Clashing()[2] in Wrangle(Clashing()).value && Clashing()[2].annotations == None
    ensures !MeetsSpec(Clashing(), Wrangle(Clashing()).value)
  {
    ClashingParses();
    ClashingIsCalled();
    ClashingComesOutBare();
    ClashingNotOwn();
    assert !Served(Clashing(), ClashingCalls(), Clashing()[2]);
    assert !ServedAt(Clashing(), 2);
    WrangleMeetsSpecExactly(Clashing());
  }
}
