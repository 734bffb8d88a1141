/** The defaults that every reconcile writes into a provider: its variables, its references and
    its checked version. */
module ProviderDefaults {
  import opened Wrappers
  import opened ProviderConfig
  import opened VersionCap

  type Strings = map<string, string>

  datatype Reference = Reference(name: string, ns: string)

  datatype Features = Features(clusterResourceSet: bool, clusterTopology: bool, machinePool: bool)

  function FormatBool(b: bool): string {
    if b then "true" else "false"
  }

  function FeatureVariables(features: Option<Features>): Strings {
    match features
    case None => map[]
    case Some(f) => map["EXP_CLUSTER_RESOURCE_SET" := FormatBool(f.clusterResourceSet),
                        "CLUSTER_TOPOLOGY" := FormatBool(f.clusterTopology),
                        "EXP_MACHINE_POOL" := FormatBool(f.machinePool)]
  }

  function SpecialVariables(provider: string): Strings {
    if provider == "azure" then map["EXP_AKS_RESOURCE_HEALTH" := "true"]
    else if provider == "gcp" then map["EXP_CAPG_GKE" := "true"]
    else map[]
  }

  /** The layers of variables, the strongest last. */
  function Variables(status: Strings, spec: Strings, features: Option<Features>, provider: string): Strings {
    status + spec + FeatureVariables(features) + SpecialVariables(provider)
  }

  /** A nil map is made when there is something to write to it. */
  function WithSpecial(status: Option<Strings>, provider: string): Option<Strings> {
    var special := SpecialVariables(provider);
    if status.Some? then Some(status.value + special) else if special == map[] then None else Some(special)
  }

  lemma SpecialIsLast(status: Option<Strings>, provider: string)
    ensures var vars := if status.Some? then status.value else map[];
            WithSpecial(status, provider) ==
            if provider == "azure" then Some(vars["EXP_AKS_RESOURCE_HEALTH" := "true"])
            else if provider == "gcp" then Some(vars["EXP_CAPG_GKE" := "true"])
            else status
  {
    var vars := if status.Some? then status.value else map[];
    assert vars + map[] == vars;
    assert vars + map["EXP_AKS_RESOURCE_HEALTH" := "true"] == vars["EXP_AKS_RESOURCE_HEALTH" := "true"];
    assert vars + map["EXP_CAPG_GKE" := "true"] == vars["EXP_CAPG_GKE" := "true"];
    assert SpecialVariables("azure").Keys == {"EXP_AKS_RESOURCE_HEALTH"};
    assert SpecialVariables("gcp").Keys == {"EXP_CAPG_GKE"};
  }

  /** A user's variable stands unless a feature or the provider itself sets it; and writing the
      layers again changes nothing, so a reconcile that repeats itself is quiet. */
  lemma VariablesLayer(status: Strings, spec: Strings, features: Option<Features>, provider: string)
    ensures var vars := Variables(status, spec, features, provider);
            && Variables(vars, spec, features, provider) == vars
            && (forall k | k in spec && k !in FeatureVariables(features) && k !in SpecialVariables(provider) ::
                  k in vars && vars[k] == spec[k])
            && (forall k | k in status && k !in spec && k !in FeatureVariables(features) && k !in SpecialVariables(provider) ::
                  k in vars && vars[k] == status[k])
  {
  }

  /** What the features and the provider itself put into the variables, whatever the user sets. */
  lemma FeaturesMean(status: Strings, spec: Strings, f: Features, provider: string)
    ensures var vars := Variables(status, spec, Some(f), provider);
            && "EXP_CLUSTER_RESOURCE_SET" in vars && "CLUSTER_TOPOLOGY" in vars && "EXP_MACHINE_POOL" in vars
            && vars["EXP_CLUSTER_RESOURCE_SET"] == (if f.clusterResourceSet then "true" else "false")
            && vars["CLUSTER_TOPOLOGY"] == (if f.clusterTopology then "true" else "false")
            && vars["EXP_MACHINE_POOL"] == (if f.machinePool then "true" else "false")
    ensures forall key | key in FeatureVariables(Some(f)) :: key in {"EXP_CLUSTER_RESOURCE_SET", "CLUSTER_TOPOLOGY", "EXP_MACHINE_POOL"}
  {
    assert |"EXP_CLUSTER_RESOURCE_SET"| == 24 && |"CLUSTER_TOPOLOGY"| == 16 && |"EXP_MACHINE_POOL"| == 16;
    assert |"EXP_AKS_RESOURCE_HEALTH"| == 23 && |"EXP_CAPG_GKE"| == 12;
    assert "CLUSTER_TOPOLOGY"[0] == 'C' && "EXP_MACHINE_POOL"[0] == 'E';
  }

  lemma SpecialVariablesMean(status: Strings, spec: Strings, features: Option<Features>)
    ensures var vars := Variables(status, spec, features, "azure");
            "EXP_AKS_RESOURCE_HEALTH" in vars && vars["EXP_AKS_RESOURCE_HEALTH"] == "true"
    ensures var vars := Variables(status, spec, features, "gcp");
            "EXP_CAPG_GKE" in vars && vars["EXP_CAPG_GKE"] == "true"
    ensures forall provider, key | key in SpecialVariables(provider) ::
              (provider == "azure" && key == "EXP_AKS_RESOURCE_HEALTH") || (provider == "gcp" && key == "EXP_CAPG_GKE")
  {
    assert "azure"[0] == 'a' && "gcp"[0] == 'g';
  }

  class CAPIProvider {
    const metaName: string
    const ns: string
    const kind: string
    // spec
    var specName: string
    var version: string
    var enableAutomaticUpdate: bool
    var specVariables: Strings
    var features: Option<Features>
    var configSecret: Option<Reference>
    var additionalManifests: Option<Reference>
    // status; a nil map is None
    var statusVariables: Option<Strings>
    var lastCheck: Option<Condition>

    constructor (metaName: string, ns: string, kind: string, version: string)
      ensures this.metaName == metaName && this.ns == ns && this.kind == kind && this.version == version
    {
      this.metaName, this.ns, this.kind, this.version := metaName, ns, kind, version;
      specName, enableAutomaticUpdate, specVariables, features := "", false, map[], None;
      configSecret, additionalManifests, statusVariables, lastCheck := None, None, Some(map[]), None;
    }

    function ProviderName(): string
      reads this
    {
      if specName != "" then specName else metaName
    }

    function CheckedVersion(): Checked
      reads this
    {
      Checked(version, lastCheck)
    }

    method SetVariables()
      requires statusVariables.Some? || specVariables == map[]
      modifies this`statusVariables
      ensures statusVariables == if old(statusVariables).Some? then Some(old(statusVariables).value + specVariables) else None
    {
      if statusVariables.Some? {
        statusVariables := Some(statusVariables.value + specVariables);
      }
    }

    method SetFeatures()
      requires statusVariables.Some? || features.None?
      modifies this`statusVariables
      ensures statusVariables ==
              if old(statusVariables).Some? then Some(old(statusVariables).value + FeatureVariables(features)) else None
    {
      if features.Some? {
        var vars := statusVariables.value;
        vars := vars["EXP_CLUSTER_RESOURCE_SET" := FormatBool(features.value.clusterResourceSet)];
        vars := vars["CLUSTER_TOPOLOGY" := FormatBool(features.value.clusterTopology)];
        vars := vars["EXP_MACHINE_POOL" := FormatBool(features.value.machinePool)];
        assert vars == statusVariables.value + FeatureVariables(features);
        statusVariables := Some(vars);
      } else {
        assert statusVariables.Some? ==> statusVariables.value + map[] == statusVariables.value;
      }
    }

    /** `SetDefaultProviderSpec`: references without a namespace, and a missing configuration secret,
        are completed from the provider. Writing variables needs a status map to write to. */
    method SetDefaultProviderSpec()
      requires statusVariables.Some? || (specVariables == map[] && features.None?)
      modifies this`statusVariables, this`configSecret, this`additionalManifests
      ensures configSecret == Some(Reference(if old(configSecret).Some? then old(configSecret).value.name else metaName, ns))
      ensures additionalManifests.Some? <==> old(additionalManifests).Some?
      ensures additionalManifests.Some? ==>
                var was := old(additionalManifests).value;
                additionalManifests.value == Reference(was.name, if was.ns == "" then ns else was.ns)
      ensures statusVariables == if old(statusVariables).Some?
                                 then Some(old(statusVariables).value + specVariables + FeatureVariables(features))
                                 else None
    {
      if configSecret.Some? {
        configSecret := Some(configSecret.value.(ns := ns));
      }
      if additionalManifests.Some? && additionalManifests.value.ns == "" {
        additionalManifests := Some(additionalManifests.value.(ns := ns));
      }
      SetVariables();
      SetFeatures();
      if configSecret.None? {
        configSecret := Some(Reference(metaName, ns));
      }
    }

    /** `setLatestVersion`: the bound comes from the merged configuration; on an error nothing
        changes. */
    method SetLatestVersion(config: Result<Repository, Fault>, parse: Parser) returns (error: Option<CheckFault>)
      modifies this`version, this`lastCheck
      ensures config.Failure? ==> error == Some(NoConfig(config.error)) && CheckedVersion() == old(CheckedVersion())
      ensures config.Success? ==>
                var providerName := if old(specName) != "" then old(specName) else metaName;
                var found := GetProviderVersion(config.value.providers, providerName, kind);
                var checked := CheckAny(parse, found.0, found.1, enableAutomaticUpdate, old(CheckedVersion()));
                && (checked.Failure? ==> error == Some(checked.error) && CheckedVersion() == old(CheckedVersion()))
                && (checked.Success? ==> error == None && CheckedVersion() == checked.value)
    {
      if config.Failure? { return Some(NoConfig(config.error)); }
      var (providerVersion, knownProvider) := GetProviderVersion(config.value.providers, ProviderName(), kind);
      var isLatest := IsLatestVersion(parse, providerVersion, version);
      if isLatest.Failure? { return Some(isLatest.error); }
      var latest := isLatest.value;
      if !knownProvider {
        lastCheck := Some(Condition(Unknown, "ProviderUnknown", "Provider is unknown"));
      } else if latest {
        lastCheck := Some(Condition(True, "LatestVersionSet", "Latest version is set"));
        version := providerVersion;
      } else if !enableAutomaticUpdate {
        lastCheck := Some(Condition(False, "UpdateAvailable",
                                    "Provider version update available. Current latest is " + providerVersion));
      } else {
        var updatedMessage := UpdatedMessage(providerVersion);
        if lastCheck.None? || lastCheck.value.message != updatedMessage {
          lastCheck := Some(Condition(True, "VersionUpdated", updatedMessage));
        }
        version := providerVersion;
      }
      return None;
    }

    /** The variables that the Azure and GCP providers are always given. */
    method SetSpecialVariables()
      modifies this`statusVariables
      ensures statusVariables == WithSpecial(old(statusVariables), ProviderName())
    {
      if ProviderName() == "azure" {
        var vars := if statusVariables.Some? then statusVariables.value else map[];
        statusVariables := Some(vars["EXP_AKS_RESOURCE_HEALTH" := "true"]);
      } else if ProviderName() == "gcp" {
        var vars := if statusVariables.Some? then statusVariables.value else map[];
        statusVariables := Some(vars["EXP_CAPG_GKE" := "true"]);
      }
      SpecialIsLast(old(statusVariables), ProviderName());
    }

    /** `SetProviderSpec`: the provider's own variables come last, and only after a check that
        succeeds. */
    method SetProviderSpec(config: Result<Repository, Fault>, parse: Parser) returns (error: Option<CheckFault>)
      requires statusVariables.Some? || (specVariables == map[] && features.None?)
      modifies this`statusVariables, this`configSecret, this`additionalManifests, this`version, this`lastCheck
      ensures error.Some? ==> CheckedVersion() == old(CheckedVersion())
      ensures config.Failure? ==> error.Some?
      ensures config.Success? ==>
                var providerName := if old(specName) != "" then old(specName) else metaName;
                var found := GetProviderVersion(config.value.providers, providerName, kind);
                var checked := CheckAny(parse, found.0, found.1, enableAutomaticUpdate, old(CheckedVersion()));
                && (error.None? <==> checked.Success?)
                && (checked.Success? ==> CheckedVersion() == checked.value)
      ensures error.None? && old(statusVariables).Some? ==>
                statusVariables == Some(Variables(old(statusVariables).value, specVariables, features, old(ProviderName())))
      ensures error.None? && old(statusVariables).None? ==> statusVariables == WithSpecial(None, old(ProviderName()))
      ensures error.Some? && old(statusVariables).Some? ==>
                statusVariables == Some(old(statusVariables).value + specVariables + FeatureVariables(features))
    {
      SetDefaultProviderSpec();
      error := SetLatestVersion(config, parse);
      if error.Some? { return; }
      SetSpecialVariables();
    }
  }

  /** A reconcile that succeeds tells the provider which features are on. */
  method ReconcileFeatures(provider: CAPIProvider, config: Result<Repository, Fault>, parse: Parser)
    returns (error: Option<CheckFault>)
    requires provider.statusVariables.Some? && provider.features.Some?
    modifies provider
    ensures provider.features == old(provider.features)
    ensures error.None? ==>
              && provider.statusVariables.Some? && provider.features.Some?
              && var vars, f := provider.statusVariables.value, provider.features.value;
                 && "EXP_CLUSTER_RESOURCE_SET" in vars && "CLUSTER_TOPOLOGY" in vars && "EXP_MACHINE_POOL" in vars
                 && (vars["EXP_CLUSTER_RESOURCE_SET"] == "true" <==> f.clusterResourceSet)
                 && (vars["CLUSTER_TOPOLOGY"] == "true" <==> f.clusterTopology)
                 && (vars["EXP_MACHINE_POOL"] == "true" <==> f.machinePool)
  {
    FeaturesMean(provider.statusVariables.value, provider.specVariables, provider.features.value, provider.ProviderName());
    error := provider.SetProviderSpec(config, parse);
  }

  /** What a reconcile that succeeds makes of the status variables, a nil map included. */
  function AllVariables(status: Option<Strings>, spec: Strings, features: Option<Features>, provider: string): Option<Strings> {
    if status.Some? then Some(Variables(status.value, spec, features, provider)) else WithSpecial(None, provider)
  }

  lemma AllVariablesSettle(status: Option<Strings>, spec: Strings, features: Option<Features>, provider: string)
    requires status.Some? || (spec == map[] && features.None?)
    ensures var vars := AllVariables(status, spec, features, provider);
            AllVariables(vars, spec, features, provider) == vars
  {
    if status.Some? {
      VariablesLayer(status.value, spec, features, provider);
    } else {
      var special := SpecialVariables(provider);
      assert special + map[] == special && special + special == special;
    }
  }

  /** Two reconciles with the same configuration: the second leaves version and variables as they
      are. */
  method ReconcileTwice(provider: CAPIProvider, config: Result<Repository, Fault>, parse: Parser)
    returns (error: Option<CheckFault>, version: string, variables: Option<Strings>)
    requires provider.statusVariables.Some? || (provider.specVariables == map[] && provider.features.None?)
    modifies provider
    ensures error.None? ==> provider.version == version && provider.statusVariables == variables
  {
    error := provider.SetProviderSpec(config, parse);
    version, variables := provider.version, provider.statusVariables;
    if error.None? {
      ghost var found := GetProviderVersion(config.value.providers, provider.ProviderName(), provider.kind);
      SettlesInTwo(parse, found.0, found.1, provider.enableAutomaticUpdate, old(provider.CheckedVersion()));
      AllVariablesSettle(old(provider.statusVariables), provider.specVariables, provider.features, provider.ProviderName());
      var again := provider.SetProviderSpec(config, parse);
      assert again.None?;
    }
  }
}
