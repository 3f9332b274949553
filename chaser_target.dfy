/**
 * The chaser/target scenario data: the proxy models of the chaser, the target and
 * the environment, and the lists of proxy pairs (chaser against each environment
 * model, target against each environment model) that collision queries use. The
 * pair lists are extended incrementally so that they keep up with the list of
 * environment proxy models.
 */
module ChaserTargetData {
  import opened Wrappers

  /** A proximity-query model, identified by the object it stands for and named. */
  datatype ProxyModel = ProxyModel(id: nat, name: string)

  /** A geometric (colored) model of an environment object. */
  datatype GeomModel = GeomModel(id: nat)

  /** A `proxy_query_pair_3D`: a name and the two models it checks against each other. */
  datatype ProxyPair = ProxyPair(name: string, first: ProxyModel, second: ProxyModel)

  const ChaserTargetName := "chaser_target_proxy"
  const ChaserEnvPrefix := "chaser_env_proxy:"
  const TargetEnvPrefix := "target_env_proxy:"

  /** The pair of `proxy` with environment model `env`, named by `prefix` and the model's name. */
  function EnvPair(prefix: string, proxy: ProxyModel, env: ProxyModel): ProxyPair
  {
    ProxyPair(prefix + env.name, proxy, env)
  }

  /** The pairs for the environment models from index `from` on, in order. */
  function PairsFrom(prefix: string, proxy: ProxyModel, envs: seq<ProxyModel>, from: nat): (r: seq<ProxyPair>)
    ensures |r| == if from < |envs| then |envs| - from else 0
    ensures forall k :: 0 <= k < |r| ==> r[k] == EnvPair(prefix, proxy, envs[from + k])
  {
    if from < |envs| then
      seq(|envs| - from, k requires 0 <= k < |envs| - from => EnvPair(prefix, proxy, envs[from + k]))
    else []
  }

  /**
   * The `for` loop of `create_chaser_env_proxies` / `create_target_env_proxies`:
   * from the current length of `existing` up to the number of environment models,
   * append one pair per model.
   */
  method ExtendPairs(existing: seq<ProxyPair>, prefix: string, proxy: ProxyModel, envs: seq<ProxyModel>)
      returns (r: seq<ProxyPair>)
    ensures r == existing + PairsFrom(prefix, proxy, envs, |existing|)
  {
    r := existing;
    var i := |existing|;
    while i < |envs|
      invariant (i == |existing| && r == existing)
             || (|existing| <= i <= |envs| && r == existing + PairsFrom(prefix, proxy, envs[..i], |existing|))
    {
      assert PairsFrom(prefix, proxy, envs[..i + 1], |existing|)
          == PairsFrom(prefix, proxy, envs[..i], |existing|) + [EnvPair(prefix, proxy, envs[i])];
      r := r + [EnvPair(prefix, proxy, envs[i])];
      i := i + 1;
    }
    if |existing| < |envs| {
      assert envs[..i] == envs;
    }
  }

  /**
   * Extending keeps every existing pair, ends with one pair per environment model
   * when there were fewer, and each appended pair matches the model at its index.
   */
  lemma ExtendedPairsShape(existing: seq<ProxyPair>, prefix: string, proxy: ProxyModel, envs: seq<ProxyModel>)
    ensures |existing + PairsFrom(prefix, proxy, envs, |existing|)|
         == if |existing| < |envs| then |envs| else |existing|
    ensures (existing + PairsFrom(prefix, proxy, envs, |existing|))[..|existing|] == existing
    ensures forall k :: |existing| <= k < |envs| ==>
      (existing + PairsFrom(prefix, proxy, envs, |existing|))[k] == EnvPair(prefix, proxy, envs[k])
  {
    var r := existing + PairsFrom(prefix, proxy, envs, |existing|);
    forall k | |existing| <= k < |envs|
      ensures r[k] == EnvPair(prefix, proxy, envs[k])
    {
      assert r[k] == PairsFrom(prefix, proxy, envs, |existing|)[k - |existing|];
    }
  }

  /** Extending a list that already has one pair per model changes nothing. */
  lemma ExtendingSyncedIsIdentity(prefix: string, proxy: ProxyModel, envs: seq<ProxyModel>)
    ensures PairsFrom(prefix, proxy, envs, |PairsFrom(prefix, proxy, envs, 0)|) == []
  {
  }

  class ChaserTargetModel {
    var chaserProxy: Option<ProxyModel>
    var targetProxy: Option<ProxyModel>
    var chaserTargetProxy: Option<ProxyPair>
    var envGeomModels: seq<GeomModel>
    var envProxyModels: seq<ProxyModel>
    var chaserEnvProxies: seq<ProxyPair>
    var targetEnvProxies: seq<ProxyPair>

    /** A new scenario holds nothing. */
    constructor()
      ensures chaserProxy.None? && targetProxy.None? && chaserTargetProxy.None?
      ensures envGeomModels == [] && envProxyModels == []
      ensures chaserEnvProxies == [] && targetEnvProxies == []
    {
      chaserProxy, targetProxy, chaserTargetProxy := None, None, None;
      envGeomModels, envProxyModels := [], [];
      chaserEnvProxies, targetEnvProxies := [], [];
    }

    /** The chaser pair list has exactly one pair per environment proxy model, in order. */
    predicate ChaserSynced()
      reads this
    {
      chaserProxy.Some? && chaserEnvProxies == PairsFrom(ChaserEnvPrefix, chaserProxy.value, envProxyModels, 0)
    }

    /** The target pair list has exactly one pair per environment proxy model, in order. */
    predicate TargetSynced()
      reads this
    {
      targetProxy.Some? && targetEnvProxies == PairsFrom(TargetEnvPrefix, targetProxy.value, envProxyModels, 0)
    }

    /**
     * `create_chaser_target_proxy`: with both proxies present the pair is (re)built;
     * with either missing, any existing pair is dropped.
     */
    method CreateChaserTargetProxy()
      modifies this
      ensures chaserProxy.Some? && targetProxy.Some? ==>
        chaserTargetProxy == Some(ProxyPair(ChaserTargetName, chaserProxy.value, targetProxy.value))
      ensures chaserProxy.None? || targetProxy.None? ==> chaserTargetProxy.None?
      ensures chaserProxy == old(chaserProxy) && targetProxy == old(targetProxy)
      ensures envGeomModels == old(envGeomModels) && envProxyModels == old(envProxyModels)
      ensures chaserEnvProxies == old(chaserEnvProxies) && targetEnvProxies == old(targetEnvProxies)
    {
      if chaserProxy.Some? && targetProxy.Some? {
        chaserTargetProxy := Some(ProxyPair(ChaserTargetName, chaserProxy.value, targetProxy.value));
      } else if chaserTargetProxy.Some? {
        chaserTargetProxy := None;
      }
    }

    /** `create_chaser_env_proxies`: pairs the chaser with each environment model not yet paired. */
    method CreateChaserEnvProxies()
      modifies this
      ensures chaserProxy.None? ==> chaserEnvProxies == old(chaserEnvProxies)
      ensures chaserProxy.Some? ==> (chaserEnvProxies
        == old(chaserEnvProxies) + PairsFrom(ChaserEnvPrefix, chaserProxy.value, envProxyModels, |old(chaserEnvProxies)|))
      ensures chaserProxy == old(chaserProxy) && targetProxy == old(targetProxy)
      ensures chaserTargetProxy == old(chaserTargetProxy)
      ensures envGeomModels == old(envGeomModels) && envProxyModels == old(envProxyModels)
      ensures targetEnvProxies == old(targetEnvProxies)
    {
      if chaserProxy.Some? {
        chaserEnvProxies := ExtendPairs(chaserEnvProxies, ChaserEnvPrefix, chaserProxy.value, envProxyModels);
      }
    }

    /** `create_target_env_proxies`: pairs the target with each environment model not yet paired. */
    method CreateTargetEnvProxies()
      modifies this
      ensures targetProxy.None? ==> targetEnvProxies == old(targetEnvProxies)
      ensures targetProxy.Some? ==> (targetEnvProxies
        == old(targetEnvProxies) + PairsFrom(TargetEnvPrefix, targetProxy.value, envProxyModels, |old(targetEnvProxies)|))
      ensures chaserProxy == old(chaserProxy) && targetProxy == old(targetProxy)
      ensures chaserTargetProxy == old(chaserTargetProxy)
      ensures envGeomModels == old(envGeomModels) && envProxyModels == old(envProxyModels)
      ensures chaserEnvProxies == old(chaserEnvProxies)
    {
      if targetProxy.Some? {
        targetEnvProxies := ExtendPairs(targetEnvProxies, TargetEnvPrefix, targetProxy.value, envProxyModels);
      }
    }

    /** `clear_environment`: drops the environment geometry and both pair lists, but keeps the proxy models. */
    method ClearEnvironment()
      modifies this
      ensures envGeomModels == [] && chaserEnvProxies == [] && targetEnvProxies == []
      ensures envProxyModels == old(envProxyModels)
      ensures chaserProxy == old(chaserProxy) && targetProxy == old(targetProxy)
      ensures chaserTargetProxy == old(chaserTargetProxy)
    {
      envGeomModels := [];
      chaserEnvProxies := [];
      targetEnvProxies := [];
    }

    /**
     * `load_environment` after the archive is read: the geometry and the proxy that
     * were read (absent when null) are appended, then both pair lists are extended.
     */
    method LoadEnvironment(geom: Option<GeomModel>, proxy: Option<ProxyModel>)
      modifies this
      ensures envGeomModels == old(envGeomModels) + (if geom.Some? then [geom.value] else [])
      ensures envProxyModels == old(envProxyModels) + (if proxy.Some? then [proxy.value] else [])
      ensures chaserProxy.Some? ==> (chaserEnvProxies
        == old(chaserEnvProxies) + PairsFrom(ChaserEnvPrefix, chaserProxy.value, envProxyModels, |old(chaserEnvProxies)|))
      ensures chaserProxy.None? ==> chaserEnvProxies == old(chaserEnvProxies)
      ensures targetProxy.Some? ==> (targetEnvProxies
        == old(targetEnvProxies) + PairsFrom(TargetEnvPrefix, targetProxy.value, envProxyModels, |old(targetEnvProxies)|))
      ensures targetProxy.None? ==> targetEnvProxies == old(targetEnvProxies)
      ensures chaserProxy == old(chaserProxy) && targetProxy == old(targetProxy)
      ensures chaserTargetProxy == old(chaserTargetProxy)
      ensures old(ChaserSynced()) ==> ChaserSynced()
      ensures old(TargetSynced()) ==> TargetSynced()
    {
      if geom.Some? {
        envGeomModels := envGeomModels + [geom.value];
      }
      if proxy.Some? {
        envProxyModels := envProxyModels + [proxy.value];
      }
      CreateChaserEnvProxies();
      CreateTargetEnvProxies();
      if old(ChaserSynced()) {
        SyncedListExtends(ChaserEnvPrefix, chaserProxy.value, old(envProxyModels), envProxyModels);
      }
      if old(TargetSynced()) {
        SyncedListExtends(TargetEnvPrefix, targetProxy.value, old(envProxyModels), envProxyModels);
      }
    }

    /**
     * `load_chaser` after the archive is read: `proxy` is the chaser proxy read
     * (absent when null). The chaser/target pair is rebuilt and the chaser pair list
     * is cleared and rebuilt.
     */
    method LoadChaser(proxy: Option<ProxyModel>)
      modifies this
      ensures chaserProxy == proxy && targetProxy == old(targetProxy)
      ensures proxy.Some? && targetProxy.Some? ==>
        chaserTargetProxy == Some(ProxyPair(ChaserTargetName, proxy.value, targetProxy.value))
      ensures proxy.None? || targetProxy.None? ==> chaserTargetProxy.None?
      ensures proxy.Some? ==> ChaserSynced()
      ensures proxy.None? ==> chaserEnvProxies == []
      ensures envGeomModels == old(envGeomModels) && envProxyModels == old(envProxyModels)
      ensures targetEnvProxies == old(targetEnvProxies)
    {
      chaserProxy := proxy;
      CreateChaserTargetProxy();
      chaserEnvProxies := [];
      CreateChaserEnvProxies();
    }

    /**
     * `load_target` after the archive is read: `proxy` is the target proxy read
     * (absent when null). The chaser/target pair is rebuilt and the target pair list
     * is cleared and rebuilt.
     */
    method LoadTarget(proxy: Option<ProxyModel>)
      modifies this
      ensures targetProxy == proxy && chaserProxy == old(chaserProxy)
      ensures chaserProxy.Some? && proxy.Some? ==>
        chaserTargetProxy == Some(ProxyPair(ChaserTargetName, chaserProxy.value, proxy.value))
      ensures chaserProxy.None? || proxy.None? ==> chaserTargetProxy.None?
      ensures proxy.Some? ==> TargetSynced()
      ensures proxy.None? ==> targetEnvProxies == []
      ensures envGeomModels == old(envGeomModels) && envProxyModels == old(envProxyModels)
      ensures chaserEnvProxies == old(chaserEnvProxies)
    {
      targetProxy := proxy;
      CreateChaserTargetProxy();
      targetEnvProxies := [];
      CreateTargetEnvProxies();
    }
  }

  /** A list with one pair per model, extended after models are appended, again has one pair per model. */
  lemma SyncedListExtends(prefix: string, proxy: ProxyModel, envs: seq<ProxyModel>, envs': seq<ProxyModel>)
    requires |envs| <= |envs'| && envs'[..|envs|] == envs
    ensures PairsFrom(prefix, proxy, envs, 0) + PairsFrom(prefix, proxy, envs', |envs|)
         == PairsFrom(prefix, proxy, envs', 0)
  {
    var a, b := PairsFrom(prefix, proxy, envs, 0), PairsFrom(prefix, proxy, envs', |envs|);
    var c := PairsFrom(prefix, proxy, envs', 0);
    assert |a + b| == |c|;
    forall k | 0 <= k < |c|
      ensures (a + b)[k] == c[k]
    {
      if k < |envs| {
        assert envs'[k] == envs[k];
      } else {
        assert (a + b)[k] == b[k - |envs|];
      }
    }
  }
}
