/** The proxy manager (proxy/fakeATS.go, and the ingress-class rule shared with
    proxy/ats.go). Configuration records live in a map; the reloads that the
    cache and SNI handlers request are counted. */
module Proxy {
  import opened Wrappers

  class FakeATSManager {
    const namespace: string
    const ingressClass: string
    var config: map<string, string>
    /** How many times a configuration reload has been requested. */
    var reloads: nat

    constructor (namespace: string, ingressClass: string, config: map<string, string>)
      ensures this.namespace == namespace && this.ingressClass == ingressClass
      ensures this.config == config && reloads == 0
    {
      this.namespace := namespace;
      this.ingressClass := ingressClass;
      this.config := config;
      reloads := 0;
    }

    /** IncludeIngressClass: an empty configured class accepts every class; a
        configured class accepts exactly itself. */
    function IncludeIngressClass(c: string): (r: bool)
      ensures ingressClass == "" ==> r
      ensures ingressClass != "" ==> (r <==> c == ingressClass)
    {
      ingressClass == "" || ingressClass == c
    }

    /** ConfigSet: stores `v` under `k`, overwriting any earlier value, and never fails. */
    method ConfigSet(k: string, v: string) returns (r: Result<string>)
      modifies this
      ensures r.Ok?
      ensures config == old(config)[k := v] && reloads == old(reloads)
      ensures ConfigGet(k) == Ok(v)
      ensures forall x :: x != k ==> ConfigGet(x) == old(ConfigGet(x))
    {
      config := config[k := v];
      r := Ok("Ran p.Key: " + k + " p.Val: " + v);
    }

    /** ConfigGet: the stored value, or an error for an unknown key. */
    function ConfigGet(k: string): (r: Result<string>)
      reads this
      ensures r.Ok? <==> k in config
      ensures r.Ok? ==> r.value == config[k]
    {
      if k in config then Ok(config[k]) else Err("key does not exist")
    }

    /** A reload request (CacheSet, and the SNI handler's SniSet): counted, and
        nothing else changes. */
    method Reload()
      modifies this
      ensures reloads == old(reloads) + 1 && config == old(config)
    {
      reloads := reloads + 1;
    }
  }
}
