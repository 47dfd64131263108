/** The ConfigMap reconciler (watcher/handlerConfigmap.go): every key/value pair
    of a ConfigMap's data becomes a proxy configuration record. */
module ConfigMapHandler {
  import opened Wrappers
  import opened Proxy
  import opened Context

  /** What an informer hands the handler: a ConfigMap with its data, or some
      other object. */
  datatype Payload = ConfigMapObj(name: string, data: map<string, string>) | NotConfigMap

  class CMHandler {
    const resourceName: string
    const ep: Endpoint

    constructor (resourceName: string, ep: Endpoint)
      ensures this.resourceName == resourceName && this.ep == ep
    {
      this.resourceName := resourceName;
      this.ep := ep;
    }

    /** update: one ConfigSet per data pair, in map order; afterwards each data
        key reads back its value, other records are untouched, and a payload that
        is not a ConfigMap sets nothing. */
    method UpdateObj(newObj: Payload)
      modifies ep.atsManager
      ensures ep.atsManager.reloads == old(ep.atsManager.reloads)
      ensures newObj.NotConfigMap? ==> ep.atsManager.config == old(ep.atsManager.config)
      ensures newObj.ConfigMapObj? ==> ep.atsManager.config == old(ep.atsManager.config) + newObj.data
      ensures newObj.ConfigMapObj? ==> forall k :: k in newObj.data ==> ep.atsManager.ConfigGet(k) == Ok(newObj.data[k])
      ensures newObj.ConfigMapObj? ==> forall k :: k !in newObj.data ==> ep.atsManager.ConfigGet(k) == old(ep.atsManager.ConfigGet(k))
    {
      if newObj.NotConfigMap? {
        return;
      }
      var data := newObj.data;
      var rest := data.Keys;
      while rest != {}
        invariant rest <= data.Keys
        invariant ep.atsManager.config == old(ep.atsManager.config) + map k | k in data && k !in rest :: data[k]
        invariant ep.atsManager.reloads == old(ep.atsManager.reloads)
        decreases |rest|
      {
        var currKey :| currKey in rest;
        // a ConfigSet error is only logged; the fake manager never fails
        var _ := ep.atsManager.ConfigSet(currKey, data[currKey]);
        rest := rest - {currKey};
      }
      assert (map k | k in data && k !in rest :: data[k]) == data;
    }

    /** Add is update on the added object. */
    method Add(obj: Payload)
      modifies ep.atsManager
      ensures ep.atsManager.reloads == old(ep.atsManager.reloads)
      ensures obj.NotConfigMap? ==> ep.atsManager.config == old(ep.atsManager.config)
      ensures obj.ConfigMapObj? ==> ep.atsManager.config == old(ep.atsManager.config) + obj.data
    {
      UpdateObj(obj);
    }

    /** Update uses only the new object. */
    method Update(oldObj: Payload, newObj: Payload)
      modifies ep.atsManager
      ensures ep.atsManager.reloads == old(ep.atsManager.reloads)
      ensures newObj.NotConfigMap? ==> ep.atsManager.config == old(ep.atsManager.config)
      ensures newObj.ConfigMapObj? ==> ep.atsManager.config == old(ep.atsManager.config) + newObj.data
    {
      UpdateObj(newObj);
    }

    /** Delete events are not handled: nothing changes. */
    method Delete(obj: Payload)
      ensures ep.atsManager.config == old(ep.atsManager.config)
      ensures ep.atsManager.reloads == old(ep.atsManager.reloads)
    {
    }
  }
}
