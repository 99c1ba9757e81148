/**
 The factory object, block by block: each method is one critical section of `_get_or_create`, or one
 clear, and `GetOrCreate` is their composition for a thread that runs alone.
 */
module ServiceFactories {
  import opened Common
  import opened FactorySpec

  /** A tenant's dictionary of services. */
  class ServiceCache {
    const owner: Tenant
    var services: map<Service, Instance>

    constructor (owner: Tenant)
      ensures this.owner == owner && services == map[]
    {
      this.owner := owner;
      services := map[];
    }

    function Snapshot(): TenantCache
      reads this
    {
      TenantCache(owner, services)
    }
  }

  class ServiceFactory {
    var instances: map<Tenant, ServiceCache>
    /** The number of creator runs so far. */
    var made: nat

    /** A tenant's dictionary belongs to that tenant, and holds only objects made for it. */
    ghost predicate Valid()
      reads this, instances.Values
    {
      forall t :: t in instances ==> instances[t].owner == t && CacheFits(instances[t].Snapshot())
    }

    constructor ()
      ensures Valid() && instances == map[] && made == 0
    {
      instances, made := map[], 0;
    }

    /** `_get_tenant_cache`. */
    method GetTenantCache(t: Tenant) returns (cache: ServiceCache)
      requires Valid()
      modifies this`instances
      ensures Valid()
      ensures t in instances && instances[t] == cache && cache.owner == t
      ensures instances == old(instances)[t := cache]
      ensures t in old(instances) ==> cache == old(instances[t])
      ensures t !in old(instances) ==> fresh(cache) && cache.services == map[]
    {
      if t !in instances {
        var c := new ServiceCache(t);
        instances := instances[t := c];
      }
      cache := instances[t];
    }

    /** The check and creation under the lock, on a dictionary that may since have been forgotten. */
    method FillCache(cache: ServiceCache, service: Service, creatorRaises: bool) returns (raised: bool)
      requires Valid() && CacheFits(cache.Snapshot())
      modifies this`made, cache
      ensures Valid() && CacheFits(cache.Snapshot())
      ensures raised == (service !in old(cache.services) && creatorRaises)
      ensures made == old(made) + if service in old(cache.services) then 0 else 1
      ensures cache.services ==
        if service in old(cache.services) || creatorRaises then old(cache.services)
        else old(cache.services)[service := Instance(cache.owner, service, old(made))]
    {
      raised := false;
      if service !in cache.services {
        var serial := made;
        made := made + 1;
        if creatorRaises {
          return true;
        }
        cache.services := cache.services[service := Instance(cache.owner, service, serial)];
      }
    }

    /**
     `_get_or_create` undisturbed: an object that is there is returned and nothing changes; otherwise
     the creator runs once, and what it returns is stored and returned.
     */
    method GetOrCreate(t: Tenant, service: Service, creatorRaises: bool) returns (result: Option<Instance>)
      requires Valid()
      modifies this, instances.Values
      ensures Valid() && t in instances
      ensures var there := t in old(instances) && service in old(instances[t].services);
        && made == old(made) + (if there then 0 else 1)
        && (there ==> result == Some(old(instances[t].services[service])) && instances == old(instances))
        && (!there ==> result == if creatorRaises then None else Some(Instance(t, service, old(made))))
      ensures result.Some? ==> service in instances[t].services && instances[t].services[service] == result.value
    {
      var cache := GetTenantCache(t);
      var raised := FillCache(cache, service, creatorRaises);
      if raised {
        return None;
      }
      return Some(cache.services[service]);
    }

    method ClearTenantCache(t: Tenant)
      requires Valid()
      modifies this`instances
      ensures Valid() && instances == old(instances) - {t}
    {
      if t in instances {
        instances := instances - {t};
      }
    }

    method ClearAllCaches()
      modifies this`instances
      ensures Valid() && instances == map[]
    {
      instances := map[];
    }
  }
}
