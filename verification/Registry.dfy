/** The service registry (internal/gateway/registry.go): a map of maps of shared instances,
    specified as one flat lookup by (route, id). */
module Registry {
  import opened Wrappers

  class ServiceInstance {
    const id: string
    const url: string
    const route: string
    var health: string
    var lastSeen: int

    constructor (id: string, url: string, route: string, health: string)
      ensures this.id == id && this.url == url && this.route == route && this.health == health
    {
      this.id, this.url, this.route, this.health, this.lastSeen := id, url, route, health, 0;
    }
  }

  type Table = map<string, ServiceInstance>

  function Lookup(services: map<string, Table>, route: string, id: string): Option<ServiceInstance> {
    if route in services && id in services[route] then Some(services[route][id]) else None
  }

  /** No route keeps an empty table. */
  ghost predicate Inhabited(services: map<string, Table>) {
    forall r :: r in services ==> exists id :: id in services[r]
  }

  /** Besides, every instance sits under its own route and id. */
  ghost predicate Sound(services: map<string, Table>) {
    && Inhabited(services)
    && (forall r, id :: Lookup(services, r, id).Some? ==>
       Lookup(services, r, id).value.route == r && Lookup(services, r, id).value.id == id)
  }

  lemma SoundAfterInsert(services: map<string, Table>, x: ServiceInstance)
    requires Sound(services)
    ensures var t: Table := if x.route in services then services[x.route] else map[];
      Sound(services[x.route := t[x.id := x]])
  {
    var t: Table := if x.route in services then services[x.route] else map[];
    var s' := services[x.route := t[x.id := x]];
    assert x.id in s'[x.route];
    forall r, id | Lookup(s', r, id).Some?
      ensures Lookup(s', r, id).value.route == r && Lookup(s', r, id).value.id == id {
      if !(r == x.route && id == x.id) { assert Lookup(s', r, id) == Lookup(services, r, id); }
    }
  }

  /** The tables once an instance of this route is gone. */
  function Removed(services: map<string, Table>, route: string, id: string): map<string, Table>
    requires route in services
  {
    var t := services[route] - {id};
    if |t| == 0 then services - {route} else services[route := t]
  }

  /** Removing an instance removes its flat entry and no other. */
  lemma LookupAfterRemove(services: map<string, Table>, route: string, id: string)
    requires route in services
    ensures forall r, k ::
      Lookup(Removed(services, route, id), r, k) == if r == route && k == id then None else Lookup(services, r, k)
  {
    var t := services[route] - {id};
    if |t| == 0 { assert forall k :: k in services[route] ==> k == id || k in t; }
  }

  lemma InhabitedAfterRemove(services: map<string, Table>, route: string, id: string)
    requires Inhabited(services) && route in services
    ensures exists k :: Lookup(services, route, k).Some?
    ensures Inhabited(Removed(services, route, id))
  {
    var s' := Removed(services, route, id);
    SomeKey(services[route] - {id});
    var some :| some in services[route];
    assert Lookup(services, route, some).Some?;
    forall r | r in s' ensures exists id :: id in s'[r] {
      if r != route { assert s'[r] == services[r]; }
    }
  }

  lemma SoundAfterRemove(services: map<string, Table>, route: string, id: string)
    requires Sound(services) && route in services
    ensures exists k :: Lookup(services, route, k).Some?
    ensures Sound(Removed(services, route, id))
    ensures forall r, k ::
      Lookup(Removed(services, route, id), r, k) == if r == route && k == id then None else Lookup(services, r, k)
  {
    hide Lookup, Inhabited, Removed;
    InhabitedAfterRemove(services, route, id);
    LookupAfterRemove(services, route, id);
  }

  lemma SomeKey(t: Table)
    ensures |t| == 0 || exists id :: id in t
  {
    if forall id :: id !in t { assert t == map[]; }
  }

  datatype Answer = Ok | NoSuchRoute | NoSuchService

  class ServiceRegistry {
    var services: map<string, Table>

    ghost predicate Valid()
      reads this
    {
      Sound(services)
    }

    ghost function Instances(): set<ServiceInstance>
      reads this
    {
      set r, id | r in services && id in services[r] :: services[r][id]
    }

    constructor ()
      ensures Valid() && forall r, id :: Lookup(services, r, id) == None
    {
      services := map[];
    }

    method RegisterService(instance: ServiceInstance, now: int)
      requires Valid()
      modifies this, instance`lastSeen
      ensures Valid() && instance.lastSeen == now
      ensures forall r, id :: Lookup(services, r, id) ==
                              if r == instance.route && id == instance.id
                              then Some(instance)
                              else Lookup(old(services), r, id)
    {
      hide Sound;
      SoundAfterInsert(services, instance);
      ghost var t: Table := if instance.route in services then services[instance.route] else map[];
      ghost var after := services[instance.route := t[instance.id := instance]];
      if instance.route !in services {
        services := services[instance.route := map[]];
      }
      instance.lastSeen := now;
      services := services[instance.route := services[instance.route][instance.id := instance]];
      assert services == after;
    }

    method DeregisterService(route: string, serviceID: string) returns (answer: Answer)
      requires Valid()
      modifies this
      ensures Valid()
      ensures forall r, id ::
        Lookup(services, r, id) == if r == route && id == serviceID then None else Lookup(old(services), r, id)
      ensures answer.Ok? <==> Lookup(old(services), route, serviceID).Some?
      ensures answer.NoSuchRoute? <==> forall id :: Lookup(old(services), route, id).None?
    {
      hide Sound;
      if route !in services {
        return NoSuchRoute;
      }
      SoundAfterRemove(services, route, serviceID);
      ghost var some :| Lookup(services, route, some).Some?;
      if serviceID !in services[route] {
        return NoSuchService;
      }
      var rest := services[route] - {serviceID};
      if |rest| == 0 {
        services := services - {route};
      } else {
        services := services[route := rest];
      }
      return Ok;
    }

    /** The instances of a route, in the unspecified order of a Go map; None for nil. */
    method GetServices(route: string) returns (instances: Option<seq<ServiceInstance>>)
      requires Valid()
      ensures instances.None? <==> forall id :: Lookup(services, route, id).None?
      ensures instances.Some? ==>
        && (forall i, j :: 0 <= i < j < |instances.value| ==> instances.value[i] != instances.value[j])
        && (forall x :: x in instances.value <==> exists id :: Lookup(services, route, id) == Some(x))
    {
      if route !in services {
        return None;
      }
      var table := services[route];
      assert exists id :: id in table;
      assert forall id :: Lookup(services, route, id) == if id in table then Some(table[id]) else None;
      var left := table.Keys;
      var found := [];
      while left != {}
        invariant left <= table.Keys
        invariant forall x :: x in found <==> exists id :: id in table && id !in left && table[id] == x
        invariant forall i, j :: 0 <= i < j < |found| ==> found[i] != found[j]
        decreases |left|
      {
        var id :| id in left;
        assert table[id] !in found;
        found := found + [table[id]];
        left := left - {id};
      }
      return Some(found);
    }

    /** Exactly the inhabited routes, each once. */
    method GetAllRoutes() returns (routes: seq<string>)
      requires Valid()
      ensures forall i, j :: 0 <= i < j < |routes| ==> routes[i] != routes[j]
      ensures forall r :: r in routes <==> exists id :: Lookup(services, r, id).Some?
    {
      var left := services.Keys;
      routes := [];
      while left != {}
        invariant left <= services.Keys
        invariant forall r :: r in routes <==> r in services && r !in left
        invariant forall i, j :: 0 <= i < j < |routes| ==> routes[i] != routes[j]
        decreases |left|
      {
        var r :| r in left;
        routes := routes + [r];
        left := left - {r};
      }
      forall r | r in services ensures exists id :: Lookup(services, r, id).Some? {
        var id :| id in services[r];
        assert Lookup(services, r, id).Some?;
      }
    }

    method UpdateServiceHealth(route: string, serviceID: string, health: string, now: int) returns (answer: Answer)
      requires Valid()
      modifies Instances()
      ensures Valid() && services == old(services)
      ensures answer == if Lookup(services, route, serviceID).Some? then Ok else NoSuchService
      ensures forall r, id :: Lookup(services, r, id).Some? ==>
        && Lookup(services, r, id).value.health ==
           (if r == route && id == serviceID then health else old(Lookup(services, r, id).value.health))
        && Lookup(services, r, id).value.lastSeen ==
           (if r == route && id == serviceID then now else old(Lookup(services, r, id).value.lastSeen))
    {
      if route in services && serviceID in services[route] {
        var instance := services[route][serviceID];
        assert instance in Instances();
        assert Lookup(services, route, serviceID) == Some(instance);
        instance.health := health;
        instance.lastSeen := now;
        return Ok;
      }
      return NoSuchService;
    }
  }
}
