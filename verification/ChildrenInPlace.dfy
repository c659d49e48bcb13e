/**
 * The methods of src/app/bouncer_children.rs on the maps they update, each leaving the state that module
 * BouncerChildren gives.
 */
module ChildrenInPlace {
  import opened Wrappers
  import opened BouncerChildren
  import opened ChildrenRuns
  import opened ChildrenByHand

  class BouncerApp {
    const scope: Scope
    /** The accounts the bouncers have had. */
    ghost const known: Accounts
    var children: map<string, Child>
    var connections: map<string, Connection>
    var registries: map<string, seq<Network>>
    var running: set<string>
    var servers: set<string>

    constructor (scope: Scope, ghost known: Accounts, servers: set<string>)
      ensures this.scope == scope && this.known == known && State() == App(map[], map[], map[], {}, servers)
    {
      this.scope, this.known, this.servers := scope, known, servers;
      children, connections, registries, running := map[], map[], map[], {};
    }

    ghost function State(): App
      reads this
    {
      App(children, connections, registries, running, servers)
    }

    /** One child per network, named after it; each registry lists a network once. */
    ghost predicate Valid()
      reads this
    {
      Fit(scope, known, State())
    }

    /** `stop_bouncer_child`. */
    method StopChild(id: string)
      modifies this`connections, this`running
      ensures State() == Stopped(old(State()), id)
    {
      var wasActive := id in running ||
                       (id in connections
                         && (connections[id].status == Connected || connections[id].status == Connecting));
      running := running - {id};
      if id in connections {
        connections := connections[id := connections[id].(shouldReconnect := false)];
        if wasActive {
          connections := connections[id := connections[id].(status := Disconnected)];
        }
      }
    }

    /** `suspend_bouncer_children`. */
    method SuspendChildren(parent: string)
      modifies this`children, this`connections, this`running
      ensures State() == Suspended(old(State()), parent)
    {
      ghost var s := State();
      var ids: set<string> := {};
      var rest := children.Keys;
      while rest != {}
        invariant rest <= children.Keys == s.children.Keys && State() == s.(children := children)
        invariant ids == Unsuspended(s, parent) - rest
        invariant forall id | id in children ::
                    children[id] == if id in ids then s.children[id].(suspended := true) else s.children[id]
        decreases rest
      {
        var id :| id in rest;
        rest := rest - {id};
        if children[id].parent == parent && !children[id].suspended {
          children := children[id := children[id].(suspended := true)];
          ids := ids + {id};
        }
      }
      assert children == Suspended(s, parent).children;
      assert ids == Unsuspended(s, parent);
      ghost var flagged := State();
      StopAll(ids);
      StoppedAlike(s, flagged, parent, connections);
    }

    method StopAll(ids: set<string>)
      modifies this`connections, this`running
      ensures running == old(running) - ids && connections.Keys == old(connections).Keys
      ensures forall id | id in connections ::
                connections[id] ==
                if id in ids then StoppedConnection(old(connections[id]), Active(old(State()), id))
                  else old(connections[id])
    {
      ghost var s := State();
      var left := ids;
      hide StoppedConnection;
      while left != {}
        invariant left <= ids && running == s.running - (ids - left) && connections.Keys == s.connections.Keys
        invariant children == s.children && registries == s.registries && servers == s.servers
        invariant forall id | id in connections ::
                    connections[id] ==
                    if id in ids - left then StoppedConnection(s.connections[id], Active(s, id)) else s.connections[id]
        decreases left
      {
        var id :| id in left;
        assert Active(State(), id) <==> Active(s, id);
        StopChild(id);
        left := left - {id};
      }
    }

    /** `remove_bouncer_child`. */
    method RemoveChild(id: string)
      modifies this`children, this`connections, this`running
      ensures State() == Without(old(State()), {id})
    {
      children := children - {id};
      StopChild(id);
      connections := connections - {id};
    }

    /** The search both methods make; a valid state has at most one such child. */
    method Search(parent: string, network: string) returns (found: Option<string>)
      requires Unique(State())
      ensures found == FindChild(State(), parent, network)
    {
      var rest := children.Keys;
      while rest != {}
        invariant rest <= children.Keys
        invariant forall id | id in children.Keys - rest :: !IsChildOf(children[id], parent, network)
        decreases rest
      {
        var id :| id in rest;
        if IsChildOf(children[id], parent, network) {
          FoundIt(State(), id, parent, network);
          return Some(id);
        }
        rest := rest - {id};
      }
      return None;
    }

    /** The end of `reconcile_bouncer_child`: a new child. */
    method CreateChild(parent: string, config: Config, network: Network, sc: string)
      modifies this`children, this`connections, this`running
      ensures State() == Created(old(State()), parent, config, network, sc)
    {
      hide FirstFree;
      var id := FreshId("_bouncer:" + sc, connections.Keys + servers);
      children := children[id := Child(parent, network, sc, false, false)];
      connections := connections[id := NewConnection(config)];
      running := running + {id};
    }

    /** `reconcile_bouncer_child`. */
    method ReconcileChild(parent: string, parentConfig: Config, network: Network)
      requires Unique(State())
      modifies this`children, this`connections, this`running
      ensures State() == ReconcileOne(scope, old(State()), parent, parentConfig, network)
    {
      hide FindChild, Created, Network.Name;
      var config := ChildConfig(parent, parentConfig, network);
      var sc := scope(parent, parentConfig.account, network.id);
      var existing := Search(parent, network.id);
      if existing.Some? {
        var id := existing.value;
        if id !in connections && children[id].manual {
          children := children[id := children[id].(network := network)];
          return;
        }
        if children[id].scope == sc && id in connections {
          UpdateChild(id, config, network);
          return;
        }
        RemoveChild(id);
      }
      CreateChild(parent, config, network, sc);
    }

    method UpdateChild(id: string, config: Config, network: Network)
      requires id in children && id in connections
      modifies this`children, this`connections, this`running
      ensures State() == Updated(old(State()), id, config, network)
    {
      var child, c := children[id], connections[id];
      if c.title != config.title {
        c := c.(title := config.title, config := c.config.(title := config.title));
      }
      var restart := child.suspended && !child.manual;
      children := children[id := child.(network := network, suspended := false)];
      if restart {
        c := c.(config := config, shouldReconnect := config.autoReconnect.UnwrapOr(true), status := Connecting);
        running := running + {id};
      }
      connections := connections[id := c];
    }

    /** `reconcile_bouncer_children`. */
    method ReconcileChildren(parent: string, event: RegistryEvent)
      requires Valid() && Governed(known, State(), parent)
      modifies this`children, this`connections, this`running
      ensures State() == Reconciled(scope, old(State()), parent, event) && Valid()
    {
      hide Separates, Sound, Obsolete, Lists, Orderly, Canonical, ReconcileNetworks;
      if parent !in connections || connections[parent].status != Connected || !connections[parent].config.control
         || parent !in registries
      {
        return;
      }
      var parentConfig, networks := connections[parent].config, registries[parent];
      var removed := FindObsolete(parent, event, networks);
      RemoveAll(removed);
      OrderlyIds(networks);
      assert State() == Without(old(State()), removed) && removed <= old(children).Keys by {
        ObsoleteAreChildren(old(State()), parent, event, networks);
      }
      WithoutIs(scope, known, old(State()), removed);
      ReconcileAll(parent, parentConfig, networks);
    }

    method ReconcileAll(parent: string, parentConfig: Config, networks: seq<Network>)
      requires Separates(scope, known) && Sound(scope, known, State())
      requires (parent, parentConfig.account) in known && forall n | n in networks :: Canonical(n.id)
      modifies this`children, this`connections, this`running
      ensures State() == ReconcileNetworks(scope, old(State()), parent, parentConfig, networks)
      ensures Sound(scope, known, State()) && SameSurroundings(old(State()), State())
    {
      hide Separates, Sound, Canonical, ReconcileOne;
      for i := 0 to |networks|
        invariant Sound(scope, known, State()) && SameSurroundings(old(State()), State())
        invariant ReconcileNetworks(scope, State(), parent, parentConfig, networks[i..]) ==
                  ReconcileNetworks(scope, old(State()), parent, parentConfig, networks)
      {
        assert networks[i..][0] == networks[i] && networks[i..][1..] == networks[i + 1..];
        UniqueFromSound(scope, known, State());
        ReconcileOneIs(scope, known, State(), parent, parentConfig, networks[i]);
        ReconcileChild(parent, parentConfig, networks[i]);
      }
    }

    method FindObsolete(parent: string, event: RegistryEvent, networks: seq<Network>) returns (removed: set<string>)
      ensures removed == Obsolete(State(), parent, event, networks)
    {
      hide Lists;
      removed := set id | id in children && children[id].parent == parent && Covers(event, children[id].network.id)
                          && !Lists(networks, children[id].network.id);
    }

    method RemoveAll(ids: set<string>)
      modifies this`children, this`connections, this`running
      ensures State() == Without(old(State()), ids)
    {
      var left := ids;
      while left != {}
        invariant left <= ids && State() == Without(old(State()), ids - left)
        decreases left
      {
        var id :| id in left;
        RemoveChild(id);
        WithoutTwice(old(State()), ids - left, {id});
        left := left - {id};
      }
    }

    /** `reconnect_bouncer_child`. */
    method ReconnectChild(parent: string, network: string) returns (started: bool)
      requires Valid() && Governed(known, State(), parent)
      modifies this`children, this`connections, this`running
      ensures (State(), started) == Reconnected(scope, old(State()), parent, network) && Valid()
    {
      hide Separates, Reconciled, FindChild, Orderly, NamedBy;
      if parent !in connections || connections[parent].status != Connected {
        return false;
      }
      var found := Search(parent, network);
      if found.None? || found.value in running {
        return false;
      }
      var id := found.value;
      ghost var s := State();
      children := children[id := children[id].(manual := false, suspended := true)];
      StillNamed(scope, known, id, s.children[id], children[id]);
      ReconcileChildren(parent, Changed(network));
      return true;
    }
  }

  /** Stopping does not look at the flags of the children. */
  lemma StoppedAlike(s: App, flagged: App, parent: string, connections: map<string, Connection>)
    requires flagged == s.(children := flagged.children) && connections.Keys == s.connections.Keys
    requires forall id | id in connections ::
               connections[id] ==
               if id in Unsuspended(s, parent) then StoppedConnection(s.connections[id], Active(flagged, id))
               else s.connections[id]
    ensures connections == Suspended(s, parent).connections
  {
    forall id | id in connections
      ensures connections[id] == Suspended(s, parent).connections[id]
    {
      assert Active(flagged, id) <==> Active(s, id);
    }
  }

  lemma OrderlyIds(networks: seq<Network>)
    ensures Orderly(networks) ==> forall n | n in networks :: Canonical(n.id)
  {
  }

  lemma ObsoleteAreChildren(s: App, parent: string, event: RegistryEvent, networks: seq<Network>)
    ensures Obsolete(s, parent, event, networks) <= s.children.Keys
  {
  }

  lemma UniqueFromSound(scope: Scope, known: Accounts, s: App)
    requires Sound(scope, known, s)
    ensures Unique(s)
  {
  }

  lemma WithoutTwice(s: App, a: set<string>, b: set<string>)
    ensures Without(Without(s, a), b) == Without(s, a + b)
  {
    var r, t := Without(Without(s, a), b), Without(s, a + b);
    assert r.children == t.children && r.connections == t.connections && r.running == t.running;
  }
}
