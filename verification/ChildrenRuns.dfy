/**
 * What reconciling guarantees: after a snapshot the children of a bouncer are in bijection with its registry, a change
 * concerns its own network only, nobody else's connections are touched, and a child that was disconnected by hand stays
 * down until it is asked for again.
 */
module ChildrenRuns {
  import opened Wrappers
  import opened BouncerChildren

  function Base(sc: string): string { "_bouncer:" + sc }

  /** Bouncers, each with account settings it has had. */
  type Accounts = set<(string, string)>

  /** For these accounts, ids made for different bouncers or networks differ, suffixed or not. */
  ghost predicate Separates(scope: Scope, known: Accounts) {
    forall p, a, n, j: nat, q, b, m, k: nat ::
      ((p, a) in known && (q, b) in known && Canonical(n) && Canonical(m) &&
       Candidate(Base(scope(p, a, n)), j) == Candidate(Base(scope(q, b, m)), k)) ==> p == q && n == m
  }

  // ----- what holds throughout -----

  predicate Unique(s: App) {
    forall a, b | a in s.children && b in s.children
                  && IsChildOf(s.children[a], s.children[b].parent, s.children[b].network.id) :: a == b
  }

  ghost predicate NamedBy(scope: Scope, known: Accounts, id: string, child: Child) {
    Canonical(child.network.id) &&
    exists account, k: nat ::
      (child.parent, account) in known &&
      child.scope == scope(child.parent, account, child.network.id) && id == Candidate(Base(child.scope), k)
  }

  ghost predicate Named(scope: Scope, known: Accounts, s: App) {
    forall id | id in s.children :: NamedBy(scope, known, id, s.children[id])
  }

  /** A connection to this network of the bouncer, and to no other. */
  predicate BoundTo(config: Config, network: string) { !config.control && config.networkId == Some(network) }

  predicate ChildrenAreBound(s: App) {
    forall id | id in s.children && id in s.connections :: BoundTo(s.connections[id].config, s.children[id].network.id)
  }

  ghost predicate Sound(scope: Scope, known: Accounts, s: App) {
    Unique(s) && Named(scope, known, s) && ChildrenAreBound(s)
  }

  predicate Untouched(s: App, r: App, id: string) {
    && (id in s.children <==> id in r.children) && (id in s.children ==> s.children[id] == r.children[id])
    && (id in s.connections <==> id in r.connections)
       && (id in s.connections ==> s.connections[id] == r.connections[id])
    && (id in s.running <==> id in r.running)
  }

  /** Not a child of this network, nor a name that a new child could take. */
  predicate Elsewhere(s: App, id: string, parent: string, network: string) {
    (id in s.children && !IsChildOf(s.children[id], parent, network)) || (id !in s.children && id in s.connections)
  }

  /** The name of a network, or else its id, with where it comes from. */
  function TitleOf(parent: string, network: Network): string {
    (if "name" in network.attributes then network.attributes["name"] else network.id)
      + " [" + parent + ":" + network.id + "]"
  }

  /** The child shows this network; its connection has the title of it, and is there unless it was ended by hand. */
  predicate Serves(s: App, id: string, parent: string, network: Network) {
    && id in s.children && s.children[id].parent == parent && s.children[id].network == network
    && (if id in s.connections then s.connections[id].title == TitleOf(parent, network) else s.children[id].manual)
  }

  ghost predicate HasChild(s: App, parent: string, network: Network) { exists id :: Serves(s, id, parent, network) }

  /** Every child after a step was there before, as it is, or belongs to the network. */
  predicate NoStrays(s: App, r: App, parent: string, network: string) {
    forall id | id in r.children ::
      IsChildOf(r.children[id], parent, network) || (id in s.children && s.children[id] == r.children[id])
  }

  predicate SameSurroundings(s: App, r: App) { r.registries == s.registries && r.servers == s.servers }

  // ----- one network -----

  lemma NamesAreSeparate(
    scope: Scope, known: Accounts, id: string, child: Child, p: string, a: string, n: string, k: nat)
    requires Separates(scope, known) && NamedBy(scope, known, id, child) && (p, a) in known && Canonical(n)
    requires id == Candidate(Base(scope(p, a, n)), k)
    ensures IsChildOf(child, p, n)
  {
    hide Candidate, Base;
    var account, j: nat :|
      (child.parent, account) in known && child.scope == scope(child.parent, account, child.network.id)
        && id == Candidate(Base(child.scope), j);
  }

  /** A new child takes a name nobody has. */
  lemma NewName(
    scope: Scope, known: Accounts, s: App, parent: string, account: string, network: string)
    returns (id: string, k: nat)
    requires Separates(scope, known) && Named(scope, known, s) && (parent, account) in known && Canonical(network)
    requires forall c | c in s.children :: !IsChildOf(s.children[c], parent, network)
    ensures id == FirstFree(Base(scope(parent, account, network)), s.connections.Keys + s.servers, 0)
    ensures id == Candidate(Base(scope(parent, account, network)), k)
    ensures id !in s.children && id !in s.connections && id !in s.servers
  {
    hide Candidate, Base, Separates, NamedBy;
    var base, taken := Base(scope(parent, account, network)), s.connections.Keys + s.servers;
    id := FirstFree(base, taken, 0);
    k := FirstFreeIs(base, taken, 0);
    if id in s.children {
      NamesAreSeparate(scope, known, id, s.children[id], parent, account, network, k);
    }
  }

  function Added(s: App, id: string, child: Child, connection: Connection): App {
    s.(children := s.children[id := child], connections := s.connections[id := connection], running := s.running + {id})
  }

  lemma AddedIs(scope: Scope, known: Accounts, s: App, id: string, child: Child, connection: Connection)
    requires Sound(scope, known, s) && id !in s.children && id !in s.connections && NamedBy(scope, known, id, child)
             && BoundTo(connection.config, child.network.id)
             && connection.title == TitleOf(child.parent, child.network)
    requires forall c | c in s.children :: !IsChildOf(s.children[c], child.parent, child.network.id)
    ensures var r := Added(s, id, child, connection);
            && Sound(scope, known, r) && HasChild(r, child.parent, child.network) && SameSurroundings(s, r)
            && NoStrays(s, r, child.parent, child.network.id)
            && (forall c | Elsewhere(s, c, child.parent, child.network.id) :: Untouched(s, r, c))
  {
    hide NamedBy;
    var r := Added(s, id, child, connection);
    assert Serves(r, id, child.parent, child.network);
    forall c | Elsewhere(s, c, child.parent, child.network.id)
      ensures Untouched(s, r, c)
    {
      assert c != id;
    }
  }

  lemma CreatedIs(scope: Scope, known: Accounts, s: App, parent: string, config: Config, network: Network)
    requires (parent, config.account) in known && Canonical(network.id)
    requires Separates(scope, known) && Sound(scope, known, s)
    requires forall c | c in s.children :: !IsChildOf(s.children[c], parent, network.id)
    ensures var sc := scope(parent, config.account, network.id);
            var r := Created(s, parent, ChildConfig(parent, config, network), network, sc);
            && Sound(scope, known, r) && HasChild(r, parent, network) && SameSurroundings(s, r)
            && NoStrays(s, r, parent, network.id)
            && (forall id | Elsewhere(s, id, parent, network.id) :: Untouched(s, r, id))
            && exists id ::
               id in r.children && id in r.running && r.children[id] == Child(parent, network, sc, false, false)
  {
    hide Separates, NamedBy, Candidate, Base, FirstFree, HasChild, NoStrays, Untouched, Elsewhere, Unique,
      ChildrenAreBound, Network.Name;
    var sc := scope(parent, config.account, network.id);
    var id, k := NewName(scope, known, s, parent, config.account, network.id);
    BaseIs(sc);
    ConfigIs(parent, config, network);
    var child := Child(parent, network, sc, false, false);
    var connection := NewConnection(ChildConfig(parent, config, network));
    var r := Created(s, parent, ChildConfig(parent, config, network), network, sc);
    NamedWith(scope, known, id, child, config.account, k);
    AddedIs(scope, known, s, id, child, connection);
    assert r == Added(s, id, child, connection);
    assert id in r.children && id in r.running;
  }

  /** The bouncer's own settings, for a connection to the one network, under its title. */
  lemma ConfigIs(parent: string, config: Config, network: Network)
    ensures var child := ChildConfig(parent, config, network);
            && BoundTo(child, network.id) && child.title == TitleOf(parent, network)
            && child.account == config.account && child.autoReconnect == config.autoReconnect
  {
  }

  lemma BaseIs(sc: string)
    ensures Base(sc) == "_bouncer:" + sc
  {
  }

  lemma NamedWith(scope: Scope, known: Accounts, id: string, child: Child, account: string, k: nat)
    requires (child.parent, account) in known && Canonical(child.network.id)
    requires child.scope == scope(child.parent, account, child.network.id) && id == Candidate(Base(child.scope), k)
    ensures NamedBy(scope, known, id, child)
  {
  }

  lemma WithoutIs(scope: Scope, known: Accounts, s: App, ids: set<string>)
    requires Sound(scope, known, s) && ids <= s.children.Keys
    ensures var r := Without(s, ids);
            && Sound(scope, known, r) && SameSurroundings(s, r)
            && (forall id | id !in ids :: Untouched(s, r, id))
            && (forall id | id in r.children :: id in s.children && s.children[id] == r.children[id])
            && r.children.Keys == s.children.Keys - ids
  {
    hide NamedBy;
  }

  /** A child keeps its name when only its flags and the attributes of its network change. */
  lemma StillNamed(scope: Scope, known: Accounts, id: string, child: Child, next: Child)
    requires NamedBy(scope, known, id, child)
    requires next.parent == child.parent && next.network.id == child.network.id && next.scope == child.scope
    ensures NamedBy(scope, known, id, next)
  {
    hide Candidate, Base;
  }

  lemma ReplacedIs(scope: Scope, known: Accounts, s: App, r: App, id: string, parent: string, network: Network)
    requires Sound(scope, known, s) && id in s.children && IsChildOf(s.children[id], parent, network.id)
    requires id in r.children && r.children == s.children[id := r.children[id]] && SameSurroundings(s, r)
    requires var child, next := s.children[id], r.children[id];
             next.parent == child.parent && next.network == network && next.scope == child.scope
    requires (id in s.connections <==> id in r.connections)
             && (id in s.connections ==> r.connections == s.connections[id := r.connections[id]]
                                         && BoundTo(r.connections[id].config, network.id)
                                         && r.connections[id].title == TitleOf(parent, network))
             && (id !in s.connections ==> r.connections == s.connections && r.children[id].manual)
    requires r.running - {id} == s.running - {id}
    ensures && Sound(scope, known, r) && HasChild(r, parent, network)
            && NoStrays(s, r, parent, network.id)
            && forall other | Elsewhere(s, other, parent, network.id) :: Untouched(s, r, other)
  {
    hide NamedBy;
    StillNamed(scope, known, id, s.children[id], r.children[id]);
    assert Serves(r, id, parent, network);
    forall other | Elsewhere(s, other, parent, network.id)
      ensures Untouched(s, r, other)
    {
      assert other != id;
      assert other in r.running <==> other in r.running - {id};
      assert other in s.running <==> other in s.running - {id};
    }
  }

  /** `reconcile_bouncer_child`: afterwards the network has its child, and nothing else has changed. */
  lemma ReconcileOneIs(scope: Scope, known: Accounts, s: App, parent: string, config: Config, network: Network)
    requires (parent, config.account) in known && Canonical(network.id)
    requires Separates(scope, known) && Sound(scope, known, s)
    ensures var r := ReconcileOne(scope, s, parent, config, network);
            && Sound(scope, known, r) && HasChild(r, parent, network) && SameSurroundings(s, r)
            && NoStrays(s, r, parent, network.id)
            && forall id | Elsewhere(s, id, parent, network.id) :: Untouched(s, r, id)
  {
    hide Separates, Sound, Created, Without, HasChild, NoStrays, Elsewhere, Untouched;
    var found := FindChild(s, parent, network.id);
    if found.None? {
      CreatedIs(scope, known, s, parent, config, network);
    } else {
      var id := found.value;
      if (id !in s.connections && s.children[id].manual)
         || (s.children[id].scope == scope(parent, config.account, network.id) && id in s.connections)
      {
        ReplacedHere(scope, known, s, id, parent, config, network);
      } else {
        RecreatedIs(scope, known, s, id, parent, config, network);
      }
    }
  }

  lemma ReplacedHere(
    scope: Scope, known: Accounts, s: App, id: string, parent: string, config: Config, network: Network)
    requires Sound(scope, known, s) && FindChild(s, parent, network.id) == Some(id)
    requires (id !in s.connections && s.children[id].manual)
             || (s.children[id].scope == scope(parent, config.account, network.id) && id in s.connections)
    ensures var r := ReconcileOne(scope, s, parent, config, network);
            && Sound(scope, known, r) && HasChild(r, parent, network) && SameSurroundings(s, r)
            && NoStrays(s, r, parent, network.id)
            && forall id | Elsewhere(s, id, parent, network.id) :: Untouched(s, r, id)
  {
    hide Sound, HasChild, NoStrays, Elsewhere, Untouched, FindChild, Network.Name;
    IsBound(scope, known, s, id);
    ConfigIs(parent, config, network);
    var r := ReconcileOne(scope, s, parent, config, network);
    assert id in s.connections ==> r.connections == s.connections[id := r.connections[id]];
    ReplacedIs(scope, known, s, r, id, parent, network);
  }

  lemma IsBound(scope: Scope, known: Accounts, s: App, id: string)
    requires Sound(scope, known, s)
    ensures id in s.children && id in s.connections ==>
              BoundTo(s.connections[id].config, s.children[id].network.id)
  {
  }

  lemma RecreatedIs(scope: Scope, known: Accounts, s: App, id: string, parent: string, config: Config, network: Network)
    requires (parent, config.account) in known && Canonical(network.id)
    requires Separates(scope, known) && Sound(scope, known, s)
    requires id in s.children && IsChildOf(s.children[id], parent, network.id)
    ensures var m := Without(s, {id});
            var sc := scope(parent, config.account, network.id);
            var r := Created(m, parent, ChildConfig(parent, config, network), network, sc);
            && Sound(scope, known, r) && HasChild(r, parent, network) && SameSurroundings(s, r)
            && NoStrays(s, r, parent, network.id)
            && (forall id | Elsewhere(s, id, parent, network.id) :: Untouched(s, r, id))
            && exists c ::
               c in r.children && c in r.running && r.children[c] == Child(parent, network, sc, false, false)
  {
    hide Separates, Named, Created, ChildrenAreBound, HasChild;
    var m := Without(s, {id});
    WithoutIs(scope, known, s, {id});
    assert forall c | c in m.children :: !IsChildOf(m.children[c], parent, network.id) by {
      assert forall c | c in m.children :: c != id;
    }
    CreatedIs(scope, known, m, parent, config, network);
    var r := Created(m, parent, ChildConfig(parent, config, network), network,
      scope(parent, config.account, network.id));
    forall other | Elsewhere(s, other, parent, network.id)
      ensures Untouched(s, r, other)
    {
      assert other != id && Untouched(s, m, other) && Elsewhere(m, other, parent, network.id);
      assert Untouched(m, r, other);
    }
  }

  // ----- all networks -----

  /** As a registry lists them: under canonical ids, each once. */
  ghost predicate Orderly(networks: seq<Network>) {
    && (forall n | n in networks :: Canonical(n.id))
    && forall i, j | 0 <= i < j < |networks| :: networks[i].id != networks[j].id
  }

  /** Every child of `parent` afterwards belongs to a listed network, or was there before, as it is. */
  predicate OnlyListed(s: App, r: App, parent: string, networks: seq<Network>) {
    forall id | id in r.children ::
      (r.children[id].parent == parent && Lists(networks, r.children[id].network.id))
      || (id in s.children && s.children[id] == r.children[id])
  }

  ghost predicate AllHaveChildren(s: App, parent: string, networks: seq<Network>) {
    forall n | n in networks :: HasChild(s, parent, n)
  }

  /** Concerns no child of these networks, nor a name a new child could take. */
  predicate Aside(s: App, id: string, parent: string, networks: seq<Network>) {
    (id in s.children && !(s.children[id].parent == parent && Lists(networks, s.children[id].network.id)))
    || (id !in s.children && id in s.connections)
  }

  lemma {:induction false} ReconcileNetworksIs(
    scope: Scope, known: Accounts, s: App, parent: string, config: Config, networks: seq<Network>)
    requires (parent, config.account) in known
    requires Separates(scope, known) && Sound(scope, known, s) && Orderly(networks)
    ensures var r := ReconcileNetworks(scope, s, parent, config, networks);
            && Sound(scope, known, r) && SameSurroundings(s, r)
            && AllHaveChildren(r, parent, networks) && OnlyListed(s, r, parent, networks)
            && forall id | Aside(s, id, parent, networks) :: Untouched(s, r, id)
    decreases |networks|
  {
    hide Separates, Sound, ReconcileOne;
    if networks != [] {
      var first, rest := networks[0], networks[1..];
      assert forall n | n in rest :: n.id != first.id && n in networks;
      assert first in networks && forall n | n in networks :: n == first || n in rest;
      ReconcileOneIs(scope, known, s, parent, config, first);
      var m := ReconcileOne(scope, s, parent, config, first);
      ReconcileNetworksIs(scope, known, m, parent, config, rest);
      var r := ReconcileNetworks(scope, m, parent, config, rest);
      FirstKeepsChild(m, r, parent, first, rest);
      OnlyListedTwice(s, m, r, parent, networks);
      forall id | Aside(s, id, parent, networks)
        ensures Untouched(s, r, id)
      {
        AsideTwice(s, m, id, parent, networks);
      }
    }
  }

  lemma FirstKeepsChild(m: App, r: App, parent: string, first: Network, rest: seq<Network>)
    requires HasChild(m, parent, first) && forall n | n in rest :: n.id != first.id
    requires forall id | Aside(m, id, parent, rest) :: Untouched(m, r, id)
    ensures HasChild(r, parent, first)
  {
    var id :| Serves(m, id, parent, first);
    assert Aside(m, id, parent, rest);
    assert Untouched(m, r, id);
    assert Serves(r, id, parent, first);
  }

  lemma OnlyListedTwice(s: App, m: App, r: App, parent: string, networks: seq<Network>)
    requires networks != [] && NoStrays(s, m, parent, networks[0].id) && OnlyListed(m, r, parent, networks[1..])
    ensures OnlyListed(s, r, parent, networks)
  {
    assert networks[0] in networks && forall n | n in networks[1..] :: n in networks;
  }

  lemma AsideTwice(s: App, m: App, id: string, parent: string, networks: seq<Network>)
    requires networks != [] && Aside(s, id, parent, networks)
    requires Elsewhere(s, id, parent, networks[0].id) ==> Untouched(s, m, id)
    ensures Elsewhere(s, id, parent, networks[0].id) && Aside(m, id, parent, networks[1..])
  {
    assert networks[0] in networks && forall n | n in networks[1..] :: n in networks;
  }

  // ----- the results -----

  /** Where `parent` governs, its registry is orderly and its account one of these. */
  ghost predicate Governed(known: Accounts, s: App, parent: string) {
    Governs(s, parent) ==> Orderly(s.registries[parent]) && (parent, s.connections[parent].config.account) in known
  }

  ghost predicate Ready(scope: Scope, known: Accounts, s: App, parent: string) {
    Separates(scope, known) && Sound(scope, known, s) && Governed(known, s, parent) && Governs(s, parent)
  }

  /** Children of another bouncer, and connections that are no bouncer children. */
  predicate Foreign(s: App, id: string, parent: string) {
    (id in s.children && s.children[id].parent != parent) || (id !in s.children && id in s.connections)
  }

  /** The part of the work that all results share. */
  lemma ReconciledIs(scope: Scope, known: Accounts, s: App, parent: string, event: RegistryEvent)
    requires Ready(scope, known, s, parent)
    ensures var networks, r := s.registries[parent], Reconciled(scope, s, parent, event);
            var kept := Without(s, Obsolete(s, parent, event, networks));
            && Sound(scope, known, r) && SameSurroundings(s, r) && AllHaveChildren(r, parent, networks)
            && OnlyListed(kept, r, parent, networks)
               && kept.children.Keys == s.children.Keys - Obsolete(s, parent, event, networks)
            && (forall id | id in kept.children :: kept.children[id] == s.children[id])
            && (forall id | Foreign(s, id, parent) :: Untouched(s, r, id))
  {
    hide Separates, Sound, ReconcileNetworks, Lists;
    var networks, gone := s.registries[parent], Obsolete(s, parent, event, s.registries[parent]);
    WithoutIs(scope, known, s, gone);
    var kept := Without(s, gone);
    ReconcileNetworksIs(scope, known, kept, parent, s.connections[parent].config, networks);
    var r := Reconciled(scope, s, parent, event);
    forall id | Foreign(s, id, parent)
      ensures Untouched(s, r, id)
    {
      assert id !in gone && Untouched(s, kept, id);
      assert Aside(kept, id, parent, networks);
    }
  }

  /**
   * After a snapshot the children of a bouncer and the networks of its registry are in bijection: every network has
   * exactly one child, and every child shows a network as the registry has it. Their connections are bound one to each
   * network, under its title, and only children ended by hand have none.
   */
  lemma SnapshotIsBijection(scope: Scope, known: Accounts, s: App, parent: string)
    requires Ready(scope, known, s, parent)
    ensures var networks, r := s.registries[parent], Reconciled(scope, s, parent, Snapshot);
            var children := set id | id in r.children && r.children[id].parent == parent;
            && (forall n | n in networks :: exists id | id in children :: r.children[id].network == n)
            && (forall id | id in children :: r.children[id].network in networks)
            && (forall a, b | a in children && b in children && r.children[a].network.id == r.children[b].network.id ::
                  a == b)
            && (forall id | id in children ::
                  if id !in r.connections then r.children[id].manual
                  else
                    var c, n := r.connections[id], r.children[id].network;
                    && !c.config.control && c.config.networkId == Some(n.id)
                    && c.title == (if "name" in n.attributes then n.attributes["name"] else n.id)
                                  + " [" + parent + ":" + n.id + "]")
  {
    ReconciledIs(scope, known, s, parent, Snapshot);
    var networks, r := s.registries[parent], Reconciled(scope, s, parent, Snapshot);
    hide Separates, Named, ReconcileNetworks;
    forall n | n in networks
      ensures exists id | id in r.children && r.children[id].parent == parent :: r.children[id].network == n
    {
      var id :| Serves(r, id, parent, n);
    }
    forall id | id in r.children && r.children[id].parent == parent
      ensures r.children[id].network in networks && Serves(r, id, parent, r.children[id].network)
    {
      assert Lists(networks, r.children[id].network.id);
      ListedIsThere(r, id, parent, networks);
    }
  }

  lemma ListedIsThere(r: App, id: string, parent: string, networks: seq<Network>)
    requires Unique(r) && AllHaveChildren(r, parent, networks)
    requires id in r.children && r.children[id].parent == parent && Lists(networks, r.children[id].network.id)
    ensures r.children[id].network in networks && Serves(r, id, parent, r.children[id].network)
  {
    var n :| n in networks && n.id == r.children[id].network.id;
    assert HasChild(r, parent, n);
    var other :| Serves(r, other, parent, n);
    assert IsChildOf(r.children[other], r.children[id].parent, r.children[id].network.id);
  }

  /** After a change of a network, that network has a child exactly if the registry has the network. */
  lemma ChangedIsExact(scope: Scope, known: Accounts, s: App, parent: string, network: string)
    requires Ready(scope, known, s, parent)
    ensures var r := Reconciled(scope, s, parent, Changed(network));
            (exists id :: id in r.children && IsChildOf(r.children[id], parent, network)) <==>
            Lists(s.registries[parent], network)
  {
    ReconciledIs(scope, known, s, parent, Changed(network));
    var networks, r := s.registries[parent], Reconciled(scope, s, parent, Changed(network));
    hide Separates, Sound, ReconcileNetworks;
    if Lists(networks, network) {
      var n :| n in networks && n.id == network;
      assert HasChild(r, parent, n);
      var id :| Serves(r, id, parent, n);
      assert IsChildOf(r.children[id], parent, network);
    }
  }

  /** Reconciling keeps everything sound and leaves other bouncers' children, and all other connections, alone. */
  lemma OthersAreUntouched(scope: Scope, known: Accounts, s: App, parent: string, event: RegistryEvent, id: string)
    requires Separates(scope, known) && Sound(scope, known, s) && Governed(known, s, parent)
    requires Foreign(s, id, parent)
    ensures Untouched(s, Reconciled(scope, s, parent, event), id)
  {
    if Governs(s, parent) {
      ReconciledIs(scope, known, s, parent, event);
    }
  }
}
