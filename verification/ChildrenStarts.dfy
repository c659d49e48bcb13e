/**
 * Which children reconciling starts, and how: a child that is new, or suspended and not ended by hand, gets a
 * connection with its bouncer's settings; any other keeps the one it has. So what the loss of a bouncer suspends comes
 * back with its next snapshot.
 */
module ChildrenStarts {
  import opened Wrappers
  import opened BouncerChildren
  import opened ChildrenRuns
  import opened ChildrenByHand

  /** The connection being made for the network: the bouncer's settings, but for its title and what it is bound to. */
  predicate StartedFor(c: Connection, parent: string, config: Config, network: Network) {
    && c.status.Connecting? && c.title == TitleOf(parent, network)
    && c.shouldReconnect == (config.autoReconnect != Some(false))
    && c.config == Config(false, Some(network.id), TitleOf(parent, network), config.account, config.autoReconnect)
  }

  /** A new child of the network runs, started for it. */
  ghost predicate StartsNew(r: App, parent: string, config: Config, network: Network, sc: string) {
    exists id | id in r.children && id in r.connections && id in r.running ::
      r.children[id] == Child(parent, network, sc, false, false)
      && StartedFor(r.connections[id], parent, config, network)
  }

  lemma CreatedStarts(s: App, parent: string, config: Config, network: Network, sc: string)
    ensures StartsNew(Created(s, parent, ChildConfig(parent, config, network), network, sc), parent, config, network,
            sc)
  {
    var r := Created(s, parent, ChildConfig(parent, config, network), network, sc);
    var id := FirstFree("_bouncer:" + sc, s.connections.Keys + s.servers, 0);
    ConfigIs(parent, config, network);
    hide FirstFree, Network.Name, TitleOf;
    assert id in r.children && id in r.connections && id in r.running;
  }

  /** Whether the child keeps its place: it has a connection and the account settings still give its scope. */
  predicate InPlace(s: App, id: string, sc: string)
    requires id in s.children
  {
    id in s.connections && s.children[id].scope == sc
  }

  /**
   * Reconciling a network starts a new child exactly if it has none that keeps its place, unless that one has no
   * connection and was ended by hand. One that keeps its place is started again exactly if it was suspended and not
   * ended by hand; otherwise its connection changes only in name. It is no longer suspended.
   */
  lemma StartsIff(scope: Scope, known: Accounts, s: App, parent: string, config: Config, network: Network)
    requires (parent, config.account) in known && Canonical(network.id)
    requires Separates(scope, known) && Sound(scope, known, s)
    ensures var sc, r := scope(parent, config.account, network.id), ReconcileOne(scope, s, parent, config, network);
            && ((forall id | id in s.children :: !IsChildOf(s.children[id], parent, network.id)) ==>
                StartsNew(r, parent, config, network, sc))
            && forall id | id in s.children && IsChildOf(s.children[id], parent, network.id) ::
                 var child := s.children[id];
                 if id !in s.connections && child.manual then
                   r == s.(children := s.children[id := child.(network := network)])
                 else if !InPlace(s, id, sc) then StartsNew(r, parent, config, network, sc)
                 else
                   && id in r.children && id in r.connections
                   && r.children[id] == child.(network := network, suspended := false)
                   && (if child.suspended && !child.manual
                       then id in r.running && StartedFor(r.connections[id], parent, config, network)
                       else (id in r.running <==> id in s.running) && RenamedOnly(s.connections[id], r.connections[id]))
  {
    hide Separates, Sound, Created, Without, StartsNew, FindChild, StartedFor;
    var sc := scope(parent, config.account, network.id);
    FoundIff(s, scope, known, parent, network.id);
    if forall id | id in s.children :: !IsChildOf(s.children[id], parent, network.id) {
      CreatedStarts(s, parent, config, network, sc);
    }
    forall id | id in s.children && IsChildOf(s.children[id], parent, network.id) && !InPlace(s, id, sc)
                && !(id !in s.connections && s.children[id].manual)
      ensures StartsNew(ReconcileOne(scope, s, parent, config, network), parent, config, network, sc)
    {
      CreatedStarts(Without(s, {id}), parent, config, network, sc);
    }
    forall id | id in s.children && IsChildOf(s.children[id], parent, network.id) && InPlace(s, id, sc)
      ensures var r := ReconcileOne(scope, s, parent, config, network);
              var child := s.children[id];
              && id in r.children && id in r.connections
              && r.children[id] == child.(network := network, suspended := false)
              && (if child.suspended && !child.manual
                  then id in r.running && StartedFor(r.connections[id], parent, config, network)
                  else (id in r.running <==> id in s.running) && RenamedOnly(s.connections[id], r.connections[id]))
    {
      UpdatedStarts(s, id, parent, config, network);
    }
  }

  predicate RenamedOnly(before: Connection, after: Connection) {
    after == before.(title := after.title, config := before.config.(title := after.config.title))
  }

  lemma FoundIff(s: App, scope: Scope, known: Accounts, parent: string, network: string)
    requires Sound(scope, known, s)
    ensures (forall id | id in s.children :: !IsChildOf(s.children[id], parent, network)) ==>
              FindChild(s, parent, network) == None
    ensures forall id | id in s.children && IsChildOf(s.children[id], parent, network) ::
              FindChild(s, parent, network) == Some(id)
  {
    hide Named, ChildrenAreBound;
  }

  lemma UpdatedStarts(s: App, id: string, parent: string, config: Config, network: Network)
    requires id in s.children && id in s.connections
    ensures var r, child := Updated(s, id, ChildConfig(parent, config, network), network), s.children[id];
            && id in r.children && id in r.connections
            && r.children[id] == child.(network := network, suspended := false)
            && (if child.suspended && !child.manual
                then id in r.running && StartedFor(r.connections[id], parent, config, network)
                else (id in r.running <==> id in s.running) && RenamedOnly(s.connections[id], r.connections[id]))
  {
    ConfigIs(parent, config, network);
    hide Network.Name, TitleOf;
  }

  // ----- losing the bouncer -----

  /**
   * When the bouncer is lost, every child of it is suspended; those that were not have stopped, and are not connected
   * nor to be reconnected; all other connections are as they were.
   */
  lemma SuspendedIs(s: App, parent: string)
    ensures var r := Suspended(s, parent);
            && r.children.Keys == s.children.Keys && r.connections.Keys == s.connections.Keys
            && (forall id | id in s.children && s.children[id].parent == parent ::
                  r.children[id] == s.children[id].(suspended := true))
            && (forall id | id in s.children && s.children[id].parent == parent && !s.children[id].suspended ::
                  id !in r.running && (id in r.connections ==>
                    && !r.connections[id].shouldReconnect && !r.connections[id].status.Connected?
                    && !r.connections[id].status.Connecting?))
            && (forall id | !(id in s.children && s.children[id].parent == parent && !s.children[id].suspended) ::
                  Untouched(s, r, id))
  {
  }

  // ----- and its return -----

  /** A child of the network runs, or was ended by hand. */
  ghost predicate Alive(s: App, parent: string, network: string) {
    exists id | id in s.children && IsChildOf(s.children[id], parent, network) ::
      s.children[id].manual || id in s.running
  }

  /** Every child of the network runs, or is suspended, or was ended by hand. */
  predicate Waiting(s: App, parent: string, network: string) {
    forall id | id in s.children && IsChildOf(s.children[id], parent, network) ::
      s.children[id].suspended || s.children[id].manual || id in s.running
  }

  lemma OneRevives(scope: Scope, known: Accounts, s: App, parent: string, config: Config, n: Network)
    requires (parent, config.account) in known && Canonical(n.id)
    requires Separates(scope, known) && Sound(scope, known, s) && Waiting(s, parent, n.id)
    ensures Alive(ReconcileOne(scope, s, parent, config, n), parent, n.id)
  {
    StartsIff(scope, known, s, parent, config, n);
    hide Separates, Sound, ReconcileOne, StartedFor, RenamedOnly, Canonical;
    var r, sc := ReconcileOne(scope, s, parent, config, n), scope(parent, config.account, n.id);
    if StartsNew(r, parent, config, n, sc) {
      var id :| id in r.children && id in r.connections && id in r.running
                && r.children[id] == Child(parent, n, sc, false, false);
      assert IsChildOf(r.children[id], parent, n.id);
    } else {
      var id :| id in s.children && IsChildOf(s.children[id], parent, n.id);
      assert IsChildOf(r.children[id], parent, n.id);
    }
  }

  lemma OthersAlike(scope: Scope, known: Accounts, s: App, parent: string, config: Config, n: Network, network: string)
    requires (parent, config.account) in known && Canonical(n.id)
    requires Separates(scope, known) && Sound(scope, known, s) && n.id != network
    ensures var r := ReconcileOne(scope, s, parent, config, n);
            && (Alive(s, parent, network) ==> Alive(r, parent, network))
            && (Waiting(s, parent, network) ==> Waiting(r, parent, network))
  {
    hide ReconcileOne, Separates, Sound;
    ReconcileOneIs(scope, known, s, parent, config, n);
    assert forall id | id in s.children && IsChildOf(s.children[id], parent, network) :: Elsewhere(s, id, parent, n.id);
  }

  lemma {:induction false} NetworksRevive(
    scope: Scope, known: Accounts, s: App, parent: string, config: Config, networks: seq<Network>, network: string)
    requires (parent, config.account) in known
    requires Separates(scope, known) && Sound(scope, known, s) && Orderly(networks)
    requires if Lists(networks, network) then Waiting(s, parent, network) else Alive(s, parent, network)
    ensures Alive(ReconcileNetworks(scope, s, parent, config, networks), parent, network)
    decreases |networks|
  {
    hide Separates, Sound, ReconcileOne, Alive, Waiting;
    if networks != [] {
      var first, rest := networks[0], networks[1..];
      assert first in networks && forall n | n in rest :: n.id != first.id && n in networks;
      assert forall n | n in networks :: n == first || n in rest;
      ReconcileOneIs(scope, known, s, parent, config, first);
      if first.id == network {
        OneRevives(scope, known, s, parent, config, first);
      } else {
        OthersAlike(scope, known, s, parent, config, first, network);
      }
      NetworksRevive(scope, known, ReconcileOne(scope, s, parent, config, first), parent, config, rest, network);
    }
  }

  /**
   * What was suspended comes back: if every child of the bouncer is suspended, as it is once the bouncer was lost, or
   * runs, then after its next snapshot each listed network has a child that runs, but for those ended by hand.
   */
  lemma SnapshotRevives(scope: Scope, known: Accounts, s: App, parent: string, network: string)
    requires Ready(scope, known, s, parent) && Lists(s.registries[parent], network)
    requires Waiting(s, parent, network)
    ensures Alive(Reconciled(scope, s, parent, Snapshot), parent, network)
  {
    hide Separates, ReconcileNetworks, Lists;
    var gone := Obsolete(s, parent, Snapshot, s.registries[parent]);
    WithoutIs(scope, known, s, gone);
    hide Sound, Alive;
    StillWaiting(s, gone, parent, network);
    NetworksRevive(scope, known, Without(s, gone), parent, s.connections[parent].config, s.registries[parent], network);
  }

  lemma StillWaiting(s: App, gone: set<string>, parent: string, network: string)
    requires Waiting(s, parent, network)
    ensures Waiting(Without(s, gone), parent, network)
  {
  }

  // ----- what goes -----

  /** Neither child nor connection, nor an attempt to make one. */
  predicate Gone(s: App, id: string) { id !in s.children && id !in s.connections && id !in s.running }

  /** A name that was a child's of another network is not given to a new child. */
  lemma OneLeavesGone(
    scope: Scope, known: Accounts, s: App, parent: string, config: Config, network: Network, id: string, child: Child)
    requires (parent, config.account) in known && Canonical(network.id)
    requires Separates(scope, known) && Sound(scope, known, s)
    requires Gone(s, id) && NamedBy(scope, known, id, child) && !IsChildOf(child, parent, network.id)
    ensures Gone(ReconcileOne(scope, s, parent, config, network), id)
  {
    hide Separates, Sound, Created, Canonical, NamedBy, Network.Name;
    var sc := scope(parent, config.account, network.id);
    CreatedElsewhere(scope, known, s, parent, config, network, id, child);
    var found := FindChild(s, parent, network.id);
    if found.Some? {
      CreatedElsewhere(scope, known, Without(s, {found.value}), parent, config, network, id, child);
    }
  }

  lemma CreatedElsewhere(
    scope: Scope, known: Accounts, s: App, parent: string, config: Config, network: Network, id: string, child: Child)
    requires (parent, config.account) in known && Canonical(network.id) && Separates(scope, known)
    requires Gone(s, id) && NamedBy(scope, known, id, child) && !IsChildOf(child, parent, network.id)
    ensures var sc := scope(parent, config.account, network.id);
            Gone(Created(s, parent, ChildConfig(parent, config, network), network, sc), id)
  {
    hide Separates, NamedBy, Canonical, Candidate, FirstFree, Network.Name;
    var sc := scope(parent, config.account, network.id);
    BaseIs(sc);
    var free := FirstFree("_bouncer:" + sc, s.connections.Keys + s.servers, 0);
    var k := FirstFreeIs("_bouncer:" + sc, s.connections.Keys + s.servers, 0);
    if free == id {
      NamesAreSeparate(scope, known, id, child, parent, config.account, network.id, k);
    }
  }

  lemma {:induction false} NetworksLeaveGone(
    scope: Scope, known: Accounts, s: App, parent: string, config: Config, networks: seq<Network>, id: string,
    child: Child)
    requires (parent, config.account) in known && Orderly(networks)
    requires Separates(scope, known) && Sound(scope, known, s)
    requires Gone(s, id) && NamedBy(scope, known, id, child) && child.parent == parent
    requires !Lists(networks, child.network.id)
    ensures Gone(ReconcileNetworks(scope, s, parent, config, networks), id)
    decreases |networks|
  {
    hide Separates, Sound, ReconcileOne, NamedBy, Gone;
    if networks != [] {
      var first, rest := networks[0], networks[1..];
      assert first in networks && forall n | n in rest :: n.id != first.id && n in networks;
      ReconcileOneIs(scope, known, s, parent, config, first);
      OneLeavesGone(scope, known, s, parent, config, first, id, child);
      NetworksLeaveGone(scope, known, ReconcileOne(scope, s, parent, config, first), parent, config, rest, id, child);
    }
  }

  /**
   * A child whose network is gone from the registry goes, when that is told, with its connection and any attempt to
   * make one, and its name is not used again then.
   */
  lemma RemovedIsGone(scope: Scope, known: Accounts, s: App, parent: string, event: RegistryEvent, id: string)
    requires Ready(scope, known, s, parent) && id in s.children && s.children[id].parent == parent
    requires !Lists(s.registries[parent], s.children[id].network.id)
    requires event == Snapshot || event == Changed(s.children[id].network.id)
    ensures Gone(Reconciled(scope, s, parent, event), id)
  {
    hide Separates, ReconcileNetworks, Lists;
    var networks, gone := s.registries[parent], Obsolete(s, parent, event, s.registries[parent]);
    WithoutIs(scope, known, s, gone);
    assert Gone(Without(s, gone), id);
    hide Sound, NamedBy, Gone;
    IsNamed(scope, known, s, id);
    NetworksLeaveGone(scope, known, Without(s, gone), parent, s.connections[parent].config, networks, id,
      s.children[id]);
  }

  lemma IsNamed(scope: Scope, known: Accounts, s: App, id: string)
    requires Sound(scope, known, s) && id in s.children
    ensures NamedBy(scope, known, id, s.children[id])
  {
    hide NamedBy;
  }

  // ----- what is left alone -----

  /**
   * A change of one network removes no child of another, not even one whose network is not listed: all such children
   * stay as they are.
   */
  lemma ChangeKeepsOthers(scope: Scope, known: Accounts, s: App, parent: string, network: string, id: string)
    requires Ready(scope, known, s, parent)
    requires id in s.children && s.children[id].parent == parent && s.children[id].network.id != network
    requires !Lists(s.registries[parent], s.children[id].network.id)
    ensures Untouched(s, Reconciled(scope, s, parent, Changed(network)), id)
  {
    hide Separates, Sound, ReconcileNetworks, Lists;
    var networks, gone := s.registries[parent], Obsolete(s, parent, Changed(network), s.registries[parent]);
    WithoutIs(scope, known, s, gone);
    var kept := Without(s, gone);
    ReconcileNetworksIs(scope, known, kept, parent, s.connections[parent].config, networks);
    assert id !in gone && Untouched(s, kept, id);
    assert Aside(kept, id, parent, networks);
  }

  /** Nothing is reconciled but for a bouncer that is connected, controls networks and has sent its registry. */
  lemma NobodyElseReconciles(scope: Scope, s: App, parent: string, event: RegistryEvent)
    requires !(parent in s.connections && s.connections[parent].status.Connected?
               && s.connections[parent].config.control && parent in s.registries)
    ensures Reconciled(scope, s, parent, event) == s
  {
  }

  /** A snapshot removes exactly those children of the bouncer whose network it does not list. */
  lemma SnapshotRemovesIff(scope: Scope, known: Accounts, s: App, parent: string, network: string)
    requires Ready(scope, known, s, parent)
    ensures var r := Reconciled(scope, s, parent, Snapshot);
            (exists id | id in r.children :: IsChildOf(r.children[id], parent, network)) <==>
            Lists(s.registries[parent], network)
  {
    SnapshotIsBijection(scope, known, s, parent);
    var r := Reconciled(scope, s, parent, Snapshot);
    hide Reconciled, Ready, Sound, Separates;
    if Lists(s.registries[parent], network) {
      var n :| n in s.registries[parent] && n.id == network;
      var id :| id in r.children && r.children[id].parent == parent && r.children[id].network == n;
      assert IsChildOf(r.children[id], parent, network);
    }
  }

  /**
   * A child is asked for again exactly if its bouncer is connected and it does not run; otherwise nothing changes. It
   * is then neither ended by hand nor left as it is: its bouncer is reconciled for it.
   */
  lemma ReconnectIff(scope: Scope, s: App, parent: string, network: string)
    requires Unique(s)
    ensures var (r, started) := Reconnected(scope, s, parent, network);
            && (started <==>
                && parent in s.connections && s.connections[parent].status.Connected?
                && exists id | id in s.children && IsChildOf(s.children[id], parent, network) :: id !in s.running)
            && (!started ==> r == s)
            && (started ==> forall id | id in s.children && IsChildOf(s.children[id], parent, network) ::
                  r == Reconciled(scope,
                         s.(children := s.children[id := s.children[id].(manual := false, suspended := true)]),
                         parent, Changed(network)))
  {
    hide Reconciled;
    forall id | id in s.children && IsChildOf(s.children[id], parent, network)
      ensures FindChild(s, parent, network) == Some(id)
    {
      FoundIt(s, id, parent, network);
    }
  }
}
