/**
 * A child that was disconnected by hand stays down, whatever is reconciled, until `reconnect_bouncer_child` asks for
 * it.
 */
module ChildrenByHand {
  import opened Wrappers
  import opened BouncerChildren
  import opened ChildrenRuns

  datatype Event =
    | Reconciles(parent: string, event: RegistryEvent)
    /** The registry of a control connection changes. */
    | Announces(parent: string, networks: seq<Network>)
    /** The control connection is lost. */
    | Suspends(parent: string)
    /** A connection is established, or lost. */
    | Establishes(id: string)
    | Loses(id: string, failed: bool)
    /** `/disconnect`. */
    | Disconnects(id: string)
    /** The buffers of a disconnected connection are closed. */
    | Closes(id: string)
    /** A connection that is no child is set up or changed. */
    | Configures(id: string, connection: Connection)
    /** `reconnect_bouncer_child`. */
    | Reconnects(parent: string, network: string)
    /** The reconnect timer of a connection is due. */
    | Retries(id: string)

  function SetManual(s: App, id: string): App {
    if id in s.children then s.(children := s.children[id := s.children[id].(manual := true)]) else s
  }

  function WithStatus(s: App, id: string, status: Status): App {
    if id in s.connections then s.(connections := s.connections[id := s.connections[id].(status := status)]) else s
  }

  /** No reconnects after `/disconnect`. */
  function Quiet(s: App, id: string): App {
    if id in s.connections then s.(connections := s.connections[id := s.connections[id].(shouldReconnect := false)])
      else s
  }

  predicate Due(s: App, id: string) {
    && id in s.connections && (s.connections[id].status == Disconnected || s.connections[id].status == Failed)
    && s.connections[id].shouldReconnect && id !in s.running
  }

  /** `prepare_bouncer_close`, and the removal of the connection that follows it. */
  function Closed(s: App, id: string): App {
    var left := SetManual(Without(s, set c | c in s.children && s.children[c].parent == id), id);
    left.(running := left.running - {id}, connections := left.connections - {id}, registries := left.registries - {id})
  }

  ghost function Happen(scope: Scope, s: App, e: Event): App {
    match e
    case Reconciles(parent, event) => Reconciled(scope, s, parent, event)
    case Announces(parent, networks) => s.(registries := s.registries[parent := networks])
    case Suspends(parent) => Suspended(s, parent).(registries := s.registries - {parent})
    case Establishes(id) => if id in s.running then WithStatus(s, id, Connected) else s
    case Loses(id, failed) => WithStatus(s, id, if failed then Failed else Disconnected).(running := s.running - {id})
    case Disconnects(id) => Quiet(Suspended(SetManual(s, id), id).(registries := s.registries - {id}), id)
    case Closes(id) => Closed(s, id)
    case Configures(id, connection) =>
      if id in s.children then s else s.(connections := s.connections[id := connection])
    case Reconnects(parent, network) => Reconnected(scope, s, parent, network).0
    case Retries(id) => if Due(s, id) then WithStatus(s, id, Connecting).(running := s.running + {id}) else s
  }

  ghost function HappenAll(scope: Scope, s: App, events: seq<Event>): App
    decreases |events|
  {
    if events == [] then s else HappenAll(scope, Happen(scope, s, events[0]), events[1..])
  }

  // ----- down by hand -----

  /** The child of this network, under this scope, disconnected by hand, not running and not to be reconnected. */
  predicate Down(s: App, id: string, parent: string, network: string, sc: string) {
    && id in s.children && id !in s.running
    && s.children[id].parent == parent && s.children[id].network.id == network && s.children[id].scope == sc
    && s.children[id].manual && (id in s.connections ==> !s.connections[id].shouldReconnect)
  }

  /** The bouncer whose networks the event reconciles. */
  function Reconciler(e: Event): Option<string> {
    match e
    case Reconciles(parent, event) => Some(parent)
    case Reconnects(parent, network) => Some(parent)
    case _ => None
  }

  /**
   * Registries list canonical ids, each once, and the accounts that reconcile are known; while the child's own bouncer
   * reconciles, its registry has the network and its account settings still give the child's scope; the bouncer's own
   * buffers are not closed; and the child itself is not asked for again.
   */
  ghost predicate Keeps(scope: Scope, known: Accounts, s: App, e: Event, parent: string, network: string, sc: string) {
    && (e.Announces? ==> Orderly(e.networks))
    && (e.Closes? ==> e.id != parent)
    && (Reconciler(e).Some? && Governs(s, Reconciler(e).value) ==>
          (Reconciler(e).value, s.connections[Reconciler(e).value].config.account) in known)
    && (Reconciler(e) == Some(parent) && Governs(s, parent) ==>
          Lists(s.registries[parent], network) && scope(parent, s.connections[parent].config.account, network) == sc)
    && e != Reconnects(parent, network)
  }

  ghost predicate AllKeep(
    scope: Scope, known: Accounts, s: App, events: seq<Event>, parent: string, network: string, sc: string)
    decreases |events|
  {
    events == [] ||
    (Keeps(scope, known, s, events[0], parent, network, sc)
      && AllKeep(scope, known, Happen(scope, s, events[0]), events[1..], parent, network, sc))
  }

  ghost predicate TidyRegistries(s: App) { forall p | p in s.registries :: Orderly(s.registries[p]) }

  ghost predicate Fit(scope: Scope, known: Accounts, s: App) {
    Separates(scope, known) && Sound(scope, known, s) && TidyRegistries(s)
  }

  lemma FoundIt(s: App, id: string, parent: string, network: string)
    requires Unique(s) && id in s.children && IsChildOf(s.children[id], parent, network)
    ensures FindChild(s, parent, network) == Some(id)
  {
  }

  /** Reconciling its own network leaves such a child down. */
  lemma OneKeepsDown(
    scope: Scope, known: Accounts, s: App, parent: string, config: Config, n: Network, id: string, network: string,
    sc: string)
    requires (parent, config.account) in known && Canonical(n.id)
    requires Separates(scope, known) && Sound(scope, known, s) && Down(s, id, parent, network, sc)
    requires scope(parent, config.account, network) == sc
    ensures Down(ReconcileOne(scope, s, parent, config, n), id, parent, network, sc)
  {
    if n.id == network {
      FoundIt(s, id, parent, network);
      hide Separates, Sound, FindChild, Network.Name;
    } else {
      hide ReconcileOne, Separates, Sound;
      ReconcileOneIs(scope, known, s, parent, config, n);
      assert Untouched(s, ReconcileOne(scope, s, parent, config, n), id);
    }
  }

  lemma {:induction false} NetworksKeepDown(
    scope: Scope, known: Accounts, s: App, parent: string, config: Config, networks: seq<Network>, id: string,
    network: string, sc: string)
    requires (parent, config.account) in known && forall n | n in networks :: Canonical(n.id)
    requires Separates(scope, known) && Sound(scope, known, s) && Down(s, id, parent, network, sc)
    requires scope(parent, config.account, network) == sc
    ensures Down(ReconcileNetworks(scope, s, parent, config, networks), id, parent, network, sc)
    decreases |networks|
  {
    hide Separates, Sound, Down, ReconcileOne;
    if networks != [] {
      ReconcileOneIs(scope, known, s, parent, config, networks[0]);
      OneKeepsDown(scope, known, s, parent, config, networks[0], id, network, sc);
      NetworksKeepDown(scope, known, ReconcileOne(scope, s, parent, config, networks[0]), parent, config,
        networks[1..], id, network, sc);
    }
  }

  lemma ReconciledKeepsDown(
    scope: Scope, known: Accounts, s: App, parent: string, event: RegistryEvent, id: string, home: string,
    network: string, sc: string)
    requires Fit(scope, known, s) && Down(s, id, home, network, sc)
    requires Keeps(scope, known, s, Reconciles(parent, event), home, network, sc)
    ensures Fit(scope, known, Reconciled(scope, s, parent, event))
            && Down(Reconciled(scope, s, parent, event), id, home, network, sc)
  {
    hide Separates, Sound, ReconcileNetworks, Lists;
    if Governs(s, parent) {
      ReconciledIs(scope, known, s, parent, event);
      if parent == home {
        var gone := Obsolete(s, parent, event, s.registries[parent]);
        assert id !in gone;
        WithoutIs(scope, known, s, gone);
        assert Untouched(s, Without(s, gone), id);
        NetworksKeepDown(scope, known, Without(s, gone), parent, s.connections[parent].config, s.registries[parent],
          id, network, sc);
      } else {
        OthersAreUntouched(scope, known, s, parent, event, id);
      }
    }
  }

  lemma ReconnectedKeepsDown(
    scope: Scope, known: Accounts, s: App, other: string, asked: string, id: string, parent: string, network: string,
    sc: string)
    requires Fit(scope, known, s) && Down(s, id, parent, network, sc)
    requires Keeps(scope, known, s, Reconnects(other, asked), parent, network, sc)
    ensures var r := Reconnected(scope, s, other, asked).0;
            Fit(scope, known, r) && Down(r, id, parent, network, sc)
  {
    hide *;
    var ready := ReconnectedIs(scope, s, other, asked);
    if Reconnected(scope, s, other, asked).1 {
      ReadyKeepsDown(scope, known, s, other, asked, id, parent, network, sc);
      var child := FindChild(s, other, asked).value;
      ReadyIsFit(scope, known, s, child, ready);
      ReconciledKeepsDown(scope, known, ready, other, Changed(asked), id, parent, network, sc);
    }
  }

  /** The child that was asked for is to start again. */
  function Asked(s: App, child: string): App
    requires child in s.children
  {
    s.(children := s.children[child := s.children[child].(manual := false, suspended := true)])
  }

  lemma ReconnectedIs(scope: Scope, s: App, other: string, asked: string) returns (ready: App)
    ensures var (r, started) := Reconnected(scope, s, other, asked);
            if started
            then FindChild(s, other, asked).Some? && ready == Asked(s, FindChild(s, other, asked).value) &&
                 r == Reconciled(scope, ready, other, Changed(asked))
            else r == s
  {
    hide Reconciled;
    ready := if FindChild(s, other, asked).Some? then Asked(s, FindChild(s, other, asked).value) else s;
  }

  lemma ReadyKeepsDown(
    scope: Scope, known: Accounts, s: App, other: string, asked: string, id: string, parent: string, network: string,
    sc: string)
    requires Down(s, id, parent, network, sc) && FindChild(s, other, asked).Some?
    requires Keeps(scope, known, s, Reconnects(other, asked), parent, network, sc)
    ensures var ready := Asked(s, FindChild(s, other, asked).value);
            && Down(ready, id, parent, network, sc)
            && Keeps(scope, known, ready, Reconciles(other, Changed(asked)), parent, network, sc)
  {
    hide Lists;
    var child := FindChild(s, other, asked).value;
    hide FindChild;
    assert child != id;
  }

  lemma ReadyIsFit(scope: Scope, known: Accounts, s: App, child: string, ready: App)
    requires Fit(scope, known, s) && child in s.children
    requires ready == Asked(s, child)
    ensures Fit(scope, known, ready)
  {
    StillNamed(scope, known, child, s.children[child], ready.children[child]);
    hide NamedBy, Separates;
  }

  // ----- the other events -----

  /** What the other events do: drop children, or change flags and connections that do not control. */
  ghost predicate Milder(s: App, r: App) {
    && (forall id | id in r.children ::
          id in s.children && r.children[id].parent == s.children[id].parent
            && r.children[id].network == s.children[id].network
          && r.children[id].scope == s.children[id].scope && (s.children[id].manual ==> r.children[id].manual))
    && (forall id | id in r.children && id in r.connections ::
          id in s.connections && r.connections[id].config == s.connections[id].config
          && (r.connections[id].shouldReconnect ==> s.connections[id].shouldReconnect))
    && (forall id | id in r.children && id in r.running :: id in s.running)
    && (forall p | p in r.registries :: Orderly(r.registries[p]))
  }

  lemma MilderIsFit(scope: Scope, known: Accounts, s: App, r: App)
    requires Fit(scope, known, s) && Milder(s, r)
    ensures Fit(scope, known, r)
  {
    hide NamedBy, Orderly, Separates;
    forall id | id in r.children
      ensures NamedBy(scope, known, id, r.children[id])
    {
      StillNamed(scope, known, id, s.children[id], r.children[id]);
    }
  }

  lemma SuspendedIsMilder(s: App, parent: string, gone: set<string>)
    requires TidyRegistries(s)
    ensures var r := Suspended(s, parent).(registries := s.registries - gone);
            Milder(s, r) && r.children.Keys == s.children.Keys
  {
    hide Orderly;
  }

  lemma ManualIsMilder(s: App, id: string)
    requires TidyRegistries(s)
    ensures Milder(s, SetManual(s, id)) && SetManual(s, id).children.Keys == s.children.Keys
    ensures TidyRegistries(SetManual(s, id)) && SetManual(s, id).registries == s.registries
  {
    hide Orderly;
  }

  lemma ClosedIsMilder(s: App, closed: string, id: string)
    requires TidyRegistries(s) && id in s.children && s.children[id].parent != closed
    ensures Milder(s, Closed(s, closed)) && id in Closed(s, closed).children
  {
    hide Orderly, SetManual;
    var left := Without(s, set c | c in s.children && s.children[c].parent == closed);
    ManualIsMilder(left, closed);
    assert Milder(left, SetManual(left, closed));
    var r := Closed(s, closed);
    assert r.children == SetManual(left, closed).children;
    ManualRest(left, closed);
  }

  lemma ManualRest(s: App, id: string)
    ensures var r := SetManual(s, id); r == s.(children := r.children)
  {
  }

  lemma StatusIsMilder(s: App, id: string, status: Status, stopped: set<string>)
    requires TidyRegistries(s)
    ensures var r := WithStatus(s, id, status).(running := s.running - stopped);
            Milder(s, r) && r.children == s.children
  {
    hide Orderly;
  }

  lemma MilderTwice(s: App, m: App, r: App)
    requires Milder(s, m) && Milder(m, r)
    ensures Milder(s, r)
  {
    hide Orderly;
  }

  lemma OtherEvents(
    scope: Scope, known: Accounts, s: App, e: Event, id: string, parent: string, network: string, sc: string)
    requires TidyRegistries(s) && Reconciler(e).None? && Keeps(scope, known, s, e, parent, network, sc)
             && Down(s, id, parent, network, sc) && !e.Retries?
    ensures Milder(s, Happen(scope, s, e)) && id in Happen(scope, s, e).children
  {
    hide Orderly, Lists, Reconciled, Suspended, SetManual, Closed, WithStatus, Milder;
    match e
    case Announces(p, networks) => AnnouncedIsMilder(s, p, networks);
    case Suspends(p) => SuspendedIsMilder(s, p, {p});
    case Establishes(c) =>
      UnchangedIsMilder(s, c);
    case Loses(c, failed) => StatusIsMilder(s, c, if failed then Failed else Disconnected, {c});
    case Disconnects(c) =>
      ManualIsMilder(s, c);
      SuspendedIsMilder(SetManual(s, c), c, {c});
      var left := Suspended(SetManual(s, c), c).(registries := s.registries - {c});
      MilderTwice(s, SetManual(s, c), left);
      QuietIsMilder(left, c);
      MilderTwice(s, left, Happen(scope, s, e));
    case Closes(c) => ClosedIsMilder(s, c, id);
    case Configures(c, connection) => ConfiguredIsMilder(s, c, connection);
  }

  lemma QuietIsMilder(s: App, id: string)
    requires forall p | p in s.registries :: Orderly(s.registries[p])
    ensures Milder(s, Quiet(s, id)) && Quiet(s, id).children == s.children
  {
    hide Orderly;
  }

  /** The timer starts no child that is not to be reconnected. */
  lemma RetryKeepsDown(
    scope: Scope, known: Accounts, s: App, retried: string, id: string, parent: string, network: string, sc: string)
    requires Fit(scope, known, s) && Down(s, id, parent, network, sc)
    ensures var r := Happen(scope, s, Retries(retried));
            Fit(scope, known, r) && Down(r, id, parent, network, sc)
  {
    if Due(s, retried) {
      var r := Happen(scope, s, Retries(retried));
      hide NamedBy, Separates;
      assert retried != id && r.children == s.children;
    }
  }

  lemma UnchangedIsMilder(s: App, id: string)
    requires TidyRegistries(s)
    ensures Milder(s, s) && Milder(s, WithStatus(s, id, Connected))
            && WithStatus(s, id, Connected).children == s.children
  {
    hide Orderly;
  }

  lemma AnnouncedIsMilder(s: App, parent: string, networks: seq<Network>)
    requires TidyRegistries(s) && Orderly(networks)
    ensures Milder(s, s.(registries := s.registries[parent := networks]))
  {
    hide Orderly;
  }

  lemma ConfiguredIsMilder(s: App, id: string, connection: Connection)
    requires TidyRegistries(s)
    ensures Milder(s, s)
    ensures id !in s.children ==> Milder(s, s.(connections := s.connections[id := connection]))
  {
    hide Orderly;
  }

  lemma HappenKeepsDown(
    scope: Scope, known: Accounts, s: App, e: Event, id: string, parent: string, network: string, sc: string)
    requires Fit(scope, known, s) && Down(s, id, parent, network, sc) && Keeps(scope, known, s, e, parent, network, sc)
    ensures Fit(scope, known, Happen(scope, s, e)) && Down(Happen(scope, s, e), id, parent, network, sc)
  {
    hide Separates, Sound, Reconciled;
    if e.Reconciles? {
      ReconciledKeepsDown(scope, known, s, e.parent, e.event, id, parent, network, sc);
    } else if e.Reconnects? {
      ReconnectedKeepsDown(scope, known, s, e.parent, e.network, id, parent, network, sc);
    } else if e.Retries? {
      RetryKeepsDown(scope, known, s, e.id, id, parent, network, sc);
    } else {
      OtherEvents(scope, known, s, e, id, parent, network, sc);
      var r := Happen(scope, s, e);
      hide Happen;
      MilderIsFit(scope, known, s, r);
    }
  }

  /**
   * Over every run of reconciliations, registry changes, suspensions, losses, disconnections, closings, reconnects of
   * other children and reconnect timers: while the network stays in the registry and the scope is unchanged, the child
   * stays where it is, disconnected by hand and not running.
   */
  lemma {:induction false} StaysDown(
    scope: Scope, known: Accounts, s: App, events: seq<Event>, id: string, parent: string, network: string, sc: string)
    requires Fit(scope, known, s) && Down(s, id, parent, network, sc)
             && AllKeep(scope, known, s, events, parent, network, sc)
    ensures Down(HappenAll(scope, s, events), id, parent, network, sc)
    decreases |events|
  {
    hide Fit, Down, Keeps, Happen;
    if events != [] {
      HappenKeepsDown(scope, known, s, events[0], id, parent, network, sc);
      StaysDown(scope, known, Happen(scope, s, events[0]), events[1..], id, parent, network, sc);
    }
  }

  /** This is where `/disconnect` of a child leads once its connection has ended. */
  lemma DisconnectedIsDown(scope: Scope, s: App, id: string, failed: bool)
    requires id in s.children && s.children[id].parent != id
    ensures var r := HappenAll(scope, s, [Disconnects(id), Loses(id, failed)]);
            Down(r, id, s.children[id].parent, s.children[id].network.id, s.children[id].scope)
  {
    var events := [Disconnects(id), Loses(id, failed)];
    var after := Happen(scope, s, events[0]);
    assert events[1..] == [Loses(id, failed)] && events[1..][1..] == [];
    assert HappenAll(scope, s, events) == HappenAll(scope, after, [Loses(id, failed)]) ==
           Happen(scope, after, Loses(id, failed));
  }

  // ----- asking for it again -----

  predicate Up(s: App, parent: string, network: string) {
    exists id ::
      id in s.children && IsChildOf(s.children[id], parent, network) && id in s.running && !s.children[id].manual
  }

  predicate Eager(s: App, parent: string, network: string) {
    exists id :: id in s.children && IsChildOf(s.children[id], parent, network) && s.children[id].suspended
      && !s.children[id].manual
  }

  lemma EagerStarts(scope: Scope, known: Accounts, s: App, parent: string, config: Config, n: Network)
    requires (parent, config.account) in known && Canonical(n.id)
    requires Separates(scope, known) && Sound(scope, known, s) && Eager(s, parent, n.id)
    ensures Up(ReconcileOne(scope, s, parent, config, n), parent, n.id)
  {
    var id :| id in s.children && IsChildOf(s.children[id], parent, n.id) && s.children[id].suspended
      && !s.children[id].manual;
    FoundIt(s, id, parent, n.id);
    if s.children[id].scope == scope(parent, config.account, n.id) && id in s.connections {
      hide Separates, Sound, FindChild, Network.Name;
      var r := ReconcileOne(scope, s, parent, config, n);
      assert id in r.children && id in r.running && IsChildOf(r.children[id], parent, n.id);
    } else {
      RecreatedIs(scope, known, s, id, parent, config, n);
      hide Separates, Sound, FindChild, Created;
      var r := ReconcileOne(scope, s, parent, config, n);
      var sc := scope(parent, config.account, n.id);
      var c :| c in r.children && c in r.running && r.children[c] == Child(parent, n, sc, false, false);
      assert IsChildOf(r.children[c], parent, n.id);
    }
  }

  lemma OthersKeep(scope: Scope, known: Accounts, s: App, parent: string, config: Config, n: Network, network: string)
    requires (parent, config.account) in known && Canonical(n.id)
    requires Separates(scope, known) && Sound(scope, known, s) && n.id != network
    ensures var r := ReconcileOne(scope, s, parent, config, n);
            && (Up(s, parent, network) ==> Up(r, parent, network))
               && (Eager(s, parent, network) ==> Eager(r, parent, network))
  {
    hide ReconcileOne, Separates, Sound;
    ReconcileOneIs(scope, known, s, parent, config, n);
    assert forall id | id in s.children && IsChildOf(s.children[id], parent, network) :: Elsewhere(s, id, parent, n.id);
  }

  lemma {:induction false} NetworksStart(
    scope: Scope, known: Accounts, s: App, parent: string, config: Config, networks: seq<Network>, network: string)
    requires (parent, config.account) in known
    requires Separates(scope, known) && Sound(scope, known, s) && Orderly(networks)
    requires if Lists(networks, network) then Eager(s, parent, network) else Up(s, parent, network)
    ensures Up(ReconcileNetworks(scope, s, parent, config, networks), parent, network)
    decreases |networks|
  {
    hide Separates, Sound, ReconcileOne, Up, Eager;
    if networks != [] {
      var first, rest := networks[0], networks[1..];
      assert first in networks && forall n | n in rest :: n.id != first.id && n in networks;
      assert forall n | n in networks :: n == first || n in rest;
      ReconcileOneIs(scope, known, s, parent, config, first);
      if first.id == network {
        EagerStarts(scope, known, s, parent, config, first);
      } else {
        OthersKeep(scope, known, s, parent, config, first, network);
      }
      NetworksStart(scope, known, ReconcileOne(scope, s, parent, config, first), parent, config, rest, network);
    }
  }

  /** `reconnect_bouncer_child` starts the child again, down by hand or not, whenever the registry has its network. */
  lemma ReconnectStarts(scope: Scope, known: Accounts, s: App, parent: string, network: string)
    requires Ready(scope, known, s, parent) && Lists(s.registries[parent], network)
    requires Reconnected(scope, s, parent, network).1
    ensures Up(Reconnected(scope, s, parent, network).0, parent, network)
  {
    hide Separates, ReconcileNetworks, Lists;
    var id := FindChild(s, parent, network).value;
    var ready := Asked(s, id);
    StillNamed(scope, known, id, s.children[id], ready.children[id]);
    assert Sound(scope, known, ready) by {
      hide NamedBy;
    }
    var gone := Obsolete(ready, parent, Changed(network), s.registries[parent]);
    WithoutIs(scope, known, ready, gone);
    assert Eager(ready, parent, network);
    EagerRemains(ready, gone, id, parent, network);
    hide Sound, Without, Eager, Up;
    NetworksStart(scope, known, Without(ready, gone), parent, s.connections[parent].config, s.registries[parent],
      network);
  }

  lemma EagerRemains(ready: App, gone: set<string>, id: string, parent: string, network: string)
    requires id in ready.children && id !in gone && IsChildOf(ready.children[id], parent, network)
    requires ready.children[id].suspended && !ready.children[id].manual
    ensures Eager(Without(ready, gone), parent, network)
  {
    assert id in Without(ready, gone).children;
  }
}
