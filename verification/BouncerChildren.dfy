/**
 * The child connections of src/app/bouncer_children.rs: a bouncer's control connection has a registry of networks, and
 * each network gets a connection of its own. Which connections exist, run or are configured is kept here as far as
 * these methods read or change it.
 */
module BouncerChildren {
  import opened Wrappers
  import Codecs
  import Text

  datatype Status = Connected | Connecting | Disconnected | Failed

  /** `account` stands for everything in the configuration that `network_scope` digests. */
  datatype Config = Config(control: bool, networkId: Option<string>, title: string, account: string,
    autoReconnect: Option<bool>)

  datatype Connection = Connection(status: Status, title: string, config: Config, shouldReconnect: bool)

  datatype Network = Network(id: string, attributes: map<string, string>) {
    function Name(): string { if "name" in attributes then attributes["name"] else id }
  }

  datatype Child = Child(parent: string, network: Network, scope: string, suspended: bool, manual: bool)

  datatype RegistryEvent = Snapshot | Changed(network: string)

  datatype App = App(
    children: map<string, Child>,
    connections: map<string, Connection>,
    /** The networks of each control connection, in key order. */
    registries: map<string, seq<Network>>,
    /** Connections with a handle or a connection attempt. */
    running: set<string>,
    /** Configured servers. */
    servers: set<string>)

  /** `network_scope` of a child: its parent's id, the account settings, and the network. */
  type Scope = (string, string, string) -> string

  // ----- network ids -----

  const I64_MAX: nat := 0x7FFF_FFFF_FFFF_FFFF

  /** A positive number in decimal, without leading zeros. */
  ghost predicate Canonical(id: string) { exists n: nat | n > 0 :: id == Codecs.NatToDecimal(n) }

  /** `normalize_network_id`, through which every network id enters a registry. */
  function NormalizeNetworkId(value: string): (id: Option<string>)
    ensures id.Some? ==> Canonical(id.value)
  {
    match Text.ParseUnsigned(value, I64_MAX)
    case Some(n) => if n > 0 && value[0] != '+' then Some(Codecs.NatToDecimal(n)) else None
    case None => None
  }

  // ----- fresh ids -----

  function Candidate(base: string, k: nat): string {
    if k == 0 then base else base + ":" + Codecs.NatToDecimal(k)
  }

  /** The first candidate from the k-th on that is not taken. */
  function FirstFree(base: string, taken: set<string>, k: nat): string
    decreases |taken|
  {
    if Candidate(base, k) in taken then FirstFree(base, taken - {Candidate(base, k)}, k + 1) else Candidate(base, k)
  }

  lemma CandidatesDiffer(base: string, j: nat, k: nat)
    ensures Candidate(base, j) == Candidate(base, k) <==> j == k
  {
    if Candidate(base, j) == Candidate(base, k) {
      var prefix := base + ":";
      assert j > 0 ==> Candidate(base, j)[|base|..] == ":" + Codecs.NatToDecimal(j);
      assert k > 0 ==> Candidate(base, k)[|base|..] == ":" + Codecs.NatToDecimal(k);
      if j > 0 && k > 0 {
        assert (":" + Codecs.NatToDecimal(j))[1..] == Codecs.NatToDecimal(j);
        assert (":" + Codecs.NatToDecimal(k))[1..] == Codecs.NatToDecimal(k);
        Codecs.ParseIntToDecimal(j);
        Codecs.ParseIntToDecimal(k);
      }
    }
  }

  /** It is a candidate that is not taken, and every earlier one is. */
  lemma {:induction false} FirstFreeIs(base: string, taken: set<string>, k: nat) returns (n: nat)
    ensures k <= n && FirstFree(base, taken, k) == Candidate(base, n) && Candidate(base, n) !in taken
    ensures forall j | k <= j < n :: Candidate(base, j) in taken
    decreases |taken|
  {
    hide Candidate;
    if Candidate(base, k) in taken {
      n := FirstFreeIs(base, taken - {Candidate(base, k)}, k + 1);
      CandidatesDiffer(base, n, k);
    } else {
      n := k;
    }
  }

  /** One of the first n candidates. */
  predicate Tried(base: string, id: string, n: nat) {
    exists j: nat | j < n :: id == Candidate(base, j)
  }

  lemma TriedNext(base: string, n: nat)
    ensures !Tried(base, Candidate(base, n), n) && Tried(base, Candidate(base, n), n + 1)
    ensures forall id | Tried(base, id, n) :: Tried(base, id, n + 1)
  {
    hide Candidate;
    if Tried(base, Candidate(base, n), n) {
      var j: nat :| j < n && Candidate(base, n) == Candidate(base, j);
      CandidatesDiffer(base, j, n);
    }
  }

  /** The suffix loop: it ends, since the candidates are distinct and only finitely many ids are taken. */
  method FreshId(base: string, taken: set<string>) returns (id: string)
    ensures id == FirstFree(base, taken, 0)
  {
    hide Candidate, Tried;
    id := base;
    var suffix: nat := 1;
    ghost var rest, n: nat := taken, 0;
    BaseIsFirst(base);
    while id in taken
      invariant suffix == n + 1 && id == Candidate(base, n)
      invariant rest <= taken && forall c | c in taken - rest :: Tried(base, c, n)
      invariant FirstFree(base, rest, n) == FirstFree(base, taken, 0)
      decreases rest
    {
      TriedNext(base, n);
      assert id in rest;
      SuffixIsNext(base, suffix);
      forall c | c in taken - (rest - {id})
        ensures Tried(base, c, n + 1)
      {
        assert c == id || c in taken - rest;
      }
      rest, n := rest - {id}, n + 1;
      id := base + ":" + Codecs.NatToDecimal(suffix);
      suffix := suffix + 1;
    }
  }

  lemma BaseIsFirst(base: string)
    ensures Candidate(base, 0) == base
  {
  }

  lemma SuffixIsNext(base: string, suffix: nat)
    requires suffix > 0
    ensures Candidate(base, suffix) == base + ":" + Codecs.NatToDecimal(suffix)
  {
  }

  // ----- stopping and removing -----

  predicate Active(s: App, id: string) {
    id in s.running
      || (id in s.connections && (s.connections[id].status == Connected || s.connections[id].status == Connecting))
  }

  function StoppedConnection(c: Connection, active: bool): Connection {
    var quiet := c.(shouldReconnect := false);
    if active then quiet.(status := Disconnected) else quiet
  }

  /** `stop_bouncer_child`. */
  function Stopped(s: App, id: string): App {
    var stopped := s.(running := s.running - {id});
    if id in s.connections then
      stopped.(connections := s.connections[id := StoppedConnection(s.connections[id], Active(s, id))])
    else stopped
  }

  /** `remove_bouncer_child`, for every child in a set. */
  function Without(s: App, ids: set<string>): App {
    s.(children := s.children - ids, connections := s.connections - ids, running := s.running - ids)
  }

  function Unsuspended(s: App, parent: string): set<string> {
    set id | id in s.children && s.children[id].parent == parent && !s.children[id].suspended
  }

  /** `suspend_bouncer_children`. */
  function Suspended(s: App, parent: string): App {
    var ids := Unsuspended(s, parent);
    s.(children := map id | id in s.children ::
                     if id in ids then s.children[id].(suspended := true) else s.children[id],
       connections := map id | id in s.connections ::
                        if id in ids then StoppedConnection(s.connections[id], Active(s, id)) else s.connections[id],
       running := s.running - ids)
  }

  // ----- reconciling -----

  predicate IsChildOf(child: Child, parent: string, network: string) {
    child.parent == parent && child.network.id == network
  }

  /** The child of a network; a registry has one, so the order of the search does not matter. */
  ghost function FindChild(s: App, parent: string, network: string): (r: Option<string>)
    ensures r.Some? ==> r.value in s.children && IsChildOf(s.children[r.value], parent, network)
    ensures r.None? ==> forall id | id in s.children :: !IsChildOf(s.children[id], parent, network)
  {
    if exists id :: id in s.children && IsChildOf(s.children[id], parent, network) then
      var id :| id in s.children && IsChildOf(s.children[id], parent, network);
      Some(id)
    else None
  }

  function ChildConfig(parent: string, config: Config, network: Network): Config {
    config.(control := false, networkId := Some(network.id),
            title := network.Name() + " [" + parent + ":" + network.id + "]")
  }

  function NewConnection(config: Config): Connection {
    Connection(Connecting, config.title, config, config.autoReconnect.UnwrapOr(true))
  }

  /** A new child, under the first free id. */
  function Created(s: App, parent: string, config: Config, network: Network, scope: string): App {
    var id := FirstFree("_bouncer:" + scope, s.connections.Keys + s.servers, 0);
    s.(children := s.children[id := Child(parent, network, scope, false, false)],
       connections := s.connections[id := NewConnection(config)],
       running := s.running + {id})
  }

  function Restarted(c: Connection, config: Config): Connection {
    c.(config := config, shouldReconnect := config.autoReconnect.UnwrapOr(true), status := Connecting)
  }

  /** An existing child is renamed and updated, and started again if it was suspended and not disconnected by hand. */
  function Updated(s: App, id: string, config: Config, network: Network): App
    requires id in s.children && id in s.connections
  {
    var child := s.children[id];
    var c := s.connections[id];
    var renamed :=
      if c.title == config.title then c else c.(title := config.title, config := c.config.(title := config.title));
    var restart := child.suspended && !child.manual;
    s.(children := s.children[id := child.(network := network, suspended := false)],
       connections := s.connections[id := if restart then Restarted(renamed, config) else renamed],
       running := if restart then s.running + {id} else s.running)
  }

  /** `reconcile_bouncer_child`. */
  ghost function ReconcileOne(scope: Scope, s: App, parent: string, parentConfig: Config, network: Network): App {
    var config := ChildConfig(parent, parentConfig, network);
    var sc := scope(parent, parentConfig.account, network.id);
    match FindChild(s, parent, network.id)
    case None => Created(s, parent, config, network, sc)
    case Some(id) =>
      if id !in s.connections && s.children[id].manual then
        s.(children := s.children[id := s.children[id].(network := network)])
      else if s.children[id].scope == sc && id in s.connections then Updated(s, id, config, network)
      else Created(Without(s, {id}), parent, config, network, sc)
  }

  ghost function ReconcileNetworks(scope: Scope, s: App, parent: string, config: Config, networks: seq<Network>): App
    decreases |networks|
  {
    if networks == [] then s
    else ReconcileNetworks(scope, ReconcileOne(scope, s, parent, config, networks[0]), parent, config, networks[1..])
  }

  predicate Lists(networks: seq<Network>, id: string) { exists n | n in networks :: n.id == id }

  predicate Covers(event: RegistryEvent, network: string) { event.Snapshot? || event.network == network }

  function Obsolete(s: App, parent: string, event: RegistryEvent, networks: seq<Network>): set<string> {
    set id | id in s.children && s.children[id].parent == parent && Covers(event, s.children[id].network.id)
             && !Lists(networks, s.children[id].network.id)
  }

  predicate Governs(s: App, parent: string) {
    parent in s.connections && s.connections[parent].status == Connected && s.connections[parent].config.control
    && parent in s.registries
  }

  /** `reconcile_bouncer_children`. */
  ghost function Reconciled(scope: Scope, s: App, parent: string, event: RegistryEvent): App {
    if !Governs(s, parent) then s
    else
      var networks := s.registries[parent];
      ReconcileNetworks(scope, Without(s, Obsolete(s, parent, event, networks)), parent, s.connections[parent].config,
        networks)
  }

  /** `reconnect_bouncer_child`. */
  ghost function Reconnected(scope: Scope, s: App, parent: string, network: string): (App, bool) {
    if parent !in s.connections || s.connections[parent].status != Connected then (s, false)
    else match FindChild(s, parent, network)
      case None => (s, false)
      case Some(id) =>
        if id in s.running then (s, false)
        else
          var ready := s.(children := s.children[id := s.children[id].(manual := false, suspended := true)]);
          (Reconciled(scope, ready, parent, Changed(network)), true)
  }
}
