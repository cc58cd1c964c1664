// The list the controller pushes to a client: its enabled proxies, grouped by the node they run on.
module ProxyList {
  import opened Text
  import opened Wrappers

  datatype ProxyRow = ProxyRow(id: int, client: Option<string>, node: Option<int>, enabled: bool, name: string,
                               kind: string, localIp: string, localPort: int, remotePort: int)
  datatype Kcp = Kcp(nodelay: bool, interval: int, resend: int, nc: bool)

  /** `kcp` is what the settings column parses to: absent or malformed settings are `None`. */
  datatype NodeRow = NodeRow(id: int, addr: string, port: int, protocol: string, kcp: Option<Kcp>)

  ghost predicate DistinctIds(proxies: seq<ProxyRow>) {
    forall i, j | 0 <= i < j < |proxies| :: proxies[i].id != proxies[j].id
  }

  ghost predicate DistinctNodes(nodes: seq<NodeRow>) {
    forall i, j | 0 <= i < j < |nodes| :: nodes[i].id != nodes[j].id
  }

  /** Rows in the order the queries return them; ids are primary keys. */
  datatype Tables = Tables(clients: map<int, string>, proxies: seq<ProxyRow>, nodes: seq<NodeRow>,
                           fingerprints: map<int, string>) {
    ghost predicate Valid() {
      DistinctNodes(nodes) && DistinctIds(proxies)
    }
  }

  datatype ProxyInfo = ProxyInfo(id: int, name: string, kind: string, localIp: string, localPort: int, remotePort: int,
                                 enabled: bool)
  datatype Group = Group(node: int, addr: string, port: int, protocol: string, kcp: Option<Kcp>,
                         proxies: seq<ProxyInfo>, fingerprints: seq<string>)
  datatype ProxyListUpdate = ProxyListUpdate(client: int, name: string, groups: seq<Group>)

  function Info(p: ProxyRow): ProxyInfo {
    ProxyInfo(p.id, p.name, p.kind, p.localIp, p.localPort, p.remotePort, p.enabled)
  }

  /** The rows the query returns for a client; the column holds the client id as text. */
  function Selected(proxies: seq<ProxyRow>, client: string): seq<ProxyRow> {
    if proxies == [] then []
    else
      var p := proxies[|proxies| - 1];
      Selected(proxies[..|proxies| - 1], client) + if p.client == Some(client) && p.enabled then [p] else []
  }

  function OnNode(proxies: seq<ProxyRow>, node: int): seq<ProxyInfo> {
    if proxies == [] then []
    else
      var p := proxies[|proxies| - 1];
      OnNode(proxies[..|proxies| - 1], node) + if p.node == Some(node) then [Info(p)] else []
  }

  function GroupOf(n: NodeRow, proxies: seq<ProxyInfo>, fingerprints: map<int, string>): Group {
    Group(n.id, n.addr, n.port % 0x1_0000_0000, n.protocol, n.kcp, proxies,
          if n.id in fingerprints then [fingerprints[n.id]] else [])
  }

  /** One group per node row that carries a selected proxy, in the order of the node rows. */
  function GroupsOf(nodes: seq<NodeRow>, selected: seq<ProxyRow>, fingerprints: map<int, string>): seq<Group> {
    if nodes == [] then []
    else
      var n := nodes[|nodes| - 1];
      var infos := OnNode(selected, n.id);
      GroupsOf(nodes[..|nodes| - 1], selected, fingerprints)
        + if infos == [] then [] else [GroupOf(n, infos, fingerprints)]
  }

  method BuildProxyListUpdate(db: Tables, client: int) returns (r: Result<ProxyListUpdate, string>)
    requires db.Valid()
    ensures r.Success? <==> client in db.clients
    ensures r.Success? ==> r.value == ProxyListUpdate(client, db.clients[client],
                                                     GroupsOf(db.nodes, Selected(db.proxies, Decimal(client)),
                                                       db.fingerprints))
  {
    if client !in db.clients {
      return Failure("client not found");
    }
    var selected := Selected(db.proxies, Decimal(client));
    var byNode := GroupByNode(selected);
    var groups := CollectGroups(db.nodes, byNode, selected, db.fingerprints);
    return Success(ProxyListUpdate(client, db.clients[client], groups));
  }

  /** `byNode` lists the proxies of every node that has any. */
  ghost predicate IsByNode(byNode: map<int, seq<ProxyInfo>>, proxies: seq<ProxyRow>) {
    forall n :: if n in byNode then byNode[n] == OnNode(proxies, n) != [] else OnNode(proxies, n) == []
  }

  method GroupByNode(proxies: seq<ProxyRow>) returns (byNode: map<int, seq<ProxyInfo>>)
    ensures IsByNode(byNode, proxies)
  {
    byNode := map[];
    for i := 0 to |proxies|
      invariant IsByNode(byNode, proxies[..i])
    {
      assert proxies[..i + 1][..i] == proxies[..i];
      match proxies[i].node {
        case None =>
        case Some(n) =>
          byNode := byNode[n := (if n in byNode then byNode[n] else []) + [Info(proxies[i])]];
      }
    }
    assert proxies[..|proxies|] == proxies;
  }

  /** The groups are taken out of the map one by one. */
  method CollectGroups(nodes: seq<NodeRow>, byNode: map<int, seq<ProxyInfo>>, ghost proxies: seq<ProxyRow>,
                       fingerprints: map<int, string>) returns (groups: seq<Group>)
    requires IsByNode(byNode, proxies)
    requires DistinctNodes(nodes)
    ensures groups == GroupsOf(nodes, proxies, fingerprints)
  {
    groups := [];
    var left := byNode;
    for i := 0 to |nodes|
      invariant groups == GroupsOf(nodes[..i], proxies, fingerprints)
      invariant left.Keys <= byNode.Keys && forall n | n in left :: left[n] == byNode[n]
      invariant forall j | i <= j < |nodes| && nodes[j].id in byNode :: nodes[j].id in left
    {
      assert nodes[..i + 1][..i] == nodes[..i];
      var n := nodes[i];
      if n.id in left {
        groups := groups + [GroupOf(n, left[n.id], fingerprints)];
        left := left - {n.id};
      } else {
        assert OnNode(proxies, n.id) == [];
      }
    }
    assert nodes[..|nodes|] == nodes;
  }

  // ----- Every proxy in exactly one group -----------------------------------------------

  function CountIn(infos: seq<ProxyInfo>, id: int): nat {
    if infos == [] then 0
    else CountIn(infos[..|infos| - 1], id) + if infos[|infos| - 1].id == id then 1 else 0
  }

  /** How often a proxy id occurs in all groups together. */
  function Occurrences(groups: seq<Group>, id: int): nat {
    if groups == [] then 0
    else Occurrences(groups[..|groups| - 1], id) + CountIn(groups[|groups| - 1].proxies, id)
  }

  ghost predicate DistinctGroups(groups: seq<Group>) {
    forall i, j | 0 <= i < j < |groups| :: groups[i].node != groups[j].node
  }

  lemma {:induction false} SelectedMembers(proxies: seq<ProxyRow>, client: string)
    ensures forall p :: p in Selected(proxies, client) <==> p in proxies && p.client == Some(client) && p.enabled
    ensures DistinctIds(proxies) ==> DistinctIds(Selected(proxies, client))
  {
    if proxies != [] {
      var most := proxies[..|proxies| - 1];
      SelectedMembers(most, client);
      assert proxies == most + [proxies[|proxies| - 1]];
      if DistinctIds(proxies) {
        forall p | p in Selected(most, client) ensures p.id != proxies[|proxies| - 1].id {
          assert p in most;
        }
      }
    }
  }

  ghost predicate HasProxy(proxies: seq<ProxyRow>, node: int, id: int) {
    exists p :: p in proxies && p.id == id && p.node == Some(node)
  }

  /** `info` says of a proxy what its row says, field by field. */
  ghost predicate Describes(info: ProxyInfo, p: ProxyRow) {
    && info.id == p.id && info.name == p.name && info.kind == p.kind && info.localIp == p.localIp
    && info.localPort == p.localPort && info.remotePort == p.remotePort && info.enabled == p.enabled
  }

  /** `g` says of a node what its row says; the port is read as 32 unsigned bits. */
  ghost predicate Heads(g: Group, n: NodeRow, fingerprints: map<int, string>) {
    && g.node == n.id && g.addr == n.addr && g.protocol == n.protocol && g.kcp == n.kcp
    && 0 <= g.port < 0x1_0000_0000 && (g.port - n.port) % 0x1_0000_0000 == 0
    && |g.fingerprints| <= 1 && forall f :: f in g.fingerprints <==> n.id in fingerprints && fingerprints[n.id] == f
  }

  lemma {:induction false} CountOnNode(proxies: seq<ProxyRow>, node: int, id: int)
    requires DistinctIds(proxies)
    ensures CountIn(OnNode(proxies, node), id) == if HasProxy(proxies, node, id) then 1 else 0
    ensures forall info | info in OnNode(proxies, node) ::
      exists p :: p in proxies && p.node == Some(node) && Describes(info, p)
  {
    if proxies != [] {
      var most, last := proxies[..|proxies| - 1], proxies[|proxies| - 1];
      CountOnNode(most, node, id);
      assert proxies == most + [last];
      assert forall p | p in most :: p.id != last.id;
      assert HasProxy(proxies, node, id) <==> HasProxy(most, node, id) || (last.id == id && last.node == Some(node));
      if last.node == Some(node) {
        CountAppend(OnNode(most, node), Info(last), id);
      } else {
        assert OnNode(proxies, node) == OnNode(most, node);
      }
      forall info | info in OnNode(proxies, node)
        ensures exists p :: p in proxies && p.node == Some(node) && Describes(info, p)
      {
        if info in OnNode(most, node) {
          var p :| p in most && p.node == Some(node) && Describes(info, p);
          assert p in proxies;
        } else {
          assert Describes(info, last);
        }
      }
    }
  }

  /** The rows of a client are selected in their order. */
  lemma {:induction false} SelectedInOrder(proxies: seq<ProxyRow>, client: string, a: nat, b: nat)
    requires a < b < |Selected(proxies, client)|
    ensures var selected := Selected(proxies, client);
      exists i, j :: 0 <= i < j < |proxies| && selected[a] == proxies[i] && selected[b] == proxies[j]
  {
    var most := proxies[..|proxies| - 1];
    var before := Selected(most, client);
    SelectedMembers(most, client);
    if b < |before| {
      SelectedInOrder(most, client, a, b);
      var i, j :| 0 <= i < j < |most| && before[a] == most[i] && before[b] == most[j];
      assert proxies[i] == most[i] && proxies[j] == most[j];
    } else {
      assert before[a] in most;
      var i :| 0 <= i < |most| && most[i] == before[a];
      assert proxies[i] == most[i] && Selected(proxies, client)[b] == proxies[|proxies| - 1];
    }
  }

  /** The entries of a node stand in the order of their rows. */
  lemma {:induction false} OnNodeInOrder(proxies: seq<ProxyRow>, node: int, a: nat, b: nat)
    requires a < b < |OnNode(proxies, node)|
    ensures var infos := OnNode(proxies, node);
      exists i, j :: 0 <= i < j < |proxies| && Describes(infos[a], proxies[i]) && Describes(infos[b], proxies[j])
  {
    var most := proxies[..|proxies| - 1];
    if b < |OnNode(most, node)| {
      OnNodeInOrder(most, node, a, b);
      var i, j :| 0 <= i < j < |most|
        && Describes(OnNode(most, node)[a], most[i]) && Describes(OnNode(most, node)[b], most[j]);
      assert proxies[i] == most[i] && proxies[j] == most[j];
    } else {
      var i := EntryHasRow(most, node, a);
      assert proxies[i] == most[i] && Describes(OnNode(proxies, node)[b], proxies[|proxies| - 1]);
    }
  }

  lemma {:induction false} EntryHasRow(proxies: seq<ProxyRow>, node: int, a: nat) returns (i: nat)
    requires a < |OnNode(proxies, node)|
    ensures i < |proxies| && Describes(OnNode(proxies, node)[a], proxies[i])
  {
    var most := proxies[..|proxies| - 1];
    if a < |OnNode(most, node)| {
      i := EntryHasRow(most, node, a);
    } else {
      i := |most|;
    }
  }

  /** And the groups in the order of the node rows. */
  lemma {:induction false} GroupsInOrder(nodes: seq<NodeRow>, selected: seq<ProxyRow>, fingerprints: map<int, string>,
                                         a: nat, b: nat)
    requires a < b < |GroupsOf(nodes, selected, fingerprints)|
    ensures var groups := GroupsOf(nodes, selected, fingerprints);
      exists i, j :: 0 <= i < j < |nodes| && nodes[i].id == groups[a].node && nodes[j].id == groups[b].node
  {
    var most := nodes[..|nodes| - 1];
    var groups, before := GroupsOf(nodes, selected, fingerprints), GroupsOf(most, selected, fingerprints);
    if b < |before| {
      GroupsInOrder(most, selected, fingerprints, a, b);
      var i, j :| 0 <= i < j < |most| && most[i].id == before[a].node && most[j].id == before[b].node;
      assert nodes[i] == most[i] && nodes[j] == most[j];
    } else {
      var i := GroupHasRow(most, selected, fingerprints, a);
      assert nodes[i] == most[i] && nodes[|nodes| - 1].id == groups[b].node;
    }
  }

  lemma {:induction false} GroupHasRow(nodes: seq<NodeRow>, selected: seq<ProxyRow>, fingerprints: map<int, string>,
                                       a: nat) returns (i: nat)
    requires a < |GroupsOf(nodes, selected, fingerprints)|
    ensures i < |nodes| && nodes[i].id == GroupsOf(nodes, selected, fingerprints)[a].node
  {
    var most := nodes[..|nodes| - 1];
    if a < |GroupsOf(most, selected, fingerprints)| {
      i := GroupHasRow(most, selected, fingerprints, a);
    } else {
      i := |most|;
    }
  }

  lemma CountAppend(infos: seq<ProxyInfo>, info: ProxyInfo, id: int)
    ensures CountIn(infos + [info], id) == CountIn(infos, id) + if info.id == id then 1 else 0
  {
  }

  lemma OccurrencesAppend(groups: seq<Group>, g: Group, id: int)
    ensures Occurrences(groups + [g], id) == Occurrences(groups, id) + CountIn(g.proxies, id)
  {
  }

  /** A selected proxy whose node has a row. */
  ghost predicate Placed(nodes: seq<NodeRow>, selected: seq<ProxyRow>, id: int) {
    exists n :: n in nodes && HasProxy(selected, n.id, id)
  }

  lemma {:induction false} GroupsPlaceOnce(nodes: seq<NodeRow>, selected: seq<ProxyRow>,
                                           fingerprints: map<int, string>, id: int)
    requires DistinctNodes(nodes) && DistinctIds(selected)
    ensures Occurrences(GroupsOf(nodes, selected, fingerprints), id) == if Placed(nodes, selected, id) then 1 else 0
  {
    if nodes != [] {
      var most, last := nodes[..|nodes| - 1], nodes[|nodes| - 1];
      var before, infos := GroupsOf(most, selected, fingerprints), OnNode(selected, last.id);
      GroupsPlaceOnce(most, selected, fingerprints, id);
      CountOnNode(selected, last.id, id);
      if infos == [] {
        assert GroupsOf(nodes, selected, fingerprints) == before;
      } else {
        OccurrencesAppend(before, GroupOf(last, infos, fingerprints), id);
      }
      PlacedStep(nodes, selected, id);
    }
  }

  lemma PlacedStep(nodes: seq<NodeRow>, selected: seq<ProxyRow>, id: int)
    requires nodes != [] && DistinctNodes(nodes) && DistinctIds(selected)
    ensures var most, last := Placed(nodes[..|nodes| - 1], selected, id), HasProxy(selected, nodes[|nodes| - 1].id, id);
            (Placed(nodes, selected, id) <==> most || last) && !(most && last)
  {
  }

  lemma SameIdSameRow(proxies: seq<ProxyRow>, p: ProxyRow, q: ProxyRow)
    requires DistinctIds(proxies) && p in proxies && q in proxies && p.id == q.id
    ensures p == q
  {
  }

  lemma {:induction false} GroupsAreDistinct(nodes: seq<NodeRow>, selected: seq<ProxyRow>,
                                             fingerprints: map<int, string>)
    requires DistinctNodes(nodes)
    ensures DistinctGroups(GroupsOf(nodes, selected, fingerprints))
    ensures forall g | g in GroupsOf(nodes, selected, fingerprints) ::
      exists n :: n in nodes && g == GroupOf(n, OnNode(selected, n.id), fingerprints)
  {
    if nodes != [] {
      var most := nodes[..|nodes| - 1];
      GroupsAreDistinct(most, selected, fingerprints);
      assert nodes == most + [nodes[|nodes| - 1]];
      assert forall n | n in most :: n.id != nodes[|nodes| - 1].id;
      forall g | g in GroupsOf(most, selected, fingerprints) ensures g.node != nodes[|nodes| - 1].id {
        var n :| n in most && g == GroupOf(n, OnNode(selected, n.id), fingerprints);
      }
    }
  }

  /** Every enabled proxy of the client whose node has a row is in the groups exactly once, in the
      group of its node; no other proxy is in any group; the groups have distinct nodes; and each
      group and entry says what the rows say. */
  lemma ListIsComplete(db: Tables, client: int)
    requires db.Valid()
    ensures var groups := GroupsOf(db.nodes, Selected(db.proxies, Decimal(client)), db.fingerprints);
      && DistinctGroups(groups)
      && (forall g | g in groups :: exists n :: n in db.nodes && Heads(g, n, db.fingerprints))
      && (forall p | p in db.proxies :: Occurrences(groups, p.id) ==
            if p.client == Some(Decimal(client)) && p.enabled
               && exists n :: n in db.nodes && p.node == Some(n.id) then 1 else 0)
      && (forall g, info | g in groups && info in g.proxies ::
            exists p :: p in db.proxies && p.enabled && p.client == Some(Decimal(client)) && p.node == Some(g.node)
              && Describes(info, p))
  {
    var selected := Selected(db.proxies, Decimal(client));
    var groups := GroupsOf(db.nodes, selected, db.fingerprints);
    SelectedMembers(db.proxies, Decimal(client));
    GroupsAreDistinct(db.nodes, selected, db.fingerprints);
    forall p | p in db.proxies ensures Occurrences(groups, p.id) ==
      if p.client == Some(Decimal(client)) && p.enabled
         && exists n :: n in db.nodes && p.node == Some(n.id) then 1 else 0
    {
      GroupsPlaceOnce(db.nodes, selected, db.fingerprints, p.id);
      forall q | q in selected && q.id == p.id ensures q == p {
        SameIdSameRow(db.proxies, p, q);
      }
    }
    forall g | g in groups ensures exists n :: n in db.nodes && Heads(g, n, db.fingerprints) {
      var n :| n in db.nodes && g == GroupOf(n, OnNode(selected, n.id), db.fingerprints);
      assert Heads(g, n, db.fingerprints);
    }
    forall g, info | g in groups && info in g.proxies
      ensures exists p :: p in db.proxies && p.enabled && p.client == Some(Decimal(client)) && p.node == Some(g.node)
                       && Describes(info, p)
    {
      CountOnNode(selected, g.node, info.id);
    }
  }

  lemma {:induction false} OnNodeIds(proxies: seq<ProxyRow>, node: int)
    ensures (set info | info in OnNode(proxies, node) :: info.id)
      == set p | p in proxies && p.node == Some(node) :: p.id
  {
    if proxies != [] {
      var most, last := proxies[..|proxies| - 1], proxies[|proxies| - 1];
      OnNodeIds(most, node);
      assert proxies == most + [last];
      var rest := set p | p in most && p.node == Some(node) :: p.id;
      assert (set p | p in proxies && p.node == Some(node) :: p.id)
        == rest + if last.node == Some(node) then {last.id} else {};
      var before := OnNode(most, node);
      if last.node == Some(node) {
        assert Info(last) in OnNode(proxies, node);
        assert forall info | info in before :: info in OnNode(proxies, node);
        assert (set info | info in OnNode(proxies, node) :: info.id) == (set info | info in before :: info.id)
          + {last.id};
      } else {
        assert OnNode(proxies, node) == before;
      }
    }
  }

  lemma {:induction false} GroupsCover(nodes: seq<NodeRow>, selected: seq<ProxyRow>, fingerprints: map<int, string>,
                                       n: NodeRow)
    requires n in nodes && OnNode(selected, n.id) != []
    ensures GroupOf(n, OnNode(selected, n.id), fingerprints) in GroupsOf(nodes, selected, fingerprints)
  {
    var most := nodes[..|nodes| - 1];
    assert nodes == most + [nodes[|nodes| - 1]];
    if n in most {
      GroupsCover(most, selected, fingerprints, n);
    }
  }

  /** No proxy is ever listed for two clients. */
  lemma OneClientEach(proxies: seq<ProxyRow>, client: int, other: int, p: ProxyRow)
    requires p in Selected(proxies, Decimal(client)) && p in Selected(proxies, Decimal(other))
    ensures client == other
  {
    SelectedMembers(proxies, Decimal(client));
    SelectedMembers(proxies, Decimal(other));
    DecimalIsInjective(client, other);
  }
}
