// Pushing a client its proxy list after each change of the tables. A notification builds the list first
// and sends it later, so notifications can overtake each other. One client in one session.
module Notifications {
  import C = ConnectionManager
  import opened ProxyList
  import opened Text
  import opened Wrappers

  /** `at` is history: how many changes the tables had seen when the list was built. */
  datatype Pc = Started | Built(groups: seq<Group>, at: nat) | Pushed

  datatype Sent = Sent(groups: seq<Group>, at: nat)

  datatype State = State(db: Tables, changes: nat, pcs: seq<Pc>, sent: seq<Sent>)

  datatype Action = Change(db: Tables) | Notify | Build(task: nat) | Push(task: nat)

  function ListFor(db: Tables, client: int): seq<Group> {
    GroupsOf(db.nodes, Selected(db.proxies, Decimal(client)), db.fingerprints)
  }

  predicate Enabled(s: State, a: Action) {
    match a
    case Change(_) | Notify => true
    case Build(t) => t < |s.pcs| && s.pcs[t].Started?
    case Push(t) => t < |s.pcs| && s.pcs[t].Built?
  }

  function Next(s: State, a: Action, client: int): State
    requires Enabled(s, a)
  {
    match a
    case Change(db) => s.(db := db, changes := s.changes + 1)
    case Notify => s.(pcs := s.pcs + [Started])
    case Build(t) => s.(pcs := s.pcs[t := Built(ListFor(s.db, client), s.changes)])
    case Push(t) => s.(pcs := s.pcs[t := Pushed], sent := s.sent + [Sent(s.pcs[t].groups, s.pcs[t].at)])
  }

  ghost predicate IsRun(client: int, states: seq<State>, actions: seq<Action>) {
    && |states| == |actions| + 1
    && states[0].changes == 0 && states[0].pcs == [] && states[0].sent == []
    && forall k | 0 <= k < |actions| ::
      Enabled(states[k], actions[k]) && states[k + 1] == Next(states[k], actions[k], client)
  }

  // ----- Which list is sent last --------------------------------------------------------

  /** A list that was built from the tables as they were after `at` changes. */
  ghost predicate BuiltFrom(client: int, states: seq<State>, upTo: nat, groups: seq<Group>, at: nat)
    requires upTo < |states|
  {
    exists x: nat :: x <= upTo && states[x].changes == at && ListFor(states[x].db, client) == groups
  }

  /** Built by state `k`, and current in that state if no change came after. */
  ghost predicate Listed(client: int, states: seq<State>, k: nat, groups: seq<Group>, at: nat)
    requires k < |states|
  {
    && at <= states[k].changes && BuiltFrom(client, states, k, groups, at)
    && (at == states[k].changes ==> groups == ListFor(states[k].db, client))
  }

  ghost predicate ListInv(client: int, states: seq<State>, k: nat)
    requires k < |states|
  {
    var s := states[k];
    && (forall t | 0 <= t < |s.pcs| && s.pcs[t].Built? :: Listed(client, states, k, s.pcs[t].groups, s.pcs[t].at))
    && forall j | 0 <= j < |s.sent| :: Listed(client, states, k, s.sent[j].groups, s.sent[j].at)
  }

  lemma StaysListed(client: int, states: seq<State>, actions: seq<Action>, k: nat, groups: seq<Group>, at: nat)
    requires IsRun(client, states, actions) && k < |actions| && Listed(client, states, k, groups, at)
    ensures Listed(client, states, k + 1, groups, at)
  {
    var x: nat :| x <= k && states[x].changes == at && ListFor(states[x].db, client) == groups;
    assert x <= k + 1 && Enabled(states[k], actions[k]);
  }

  lemma ListedWhenBuilt(client: int, states: seq<State>, actions: seq<Action>, k: nat)
    requires IsRun(client, states, actions) && k < |actions| && actions[k].Build?
    ensures Listed(client, states, k + 1, ListFor(states[k].db, client), states[k].changes)
  {
    assert Enabled(states[k], actions[k]);
    assert states[k].changes == states[k].changes && ListFor(states[k].db, client) == ListFor(states[k].db, client);
  }

  lemma {:induction false} ListInvHolds(client: int, states: seq<State>, actions: seq<Action>, k: nat)
    requires IsRun(client, states, actions) && k < |states|
    ensures ListInv(client, states, k)
  {
    if k > 0 {
      ListInvHolds(client, states, actions, k - 1);
      var s, n, a := states[k - 1], states[k], actions[k - 1];
      assert Enabled(s, a) && n == Next(s, a, client);
      forall t | 0 <= t < |n.pcs| && n.pcs[t].Built? ensures Listed(client, states, k, n.pcs[t].groups, n.pcs[t].at) {
        if a == Build(t) {
          ListedWhenBuilt(client, states, actions, k - 1);
        } else {
          assert t < |s.pcs| && n.pcs[t] == s.pcs[t];
          StaysListed(client, states, actions, k - 1, s.pcs[t].groups, s.pcs[t].at);
        }
      }
      forall j | 0 <= j < |n.sent| ensures Listed(client, states, k, n.sent[j].groups, n.sent[j].at) {
        SentIsListed(client, states, actions, k - 1, j);
      }
    }
  }

  lemma SentIsListed(client: int, states: seq<State>, actions: seq<Action>, k: nat, j: nat)
    requires IsRun(client, states, actions) && k < |actions| && ListInv(client, states, k) && j < |states[k + 1].sent|
    ensures Listed(client, states, k + 1, states[k + 1].sent[j].groups, states[k + 1].sent[j].at)
  {
    assert Enabled(states[k], actions[k]);
    StaysListed(client, states, actions, k, states[k + 1].sent[j].groups, states[k + 1].sent[j].at);
  }

  /** Without a change in between, the tables are the same. */
  lemma {:induction false} SameChangesSameTables(client: int, states: seq<State>, actions: seq<Action>, x: nat, y: nat)
    requires IsRun(client, states, actions) && x <= y < |states|
    ensures states[x].changes <= states[y].changes
    ensures states[x].changes == states[y].changes ==> states[x].db == states[y].db
  {
    if x < y {
      SameChangesSameTables(client, states, actions, x, y - 1);
      assert Enabled(states[y - 1], actions[y - 1]);
    }
  }

  function Last(s: State): Sent
    requires s.sent != []
  {
    s.sent[|s.sent| - 1]
  }

  /** A list built after the last change was sent before the last one sent, which is older. */
  ghost predicate Overtaken(s: State)
    requires s.sent != []
  {
    Last(s).at < s.changes && exists j :: 0 <= j < |s.sent| && s.sent[j].at == s.changes
  }

  /** Once some list built after the last change has been sent: the client was sent the current list
      last, unless that list was overtaken; then the last one is that of earlier tables. */
  lemma LastListExactly(client: int, states: seq<State>, actions: seq<Action>)
    requires IsRun(client, states, actions)
    requires exists j :: 0 <= j < |states[|actions|].sent| && states[|actions|].sent[j].at == states[|actions|].changes
    ensures states[|actions|].sent != []
    ensures var s := states[|actions|];
      && (!Overtaken(s) ==> Last(s).groups == ListFor(s.db, client))
      && (Overtaken(s) ==> forall x | 0 <= x < |states| && states[x].changes == Last(s).at ::
            Last(s).groups == ListFor(states[x].db, client))
      && (Last(s).groups == ListFor(s.db, client) <==>
            !Overtaken(s) || exists x :: 0 <= x < |states| && states[x].changes == Last(s).at
                                         && ListFor(states[x].db, client) == ListFor(s.db, client))
  {
    ListInvHolds(client, states, actions, |actions|);
    var last := Last(states[|actions|]);
    assert Listed(client, states, |actions|, last.groups, last.at);
    var built: nat :| built <= |actions| && states[built].changes == last.at
      && ListFor(states[built].db, client) == last.groups;
    forall x | 0 <= x < |states| && states[x].changes == last.at ensures states[x].db == states[built].db {
      SameChangesSameTables(client, states, actions, if x < built then x else built, if x < built then built else x);
    }
  }

  // ----- What the client makes of it ----------------------------------------------------

  /** The client follows the lists in the order they were sent; `ends` are the tasks that end on the way. */
  ghost function Follow(net: C.Net, sent: seq<Sent>, ends: seq<seq<set<nat>>>, parses: C.Parser): C.Net
    requires |ends| == |sent| && forall i | 0 <= i < |sent| :: |ends[i]| == |sent[i].groups|
  {
    if sent == [] then net
    else
      var last := |sent| - 1;
      C.Reconciled(Follow(net, sent[..last], ends[..last], parses), C.ConvertAll(sent[last].groups), ends[last], parses)
  }

  lemma {:induction false} ApplyAnyKeepsInv(net: C.Net, groups: seq<Group>, ends: seq<set<nat>>, parses: C.Parser)
    requires |ends| == |groups| && C.NetInv(net)
    ensures C.NetInv(C.ApplyGroups(net, groups, ends, parses))
  {
    if groups != [] {
      var last := |groups| - 1;
      ApplyAnyKeepsInv(net, groups[..last], ends[..last], parses);
      var before := C.ApplyGroups(net, groups[..last], ends[..last], parses);
      C.EndKeepsInv(before, ends[last]);
      C.ApplyKeepsInv(C.End(before, ends[last]), groups[last], parses);
    }
  }

  lemma {:induction false} FollowKeepsInv(net: C.Net, sent: seq<Sent>, ends: seq<seq<set<nat>>>, parses: C.Parser)
    requires |ends| == |sent| && (forall i | 0 <= i < |sent| :: |ends[i]| == |sent[i].groups|) && C.NetInv(net)
    ensures C.NetInv(Follow(net, sent, ends, parses))
  {
    if sent != [] {
      var last := |sent| - 1;
      FollowKeepsInv(net, sent[..last], ends[..last], parses);
      var before, groups := Follow(net, sent[..last], ends[..last], parses), C.ConvertAll(sent[last].groups);
      C.DropAllKeepsInv(before, before.conns.Keys - C.NodesOf(groups));
      ApplyAnyKeepsInv(C.DropAll(before, before.conns.Keys - C.NodesOf(groups)), groups, ends[last], parses);
    }
  }

  /** The tables and the client agree: every connection serves a node row, and every node with enabled
      proxies of the client and a usable address is connected. */
  ghost predicate Agrees(db: Tables, client: int, before: C.Net, after: C.Net, parses: C.Parser) {
    && (forall n | n in after.conns ::
      exists row :: row in db.nodes && row.id == n && C.Serves(db, client, before, after, row))
    && (forall row | row in db.nodes && C.WantedIds(db, client, row.id) != {}
      && parses(row.addr, row.port % 0x1_0000) ::
          row.id in after.conns)
  }

  /** From a change of the tables to the client's tunnels: when the current list is the last one sent,
      the client that has followed all lists agrees with the final tables. */
  lemma ClientAgrees(client: int, states: seq<State>, actions: seq<Action>, net: C.Net, ends: seq<seq<set<nat>>>,
                     parses: C.Parser)
    requires IsRun(client, states, actions) && C.NetInv(net) && states[|actions|].db.Valid()
    requires var sent := states[|actions|].sent;
      |ends| == |sent| && forall i | 0 <= i < |sent| :: |ends[i]| == |sent[i].groups|
    requires exists j :: 0 <= j < |states[|actions|].sent| && states[|actions|].sent[j].at == states[|actions|].changes
    requires states[|actions|].sent != [] && !Overtaken(states[|actions|])
    ensures var s := states[|actions|]; var last := |s.sent| - 1;
      Agrees(s.db, client, Follow(net, s.sent[..last], ends[..last], parses), Follow(net, s.sent, ends, parses), parses)
  {
    var s := states[|actions|];
    var last := |s.sent| - 1;
    LastListExactly(client, states, actions);
    FollowKeepsInv(net, s.sent[..last], ends[..last], parses);
    C.EndToEnd(s.db, client, Follow(net, s.sent[..last], ends[..last], parses), ends[last], parses);
  }

  // ----- A list that is overtaken -------------------------------------------------------

  function OneProxy(enabled: bool): Tables {
    Tables(map[1 := "c"], [ProxyRow(5, Some("1"), Some(2), enabled, "p", "tcp", "127.0.0.1", 80, 8080)],
           [NodeRow(2, "10.0.0.1", 7000, "quic", None)], map[])
  }

  /** A notification is built, the proxy is disabled, the notification of that is built and sent, and only
      then the first one: the client ends with a tunnel for a proxy that is disabled. */
  lemma DisabledProxyStays(parses: C.Parser) returns (states: seq<State>, actions: seq<Action>)
    ensures actions == [Notify, Build(0), Change(OneProxy(false)), Notify, Build(1), Push(1), Push(0)]
    ensures IsRun(1, states, actions) && states[0].db == OneProxy(true)
    ensures states[7].sent != [] && Overtaken(states[7]) && Last(states[7]).groups == ListFor(OneProxy(true), 1)
    ensures ListFor(states[7].db, 1) == [] && |Last(states[7]).groups| == 1
  {
    OneProxyLists();
    states, actions := TwoBuilt(OneProxy(true), OneProxy(false));
    states, actions := OneMore(1, states, actions, Push(1));
    states, actions := OneMore(1, states, actions, Push(0));
    var sent := states[|actions|].sent;
    assert sent == [Sent(ListFor(OneProxy(false), 1), 1), Sent(ListFor(OneProxy(true), 1), 0)];
    assert sent[0].at == states[|actions|].changes;
  }

  lemma TwoBuilt(before: Tables, after: Tables) returns (states: seq<State>, actions: seq<Action>)
    ensures actions == [Notify, Build(0), Change(after), Notify, Build(1)]
    ensures IsRun(1, states, actions) && states[0].db == before
    ensures states[5] == State(after, 1, [Built(ListFor(before, 1), 0), Built(ListFor(after, 1), 1)], [])
  {
    states, actions := [State(before, 0, [], [])], [];
    states, actions := OneMore(1, states, actions, Notify);
    states, actions := OneMore(1, states, actions, Build(0));
    states, actions := OneMore(1, states, actions, Change(after));
    states, actions := OneMore(1, states, actions, Notify);
    states, actions := OneMore(1, states, actions, Build(1));
  }

  lemma OneMore(client: int, states: seq<State>, actions: seq<Action>, a: Action)
    returns (longer: seq<State>, more: seq<Action>)
    requires IsRun(client, states, actions) && Enabled(states[|actions|], a)
    ensures more == actions + [a] && IsRun(client, longer, more) && longer[0] == states[0]
    ensures longer[|more|] == Next(states[|actions|], a, client)
  {
    longer, more := states + [Next(states[|actions|], a, client)], actions + [a];
  }

  lemma OneProxyLists()
    ensures ListFor(OneProxy(false), 1) == [] && |ListFor(OneProxy(true), 1)| == 1
  {
    assert Decimal(1) == "1";
    forall enabled: bool
      ensures Selected(OneProxy(enabled).proxies, "1") == if enabled then OneProxy(true).proxies else []
    {
      assert OneProxy(enabled).proxies[..0] == [];
    }
    assert OneProxy(true).proxies[..0] == [] && OneProxy(true).nodes[..0] == [];
  }
}
