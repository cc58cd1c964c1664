// The client's tunnels: one cancellable task per node, brought in line with each pushed list.
module ConnectionManager {
  import opened Wrappers
  import opened ProxyList
  import opened Text

  /** The client's reading of a pushed group: the port narrows to 16 bits, an unknown protocol means QUIC. */
  function Convert(g: Group): Group {
    g.(port := g.port % 0x1_0000, protocol := KnownProtocol(g.protocol))
  }

  function KnownProtocol(protocol: string): string {
    if protocol in ["kcp", "tcp"] then protocol else "quic"
  }

  function ConvertAll(groups: seq<Group>): (converted: seq<Group>)
    ensures |converted| == |groups| && forall i | 0 <= i < |groups| :: converted[i] == Convert(groups[i])
  {
    seq(|groups|, i requires 0 <= i < |groups| => Convert(groups[i]))
  }

  /** Whether an address and port parse as a socket address. */
  type Parser = (string, int) -> bool

  /** A task keeps the address, protocol, KCP settings and certificate fingerprints it was spawned with. */
  datatype Task = Task(node: int, addr: string, port: int, protocol: string, kcp: Option<Kcp>,
                       fingerprints: seq<string>,
                       cancelled: bool, finished: bool)
  datatype Conn = Conn(proxyIds: set<int>, fingerprints: seq<string>, task: nat)

  /** The connection map, and every task ever spawned. */
  datatype Net = Net(conns: map<int, Conn>, tasks: seq<Task>)

  function Ids(g: Group): set<int> {
    set info | info in g.proxies :: info.id
  }

  function NodesOf(groups: seq<Group>): set<int> {
    set g | g in groups :: g.node
  }

  // ----- The single changes -------------------------------------------------------------

  /** Tasks in `ended` have returned; a task can end at any time. */
  function End(net: Net, ended: set<nat>): Net {
    net.(tasks := seq(|net.tasks|, i requires 0 <= i < |net.tasks| =>
      if i in ended then net.tasks[i].(finished := true) else net.tasks[i]))
  }

  /** Takes a connection out of the map and cancels its task. */
  function Drop(net: Net, node: int): Net {
    if node in net.conns && net.conns[node].task < |net.tasks| then
      var t := net.conns[node].task;
      Net(net.conns - {node}, net.tasks[t := net.tasks[t].(cancelled := true)])
    else net
  }

  function Spawned(g: Group): Task {
    Task(g.node, g.addr, g.port, g.protocol, g.kcp, g.fingerprints, false, false)
  }

  /** Spawns a task and records it, unless the address does not parse. */
  function Connect(net: Net, g: Group, parses: Parser): Net {
    if !parses(g.addr, g.port) then net
    else Net(net.conns[g.node := Conn(Ids(g), g.fingerprints, |net.tasks|)], net.tasks + [Spawned(g)])
  }

  /** The in-place update of a connection that stays. */
  function Refresh(net: Net, g: Group): Net {
    if g.node in net.conns then
      net.(conns := net.conns[g.node := net.conns[g.node].(proxyIds := Ids(g), fingerprints := g.fingerprints)])
    else net
  }

  predicate NeedsReconnect(net: Net, g: Group) {
    if g.node !in net.conns then true
    else
      var conn := net.conns[g.node];
      (conn.task < |net.tasks| && net.tasks[conn.task].finished) || conn.fingerprints != g.fingerprints
  }

  // ----- Every state of every run -------------------------------------------------------

  datatype Phase =
    | Idle
    | Disconnecting(left: set<int>, groups: seq<Group>)
    | Handling(groups: seq<Group>)
    | Connecting(groups: seq<Group>)   // the old connection of groups[0] is gone, the new one not made yet

  datatype State = State(net: Net, phase: Phase)

  datatype Action = Receive(groups: seq<Group>) | Disconnect(node: int) | Advance | TasksEnd(ended: set<nat>)

  predicate Enabled(s: State, a: Action) {
    match a
    case Receive(_) => s.phase.Idle?
    case Disconnect(n) => s.phase.Disconnecting? && n in s.phase.left
    case Advance => !s.phase.Idle? && (s.phase.Disconnecting? ==> s.phase.left == {})
      && (s.phase.Connecting? ==> s.phase.groups != [])
    case TasksEnd(_) => true
  }

  function Next(s: State, a: Action, parses: Parser): State
    requires Enabled(s, a)
  {
    match a
    case Receive(groups) => s.(phase := Disconnecting(s.net.conns.Keys - NodesOf(groups), groups))
    case Disconnect(n) => State(Drop(s.net, n), s.phase.(left := s.phase.left - {n}))
    case TasksEnd(ended) => s.(net := End(s.net, ended))
    case Advance =>
      match s.phase
      case Disconnecting(_, groups) => s.(phase := Handling(groups))
      case Handling(groups) =>
        if groups == [] then s.(phase := Idle)
        else if NeedsReconnect(s.net, groups[0]) then State(Drop(s.net, groups[0].node), Connecting(groups))
        else State(Refresh(s.net, groups[0]), Handling(groups[1..]))
      case Connecting(groups) => State(Connect(s.net, groups[0], parses), Handling(groups[1..]))
      case Idle => s
  }

  ghost predicate IsRun(states: seq<State>, actions: seq<Action>, parses: Parser) {
    && |states| == |actions| + 1
    && states[0] == State(Net(map[], []), Idle)
    && forall i | 0 <= i < |actions| ::
      Enabled(states[i], actions[i]) && states[i + 1] == Next(states[i], actions[i], parses)
  }

  /** A recorded task is uncancelled, runs for its node and pins the recorded fingerprints; and an
      uncancelled task is the recorded one of its node. */
  ghost predicate NetInv(net: Net) {
    && (forall n | n in net.conns ::
      net.conns[n].task < |net.tasks| && Runs(net.tasks[net.conns[n].task], n, net.conns[n]))
    && (forall t | 0 <= t < |net.tasks| && !net.tasks[t].cancelled ::
          net.tasks[t].node in net.conns && net.conns[net.tasks[t].node].task == t)
  }

  predicate Runs(task: Task, node: int, conn: Conn) {
    task.node == node && !task.cancelled && task.fingerprints == conn.fingerprints
  }

  ghost predicate StateInv(s: State) {
    NetInv(s.net) && (s.phase.Connecting? ==> s.phase.groups != [] && s.phase.groups[0].node !in s.net.conns)
  }

  lemma StepKeepsInv(s: State, a: Action, parses: Parser)
    requires StateInv(s) && Enabled(s, a)
    ensures StateInv(Next(s, a, parses))
  {
  }

  lemma {:induction false} InvHolds(states: seq<State>, actions: seq<Action>, parses: Parser, i: nat)
    requires IsRun(states, actions, parses) && i < |states|
    ensures StateInv(states[i])
  {
    if i > 0 {
      InvHolds(states, actions, parses, i - 1);
      StepKeepsInv(states[i - 1], actions[i - 1], parses);
    }
  }

  /** In every state there is at most one uncancelled task per node, it is the recorded one, and a
      task that is not recorded has been cancelled, whatever node ids the lists repeat. */
  lemma OneTaskPerNode(states: seq<State>, actions: seq<Action>, parses: Parser, i: nat, t: nat, u: nat)
    requires IsRun(states, actions, parses) && i < |states|
    requires var tasks := states[i].net.tasks; t < |tasks| && u < |tasks|
    ensures var net := states[i].net;
      && (!net.tasks[t].cancelled && !net.tasks[u].cancelled && net.tasks[t].node == net.tasks[u].node ==> t == u)
      && (net.tasks[t].cancelled <==> !(net.tasks[t].node in net.conns && net.conns[net.tasks[t].node].task == t))
  {
    InvHolds(states, actions, parses, i);
  }

  // ----- One reconciliation -------------------------------------------------------------

  function DropAll(net: Net, nodes: set<int>): Net {
    var cancel := set n | n in nodes && n in net.conns :: net.conns[n].task;
    Net(net.conns - nodes, seq(|net.tasks|, i requires 0 <= i < |net.tasks| =>
      if i in cancel then net.tasks[i].(cancelled := true) else net.tasks[i]))
  }

  function ApplyGroup(net: Net, g: Group, parses: Parser): Net {
    if NeedsReconnect(net, g) then Connect(Drop(net, g.node), g, parses) else Refresh(net, g)
  }

  /** `ends[i]` are the tasks that end before group `i` is looked at. */
  function ApplyGroups(net: Net, groups: seq<Group>, ends: seq<set<nat>>, parses: Parser): Net
    requires |ends| == |groups|
  {
    if groups == [] then net
    else
      var last := |groups| - 1;
      ApplyGroup(End(ApplyGroups(net, groups[..last], ends[..last], parses), ends[last]), groups[last], parses)
  }

  function Reconciled(net: Net, groups: seq<Group>, ends: seq<set<nat>>, parses: Parser): Net
    requires |ends| == |groups|
  {
    ApplyGroups(DropAll(net, net.conns.Keys - NodesOf(groups)), groups, ends, parses)
  }

  class Manager {
    var conns: map<int, Conn>
    var tasks: seq<Task>
    const parses: Parser

    constructor (parses: Parser)
      ensures this.parses == parses && Current() == Net(map[], []) && NetInv(Current())
    {
      this.parses := parses;
      conns := map[];
      tasks := [];
    }

    function Current(): Net
      reads this
    {
      Net(conns, tasks)
    }

    method Reconcile(groups: seq<Group>, ends: seq<set<nat>>)
      requires NetInv(Current()) && |ends| == |groups|
      modifies this
      ensures NetInv(Current())
      ensures Current() == Reconciled(old(Current()), groups, ends, parses)
    {
      DisconnectAll(conns.Keys - NodesOf(groups));
      ghost var cleared := Current();
      for i := 0 to |groups|
        invariant NetInv(Current()) && Current() == ApplyGroups(cleared, groups[..i], ends[..i], parses)
      {
        assert groups[..i + 1][..i] == groups[..i] && ends[..i + 1][..i] == ends[..i];
        tasks := End(Current(), ends[i]).tasks;
        HandleGroup(groups[i]);
      }
      assert groups[..|groups|] == groups && ends[..|groups|] == ends;
    }

    /** The connections to nodes that are no longer listed, in any order. */
    method DisconnectAll(nodes: set<int>)
      requires NetInv(Current()) && nodes <= conns.Keys
      modifies this
      ensures NetInv(Current()) && Current() == DropAll(old(Current()), nodes)
    {
      ghost var start := Current();
      var left := nodes;
      DropNone(start);
      while left != {}
        invariant left <= nodes
        invariant NetInv(Current()) && Current() == DropAll(start, nodes - left)
      {
        var n := Any(left);
        DropOneMore(start, nodes - left, n);
        assert nodes - (left - {n}) == (nodes - left) + {n};
        DisconnectNode(n);
        left := left - {n};
      }
      assert nodes - left == nodes;
    }

    method HandleGroup(g: Group)
      requires NetInv(Current())
      modifies this
      ensures NetInv(Current()) && Current() == ApplyGroup(old(Current()), g, parses)
    {
      var needsReconnect := true;
      if g.node in conns {
        var conn := conns[g.node];
        needsReconnect := tasks[conn.task].finished || conn.fingerprints != g.fingerprints;
      }
      if needsReconnect {
        DisconnectNode(g.node);
        ConnectTo(g);
      } else {
        conns := conns[g.node := conns[g.node].(proxyIds := Ids(g), fingerprints := g.fingerprints)];
      }
    }

    method ConnectTo(g: Group)
      requires NetInv(Current()) && g.node !in conns
      modifies this
      ensures NetInv(Current()) && Current() == Connect(old(Current()), g, parses)
    {
      if !parses(g.addr, g.port) {
        return;
      }
      tasks := tasks + [Spawned(g)];
      conns := conns[g.node := Conn(Ids(g), g.fingerprints, |tasks| - 1)];
    }

    method DisconnectNode(node: int)
      requires NetInv(Current())
      modifies this
      ensures NetInv(Current()) && Current() == Drop(old(Current()), node)
      ensures node !in conns
    {
      if node in conns {
        var t := conns[node].task;
        conns := conns - {node};
        tasks := tasks[t := tasks[t].(cancelled := true)];
      }
    }
  }

  lemma DropNone(net: Net)
    ensures DropAll(net, {}) == net
  {
  }

  lemma DropOneMore(net: Net, nodes: set<int>, n: int)
    requires NetInv(net) && n in net.conns && n !in nodes
    ensures Drop(DropAll(net, nodes), n) == DropAll(net, nodes + {n})
  {
  }

  // ----- One reconciliation as a run ----------------------------------------------------

  /** The state after some actions, if each of them is enabled in turn. */
  function After(s: State, actions: seq<Action>, parses: Parser): Option<State> {
    if actions == [] then Some(s)
    else
      var last := actions[|actions| - 1];
      match After(s, actions[..|actions| - 1], parses)
      case None => None
      case Some(t) => if Enabled(t, last) then Some(Next(t, last, parses)) else None
  }

  lemma OneMore(s: State, actions: seq<Action>, a: Action, t: State, parses: Parser)
    requires After(s, actions, parses) == Some(t) && Enabled(t, a)
    ensures After(s, actions + [a], parses) == Some(Next(t, a, parses))
  {
    assert (actions + [a])[..|actions|] == actions;
  }

  lemma {:induction false} DropsLead(net: Net, groups: seq<Group>, gone: set<int>, parses: Parser)
    returns (actions: seq<Action>)
    requires NetInv(net) && gone <= net.conns.Keys - NodesOf(groups)
    ensures After(State(net, Idle), actions, parses)
         == Some(State(DropAll(net, gone), Disconnecting(net.conns.Keys - NodesOf(groups) - gone, groups)))
    decreases |gone|
  {
    var start, all := State(net, Idle), net.conns.Keys - NodesOf(groups);
    if gone == {} {
      OneMore(start, [], Receive(groups), start, parses);
      actions := [Receive(groups)];
      assert [] + actions == actions && all - {} == all;
      DropNone(net);
    } else {
      var nodes := Listing(gone);
      var n := nodes[0];
      var most := gone - {n};
      actions := DropsLead(net, groups, most, parses);
      OneMore(start, actions, Disconnect(n), State(DropAll(net, most), Disconnecting(all - most, groups)), parses);
      actions := actions + [Disconnect(n)];
      DropOneMore(net, most, n);
      assert most + {n} == gone && all - most - {n} == all - gone;
    }
  }

  lemma {:induction false} GroupsLead(start: State, first: seq<Action>, net: Net, groups: seq<Group>, more: seq<Group>,
                                      ends: seq<set<nat>>, parses: Parser) returns (actions: seq<Action>)
    requires |ends| == |groups| && After(start, first, parses) == Some(State(net, Handling(groups + more)))
    ensures After(start, actions, parses) == Some(State(ApplyGroups(net, groups, ends, parses), Handling(more)))
    decreases |groups|
  {
    if groups == [] {
      actions := first;
      assert groups + more == more;
    } else {
      var last := |groups| - 1;
      var g, most := groups[last], groups[..last];
      var left := [g] + more;
      assert groups + more == most + left;
      actions := GroupsLead(start, first, net, most, left, ends[..last], parses);
      var before := ApplyGroups(net, most, ends[..last], parses);
      actions := GroupLeads(start, actions, before, g, more, ends[last], parses);
    }
  }

  lemma GroupLeads(start: State, first: seq<Action>, before: Net, g: Group, more: seq<Group>, ended: set<nat>,
                   parses: Parser)
    returns (actions: seq<Action>)
    requires After(start, first, parses) == Some(State(before, Handling([g] + more)))
    ensures After(start, actions, parses) == Some(State(ApplyGroup(End(before, ended), g, parses), Handling(more)))
  {
    var left, net := [g] + more, End(before, ended);
    assert left[1..] == more;
    OneMore(start, first, TasksEnd(ended), State(before, Handling(left)), parses);
    actions := first + [TasksEnd(ended)];
    OneMore(start, actions, Advance, State(net, Handling(left)), parses);
    actions := actions + [Advance];
    if NeedsReconnect(net, g) {
      OneMore(start, actions, Advance, State(Drop(net, g.node), Connecting(left)), parses);
      actions := actions + [Advance];
    }
  }

  /** What `Reconcile` does at once, the step machine does in a run of enabled steps; so its states on
      the way are states of runs, and what holds in every run holds inside every reconciliation. */
  lemma ReconcileIsRun(net: Net, groups: seq<Group>, ends: seq<set<nat>>, parses: Parser) returns (actions: seq<Action>)
    requires NetInv(net) && |ends| == |groups|
    ensures After(State(net, Idle), actions, parses) == Some(State(Reconciled(net, groups, ends, parses), Idle))
  {
    var start, gone := State(net, Idle), net.conns.Keys - NodesOf(groups);
    var cleared := DropAll(net, gone);
    actions := DropsLead(net, groups, gone, parses);
    assert gone - gone == {};
    OneMore(start, actions, Advance, State(cleared, Disconnecting({}, groups)), parses);
    actions := actions + [Advance];
    assert groups + [] == groups;
    actions := GroupsLead(start, actions, cleared, groups, [], ends, parses);
    OneMore(start, actions, Advance, State(Reconciled(net, groups, ends, parses), Handling([])), parses);
    actions := actions + [Advance];
  }

  // ----- What one reconciliation leaves behind ------------------------------------------

  /** The connection of group `i` survives: its task has not ended by the time it is looked at, and the fingerprints
      agree. */
  ghost predicate Kept(net: Net, g: Group, ends: seq<set<nat>>, i: nat)
    requires i < |ends|
  {
    && g.node in net.conns
    && var conn := net.conns[g.node];
       conn.fingerprints == g.fingerprints && conn.task < |net.tasks| && !net.tasks[conn.task].finished
       && forall j | 0 <= j <= i :: conn.task !in ends[j]
  }

  ghost predicate Outcome(net: Net, after: Net, g: Group, kept: bool, parses: Parser) {
    && (g.node in after.conns <==> kept || parses(g.addr, g.port))
    && (kept ==> g.node in net.conns)
    && (g.node in after.conns ==>
          var conn := after.conns[g.node];
          && conn.proxyIds == Ids(g) && conn.fingerprints == g.fingerprints && conn.task < |after.tasks|
          && if kept then conn.task == net.conns[g.node].task
             else |net.tasks| <= conn.task && Towards(after.tasks[conn.task], g))
  }

  /** The task runs towards what the group lists. */
  ghost predicate Towards(t: Task, g: Group) {
    && t.node == g.node && t.addr == g.addr && t.port == g.port && t.protocol == g.protocol && t.kcp == g.kcp
    && t.fingerprints == g.fingerprints
  }

  ghost predicate SameTarget(t: Task, u: Task) {
    t.(cancelled := u.cancelled, finished := u.finished) == u
  }

  /** Tasks that were there before: their target is untouched, and they have finished if they had or have ended
      since. */
  ghost predicate OldTasks(net: Net, after: Net, ends: seq<set<nat>>) {
    && |net.tasks| <= |after.tasks|
    && forall t | 0 <= t < |net.tasks| ::
         && SameTarget(after.tasks[t], net.tasks[t])
         && (after.tasks[t].finished <==> net.tasks[t].finished || exists j :: 0 <= j < |ends| && t in ends[j])
  }

  ghost predicate SameEntry(net: Net, after: Net, n: int) {
    (n in after.conns <==> n in net.conns) && (n in net.conns ==> after.conns[n] == net.conns[n])
  }

  lemma ApplyKeepsInv(net: Net, g: Group, parses: Parser)
    requires NetInv(net)
    ensures NetInv(ApplyGroup(net, g, parses))
  {
  }

  lemma EndKeepsInv(net: Net, ended: set<nat>)
    requires NetInv(net)
    ensures NetInv(End(net, ended))
  {
  }

  lemma EndedTasks(net: Net, before: Net, ends: seq<set<nat>>)
    requires ends != [] && OldTasks(net, before, ends[..|ends| - 1])
    ensures OldTasks(net, End(before, ends[|ends| - 1]), ends)
  {
    var last := |ends| - 1;
    forall t | 0 <= t < |net.tasks|
      ensures End(before, ends[last]).tasks[t].finished <==>
        net.tasks[t].finished || exists j :: 0 <= j < |ends| && t in ends[j]
    {
      assert forall j | 0 <= j < last :: ends[..last][j] == ends[j];
    }
  }

  /** No task is forgotten or retargeted. */
  ghost predicate SameTargets(before: Net, after: Net) {
    |before.tasks| <= |after.tasks| && forall t | 0 <= t < |before.tasks| :: SameTarget(after.tasks[t], before.tasks[t])
  }

  lemma ApplyGroupTasks(net: Net, g: Group, parses: Parser)
    ensures var after := ApplyGroup(net, g, parses);
      && SameTargets(net, after)
      && (forall t | 0 <= t < |net.tasks| :: after.tasks[t].finished == net.tasks[t].finished)
      && forall n | n != g.node :: SameEntry(net, after, n)
  {
  }

  lemma EndTasks(net: Net, ended: set<nat>)
    ensures var after := End(net, ended);
      after.conns == net.conns && SameTargets(net, after)
  {
  }

  lemma OldTasksStay(net: Net, ended: Net, after: Net, ends: seq<set<nat>>)
    requires OldTasks(net, ended, ends) && SameTargets(ended, after)
    requires forall t | 0 <= t < |ended.tasks| :: after.tasks[t].finished == ended.tasks[t].finished
    ensures OldTasks(net, after, ends)
  {
  }

  lemma ApplyOutcome(net: Net, ended: Net, g: Group, ends: seq<set<nat>>, parses: Parser)
    requires ends != [] && NetInv(net) && NetInv(ended) && OldTasks(net, ended, ends) && SameEntry(net, ended, g.node)
    ensures NeedsReconnect(ended, g) <==> !Kept(net, g, ends, |ends| - 1)
    ensures Outcome(net, ApplyGroup(ended, g, parses), g, Kept(net, g, ends, |ends| - 1), parses)
  {
  }

  lemma KeptEarlier(net: Net, g: Group, ends: seq<set<nat>>, i: nat)
    requires i < |ends| - 1
    ensures Kept(net, g, ends[..|ends| - 1], i) == Kept(net, g, ends, i)
  {
  }

  lemma OutcomeStays(net: Net, before: Net, after: Net, g: Group, kept: bool, parses: Parser)
    requires Outcome(net, before, g, kept, parses) && SameEntry(before, after, g.node) && SameTargets(before, after)
    ensures Outcome(net, after, g, kept, parses)
  {
  }

  /** `ended` and `after` follow on `before`: the outcome of a group handled earlier stays what it was. */
  lemma EarlierOutcome(net: Net, before: Net, ended: Net, after: Net, g: Group, ends: seq<set<nat>>, i: nat,
                       parses: Parser)
    requires i < |ends| - 1 && Outcome(net, before, g, Kept(net, g, ends[..|ends| - 1], i), parses)
    requires SameEntry(before, ended, g.node) && SameTargets(before, ended)
    requires SameEntry(ended, after, g.node) && SameTargets(ended, after)
    ensures Outcome(net, after, g, Kept(net, g, ends, i), parses)
  {
    KeptEarlier(net, g, ends, i);
    OutcomeStays(net, before, ended, g, Kept(net, g, ends, i), parses);
    OutcomeStays(net, ended, after, g, Kept(net, g, ends, i), parses);
  }

  lemma EarlierOutcomes(net: Net, before: Net, ended: Net, after: Net, groups: seq<Group>, ends: seq<set<nat>>,
                        parses: Parser)
    requires groups != [] && |ends| == |groups| && DistinctGroups(groups)
    requires var most := groups[..|groups| - 1];
      forall i | 0 <= i < |most| :: Outcome(net, before, most[i], Kept(net, most[i], ends[..|ends| - 1], i), parses)
    requires ended.conns == before.conns && SameTargets(before, ended)
    requires SameTargets(ended, after) && forall n | n != groups[|groups| - 1].node :: SameEntry(ended, after, n)
    ensures forall i | 0 <= i < |groups| - 1 :: Outcome(net, after, groups[i], Kept(net, groups[i], ends, i), parses)
  {
    var most := groups[..|groups| - 1];
    forall i | 0 <= i < |groups| - 1 ensures Outcome(net, after, groups[i], Kept(net, groups[i], ends, i), parses) {
      assert groups[i] == most[i];
      EarlierOutcome(net, before, ended, after, most[i], ends, i, parses);
    }
  }

  lemma {:induction false} ApplyAll(net: Net, groups: seq<Group>, ends: seq<set<nat>>, parses: Parser)
    requires |ends| == |groups| && NetInv(net) && DistinctGroups(groups)
    ensures var after := ApplyGroups(net, groups, ends, parses);
      && NetInv(after) && OldTasks(net, after, ends)
      && (forall i | 0 <= i < |groups| :: Outcome(net, after, groups[i], Kept(net, groups[i], ends, i), parses))
      && forall n | n !in NodesOf(groups) :: SameEntry(net, after, n)
  {
    if groups != [] {
      var last := |groups| - 1;
      var g, most := groups[last], groups[..last];
      ApplyAll(net, most, ends[..last], parses);
      assert groups == most + [g] && g.node !in NodesOf(most);
      var before := ApplyGroups(net, most, ends[..last], parses);
      var ended := End(before, ends[last]);
      var after := ApplyGroup(ended, g, parses);
      EndKeepsInv(before, ends[last]);
      EndTasks(before, ends[last]);
      EndedTasks(net, before, ends);
      ApplyKeepsInv(ended, g, parses);
      ApplyGroupTasks(ended, g, parses);
      OldTasksStay(net, ended, after, ends);
      ApplyOutcome(net, ended, g, ends, parses);
      EarlierOutcomes(net, before, ended, after, groups, ends, parses);
      forall n | n !in NodesOf(groups) ensures SameEntry(net, after, n) {
        assert g in groups && n != g.node && n !in NodesOf(most);
      }
    }
  }

  lemma DropAllKeepsInv(net: Net, nodes: set<int>)
    requires NetInv(net)
    ensures NetInv(DropAll(net, nodes))
  {
  }

  /** The connections to unlisted nodes go first; for a listed group that makes no difference. */
  lemma ClearedOutcome(net: Net, nodes: set<int>, after: Net, g: Group, ends: seq<set<nat>>, i: nat, parses: Parser)
    requires i < |ends| && g.node !in nodes
    requires Outcome(DropAll(net, nodes), after, g, Kept(DropAll(net, nodes), g, ends, i), parses)
    ensures Outcome(net, after, g, Kept(net, g, ends, i), parses)
  {
    var cleared := DropAll(net, nodes);
    assert Kept(cleared, g, ends, i) == Kept(net, g, ends, i);
  }

  lemma ClearedTasks(net: Net, nodes: set<int>, after: Net, ends: seq<set<nat>>)
    requires OldTasks(DropAll(net, nodes), after, ends)
    ensures OldTasks(net, after, ends)
  {
    var cleared := DropAll(net, nodes);
    forall t | 0 <= t < |net.tasks|
      ensures SameTarget(after.tasks[t], net.tasks[t])
      ensures after.tasks[t].finished <==> net.tasks[t].finished || exists j :: 0 <= j < |ends| && t in ends[j]
    {
      assert SameTarget(cleared.tasks[t], net.tasks[t]) && cleared.tasks[t].finished == net.tasks[t].finished;
    }
  }

  /** After a list with distinct nodes: no other node has a connection; a listed node has one exactly
      when its old one was kept or its address parses; its proxies and fingerprints are those of the
      list; a kept one still has its old task, any other has a new task for the listed address. */
  lemma AfterReconcile(net: Net, groups: seq<Group>, ends: seq<set<nat>>, parses: Parser)
    requires |ends| == |groups| && NetInv(net) && DistinctGroups(groups)
    ensures var after := Reconciled(net, groups, ends, parses);
      && NetInv(after)
      && after.conns.Keys <= NodesOf(groups)
      && (forall i | 0 <= i < |groups| :: Outcome(net, after, groups[i], Kept(net, groups[i], ends, i), parses))
      && OldTasks(net, after, ends)
  {
    var gone := net.conns.Keys - NodesOf(groups);
    var cleared, after := DropAll(net, gone), Reconciled(net, groups, ends, parses);
    DropAllKeepsInv(net, gone);
    ApplyAll(cleared, groups, ends, parses);
    ClearedTasks(net, gone, after, ends);
    forall n | n !in NodesOf(groups) ensures n !in after.conns {
      assert SameEntry(cleared, after, n);
    }
    forall i | 0 <= i < |groups| ensures Outcome(net, after, groups[i], Kept(net, groups[i], ends, i), parses) {
      assert groups[i] in groups;
      ClearedOutcome(net, gone, after, groups[i], ends, i, parses);
    }
  }

  /** No task ends. */
  function Quiet(groups: seq<Group>): (ends: seq<set<nat>>)
    ensures |ends| == |groups| && forall i | 0 <= i < |groups| :: ends[i] == {}
  {
    seq(|groups|, i => {})
  }

  /** A kept connection still has its old, uncancelled task. A connection left by a reconciliation runs
      towards the listed address, protocol and KCP settings exactly if it was not kept, or was made for
      them already. */
  lemma RunsTowardsListed(net: Net, groups: seq<Group>, ends: seq<set<nat>>, parses: Parser, i: nat)
    requires |ends| == |groups| && NetInv(net) && DistinctGroups(groups) && i < |groups|
    ensures var after := Reconciled(net, groups, ends, parses); var g := groups[i]; var kept := Kept(net, g, ends, i);
      && (g.node in after.conns <==> kept || parses(g.addr, g.port))
      && (kept ==> g.node in net.conns && after.conns[g.node].task == net.conns[g.node].task < |net.tasks|)
      && (g.node in after.conns ==>
            var task := after.conns[g.node].task;
            && task < |after.tasks| && !after.tasks[task].cancelled
            && (Towards(after.tasks[task], g) <==> !kept || Towards(net.tasks[net.conns[g.node].task], g)))
  {
    AfterReconcile(net, groups, ends, parses);
  }

  /** With no task ending on the way, the test is one a caller can make on the list: any live
      connection with unchanged fingerprints keeps its old target. */
  lemma UnchangedFingerprintsKeepTarget(net: Net, groups: seq<Group>, parses: Parser, i: nat)
    requires NetInv(net) && DistinctGroups(groups) && i < |groups|
    ensures Kept(net, groups[i], Quiet(groups), i) <==> !NeedsReconnect(net, groups[i])
  {
    assert forall j | 0 <= j <= i :: Quiet(groups)[j] == {};
  }

  /** A node that moves: its one connection is live, its fingerprint unchanged, and after the list with
      the new address the client still runs towards the old one. */
  lemma MovedNodeIsNotFollowed(parses: Parser)
    ensures var moved := Group(1, "10.0.0.2", 7000, "quic", None, [], ["ab"]);
            var task := Task(1, "10.0.0.1", 7000, "quic", None, ["ab"], false, false);
            var net := Net(map[1 := Conn({}, ["ab"], 0)], [task]);
            var after := Reconciled(net, [moved], Quiet([moved]), parses);
            NetInv(net) && 1 in after.conns && after.conns[1].task == 0 && |after.tasks| > 0
              && after.tasks[0].addr == "10.0.0.1" != moved.addr
  {
    var moved := Group(1, "10.0.0.2", 7000, "quic", None, [], ["ab"]);
    var net := Net(map[1 := Conn({}, ["ab"], 0)], [Task(1, "10.0.0.1", 7000, "quic", None, ["ab"], false, false)]);
    UnchangedFingerprintsKeepTarget(net, [moved], parses, 0);
    AfterReconcile(net, [moved], Quiet([moved]), parses);
    assert Outcome(net, Reconciled(net, [moved], Quiet([moved]), parses), [moved][0], true, parses);
    assert "10.0.0.1"[7] != "10.0.0.2"[7];
  }

  /** Nothing to do for these groups: each is either in place or cannot be connected to. */
  ghost predicate InPlace(net: Net, groups: seq<Group>, parses: Parser) {
    forall g | g in groups ::
      if g.node in net.conns
      then !NeedsReconnect(net, g) && net.conns[g.node].proxyIds == Ids(g)
      else !parses(g.addr, g.port)
  }

  lemma {:induction false} InPlaceIsFixed(net: Net, groups: seq<Group>, parses: Parser)
    requires InPlace(net, groups, parses)
    ensures ApplyGroups(net, groups, Quiet(groups), parses) == net
  {
    if groups != [] {
      var last := |groups| - 1;
      assert groups == groups[..last] + [groups[last]];
      InPlaceIsFixed(net, groups[..last], parses);
      assert Quiet(groups)[..last] == Quiet(groups[..last]);
      assert End(net, {}) == net;
      var g := groups[last];
      assert g in groups;
      if g.node in net.conns {
        assert net.conns[g.node := net.conns[g.node]] == net.conns;
      }
    }
  }

  /** The same list again, with no connected task ended, spawns and cancels nothing. */
  lemma ReconcileAgain(net: Net, groups: seq<Group>, ends: seq<set<nat>>, parses: Parser)
    requires |ends| == |groups| && NetInv(net) && DistinctGroups(groups)
    requires var after := Reconciled(net, groups, ends, parses);
      forall n | n in after.conns :: after.conns[n].task < |after.tasks| ==> !after.tasks[after.conns[n].task].finished
    ensures var after := Reconciled(net, groups, ends, parses);
      Reconciled(after, groups, Quiet(groups), parses) == after
  {
    var after := Reconciled(net, groups, ends, parses);
    AfterReconcile(net, groups, ends, parses);
    assert after.conns.Keys - NodesOf(groups) == {};
    DropNone(after);
    InPlaceIsFixed(after, groups, parses);
  }

  lemma {:induction false} QuietLeavesRunning(net: Net, groups: seq<Group>, parses: Parser)
    requires NetInv(net)
    ensures var after := ApplyGroups(net, groups, Quiet(groups), parses);
      && NetInv(after)
      && forall g | g in groups && g.node in after.conns :: !after.tasks[after.conns[g.node].task].finished
  {
    if groups != [] {
      var last := |groups| - 1;
      var g := groups[last];
      assert groups == groups[..last] + [g];
      QuietLeavesRunning(net, groups[..last], parses);
      assert Quiet(groups)[..last] == Quiet(groups[..last]);
      var before := ApplyGroups(net, groups[..last], Quiet(groups[..last]), parses);
      assert End(before, {}) == before;
      ApplyKeepsInv(before, g, parses);
      ApplyGroupTasks(before, g, parses);
      AppliedRuns(before, g, parses);
      var after := ApplyGroup(before, g, parses);
      forall h | h in groups && h.node in after.conns ensures !after.tasks[after.conns[h.node].task].finished {
        assert h.node != g.node ==> h in groups[..last] && SameEntry(before, after, h.node);
      }
    }
  }

  /** A group that has just been handled is connected to a task that runs, if at all. */
  lemma AppliedRuns(net: Net, g: Group, parses: Parser)
    requires NetInv(net)
    ensures var after := ApplyGroup(net, g, parses);
      g.node in after.conns ==>
        after.conns[g.node].task < |after.tasks| && !after.tasks[after.conns[g.node].task].finished
  {
  }

  /** A list followed twice with no task ending on the way: the second time changes nothing, whatever had
      ended before the first. */
  lemma FollowedTwice(net: Net, groups: seq<Group>, parses: Parser)
    requires NetInv(net) && DistinctGroups(groups)
    ensures var once := Reconciled(net, groups, Quiet(groups), parses);
      && (forall n | n in once.conns ::
            once.conns[n].task < |once.tasks| && !once.tasks[once.conns[n].task].finished)
      && Reconciled(once, groups, Quiet(groups), parses) == once
  {
    var gone := net.conns.Keys - NodesOf(groups);
    DropAllKeepsInv(net, gone);
    QuietLeavesRunning(DropAll(net, gone), groups, parses);
    AfterReconcile(net, groups, Quiet(groups), parses);
    ReconcileAgain(net, groups, Quiet(groups), parses);
  }

  // ----- From the controller's tables to the client's tunnels ---------------------------

  /** The ids of a client's enabled proxies on a node. */
  ghost function WantedIds(db: Tables, client: int, node: int): set<int> {
    set p | p in db.proxies && p.enabled && p.client == Some(Decimal(client)) && p.node == Some(node) :: p.id
  }

  ghost function Pushed(db: Tables, client: int): seq<Group> {
    ConvertAll(GroupsOf(db.nodes, Selected(db.proxies, Decimal(client)), db.fingerprints))
  }

  lemma IdsAreWanted(db: Tables, client: int, n: NodeRow)
    ensures Ids(GroupOf(n, OnNode(Selected(db.proxies, Decimal(client)), n.id), db.fingerprints))
      == WantedIds(db, client, n.id)
    ensures OnNode(Selected(db.proxies, Decimal(client)), n.id) == [] ==> WantedIds(db, client, n.id) == {}
  {
    var selected := Selected(db.proxies, Decimal(client));
    SelectedMembers(db.proxies, Decimal(client));
    OnNodeIds(selected, n.id);
    assert WantedIds(db, client, n.id) == set p | p in selected && p.node == Some(n.id) :: p.id;
    EmptyIds(OnNode(selected, n.id));
  }

  lemma EmptyIds(infos: seq<ProxyInfo>)
    ensures infos == [] ==> (set info | info in infos :: info.id) == {}
  {
  }

  function Pinned(node: int, fingerprints: map<int, string>): seq<string> {
    if node in fingerprints then [fingerprints[node]] else []
  }

  /** The low 16 bits of the port, and a protocol other than KCP and TCP read as QUIC. */
  ghost predicate ReadsAs(n: NodeRow, addr: string, port: int, protocol: string, kcp: Option<Kcp>) {
    && addr == n.addr && 0 <= port < 0x1_0000 && (n.port - port) % 0x1_0000 == 0 && kcp == n.kcp
    && (protocol == "kcp" <==> n.protocol == "kcp") && (protocol == "tcp" <==> n.protocol == "tcp")
    && protocol in ["kcp", "tcp", "quic"]
  }

  /** The task runs towards what a node row says. */
  ghost predicate TowardsRow(t: Task, n: NodeRow, fingerprints: map<int, string>) {
    && t.node == n.id && ReadsAs(n, t.addr, t.port, t.protocol, t.kcp)
    && t.fingerprints == Pinned(n.id, fingerprints)
  }

  ghost predicate IsFor(n: NodeRow, g: Group, ids: set<int>, fingerprints: map<int, string>) {
    && g.node == n.id && ReadsAs(n, g.addr, g.port, g.protocol, g.kcp)
    && g.fingerprints == Pinned(n.id, fingerprints) && Ids(g) == ids
  }

  ghost predicate ComesFrom(db: Tables, client: int, g: Group) {
    exists n :: n in db.nodes && IsFor(n, g, WantedIds(db, client, n.id), db.fingerprints)
  }

  ghost predicate Reaches(db: Tables, client: int, groups: seq<Group>, n: NodeRow) {
    exists i :: 0 <= i < |groups| && IsFor(n, groups[i], WantedIds(db, client, n.id), db.fingerprints)
  }

  lemma ConvertedIsFor(db: Tables, client: int, n: NodeRow)
    ensures IsFor(n, Convert(GroupOf(n, OnNode(Selected(db.proxies, Decimal(client)), n.id), db.fingerprints)),
      WantedIds(db, client, n.id), db.fingerprints)
  {
    var g := GroupOf(n, OnNode(Selected(db.proxies, Decimal(client)), n.id), db.fingerprints);
    IdsAreWanted(db, client, n);
    assert Convert(g).proxies == g.proxies;
    NarrowTwice(n.port);
  }

  /** Narrowing to 32 and then to 16 bits is narrowing to 16. */
  lemma NarrowTwice(port: int)
    ensures port % 0x1_0000_0000 % 0x1_0000 == port % 0x1_0000
  {
  }

  /** Each group of the list is for a node row, and each node row with wanted proxies has its group. */
  lemma PushedGroups(db: Tables, client: int)
    requires db.Valid()
    ensures DistinctGroups(Pushed(db, client))
    ensures forall g | g in Pushed(db, client) :: ComesFrom(db, client, g)
    ensures forall n | n in db.nodes && WantedIds(db, client, n.id) != {} :: Reaches(db, client, Pushed(db, client), n)
  {
    var selected := Selected(db.proxies, Decimal(client));
    var sent := GroupsOf(db.nodes, selected, db.fingerprints);
    var groups := ConvertAll(sent);
    GroupsAreDistinct(db.nodes, selected, db.fingerprints);
    forall g | g in groups ensures ComesFrom(db, client, g) {
      var i :| 0 <= i < |groups| && groups[i] == g;
      assert sent[i] in sent;
      var n :| n in db.nodes && sent[i] == GroupOf(n, OnNode(selected, n.id), db.fingerprints);
      ConvertedIsFor(db, client, n);
    }
    forall n | n in db.nodes && WantedIds(db, client, n.id) != {} ensures Reaches(db, client, groups, n) {
      IdsAreWanted(db, client, n);
      GroupsCover(db.nodes, selected, db.fingerprints, n);
      var i :| 0 <= i < |sent| && sent[i] == GroupOf(n, OnNode(selected, n.id), db.fingerprints);
      ConvertedIsFor(db, client, n);
      assert IsFor(n, groups[i], WantedIds(db, client, n.id), db.fingerprints);
    }
  }

  /** A connection to the node of a row: it carries the wanted proxies and the fingerprint, and one that
      is new runs towards what the row says. */
  ghost predicate Serves(db: Tables, client: int, net: Net, after: Net, row: NodeRow) {
    && row.id in after.conns
    && var conn := after.conns[row.id];
       && conn.proxyIds == WantedIds(db, client, row.id)
       && conn.fingerprints == Pinned(row.id, db.fingerprints)
       && conn.task < |after.tasks| && after.tasks[conn.task].fingerprints == conn.fingerprints
       && (|net.tasks| <= conn.task ==> TowardsRow(after.tasks[conn.task], row, db.fingerprints))
       && (conn.task < |net.tasks| ==> row.id in net.conns && conn.task == net.conns[row.id].task)
  }

  /** After the client has followed a list the controller built: every connection is to a node that has
      a row, carries exactly the client's enabled proxies there, pins that node's fingerprint, and is
      either the old one or one that runs towards what the row says; and every node with such proxies
      and a usable address has a connection. */
  lemma EndToEnd(db: Tables, client: int, net: Net, ends: seq<set<nat>>, parses: Parser)
    requires db.Valid() && NetInv(net) && |ends| == |Pushed(db, client)|
    ensures var after := Reconciled(net, Pushed(db, client), ends, parses);
      && (forall n | n in after.conns ::
        exists row :: row in db.nodes && row.id == n && Serves(db, client, net, after, row))
      && (forall row | row in db.nodes && WantedIds(db, client, row.id) != {}
        && parses(row.addr, row.port % 0x1_0000) ::
            row.id in after.conns)
  {
    var groups := Pushed(db, client);
    PushedGroups(db, client);
    AfterReconcile(net, groups, ends, parses);
    Followed(db, client, groups, net, Reconciled(net, groups, ends, parses), ends, parses);
  }

  lemma Followed(db: Tables, client: int, groups: seq<Group>, net: Net, after: Net, ends: seq<set<nat>>, parses: Parser)
    requires |ends| == |groups| && after.conns.Keys <= NodesOf(groups) && NetInv(net) && NetInv(after)
    requires forall i | 0 <= i < |groups| :: Outcome(net, after, groups[i], Kept(net, groups[i], ends, i), parses)
    requires forall g | g in groups :: ComesFrom(db, client, g)
    requires forall n | n in db.nodes && WantedIds(db, client, n.id) != {} :: Reaches(db, client, groups, n)
    ensures forall n | n in after.conns ::
      exists row :: row in db.nodes && row.id == n && Serves(db, client, net, after, row)
    ensures forall row | row in db.nodes && WantedIds(db, client, row.id) != {}
      && parses(row.addr, row.port % 0x1_0000) ::
      row.id in after.conns
  {
    forall n | n in after.conns
      ensures exists row :: row in db.nodes && row.id == n && Serves(db, client, net, after, row)
    {
      var i :| 0 <= i < |groups| && groups[i].node == n;
      assert groups[i] in groups;
      var row :| row in db.nodes && IsFor(row, groups[i], WantedIds(db, client, row.id), db.fingerprints);
      assert Outcome(net, after, groups[i], Kept(net, groups[i], ends, i), parses);
      assert Serves(db, client, net, after, row);
    }
  }
}
