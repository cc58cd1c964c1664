// Requests sent over a session and the responses that answer them, correlated by request id,
// with a sweeper per session that drops requests which stayed unanswered.
module PendingRequests {

  const STALE_REQUEST_TIMEOUT: nat := 60000
  const CLEANUP_INTERVAL: nat := 30000

  type Rid = string

  // ----- Commands and their ids ---------------------------------------------------------

  /** `content` are the other fields of a message. */
  datatype Payload =
    | RegisterResponse(content: string) | ValidateTokenResponse(requestId: Rid, content: string)
    | ClientOnlineResponse(requestId: Rid, content: string) | TrafficLimitResponse(requestId: Rid, content: string)
    | GetClientProxiesResponse(requestId: Rid, content: string) | TrafficReportResponse(content: string)
    | HeartbeatResponse(content: string) | SyncDirectProxies(content: string)
    | StartProxy(requestId: Rid, content: string) | StopProxy(requestId: Rid, content: string)
    | GetStatus(requestId: Rid, content: string) | GetClientLogs(requestId: Rid, content: string)
    | GetNodeLogs(requestId: Rid, content: string) | UpdateProtocol(requestId: Rid, content: string)
    | UpdateSpeedLimit(requestId: Rid, content: string) | SoftwareUpdate(requestId: Rid, content: string)
    | Restart(requestId: Rid, content: string) | UpdateCertificate(requestId: Rid, content: string)
  {
    predicate IsCommand() {
      StartProxy? || StopProxy? || GetStatus? || GetClientLogs? || GetNodeLogs? || UpdateProtocol?
      || UpdateSpeedLimit? || SoftwareUpdate? || Restart? || UpdateCertificate?
    }
  }

  function ReplaceRequestId(p: Payload, id: Rid): Payload {
    match p
    case StartProxy(_, content) => StartProxy(id, content)
    case StopProxy(_, content) => StopProxy(id, content)
    case GetStatus(_, content) => GetStatus(id, content)
    case GetClientLogs(_, content) => GetClientLogs(id, content)
    case GetNodeLogs(_, content) => GetNodeLogs(id, content)
    case UpdateProtocol(_, content) => UpdateProtocol(id, content)
    case UpdateSpeedLimit(_, content) => UpdateSpeedLimit(id, content)
    case SoftwareUpdate(_, content) => SoftwareUpdate(id, content)
    case Restart(_, content) => Restart(id, content)
    case other => other
  }

  // ----- One session's table ------------------------------------------------------------

  /** The state of a one-shot channel seen from the sending side. */
  datatype Cell<T> = Open | Filled(value: T) | Abandoned

  datatype Waiter<T> =
    | Sending                     // registered, command not on the stream yet
    | Waiting(deadline: nat)
    | Got(value: T)
    | TimedOut
    | Disconnected                // the sending side went away
    | SendFailed
  {
    predicate Listening() { Sending? || Waiting? }
  }

  datatype Request<T> = Request(home: int, session: nat, created: nat, cell: Cell<T>, waiter: Waiter<T>)

  predicate Stale(created: nat, now: nat) {
    now - created >= STALE_REQUEST_TIMEOUT
  }

  function Kept(pending: map<Rid, nat>, now: nat): map<Rid, nat> {
    map r | r in pending && !Stale(pending[r], now) :: pending[r]
  }

  /** Dropping table entries drops their senders. */
  function Abandon<T>(requests: map<Rid, Request<T>>, dropped: set<Rid>): map<Rid, Request<T>> {
    map r | r in requests ::
      if r in dropped && requests[r].cell.Open? then requests[r].(cell := Abandoned) else requests[r]
  }

  class PendingTable<T> {
    var pending: map<Rid, nat>
    var requests: map<Rid, Request<T>>

    method Register(id: Rid, home: int, session: nat, now: nat)
      requires id !in requests
      modifies this
      ensures pending == old(pending)[id := now]
      ensures requests == old(requests)[id := Request(home, session, now, Open, Sending)]
    {
      requests := requests[id := Request(home, session, now, Open, Sending)];
      pending := pending[id := now];
    }

    /** True exactly if the id was pending and its waiter still listens; no other request is touched. */
    method Complete(id: Rid, response: T) returns (matched: bool)
      requires pending.Keys <= requests.Keys
      modifies this
      ensures matched <==> id in old(pending) && old(requests)[id].waiter.Listening()
      ensures pending == old(pending) - {id}
      ensures matched ==> requests == old(requests)[id := old(requests)[id].(cell := Filled(response))]
      ensures !matched ==>
        requests == if id in old(pending)
          then old(requests)[id := old(requests)[id].(cell := Abandoned)]
          else old(requests)
    {
      if id in pending {
        pending := pending - {id};
        matched := requests[id].waiter.Listening();
        requests := requests[id := requests[id].(cell := if matched then Filled(response) else Abandoned)];
      } else {
        matched := false;
        assert pending - {id} == pending;
      }
    }

    /** `retain`: the loop looks at every entry once, in any order. */
    method Sweep(now: nat)
      requires pending.Keys <= requests.Keys
      modifies this
      ensures pending == Kept(old(pending), now)
      ensures requests == Abandon(old(requests), old(pending).Keys - Kept(old(pending), now).Keys)
    {
      var todo := pending.Keys;
      ghost var before, all := requests, pending;
      ghost var removed: set<Rid> := {};
      AbandonNone(requests);
      while todo != {}
        invariant todo <= all.Keys <= requests.Keys && removed <= all.Keys - todo
        invariant pending == all - removed
        invariant forall r | r in all.Keys - todo :: r in removed <==> Stale(all[r], now)
        invariant requests == Abandon(before, removed)
      {
        var id :| id in todo;
        if Stale(pending[id], now) {
          AbandonOneMore(before, removed, id);
          requests := requests[id := if requests[id].cell.Open? then requests[id].(cell := Abandoned)
            else requests[id]];
          pending := pending - {id};
          removed := removed + {id};
        }
        todo := todo - {id};
      }
      assert removed == all.Keys - Kept(all, now).Keys;
    }
  }

  lemma AbandonNone<T>(requests: map<Rid, Request<T>>)
    ensures Abandon(requests, {}) == requests
  {
  }

  lemma AbandonOneMore<T>(requests: map<Rid, Request<T>>, dropped: set<Rid>, id: Rid)
    requires id in requests
    ensures var part := Abandon(requests, dropped);
      part[id := if part[id].cell.Open? then part[id].(cell := Abandoned) else part[id]]
        == Abandon(requests, dropped + {id})
  {
  }

  // ----- All sessions -------------------------------------------------------------------

  /** The current stream of a node or client: its session, its table, and its next sweep. */
  datatype Stream = Stream(session: nat, pending: map<Rid, nat>, nextSweep: nat)

  datatype Response<T> = Response(home: int, id: Rid, value: T, matched: bool)

  /** `sent` is history: the command that went out under each id, with the id it carries. */
  datatype State<T> = State(now: nat, nextSession: nat, streams: map<int, Stream>,
                            requests: map<Rid, Request<T>>, log: seq<Response<T>>, sent: map<Rid, Payload>)

  datatype Action<T> =
    | Connect(home: int)
    | Drop(home: int)
    | Issue(home: int, id: Rid, command: Payload)
    | StartWait(id: Rid, timeout: nat)
    | FailSend(id: Rid)
    | Respond(home: int, id: Rid, value: T)
    | Wake(id: Rid)
    | Expire(id: Rid)
    | Sweep(home: int)
    | Pass(elapsed: nat)

  ghost predicate Init<T(!new)>(s: State<T>) {
    s.streams == map[] && s.requests == map[] && s.log == [] && s.sent == map[]
  }

  predicate Enabled<T>(s: State<T>, a: Action<T>) {
    match a
    case Connect(_) => true
    case Drop(h) => h in s.streams
    case Issue(h, id, command) => h in s.streams && id !in s.requests && id != "" && command.IsCommand()
      && command.requestId == ""
    case StartWait(id, _) => id in s.requests && s.requests[id].waiter.Sending?
    case FailSend(id) => id in s.requests && s.requests[id].waiter.Sending?
    case Respond(_, _, _) => true
    case Wake(id) => id in s.requests && s.requests[id].waiter.Waiting? && !s.requests[id].cell.Open?
    case Expire(id) => id in s.requests && s.requests[id].waiter.Waiting? && s.requests[id].cell.Open?
      && s.now >= s.requests[id].waiter.deadline
    case Sweep(h) => h in s.streams && s.now >= s.streams[h].nextSweep
    case Pass(_) => true
  }

  predicate Matches<T>(s: State<T>, home: int, id: Rid) {
    home in s.streams && id in s.streams[home].pending && id in s.requests && s.requests[id].waiter.Listening()
  }

  function Next<T>(s: State<T>, a: Action<T>): State<T>
    requires Enabled(s, a)
  {
    match a
    case Connect(h) =>
      var dropped := if h in s.streams then s.streams[h].pending.Keys else {};
      s.(streams := s.streams[h := Stream(s.nextSession, map[], s.now + CLEANUP_INTERVAL)],
         nextSession := s.nextSession + 1, requests := Abandon(s.requests, dropped))
    case Drop(h) =>
      s.(streams := s.streams - {h}, requests := Abandon(s.requests, s.streams[h].pending.Keys))
    case Issue(h, id, command) =>
      s.(streams := s.streams[h := s.streams[h].(pending := s.streams[h].pending[id := s.now])],
         requests := s.requests[id := Request(h, s.streams[h].session, s.now, Open, Sending)],
         sent := s.sent[id := ReplaceRequestId(command, id)])
    case StartWait(id, timeout) => WithWaiter(s, id, Waiting(s.now + timeout))
    case FailSend(id) => WithWaiter(s, id, SendFailed)
    case Respond(h, id, v) =>
      var logged := s.(log := s.log + [Response(h, id, v, Matches(s, h, id))]);
      if h in s.streams && id in s.streams[h].pending && id in s.requests then
        var cell := if Matches(s, h, id) then Filled(v) else Abandoned;
        logged.(streams := s.streams[h := s.streams[h].(pending := s.streams[h].pending - {id})],
                requests := s.requests[id := s.requests[id].(cell := cell)])
      else logged
    case Wake(id) =>
      WithWaiter(s, id, if s.requests[id].cell.Filled? then Got(s.requests[id].cell.value) else Disconnected)
    case Expire(id) => WithWaiter(s, id, TimedOut)
    case Sweep(h) =>
      var stream := s.streams[h];
      var kept := Kept(stream.pending, s.now);
      s.(streams := s.streams[h := stream.(pending := kept, nextSweep := stream.nextSweep + CLEANUP_INTERVAL)],
         requests := Abandon(s.requests, stream.pending.Keys - kept.Keys))
    case Pass(elapsed) => s.(now := s.now + elapsed)
  }

  function WithWaiter<T>(s: State<T>, id: Rid, w: Waiter<T>): State<T>
    requires id in s.requests
  {
    s.(requests := s.requests[id := s.requests[id].(waiter := w)])
  }

  ghost predicate IsRun<T(!new)>(states: seq<State<T>>, actions: seq<Action<T>>) {
    && |states| == |actions| + 1
    && Init(states[0])
    && forall i | 0 <= i < |actions| :: Enabled(states[i], actions[i]) && states[i + 1] == Next(states[i], actions[i])
  }

  // ----- The invariant ------------------------------------------------------------------

  /** A table entry belongs to an unanswered request of that session. */
  ghost predicate EntryInv<T(!new)>(s: State<T>) {
    && (forall h, id | h in s.streams && id in s.streams[h].pending ::
          && id in s.requests && s.requests[id].cell.Open?
          && s.requests[id].home == h && s.requests[id].session == s.streams[h].session
          && s.requests[id].created == s.streams[h].pending[id])
    && "" !in s.requests
  }

  /** Every unanswered request has an entry at its home. */
  ghost predicate OpenInv<T(!new)>(s: State<T>) {
    && (forall id | id in s.requests && s.requests[id].cell.Open? ::
          s.requests[id].home in s.streams && id in s.streams[s.requests[id].home].pending)
    && (forall h | h in s.streams :: s.streams[h].session < s.nextSession)
  }

  ghost predicate TableInv<T(!new)>(s: State<T>) {
    EntryInv(s) && OpenInv(s)
  }

  ghost predicate Answers<T(!new)>(r: Response<T>, home: int, id: Rid, v: T) {
    r == Response(home, id, v, true)
  }

  /** A matched response filled the cell of its own request, and no two matched ones share an id. */
  ghost predicate MatchedInv<T(!new)>(s: State<T>) {
    && (forall k | 0 <= k < |s.log| && s.log[k].matched ::
          s.log[k].id in s.requests && s.requests[s.log[k].id].cell == Filled(s.log[k].value)
          && s.requests[s.log[k].id].home == s.log[k].home)
    && (forall j, k | 0 <= j < k < |s.log| && s.log[j].matched && s.log[k].matched :: s.log[j].id != s.log[k].id)
  }

  /** Every filled cell comes from a matched response. */
  ghost predicate FilledInv<T(!new)>(s: State<T>) {
    forall id | id in s.requests && s.requests[id].cell.Filled? ::
      exists k :: 0 <= k < |s.log| && Answers(s.log[k], s.requests[id].home, id, s.requests[id].cell.value)
  }

  /** A waiter that has a value has the value of its cell. */
  ghost predicate WaiterInv<T(!new)>(s: State<T>) {
    forall id | id in s.requests && s.requests[id].waiter.Got? ::
      s.requests[id].cell == Filled(s.requests[id].waiter.value)
  }

  ghost predicate Inv<T(!new)>(s: State<T>) {
    TableInv(s) && MatchedInv(s) && FilledInv(s) && WaiterInv(s)
  }

  lemma StepKeepsEntries<T(!new)>(s: State<T>, a: Action<T>)
    requires EntryInv(s) && Enabled(s, a)
    ensures EntryInv(Next(s, a))
  {
  }

  lemma StepKeepsOpen<T(!new)>(s: State<T>, a: Action<T>)
    requires TableInv(s) && Enabled(s, a)
    ensures OpenInv(Next(s, a))
  {
  }

  lemma StepKeepsTable<T(!new)>(s: State<T>, a: Action<T>)
    requires TableInv(s) && Enabled(s, a)
    ensures TableInv(Next(s, a))
  {
    StepKeepsEntries(s, a);
    StepKeepsOpen(s, a);
  }

  lemma StepKeepsMatched<T(!new)>(s: State<T>, a: Action<T>)
    requires TableInv(s) && MatchedInv(s) && Enabled(s, a)
    ensures MatchedInv(Next(s, a))
  {
  }

  lemma StepKeepsFilled<T(!new)>(s: State<T>, a: Action<T>)
    requires TableInv(s) && FilledInv(s) && Enabled(s, a)
    ensures FilledInv(Next(s, a))
  {
    var n := Next(s, a);
    forall id | id in n.requests && n.requests[id].cell.Filled?
      ensures exists k :: 0 <= k < |n.log| && Answers(n.log[k], n.requests[id].home, id, n.requests[id].cell.value)
    {
      if id in s.requests && s.requests[id].cell == n.requests[id].cell {
        var k :| 0 <= k < |s.log| && Answers(s.log[k], s.requests[id].home, id, s.requests[id].cell.value);
        assert Answers(n.log[k], n.requests[id].home, id, n.requests[id].cell.value);
      } else {
        assert Answers(n.log[|s.log|], n.requests[id].home, id, n.requests[id].cell.value);
      }
    }
  }

  lemma StepKeepsWaiter<T(!new)>(s: State<T>, a: Action<T>)
    requires TableInv(s) && WaiterInv(s) && Enabled(s, a)
    ensures WaiterInv(Next(s, a))
  {
  }

  lemma {:induction false} InvHolds<T(!new)>(states: seq<State<T>>, actions: seq<Action<T>>, i: nat)
    requires IsRun(states, actions) && i < |states|
    ensures Inv(states[i])
  {
    if i > 0 {
      InvHolds(states, actions, i - 1);
      StepKeepsTable(states[i - 1], actions[i - 1]);
      StepKeepsMatched(states[i - 1], actions[i - 1]);
      StepKeepsFilled(states[i - 1], actions[i - 1]);
      StepKeepsWaiter(states[i - 1], actions[i - 1]);
    }
  }

  // ----- Correlation --------------------------------------------------------------------

  /** A response matches exactly if its request was issued to this home, is unanswered, and is still awaited. */
  lemma MatchesExactly<T(!new)>(states: seq<State<T>>, actions: seq<Action<T>>, i: nat, home: int, id: Rid)
    requires IsRun(states, actions) && i < |states|
    ensures var s := states[i];
      Matches(s, home, id) <==>
      id in s.requests && s.requests[id].home == home && s.requests[id].cell.Open? && s.requests[id].waiter.Listening()
    ensures var s := states[i];
      Matches(s, home, id) ==> s.requests[id].session == s.streams[home].session
  {
    InvHolds(states, actions, i);
  }

  /** A late, duplicate, foreign or old-session response is not matched, and no response touches another request. */
  lemma RespondIsIsolated<T(!new)>(states: seq<State<T>>, actions: seq<Action<T>>, i: nat)
    requires IsRun(states, actions) && i < |actions| && actions[i].Respond?
    ensures var s, n, id := states[i], states[i + 1], actions[i].id;
      && n.log == s.log + [Response(actions[i].home, id, actions[i].value, Matches(s, actions[i].home, id))]
      && n.requests - {id} == s.requests - {id}
      && (forall h | h in s.streams ::
        h in n.streams && n.streams[h].session == s.streams[h].session
          && n.streams[h].pending - {id} == s.streams[h].pending - {id})
      && (id in s.requests && !s.requests[id].cell.Open? ==> n == s.(log := n.log))
      && (id in s.requests ==> id in n.requests && n.requests[id].waiter == s.requests[id].waiter)
  {
    InvHolds(states, actions, i);
    var s, n, id := states[i], states[i + 1], actions[i].id;
    assert n.requests - {id} == s.requests - {id};
    forall h | h in s.streams ensures n.streams[h].pending - {id} == s.streams[h].pending - {id} {
    }
  }

  /** Over any run a request is resolved by at most one response, and a waiter returns the value of
      the one response that was matched under its own id at its own home. */
  lemma ResolvedOnce<T(!new)>(states: seq<State<T>>, actions: seq<Action<T>>, i: nat, id: Rid)
    requires IsRun(states, actions) && i < |states| && id in states[i].requests
    ensures var s := states[i];
      && (forall j, k | 0 <= j < k < |s.log| && s.log[j].id == s.log[k].id == id ::
        !(s.log[j].matched && s.log[k].matched))
      && (s.requests[id].waiter.Got? ==>
            exists k :: 0 <= k < |s.log| && Answers(s.log[k], s.requests[id].home, id, s.requests[id].waiter.value))
  {
    InvHolds(states, actions, i);
  }

  /** The variants that an id is filled in for. */
  predicate TakesId(p: Payload) {
    p.IsCommand() && !p.UpdateCertificate?
  }

  /** The same command or message with the same content; the id may differ. */
  ghost predicate SameButId(p: Payload, q: Payload) {
    && p.content == q.content
    && (p.RegisterResponse? <==> q.RegisterResponse?) && (p.ValidateTokenResponse? <==> q.ValidateTokenResponse?)
    && (p.ClientOnlineResponse? <==> q.ClientOnlineResponse?) && (p.TrafficLimitResponse? <==> q.TrafficLimitResponse?)
    && (p.GetClientProxiesResponse? <==> q.GetClientProxiesResponse?)
    && (p.TrafficReportResponse? <==> q.TrafficReportResponse?) && (p.HeartbeatResponse? <==> q.HeartbeatResponse?)
    && (p.SyncDirectProxies? <==> q.SyncDirectProxies?)
    && (p.StartProxy? <==> q.StartProxy?) && (p.StopProxy? <==> q.StopProxy?) && (p.GetStatus? <==> q.GetStatus?)
    && (p.GetClientLogs? <==> q.GetClientLogs?) && (p.GetNodeLogs? <==> q.GetNodeLogs?)
    && (p.UpdateProtocol? <==> q.UpdateProtocol?) && (p.UpdateSpeedLimit? <==> q.UpdateSpeedLimit?)
    && (p.SoftwareUpdate? <==> q.SoftwareUpdate?) && (p.Restart? <==> q.Restart?)
    && (p.UpdateCertificate? <==> q.UpdateCertificate?)
  }

  /** Filling in an id changes nothing else: the variant and the content stay, and a payload that takes no
      id is returned as it was. */
  lemma OnlyTheIdChanges(p: Payload, id: Rid)
    ensures var q := ReplaceRequestId(p, id);
      && SameButId(p, q)
      && (TakesId(p) ==> q.requestId == id)
      && (!TakesId(p) ==> q == p)
  {
  }

  lemma {:induction false} SentKeys<T(!new)>(states: seq<State<T>>, actions: seq<Action<T>>, i: nat)
    requires IsRun(states, actions) && i < |states|
    ensures states[i].sent.Keys == states[i].requests.Keys
  {
    if i > 0 {
      SentKeys(states, actions, i - 1);
      assert Enabled(states[i - 1], actions[i - 1]);
      SentStep(states[i - 1], actions[i - 1]);
    }
  }

  /** Over every run, what went out under an id is the command that was issued under it, with nothing but
      the id filled in; and it stays on record. */
  lemma {:induction false} SentIsIssued<T(!new)>(states: seq<State<T>>, actions: seq<Action<T>>, k: nat, i: nat)
    requires IsRun(states, actions) && k < i < |states| && actions[k].Issue?
    ensures var id, command := actions[k].id, actions[k].command;
      && id in states[i].sent && SameButId(command, states[i].sent[id])
      && states[i].sent[id].requestId == if command.UpdateCertificate? then "" else id
  {
    assert Enabled(states[i - 1], actions[i - 1]);
    SentStep(states[i - 1], actions[i - 1]);
    if k + 1 == i {
      OnlyTheIdChanges(actions[k].command, actions[k].id);
    } else {
      SentIsIssued(states, actions, k, i - 1);
      SentKeys(states, actions, i - 1);
    }
  }

  /** And nothing else goes out. */
  lemma {:induction false} SentWasIssued<T(!new)>(states: seq<State<T>>, actions: seq<Action<T>>, i: nat, id: Rid)
    requires IsRun(states, actions) && i < |states| && id in states[i].sent
    ensures exists k :: 0 <= k < i && actions[k].Issue? && actions[k].id == id
  {
    assert i > 0 && Enabled(states[i - 1], actions[i - 1]);
    SentStep(states[i - 1], actions[i - 1]);
    if id in states[i - 1].sent {
      SentWasIssued(states, actions, i - 1, id);
    }
  }

  /** A peer that echoes the id it received is matched, for every command but the certificate update. */
  lemma EchoedId(p: Payload, id: Rid)
    requires p.IsCommand() && p.requestId == "" && id != ""
    ensures ReplaceRequestId(p, id).IsCommand()
    ensures ReplaceRequestId(p, id).requestId == id <==> !p.UpdateCertificate?
  {
  }

  /** The echo of a certificate update carries the empty id, which never matches. */
  lemma CertificateEchoNeverMatches<T(!new)>(states: seq<State<T>>, actions: seq<Action<T>>, i: nat, home: int, id: Rid,
                                       content: string)
    requires IsRun(states, actions) && i < |states|
    ensures !Matches(states[i], home, ReplaceRequestId(UpdateCertificate("", content), id).requestId)
  {
    InvHolds(states, actions, i);
  }

  ghost predicate WasSent<T(!new)>(s: State<T>, id: Rid) {
    exists r :: r in s.sent && s.sent[r].IsCommand() && s.sent[r].requestId == id
  }

  /** Peers answer only with ids they have been sent. */
  ghost predicate EchoOnly<T(!new)>(states: seq<State<T>>, actions: seq<Action<T>>)
    requires |states| == |actions| + 1
  {
    forall i | 0 <= i < |actions| && actions[i].Respond? :: WasSent(states[i], actions[i].id)
  }

  ghost predicate SentInv<T(!new)>(s: State<T>) {
    && s.sent.Keys == s.requests.Keys && "" !in s.sent
    && forall r | r in s.sent ::
      s.sent[r].IsCommand() && s.sent[r].requestId == if s.sent[r].UpdateCertificate? then "" else r
  }

  ghost predicate LogInv<T(!new)>(s: State<T>) {
    forall k | 0 <= k < |s.log| :: WasSent(s, s.log[k].id)
  }

  /** Only an issue changes which commands have been sent, or which requests there are. */
  lemma SentStep<T(!new)>(s: State<T>, a: Action<T>)
    requires Enabled(s, a)
    ensures if a.Issue? then Next(s, a).sent == s.sent[a.id := ReplaceRequestId(a.command, a.id)]
      else Next(s, a).sent == s.sent
    ensures Next(s, a).requests.Keys == s.requests.Keys + if a.Issue? then {a.id} else {}
  {
  }

  lemma StepKeepsSent<T(!new)>(s: State<T>, a: Action<T>)
    requires SentInv(s) && Enabled(s, a)
    ensures SentInv(Next(s, a))
  {
    SentStep(s, a);
    if a.Issue? {
      EchoedId(a.command, a.id);
      OnlyTheIdChanges(a.command, a.id);
    }
  }

  lemma SentStaysSent<T(!new)>(s: State<T>, a: Action<T>, id: Rid)
    requires s.sent.Keys == s.requests.Keys && Enabled(s, a) && WasSent(s, id)
    ensures WasSent(Next(s, a), id)
  {
    SentStep(s, a);
    var r :| r in s.sent && s.sent[r].IsCommand() && s.sent[r].requestId == id;
    assert r in Next(s, a).sent && Next(s, a).sent[r] == s.sent[r];
  }

  lemma StepKeepsLog<T(!new)>(s: State<T>, a: Action<T>)
    requires s.sent.Keys == s.requests.Keys && LogInv(s) && Enabled(s, a) && (a.Respond? ==> WasSent(s, a.id))
    ensures LogInv(Next(s, a))
  {
    var n := Next(s, a);
    forall k | 0 <= k < |n.log| ensures WasSent(n, n.log[k].id) {
      SentStaysSent(s, a, n.log[k].id);
    }
  }

  lemma {:induction false} SentInvHolds<T(!new)>(states: seq<State<T>>, actions: seq<Action<T>>, i: nat)
    requires IsRun(states, actions) && EchoOnly(states, actions) && i < |states|
    ensures SentInv(states[i]) && LogInv(states[i])
  {
    if i > 0 {
      SentInvHolds(states, actions, i - 1);
      StepKeepsSent(states[i - 1], actions[i - 1]);
      StepKeepsLog(states[i - 1], actions[i - 1]);
    }
  }

  /** While peers only echo, a certificate update is never answered: no response carries its id, and its
      waiter ends without a value. */
  lemma CertificateIsNeverAnswered<T(!new)>(states: seq<State<T>>, actions: seq<Action<T>>, i: nat, id: Rid)
    requires IsRun(states, actions) && EchoOnly(states, actions) && i < |states|
    requires id in states[i].requests && id in states[i].sent && states[i].sent[id].UpdateCertificate?
    ensures forall k | 0 <= k < |states[i].log| :: states[i].log[k].id != id
    ensures !states[i].requests[id].waiter.Got?
  {
    var s := states[i];
    SentInvHolds(states, actions, i);
    forall k | 0 <= k < |s.log| ensures s.log[k].id != id {
      assert WasSent(s, s.log[k].id);
    }
    ResolvedOnce(states, actions, i, id);
  }

  // ----- The sweeper --------------------------------------------------------------------

  /** Time does not pass beyond a sweep that is due. */
  ghost predicate InTime<T(!new)>(s: State<T>, a: Action<T>) {
    a.Pass? ==> forall h | h in s.streams :: s.now + a.elapsed <= s.streams[h].nextSweep
  }

  ghost predicate OnTime<T(!new)>(states: seq<State<T>>, actions: seq<Action<T>>)
    requires |states| == |actions| + 1
  {
    forall i | 0 <= i < |actions| :: InTime(states[i], actions[i])
  }

  ghost predicate TimeInv<T(!new)>(s: State<T>) {
    forall h | h in s.streams ::
      && s.now <= s.streams[h].nextSweep <= s.now + CLEANUP_INTERVAL
      && forall id | id in s.streams[h].pending ::
           s.streams[h].pending[id] <= s.now
             && s.streams[h].nextSweep < s.streams[h].pending[id] + STALE_REQUEST_TIMEOUT + CLEANUP_INTERVAL
  }

  lemma {:induction false} TimeInvHolds<T(!new)>(states: seq<State<T>>, actions: seq<Action<T>>, i: nat)
    requires IsRun(states, actions) && OnTime(states, actions) && i < |states|
    ensures TimeInv(states[i])
  {
    if i > 0 {
      TimeInvHolds(states, actions, i - 1);
      assert Enabled(states[i - 1], actions[i - 1]) && InTime(states[i - 1], actions[i - 1]);
    }
  }

  /** The first sweep at which an entry created at `created` is stale, with sweeps from `next` on. */
  function RemovalTime(next: nat, created: nat): (at: nat)
    ensures created + STALE_REQUEST_TIMEOUT <= at
    ensures next < created + STALE_REQUEST_TIMEOUT + CLEANUP_INTERVAL ==>
      at < created + STALE_REQUEST_TIMEOUT + CLEANUP_INTERVAL
    ensures next <= at
    decreases created + STALE_REQUEST_TIMEOUT - next
  {
    if next >= created + STALE_REQUEST_TIMEOUT then next else RemovalTime(next + CLEANUP_INTERVAL, created)
  }

  ghost function SweptAt<T(!new)>(s: State<T>, home: int, id: Rid): nat
    requires home in s.streams && id in s.streams[home].pending
  {
    RemovalTime(s.streams[home].nextSweep, s.streams[home].pending[id])
  }

  /** An unanswered entry is swept at one fixed time, at an age of at least 60 s and less than 90 s:
      the sweep removes it if and only if that time has come. */
  lemma SweepTiming<T(!new)>(states: seq<State<T>>, actions: seq<Action<T>>, i: nat, home: int, id: Rid)
    requires IsRun(states, actions) && OnTime(states, actions) && i < |states|
    requires home in states[i].streams && id in states[i].streams[home].pending
    ensures var s := states[i];
      && s.requests.Keys >= {id}
      && s.now <= SweptAt(s, home, id)
      && s.requests[id].created + 60000 <= SweptAt(s, home, id) < s.requests[id].created + 90000
      && (Enabled(s, Sweep(home)) ==>
        (id !in Next(s, Sweep(home)).streams[home].pending <==> s.now == SweptAt(s, home, id)))
  {
    InvHolds(states, actions, i);
    TimeInvHolds(states, actions, i);
  }

  lemma SweepTimeStays<T(!new)>(s: State<T>, a: Action<T>, home: int, id: Rid)
    requires TableInv(s) && TimeInv(s) && Enabled(s, a)
    requires home in s.streams && id in s.streams[home].pending
    requires home in Next(s, a).streams && id in Next(s, a).streams[home].pending
    ensures SweptAt(Next(s, a), home, id) == SweptAt(s, home, id)
  {
  }

  /** The sweep time of an entry does not move while the entry stays in its session's table. */
  lemma SweepTimeIsFixed<T(!new)>(states: seq<State<T>>, actions: seq<Action<T>>, i: nat, home: int, id: Rid)
    requires IsRun(states, actions) && OnTime(states, actions) && i < |actions|
    requires home in states[i].streams && id in states[i].streams[home].pending
    requires home in states[i + 1].streams && id in states[i + 1].streams[home].pending
    ensures SweptAt(states[i + 1], home, id) == SweptAt(states[i], home, id)
  {
    InvHolds(states, actions, i);
    TimeInvHolds(states, actions, i);
    SweepTimeStays(states[i], actions[i], home, id);
  }

  /** A deadline within 60 s of the registration comes no later than the sweep of the entry; one of 90 s
      or more comes after it. */
  lemma WaitAgainstSweeper<T(!new)>(states: seq<State<T>>, actions: seq<Action<T>>, i: nat, home: int, id: Rid)
    requires IsRun(states, actions) && OnTime(states, actions) && i < |states|
    requires home in states[i].streams && id in states[i].streams[home].pending
    requires id in states[i].requests && states[i].requests[id].waiter.Waiting?
    ensures var r := states[i].requests[id];
      && (r.waiter.deadline <= r.created + 60000 ==> r.waiter.deadline <= SweptAt(states[i], home, id))
      && (r.waiter.deadline >= r.created + 90000 ==> SweptAt(states[i], home, id) < r.waiter.deadline)
  {
    SweepTiming(states, actions, i, home, id);
  }

  // ----- How a wait ends ----------------------------------------------------------------

  /** A wait whose deadline lies 90 s or more after the registration can never run into it: before that
      the request is answered, or its entry is dropped. */
  lemma LongWaitCannotExpire<T(!new)>(states: seq<State<T>>, actions: seq<Action<T>>, i: nat, id: Rid)
    requires IsRun(states, actions) && OnTime(states, actions) && i < |states|
    requires var s := states[i];
      id in s.requests && s.requests[id].waiter.Waiting?
        && s.requests[id].waiter.deadline >= s.requests[id].created + 90000
    ensures !Enabled(states[i], Expire(id))
  {
    InvHolds(states, actions, i);
    if states[i].requests[id].cell.Open? {
      SweepTiming(states, actions, i, states[i].requests[id].home, id);
    }
  }

  /** The deadline and the registration time of a request that has started to wait. */
  ghost predicate WaitsUntil<T(!new)>(s: State<T>, id: Rid, deadline: nat, created: nat) {
    && id in s.requests && s.requests[id].created == created
    && match s.requests[id].waiter
       case Waiting(d) => d == deadline
       case Got(_) | Disconnected => true
       case _ => false
  }

  lemma WaitGoesOn<T(!new)>(s: State<T>, a: Action<T>, id: Rid, deadline: nat, created: nat)
    requires WaitsUntil(s, id, deadline, created) && Enabled(s, a) && a != Expire(id)
    ensures WaitsUntil(Next(s, a), id, deadline, created)
  {
  }

  /** So such a wait never times out, in no later state of the run. */
  lemma {:induction false} LongWaitNeverTimesOut<T(!new)>(states: seq<State<T>>, actions: seq<Action<T>>, i: nat,
                                                   j: nat, id: Rid)
    requires IsRun(states, actions) && OnTime(states, actions) && i <= j < |states|
    requires var s := states[i];
      id in s.requests && s.requests[id].waiter.Waiting?
        && s.requests[id].waiter.deadline >= s.requests[id].created + 90000
    ensures WaitsUntil(states[j], id, states[i].requests[id].waiter.deadline, states[i].requests[id].created)
  {
    if i < j {
      var r, s, a := states[i].requests[id], states[j - 1], actions[j - 1];
      LongWaitNeverTimesOut(states, actions, i, j - 1, id);
      if s.requests[id].waiter.Waiting? {
        LongWaitCannotExpire(states, actions, j - 1, id);
      }
      assert Enabled(s, a) && a != Expire(id);
      WaitGoesOn(s, a, id, r.waiter.deadline, r.created);
    }
  }

  /** In particular the 120 s wait of a software update: it ends with the answer, or disconnected. */
  lemma SoftwareUpdateNeverTimesOut<T(!new)>(states: seq<State<T>>, actions: seq<Action<T>>, i: nat, j: nat, id: Rid)
    requires IsRun(states, actions) && OnTime(states, actions) && i < j < |states|
    requires actions[i] == StartWait(id, 120000)
    ensures id in states[j].requests
      && var w := states[j].requests[id].waiter; w.Waiting? || w.Got? || w.Disconnected?
  {
    InvHolds(states, actions, i);
    CreatedBefore(states, actions, i, id);
    LongWaitNeverTimesOut(states, actions, i + 1, j, id);
  }

  lemma {:induction false} CreatedBefore<T(!new)>(states: seq<State<T>>, actions: seq<Action<T>>, i: nat, id: Rid)
    requires IsRun(states, actions) && i < |states| && id in states[i].requests
    ensures states[i].requests[id].created <= states[i].now
  {
    if i > 0 && id in states[i - 1].requests {
      CreatedBefore(states, actions, i - 1, id);
    }
  }

  /** The session of `home` is neither replaced nor dropped. */
  ghost predicate SessionLasts<T(!new)>(actions: seq<Action<T>>, home: int, from: nat, to: nat)
    requires from <= to <= |actions|
  {
    forall k | from <= k < to :: actions[k] != Connect(home) && actions[k] != Drop(home)
  }

  /** Nothing has cut the request off: it is unanswered and in its table, or has its answer. */
  ghost predicate Connected<T(!new)>(s: State<T>, home: int, id: Rid, created: nat) {
    && id in s.requests && s.requests[id].home == home && s.requests[id].created == created
    && (s.requests[id].cell.Open? ==> home in s.streams && id in s.streams[home].pending)
    && (s.requests[id].cell.Abandoned? ==> !s.requests[id].waiter.Listening())
    && !s.requests[id].waiter.Disconnected?
  }

  lemma StaysConnected<T(!new)>(s: State<T>, a: Action<T>, home: int, id: Rid, created: nat)
    requires TableInv(s) && Enabled(s, a) && Connected(s, home, id, created) && s.now < created + 60000
    requires a != Connect(home) && a != Drop(home)
    ensures Connected(Next(s, a), home, id, created)
  {
  }

  lemma NowGrows<T(!new)>(states: seq<State<T>>, actions: seq<Action<T>>, k: nat)
    requires IsRun(states, actions) && k < |actions|
    ensures states[k].now <= states[k + 1].now
  {
    assert Enabled(states[k], actions[k]);
  }

  lemma StepStaysConnected<T(!new)>(states: seq<State<T>>, actions: seq<Action<T>>, k: nat, home: int, id: Rid,
                             created: nat)
    requires IsRun(states, actions) && k < |actions| && actions[k] != Connect(home) && actions[k] != Drop(home)
    requires states[k].now < created + 60000 ==> Connected(states[k], home, id, created)
    ensures states[k + 1].now < created + 60000 ==> Connected(states[k + 1], home, id, created)
  {
    NowGrows(states, actions, k);
    if states[k + 1].now < created + 60000 {
      InvHolds(states, actions, k);
      assert Enabled(states[k], actions[k]);
      StaysConnected(states[k], actions[k], home, id, created);
    }
  }

  lemma {:induction false} ConnectedLasts<T(!new)>(states: seq<State<T>>, actions: seq<Action<T>>, i: nat, j: nat,
                                            home: int, id: Rid, created: nat)
    requires IsRun(states, actions) && i <= j < |states| && Connected(states[i], home, id, created)
    requires SessionLasts(actions, home, i, j)
    ensures states[j].now < created + 60000 ==> Connected(states[j], home, id, created)
    decreases j
  {
    if i < j {
      ConnectedLasts(states, actions, i, j - 1, home, id, created);
      StepStaysConnected(states, actions, j - 1, home, id, created);
    }
  }

  /** While its session lasts, no wait is disconnected before its request is 60 s old. That age counts
      from the registration, not from the start of the wait: in between the command is being sent. */
  lemma ShortWaitIsNotCut<T(!new)>(states: seq<State<T>>, actions: seq<Action<T>>, i: nat, j: nat, home: int, id: Rid)
    requires IsRun(states, actions) && i <= j < |states|
    requires home in states[i].streams && id in states[i].streams[home].pending
    requires id in states[i].requests && states[i].requests[id].waiter.Waiting?
    requires SessionLasts(actions, home, i, j) && states[j].now < states[i].requests[id].created + 60000
    ensures Connected(states[j], home, id, states[i].requests[id].created)
  {
    InvHolds(states, actions, i);
    ConnectedLasts(states, actions, i, j, home, id, states[i].requests[id].created);
  }

  /** Between the two limits it is the sweep time that decides: an unanswered wait can only run into its
      deadline if that is not after the sweep, and only be cut before it if the sweep comes first. */
  lemma SweeperAgainstDeadline<T(!new)>(states: seq<State<T>>, actions: seq<Action<T>>, i: nat, home: int, id: Rid)
    requires IsRun(states, actions) && OnTime(states, actions) && i < |states|
    requires home in states[i].streams && id in states[i].streams[home].pending
    requires id in states[i].requests && states[i].requests[id].waiter.Waiting?
    ensures var s := states[i]; var deadline := s.requests[id].waiter.deadline;
      && (Enabled(s, Expire(id)) ==> deadline <= SweptAt(s, home, id))
      && (Enabled(s, Sweep(home)) && id !in Next(s, Sweep(home)).streams[home].pending && s.now < deadline
          ==> SweptAt(s, home, id) < deadline)
  {
    SweepTiming(states, actions, i, home, id);
  }

  // ----- Both limits are tight ----------------------------------------------------------

  /** One more action of a run. */
  lemma Extend<T(!new)>(states: seq<State<T>>, actions: seq<Action<T>>, a: Action<T>) returns (longer: seq<State<T>>)
    requires IsRun(states, actions) && OnTime(states, actions)
    requires Enabled(states[|actions|], a) && InTime(states[|actions|], a)
    ensures longer == states + [Next(states[|actions|], a)]
    ensures IsRun(longer, actions + [a]) && OnTime(longer, actions + [a])
  {
    longer := states + [Next(states[|actions|], a)];
    var more := actions + [a];
    forall i | 0 <= i < |more|
      ensures Enabled(longer[i], more[i]) && longer[i + 1] == Next(longer[i], more[i]) && InTime(longer[i], more[i])
    {
      if i < |actions| {
        assert Enabled(states[i], actions[i]) && InTime(states[i], actions[i]);
      }
    }
  }

  /** A home with one request under id "r" in its table. */
  function Waits(now: nat, nextSweep: nat, created: nat, waiter: Waiter<int>): State<int> {
    State(now, 1, map[1 := Stream(0, map["r" := created], nextSweep)],
      map["r" := Request(1, 0, created, Open, waiter)], [],
          map["r" := Restart("r", "")])
  }

  lemma Connects(created: nat) returns (states: seq<State<int>>)
    requires created < CLEANUP_INTERVAL
    ensures IsRun(states, [Connect(1), Pass(created)]) && OnTime(states, [Connect(1), Pass(created)])
    ensures states[2] == State(created, 1, map[1 := Stream(0, map[], CLEANUP_INTERVAL)], map[], [], map[])
  {
    states := [State(0, 0, map[], map[], [], map[])];
    var actions: seq<Action<int>> := [Connect(1)];
    states := Extend(states, [], Connect(1));
    assert [] + actions == actions;
    assert states[1] == State(0, 1, map[1 := Stream(0, map[], CLEANUP_INTERVAL)], map[], [], map[]);
    states := Extend(states, actions, Pass(created));
    assert actions + [Pass(created)] == [Connect(1), Pass(created)];
  }

  function Opening(created: nat, timeout: nat): seq<Action<int>> {
    [Connect(1), Pass(created), Issue(1, "r", Restart("", "")), StartWait("r", timeout)]
  }

  lemma Begin(created: nat, timeout: nat) returns (states: seq<State<int>>)
    requires created < CLEANUP_INTERVAL
    ensures IsRun(states, Opening(created, timeout)) && OnTime(states, Opening(created, timeout))
    ensures states[4] == Waits(created, CLEANUP_INTERVAL, created, Waiting(created + timeout))
  {
    var actions := [Connect(1), Pass(created)];
    states := Connects(created);
    states := Extend(states, actions, Issue(1, "r", Restart("", "")));
    assert states[3] == Waits(created, CLEANUP_INTERVAL, created, Sending);
    actions := actions + [Issue(1, "r", Restart("", ""))];
    states := Extend(states, actions, StartWait("r", timeout));
    assert states[4].requests == map["r" := Request(1, 0, created, Open, Waiting(created + timeout))];
    assert actions + [StartWait("r", timeout)] == Opening(created, timeout);
  }

  /** To the next sweep and through it, with the request too young to be swept. */
  lemma PassSweep(states: seq<State<int>>, actions: seq<Action<int>>, now: nat, nextSweep: nat, created: nat,
                  deadline: nat)
    returns (longer: seq<State<int>>, more: seq<Action<int>>)
    requires IsRun(states, actions) && OnTime(states, actions)
    requires states[|actions|] == Waits(now, nextSweep, created, Waiting(deadline))
    requires now <= nextSweep < created + STALE_REQUEST_TIMEOUT
    ensures IsRun(longer, more) && OnTime(longer, more) && more == actions + [Pass(nextSweep - now), Sweep(1)]
    ensures longer[..|states|] == states
    ensures longer[|more|] == Waits(nextSweep, nextSweep + CLEANUP_INTERVAL, created, Waiting(deadline))
  {
    longer := Extend(states, actions, Pass(nextSweep - now));
    more := actions + [Pass(nextSweep - now)];
    var s := longer[|more|];
    assert s == Waits(nextSweep, nextSweep, created, Waiting(deadline));
    assert Kept(s.streams[1].pending, s.now) == map["r" := created];
    AbandonNone(s.requests);
    longer := Extend(longer, more, Sweep(1));
    more := more + [Sweep(1)];
    assert map["r" := created].Keys - map["r" := created].Keys == {};
  }

  /** Registered at a sweep, a request is swept exactly 60 s later; for any longer timeout its wait is cut. */
  lemma SweptAtSixty(timeout: nat) returns (states: seq<State<int>>, actions: seq<Action<int>>)
    requires timeout > 60000
    ensures IsRun(states, actions) && OnTime(states, actions)
    ensures actions == Opening(0, timeout) + [Pass(30000), Sweep(1), Pass(30000), Sweep(1), Wake("r")]
    ensures "r" in states[|actions|].requests && states[|actions|].requests["r"].waiter == Disconnected
  {
    states := Begin(0, timeout);
    states, actions := PassSweep(states, Opening(0, timeout), 0, 30000, 0, timeout);
    states := Extend(states, actions, Pass(30000));
    actions := actions + [Pass(30000)];
    assert states[|actions|] == Waits(60000, 60000, 0, Waiting(timeout));
    states, actions := CutBySweep(states, actions, 60000, 0, timeout);
  }

  lemma CutBySweep(states: seq<State<int>>, actions: seq<Action<int>>, now: nat, created: nat, deadline: nat)
    returns (longer: seq<State<int>>, more: seq<Action<int>>)
    requires IsRun(states, actions) && OnTime(states, actions)
    requires states[|actions|] == Waits(now, now, created, Waiting(deadline)) && Stale(created, now)
    ensures IsRun(longer, more) && OnTime(longer, more) && more == actions + [Sweep(1), Wake("r")]
    ensures "r" in longer[|more|].requests && longer[|more|].requests["r"].waiter == Disconnected
    ensures longer[|more|].now == now && longer[..|states|] == states
  {
    longer := Extend(states, actions, Sweep(1));
    more := actions + [Sweep(1)];
    assert longer[|more|].requests["r"].cell == Abandoned;
    longer := Extend(longer, more, Wake("r"));
    more := more + [Wake("r")];
  }

  /** Registered just after a sweep, it is swept only a millisecond short of 90 s; for any timeout below
      that its wait runs to the deadline. */
  lemma ExpiresBeforeNinety(timeout: nat) returns (states: seq<State<int>>, actions: seq<Action<int>>)
    requires 60000 <= timeout < 90000
    ensures IsRun(states, actions) && OnTime(states, actions)
    ensures actions == Opening(1, timeout)
      + [Pass(29999), Sweep(1), Pass(30000), Sweep(1), Pass(timeout - 59999), Expire("r")]
    ensures "r" in states[|actions|].requests && states[|actions|].requests["r"].waiter == TimedOut
  {
    states := Begin(1, timeout);
    states, actions := PassSweep(states, Opening(1, timeout), 1, 30000, 1, 1 + timeout);
    states, actions := PassSweep(states, actions, 30000, 60000, 1, 1 + timeout);
    states, actions := RunsOut(states, actions, 60000, 90000, 1, 1 + timeout);
  }

  lemma RunsOut(states: seq<State<int>>, actions: seq<Action<int>>, now: nat, nextSweep: nat, created: nat,
                deadline: nat)
    returns (longer: seq<State<int>>, more: seq<Action<int>>)
    requires IsRun(states, actions) && OnTime(states, actions)
    requires states[|actions|] == Waits(now, nextSweep, created, Waiting(deadline)) && now <= deadline <= nextSweep
    ensures IsRun(longer, more) && OnTime(longer, more) && more == actions + [Pass(deadline - now), Expire("r")]
    ensures "r" in longer[|more|].requests && longer[|more|].requests["r"].waiter == TimedOut
  {
    longer := Extend(states, actions, Pass(deadline - now));
    more := actions + [Pass(deadline - now)];
    assert longer[|more|] == Waits(deadline, nextSweep, created, Waiting(deadline));
    longer := Extend(longer, more, Expire("r"));
    more := more + [Expire("r")];
  }

  /** A certificate update does go out, with no id. */
  lemma CertificateGoesOut(content: string) returns (states: seq<State<int>>, actions: seq<Action<int>>)
    ensures actions == [Connect(1), Issue(1, "r", UpdateCertificate("", content)), StartWait("r", 10000)]
    ensures IsRun(states, actions) && "r" in states[3].requests && states[3].requests["r"].waiter.Waiting?
    ensures "r" in states[3].sent && states[3].sent["r"] == UpdateCertificate("", content)
  {
    states, actions := [State(0, 0, map[], map[], [], map[])], [];
    states := Extend(states, actions, Connect(1));
    actions := actions + [Connect(1)];
    states := Extend(states, actions, Issue(1, "r", UpdateCertificate("", content)));
    actions := actions + [Issue(1, "r", UpdateCertificate("", content))];
    states := Extend(states, actions, StartWait("r", 10000));
    actions := actions + [StartWait("r", 10000)];
  }

  // ----- A command that takes long to send ----------------------------------------------

  /** A wait of `timeout` that starts `held` after the registration, because the send took that long, and
      is disconnected before its deadline although the session lasts. */
  ghost predicate CutEarly<T(!new)>(states: seq<State<T>>, actions: seq<Action<T>>, issued: nat, waits: nat, ends: nat,
                                    home: int, id: Rid, held: nat, timeout: nat)
  {
    && IsRun(states, actions) && OnTime(states, actions) && issued < waits < ends < |states|
    && actions[issued].Issue? && actions[issued].home == home && actions[issued].id == id
    && actions[waits] == StartWait(id, timeout) && states[waits].now == states[issued].now + held
    && SessionLasts(actions, home, issued, ends)
    && id in states[ends].requests && states[ends].requests[id].waiter.Disconnected?
    && states[ends].now < states[waits].now + timeout
  }

  lemma {:induction false} TimeGrows<T(!new)>(states: seq<State<T>>, actions: seq<Action<T>>, i: nat, j: nat)
    requires IsRun(states, actions) && i <= j < |states|
    ensures states[i].now <= states[j].now
    decreases j
  {
    if i < j {
      NowGrows(states, actions, j - 1);
      TimeGrows(states, actions, i, j - 1);
    }
  }

  lemma IssueConnects<T(!new)>(states: seq<State<T>>, actions: seq<Action<T>>, k: nat)
    requires IsRun(states, actions) && k < |actions| && actions[k].Issue?
    ensures Connected(states[k + 1], actions[k].home, actions[k].id, states[k].now)
  {
    assert Enabled(states[k], actions[k]);
  }

  /** A wait is cut only if the send and the wait together can reach 60 s. */
  lemma CutNeedsDelay<T(!new)>(states: seq<State<T>>, actions: seq<Action<T>>, issued: nat, waits: nat, ends: nat,
                               home: int, id: Rid, held: nat, timeout: nat)
    requires CutEarly(states, actions, issued, waits, ends, home, id, held, timeout)
    ensures timeout > 0 && held + timeout > 60000
  {
    TimeGrows(states, actions, waits, ends);
    IssueConnects(states, actions, issued);
    if held + timeout <= 60000 {
      ConnectedLasts(states, actions, issued + 1, ends, home, id, states[issued].now);
    }
  }

  /** The request "r", registered at 0, while its command is being sent. */
  function Held(now: nat, nextSweep: nat): State<int> {
    var swept := nextSweep > 60000;
    State(now, 1, map[1 := Stream(0, if swept then map[] else map["r" := 0], nextSweep)],
          map["r" := Request(1, 0, 0, if swept then Abandoned else Open, Sending)], [], map["r" := Restart("r", "")])
  }

  function Issuing(): seq<Action<int>> {
    [Connect(1), Pass(0), Issue(1, "r", Restart("", ""))]
  }

  lemma Issued() returns (states: seq<State<int>>)
    ensures IsRun(states, Issuing()) && OnTime(states, Issuing()) && states[2].now == 0 && states[3] == Held(0, 30000)
  {
    states := Connects(0);
    states := Extend(states, [Connect(1), Pass(0)], Issue(1, "r", Restart("", "")));
    assert [Connect(1), Pass(0)] + [Issue(1, "r", Restart("", ""))] == Issuing();
    assert states[3] == Held(0, 30000);
  }

  /** Nothing but time and sweeps after the command was issued. */
  ghost predicate StaysUp(actions: seq<Action<int>>) {
    && |actions| >= 3 && actions[..3] == Issuing()
    && forall k | 2 <= k < |actions| :: actions[k] != Connect(1) && actions[k] != Drop(1)
  }

  lemma HeldSweep(states: seq<State<int>>, actions: seq<Action<int>>, now: nat, nextSweep: nat)
    returns (longer: seq<State<int>>, more: seq<Action<int>>)
    requires IsRun(states, actions) && OnTime(states, actions) && StaysUp(actions)
    requires states[|actions|] == Held(now, nextSweep) && now <= nextSweep && nextSweep >= 30000
      && nextSweep % 30000 == 0
    ensures IsRun(longer, more) && OnTime(longer, more) && StaysUp(more)
      && more == actions + [Pass(nextSweep - now), Sweep(1)]
    ensures longer[|more|] == Held(nextSweep, nextSweep + CLEANUP_INTERVAL) && longer[..|states|] == states
  {
    longer := Extend(states, actions, Pass(nextSweep - now));
    more := actions + [Pass(nextSweep - now)];
    var s := longer[|more|];
    assert s == Held(nextSweep, nextSweep);
    SweepHeld(nextSweep);
    longer := Extend(longer, more, Sweep(1));
    more := more + [Sweep(1)];
  }

  lemma SweepHeld(now: nat)
    requires now >= 30000 && now % 30000 == 0
    ensures Enabled(Held(now, now), Sweep(1)) && Next(Held(now, now), Sweep(1)) == Held(now, now + CLEANUP_INTERVAL)
  {
    var s := Held(now, now);
    var pending := s.streams[1].pending;
    if now < 60000 {
      assert Kept(pending, now) == pending;
      assert pending.Keys - Kept(pending, now).Keys == {};
      AbandonNone(s.requests);
    } else if now == 60000 {
      assert Kept(pending, now) == map[] && pending.Keys - {} == {"r"};
      assert Abandon(s.requests, {"r"}) == map["r" := s.requests["r"].(cell := Abandoned)];
    } else {
      assert Kept(pending, now) == map[] && pending.Keys - {} == {};
      AbandonNone(s.requests);
    }
  }

  lemma {:induction false} HoldSend(states: seq<State<int>>, actions: seq<Action<int>>, now: nat, nextSweep: nat,
                                    until: nat)
    returns (longer: seq<State<int>>, more: seq<Action<int>>, next: nat)
    requires IsRun(states, actions) && OnTime(states, actions) && StaysUp(actions)
    requires states[|actions|] == Held(now, nextSweep) && now <= nextSweep <= now + 30000 && now <= until
    requires nextSweep >= 30000 && nextSweep % 30000 == 0
    ensures IsRun(longer, more) && OnTime(longer, more) && StaysUp(more)
    ensures longer[|more|] == Held(until, next) && until < next <= until + 30000 && next % 30000 == 0 && next >= 30000
    ensures |states| <= |longer| && longer[..|states|] == states
    decreases until + 30000 - nextSweep
  {
    if until < nextSweep {
      longer := Extend(states, actions, Pass(until - now));
      more := actions + [Pass(until - now)];
      next := nextSweep;
    } else {
      longer, more := HeldSweep(states, actions, now, nextSweep);
      longer, more, next := HoldSend(longer, more, nextSweep, nextSweep + 30000, until);
    }
  }

  lemma CutAtOnce(states: seq<State<int>>, actions: seq<Action<int>>, held: nat, next: nat, timeout: nat)
    returns (longer: seq<State<int>>, more: seq<Action<int>>)
    requires IsRun(states, actions) && OnTime(states, actions)
    requires states[|actions|] == Held(held, next) && next > 60000
    ensures IsRun(longer, more) && OnTime(longer, more) && more == actions + [StartWait("r", timeout), Wake("r")]
    ensures "r" in longer[|more|].requests && longer[|more|].requests["r"].waiter == Disconnected
    ensures longer[|more|].now == held && longer[..|states|] == states
  {
    longer := Extend(states, actions, StartWait("r", timeout));
    more := actions + [StartWait("r", timeout)];
    assert longer[|more|].requests["r"] == Request(1, 0, 0, Abandoned, Waiting(held + timeout));
    longer := Extend(longer, more, Wake("r"));
    more := more + [Wake("r")];
  }

  lemma StartHeldWait(states: seq<State<int>>, actions: seq<Action<int>>, held: nat, next: nat, timeout: nat)
    returns (longer: seq<State<int>>)
    requires IsRun(states, actions) && OnTime(states, actions)
    requires states[|actions|] == Held(held, next) && next <= 60000
    ensures IsRun(longer, actions + [StartWait("r", timeout)]) && OnTime(longer, actions + [StartWait("r", timeout)])
    ensures longer[|actions| + 1] == Waits(held, next, 0, Waiting(held + timeout)) && longer[..|states|] == states
  {
    longer := Extend(states, actions, StartWait("r", timeout));
    assert longer[|actions| + 1].requests == map["r" := Request(1, 0, 0, Open, Waiting(held + timeout))];
  }

  /** From a wait that has started, through the sweeps up to the one at 60 s. */
  lemma CutLater(states: seq<State<int>>, actions: seq<Action<int>>, held: nat, next: nat, deadline: nat)
    returns (longer: seq<State<int>>, more: seq<Action<int>>)
    requires IsRun(states, actions) && OnTime(states, actions)
    requires states[|actions|] == Waits(held, next, 0, Waiting(deadline)) && held < next
      && (next == 30000 || next == 60000)
    ensures IsRun(longer, more) && OnTime(longer, more) && |more| > |actions| && more[..|actions|] == actions
    ensures forall k | |actions| <= k < |more| :: more[k] != Connect(1) && more[k] != Drop(1)
    ensures "r" in longer[|more|].requests && longer[|more|].requests["r"].waiter == Disconnected
    ensures longer[|more|].now == 60000 && longer[..|states|] == states
    decreases 60000 - next
  {
    if next == 30000 {
      longer, more := PassSweep(states, actions, held, 30000, 0, deadline);
      longer, more := CutLater(longer, more, 30000, 60000, deadline);
    } else {
      longer := Extend(states, actions, Pass(60000 - held));
      more := actions + [Pass(60000 - held)];
      assert longer[|more|] == Waits(60000, 60000, 0, Waiting(deadline));
      longer, more := CutBySweep(longer, more, 60000, 0, deadline);
    }
  }

  /** And it is cut in some run whenever they do. */
  lemma DelayCanCut(held: nat, timeout: nat) returns (states: seq<State<int>>, actions: seq<Action<int>>, waits: nat)
    requires timeout > 0 && held + timeout > 60000
    ensures CutEarly(states, actions, 2, waits, |actions|, 1, "r", held, timeout)
  {
    var next: nat;
    states := Issued();
    states, actions, next := HoldSend(states, Issuing(), 0, 30000, held);
    waits := |actions|;
    var before := actions;
    if next > 60000 {
      states, actions := CutAtOnce(states, actions, held, next, timeout);
    } else {
      states := StartHeldWait(states, actions, held, next, timeout);
      states, actions := CutLater(states, actions + [StartWait("r", timeout)], held, next, held + timeout);
    }
    assert actions[..waits] == before && before[..3] == Issuing();
    assert actions[2] == Issuing()[2];
    forall k | 2 <= k < |actions| ensures actions[k] != Connect(1) && actions[k] != Drop(1) {
      if k < waits {
        assert actions[k] == before[k];
      }
    }
  }

  ghost predicate CanBeCut(held: nat, timeout: nat) {
    exists states: seq<State<int>>, actions: seq<Action<int>>, issued: nat, waits: nat, ends: nat, home: int, id: Rid ::
      CutEarly(states, actions, issued, waits, ends, home, id, held, timeout)
  }

  /** The sweeper can disconnect a wait before its deadline, in a session that lasts, if and only if the
      time its command took to send and its timeout add up to more than 60 s. */
  lemma CutExactly(held: nat, timeout: nat)
    ensures CanBeCut(held, timeout) <==> timeout > 0 && held + timeout > 60000
  {
    if CanBeCut(held, timeout) {
      var states: seq<State<int>>, actions: seq<Action<int>>, issued: nat, waits: nat, ends: nat, home: int, id: Rid :|
        CutEarly(states, actions, issued, waits, ends, home, id, held, timeout);
      CutNeedsDelay(states, actions, issued, waits, ends, home, id, held, timeout);
    }
    if timeout > 0 && held + timeout > 60000 {
      var states, actions, waits := DelayCanCut(held, timeout);
    }
  }

  lemma HeldForLong() returns (states: seq<State<int>>, actions: seq<Action<int>>)
    ensures IsRun(states, actions) && OnTime(states, actions)
    ensures actions == Issuing() + [Pass(30000), Sweep(1), Pass(25000)]
    ensures states[2].now == 0 && states[6] == Held(55000, 60000)
  {
    states := Issued();
    states, actions := HeldSweep(states, Issuing(), 0, 30000);
    states := Extend(states, actions, Pass(25000));
    actions := actions + [Pass(25000)];
  }

  /** A command that took 55 s to send, and a wait of 10 s: the sweep at 60 s cuts it after 5 s. */
  lemma HeldSendIsCut() returns (states: seq<State<int>>, actions: seq<Action<int>>)
    ensures actions == Issuing()
      + [Pass(30000), Sweep(1), Pass(25000), StartWait("r", 10000), Pass(5000), Sweep(1), Wake("r")]
    ensures CutEarly(states, actions, 2, 6, 10, 1, "r", 55000, 10000)
  {
    states, actions := HeldForLong();
    var before := states;
    states := StartHeldWait(states, actions, 55000, 60000, 10000);
    actions := actions + [StartWait("r", 10000)];
    states := Extend(states, actions, Pass(5000));
    actions := actions + [Pass(5000)];
    assert states[8] == Waits(60000, 60000, 0, Waiting(65000));
    states, actions := CutBySweep(states, actions, 60000, 0, 65000);
    assert states[..7] == before;
  }
}
