// All traffic managers at once: reports fill their buffers, and the entries they drain run interleaved,
// each reading, writing and counting at its own moments. One direction of the traffic is modelled.
module FlushRuns {
  import R = FlushOverlap

  datatype Slot = Slot(manager: int, proxy: int, client: int)

  /** `dropped`: the proxy row was missing when the entry needed it. */
  datatype Entry = Entry(proxy: int, bytes: nat, pc: R.Pc, dropped: bool)

  /** `shown` is history: the entries whose bytes the total includes. */
  datatype Row = Row(total: nat, daily: nat, shown: set<nat>)

  /** `gone` are the ids of deleted proxies, which are not used again. */
  datatype State = State(buffers: map<Slot, nat>, entries: seq<Entry>, rows: map<int, Row>, gone: set<int>,
                         reported: nat)

  datatype Action =
    | Report(slot: Slot, bytes: nat)
    | Drain(slot: Slot)
    | Read(entry: nat)
    | Write(entry: nat)
    | Count(entry: nat)
    | AddProxy(proxy: int)
    | DeleteProxy(proxy: int)

  predicate Enabled(s: State, a: Action) {
    match a
    case Report(_, _) => true
    case Drain(slot) => slot in s.buffers
    case Read(i) => i < |s.entries| && s.entries[i].pc.Waiting? && !s.entries[i].dropped
    case Write(i) => i < |s.entries| && s.entries[i].pc.Seen?
    case Count(i) => i < |s.entries| && s.entries[i].pc.Written?
    case AddProxy(p) => p !in s.rows && p !in s.gone
    case DeleteProxy(p) => p in s.rows
  }

  function At(s: State, i: nat, e: Entry): State
    requires i < |s.entries|
  {
    s.(entries := s.entries[i := e])
  }

  function Next(s: State, a: Action): State
    requires Enabled(s, a)
  {
    match a
    case Report(slot, bytes) =>
      s.(buffers := s.buffers[slot := Buffered(s.buffers, slot) + bytes], reported := s.reported + bytes)
    case Drain(slot) =>
      s.(buffers := s.buffers - {slot}, entries := s.entries + [Entry(slot.proxy, s.buffers[slot], R.Waiting, false)])
    case Read(i) =>
      var e := s.entries[i];
      if e.proxy in s.rows then At(s, i, e.(pc := R.Seen(s.rows[e.proxy].total, s.rows[e.proxy].shown)))
      else At(s, i, e.(dropped := true))
    case Write(i) =>
      var e := s.entries[i];
      var row := Row(e.pc.value + e.bytes, if e.proxy in s.rows then s.rows[e.proxy].daily else 0, e.pc.shown + {i});
      At(s, i, e.(pc := R.Written)).(rows := if e.proxy in s.rows then s.rows[e.proxy := row] else s.rows)
    case Count(i) =>
      var e := s.entries[i];
      if e.proxy in s.rows then
        At(s, i, e.(pc := R.Counted)).(rows := s.rows[e.proxy := s.rows[e.proxy].(
          daily := s.rows[e.proxy].daily + e.bytes)])
      else At(s, i, e.(pc := R.Counted, dropped := true))
    case AddProxy(p) => s.(rows := s.rows[p := Row(0, 0, {})])
    case DeleteProxy(p) => s.(rows := s.rows - {p}, gone := s.gone + {p})
  }

  function Buffered(buffers: map<Slot, nat>, slot: Slot): nat {
    if slot in buffers then buffers[slot] else 0
  }

  ghost predicate IsRun(states: seq<State>, actions: seq<Action>) {
    && |states| == |actions| + 1
    && states[0].buffers == map[] && states[0].entries == [] && states[0].reported == 0
    && (forall p | p in states[0].rows :: states[0].rows[p].shown == {} && p !in states[0].gone)
    && forall k | 0 <= k < |actions| :: Enabled(states[k], actions[k]) && states[k + 1] == Next(states[k], actions[k])
  }

  // ----- Every byte is in one place -----------------------------------------------------

  ghost function MapSum(m: map<Slot, nat>): nat {
    if m == map[] then 0
    else
      var k :| k in m;
      m[k] + MapSum(m - {k})
  }

  lemma {:induction false} MapSumRemove(m: map<Slot, nat>, k: Slot)
    requires k in m
    ensures MapSum(m) == m[k] + MapSum(m - {k})
    decreases |m|
  {
    var j :| j in m && MapSum(m) == m[j] + MapSum(m - {j});
    if j != k {
      assert (m - {j}) - {k} == (m - {k}) - {j};
      MapSumRemove(m - {j}, k);
      MapSumRemove(m - {k}, j);
    }
  }

  lemma MapSumPut(m: map<Slot, nat>, k: Slot, b: nat)
    ensures MapSum(m[k := b]) + Buffered(m, k) == MapSum(m) + b
  {
    MapSumRemove(m[k := b], k);
    assert m[k := b] - {k} == m - {k};
    if k in m {
      MapSumRemove(m, k);
    } else {
      assert m - {k} == m;
    }
  }

  function Bytes(entries: seq<Entry>): (bytes: seq<nat>)
    ensures |bytes| == |entries| && forall i | 0 <= i < |entries| :: bytes[i] == entries[i].bytes
  {
    seq(|entries|, i requires 0 <= i < |entries| => entries[i].bytes)
  }

  function EntrySum(entries: seq<Entry>): nat {
    if entries == [] then 0 else EntrySum(entries[..|entries| - 1]) + entries[|entries| - 1].bytes
  }

  lemma {:induction false} EntrySumSame(entries: seq<Entry>, others: seq<Entry>)
    requires Bytes(entries) == Bytes(others)
    ensures EntrySum(entries) == EntrySum(others)
  {
    if entries != [] {
      var last := |entries| - 1;
      assert |Bytes(others)| == |entries| && Bytes(entries)[last] == Bytes(others)[last];
      assert Bytes(entries[..last]) == Bytes(entries)[..last] == Bytes(others[..last]);
      EntrySumSame(entries[..last], others[..last]);
    }
  }

  lemma StepTraces(s: State, a: Action)
    requires Enabled(s, a) && s.reported == MapSum(s.buffers) + EntrySum(s.entries)
    ensures var n := Next(s, a); n.reported == MapSum(n.buffers) + EntrySum(n.entries)
  {
    var n := Next(s, a);
    match a
    case Report(slot, bytes) => MapSumPut(s.buffers, slot, Buffered(s.buffers, slot) + bytes);
    case Drain(slot) =>
      MapSumRemove(s.buffers, slot);
      assert n.entries[..|s.entries|] == s.entries;
    case Read(_) | Write(_) | Count(_) =>
      assert Bytes(n.entries) == Bytes(s.entries);
      EntrySumSame(n.entries, s.entries);
    case AddProxy(_) | DeleteProxy(_) =>
  }

  /** Over every run, with flushes interleaved in any way: the bytes reported so far are those in the
      buffers and those of the entries drained. */
  lemma {:induction false} BytesAreTraced(states: seq<State>, actions: seq<Action>, k: nat)
    requires IsRun(states, actions) && k < |states|
    ensures states[k].reported == MapSum(states[k].buffers) + EntrySum(states[k].entries)
  {
    if k > 0 {
      BytesAreTraced(states, actions, k - 1);
      StepTraces(states[k - 1], actions[k - 1]);
    }
  }

  // ----- One proxy of the many ----------------------------------------------------------

  /** The run seen from one proxy: its row, and the entries that are its own. */
  function PcFor(s: State, p: int, i: nat): R.Pc {
    if i < |s.entries| && s.entries[i].proxy == p then s.entries[i].pc else R.Waiting
  }

  function View(s: State, p: int, start: Row, n: nat): (v: R.State)
    ensures |v.pcs| == n && forall i | 0 <= i < n :: v.pcs[i] == PcFor(s, p, i)
  {
    var row := if p in s.rows then s.rows[p] else start;
    R.State(row.total, row.daily, seq(n, i requires 0 <= i < n => PcFor(s, p, i)), row.shown)
  }

  function ActionFor(s: State, a: Action, p: int): R.Action {
    match a
    case Read(i) => if i < |s.entries| && s.entries[i].proxy == p && p in s.rows then R.Read(i) else R.Skip
    case Write(i) => if i < |s.entries| && s.entries[i].proxy == p then R.Write(i) else R.Skip
    case Count(i) => if i < |s.entries| && s.entries[i].proxy == p then R.Count(i) else R.Skip
    case _ => R.Skip
  }

  /** The proxy has not been deleted, and its entries only run while it has a row. */
  ghost predicate ProxyInv(s: State, p: int, start: Row) {
    && p !in s.gone && (p !in s.rows ==> start == Row(0, 0, {}))
    && forall i | 0 <= i < |s.entries| && s.entries[i].proxy == p && !s.entries[i].pc.Waiting? ::
      p in s.rows && !s.entries[i].dropped
  }

  lemma StepKeepsProxy(s: State, a: Action, p: int, start: Row)
    requires ProxyInv(s, p, start) && Enabled(s, a) && p !in Next(s, a).gone
    ensures ProxyInv(Next(s, a), p, start)
  {
  }

  /** A step of the whole is a step of the proxy's row, or none of its business. */
  lemma StepView(s: State, a: Action, p: int, start: Row, bytes: seq<nat>)
    requires ProxyInv(s, p, start) && Enabled(s, a) && p !in Next(s, a).gone
    requires |Next(s, a).entries| <= |bytes| && forall i | 0 <= i < |s.entries| :: bytes[i] == s.entries[i].bytes
    ensures var v, b := View(s, p, start, |bytes|), ActionFor(s, a, p);
      R.Enabled(v, b) && View(Next(s, a), p, start, |bytes|) == R.Next(bytes, v, b)
  {
    var v, b, n := View(s, p, start, |bytes|), ActionFor(s, a, p), Next(s, a);
    assert R.Enabled(v, b);
    var w := R.Next(bytes, v, b);
    forall i | 0 <= i < |bytes| ensures PcFor(n, p, i) == w.pcs[i] {
    }
    assert View(n, p, start, |bytes|).pcs == w.pcs;
  }

  lemma {:induction false} Grows(states: seq<State>, actions: seq<Action>, j: nat, k: nat)
    requires IsRun(states, actions) && j <= k < |states|
    ensures |states[j].entries| <= |states[k].entries| && states[j].gone <= states[k].gone
    ensures forall i | 0 <= i < |states[j].entries| :: states[j].entries[i].bytes == states[k].entries[i].bytes
    decreases k
  {
    if j < k {
      Grows(states, actions, j, k - 1);
      assert Enabled(states[k - 1], actions[k - 1]);
    }
  }

  function StartOf(s: State, p: int): Row {
    if p in s.rows then s.rows[p] else Row(0, 0, {})
  }

  ghost function Views(states: seq<State>, p: int): (views: seq<R.State>)
    requires states != []
    ensures |views| == |states|
    ensures forall k | 0 <= k < |states| ::
      views[k] == View(states[k], p, StartOf(states[0], p), |states[|states| - 1].entries|)
  {
    seq(|states|, k requires 0 <= k < |states| =>
      View(states[k], p, StartOf(states[0], p), |states[|states| - 1].entries|))
  }

  ghost function ActionsFor(states: seq<State>, actions: seq<Action>, p: int): (acts: seq<R.Action>)
    requires |states| == |actions| + 1
    ensures |acts| == |actions| && forall k | 0 <= k < |actions| :: acts[k] == ActionFor(states[k], actions[k], p)
  {
    seq(|actions|, k requires 0 <= k < |actions| => ActionFor(states[k], actions[k], p))
  }

  lemma {:induction false} ProxyInvHolds(states: seq<State>, actions: seq<Action>, p: int, k: nat)
    requires IsRun(states, actions) && k < |states| && p !in states[|actions|].gone
    ensures ProxyInv(states[k], p, StartOf(states[0], p))
  {
    Grows(states, actions, k, |actions|);
    if k > 0 {
      ProxyInvHolds(states, actions, p, k - 1);
      StepKeepsProxy(states[k - 1], actions[k - 1], p, StartOf(states[0], p));
    }
  }

  /** Every run, seen from a proxy that is not deleted in it, is a run of its row. */
  lemma RunView(states: seq<State>, actions: seq<Action>, p: int)
    requires IsRun(states, actions) && p !in states[|actions|].gone
    ensures var bytes, start := Bytes(states[|actions|].entries), StartOf(states[0], p);
      R.IsRun(bytes, start.total, start.daily, Views(states, p), ActionsFor(states, actions, p))
  {
    var bytes, start := Bytes(states[|actions|].entries), StartOf(states[0], p);
    var views, acts := Views(states, p), ActionsFor(states, actions, p);
    forall k | 0 <= k < |acts|
      ensures R.Enabled(views[k], acts[k]) && views[k + 1] == R.Next(bytes, views[k], acts[k])
    {
      StepSeen(states, actions, p, k);
    }
    assert views[0].pcs == seq(|bytes|, i => R.Waiting);
  }

  lemma StepSeen(states: seq<State>, actions: seq<Action>, p: int, k: nat)
    requires IsRun(states, actions) && p !in states[|actions|].gone && k < |actions|
    ensures var bytes, start := Bytes(states[|actions|].entries), StartOf(states[0], p);
            var v, b := View(states[k], p, start, |bytes|), ActionFor(states[k], actions[k], p);
      R.Enabled(v, b) && View(states[k + 1], p, start, |bytes|) == R.Next(bytes, v, b)
  {
    ProxyInvHolds(states, actions, p, k);
    Grows(states, actions, k, |actions|);
    Grows(states, actions, k + 1, |actions|);
    assert Enabled(states[k], actions[k]);
    StepView(states[k], actions[k], p, StartOf(states[0], p), Bytes(states[|actions|].entries));
  }

  /** The entries of a proxy that are through. */
  function Delivered(s: State, p: int): set<nat> {
    set i: nat | i < |s.entries| && s.entries[i].proxy == p && s.entries[i].pc.Counted?
  }

  lemma DeliveredIsDone(s: State, p: int, start: Row)
    ensures R.DoneCounting(View(s, p, start, |s.entries|)) == Delivered(s, p)
  {
    var v := View(s, p, start, |s.entries|);
    forall i: nat ensures i in R.DoneCounting(v) <==> i in Delivered(s, p) {
    }
  }

  lemma {:induction false} LiveIsNotGone(states: seq<State>, actions: seq<Action>, k: nat)
    requires IsRun(states, actions) && k < |states|
    ensures forall p | p in states[k].rows :: p !in states[k].gone
  {
    if k > 0 {
      LiveIsNotGone(states, actions, k - 1);
      assert Enabled(states[k - 1], actions[k - 1]);
    }
  }

  /** However the flushes interleave: a live proxy's daily rows have grown by exactly the bytes of its
      entries that are through, and its total by those of the entries it shows. */
  lemma ProxyRowsHold(states: seq<State>, actions: seq<Action>, p: int)
    requires IsRun(states, actions) && p in states[|actions|].rows
    ensures var s, start := states[|actions|], StartOf(states[0], p);
      && s.rows[p].daily == start.daily + R.SumOf(Bytes(s.entries), Delivered(s, p))
      && s.rows[p].total == start.total + R.SumOf(Bytes(s.entries), s.rows[p].shown)
  {
    var s, start := states[|actions|], StartOf(states[0], p);
    LiveIsNotGone(states, actions, |actions|);
    RunView(states, actions, p);
    R.RowsHold(Bytes(s.entries), start.total, start.daily, Views(states, p), ActionsFor(states, actions, p), |actions|);
    DeliveredIsDone(s, p, start);
  }

  /** An entry of the proxy writes while another of them has read and not written yet. */
  ghost predicate OverlapOn(states: seq<State>, actions: seq<Action>, p: int, k: nat, other: nat)
    requires |states| == |actions| + 1
  {
    && k < |actions| && actions[k].Write? && other != actions[k].entry
    && actions[k].entry < |states[k].entries| && states[k].entries[actions[k].entry].proxy == p
    && other < |states[k].entries| && states[k].entries[other].proxy == p && states[k].entries[other].pc.Seen?
  }

  ghost predicate NoOverlapOn(states: seq<State>, actions: seq<Action>, p: int)
    requires |states| == |actions| + 1
  {
    forall k: nat, other: nat :: !OverlapOn(states, actions, p, k, other)
  }

  lemma OverlapSeen(states: seq<State>, actions: seq<Action>, p: int)
    requires IsRun(states, actions)
    ensures R.NoOverlap(Views(states, p), ActionsFor(states, actions, p), |actions|) <==>
      NoOverlapOn(states, actions, p)
  {
    var views, acts := Views(states, p), ActionsFor(states, actions, p);
    forall k: nat, other: nat | k < |actions|
      ensures R.OverlapAt(views, acts, k, other) <==> OverlapOn(states, actions, p, k, other)
    {
      Grows(states, actions, k, |actions|);
      assert Enabled(states[k], actions[k]);
    }
  }

  /** No entry of the proxy is under way. */
  predicate QuietOn(s: State, p: int) {
    forall i | 0 <= i < |s.entries| && s.entries[i].proxy == p :: s.entries[i].pc.Waiting? || s.entries[i].pc.Counted?
  }

  /** Over every run, whenever none of a live proxy's entries is under way: its total and its daily rows
      have grown by the same amount if and only if no two of its entries overlapped. */
  lemma ProxyGrowsAlikeExactly(states: seq<State>, actions: seq<Action>, p: int)
    requires IsRun(states, actions) && p in states[|actions|].rows && QuietOn(states[|actions|], p)
    requires forall i | 0 <= i < |states[|actions|].entries| :: states[|actions|].entries[i].bytes > 0
    ensures var row, start := states[|actions|].rows[p], StartOf(states[0], p);
      row.total - start.total == row.daily - start.daily <==> NoOverlapOn(states, actions, p)
  {
    var s, start := states[|actions|], StartOf(states[0], p);
    LiveIsNotGone(states, actions, |actions|);
    RunView(states, actions, p);
    OverlapSeen(states, actions, p);
    DeliveredIsDone(s, p, start);
    R.GrowAlikeExactly(Bytes(s.entries), start.total, start.daily,
      Views(states, p), ActionsFor(states, actions, p), |actions|);
  }

  /** An entry of a live proxy that nothing overlaps adds its bytes to the total and to the daily rows, and
      changes no other proxy. */
  lemma AloneGrowsBoth(s: State, i: nat)
    requires i < |s.entries| && s.entries[i].pc.Waiting? && !s.entries[i].dropped && s.entries[i].proxy in s.rows
    ensures var p, bytes := s.entries[i].proxy, s.entries[i].bytes;
      var read := Next(s, Read(i));
      var written := Next(read, Write(i));
      var after := Next(written, Count(i));
      && after.rows.Keys == s.rows.Keys
      && after.rows[p].total == s.rows[p].total + bytes && after.rows[p].daily == s.rows[p].daily + bytes
      && forall q | q in s.rows && q != p :: after.rows[q] == s.rows[q]
  {
  }

  /** An entry whose proxy row is missing is dropped and brings no row back. */
  lemma MissingIsDropped(s: State, i: nat)
    requires i < |s.entries| && s.entries[i].proxy !in s.rows
    ensures Enabled(s, Read(i)) ==>
      Next(s, Read(i)).rows == s.rows && Next(s, Read(i)) == At(s, i, s.entries[i].(dropped := true))
    ensures Enabled(s, Write(i)) ==> Next(s, Write(i)).rows == s.rows
    ensures Enabled(s, Count(i)) ==>
      Next(s, Count(i)).rows == s.rows && Next(s, Count(i)).entries[i].dropped
      && Next(s, Count(i)).entries[i].pc.Counted?
  {
  }

  lemma OneMore(states: seq<State>, actions: seq<Action>, a: Action) returns (longer: seq<State>, more: seq<Action>)
    requires IsRun(states, actions) && Enabled(states[|actions|], a)
    ensures more == actions + [a] && IsRun(longer, more) && longer[0] == states[0]
    ensures longer[|more|] == Next(states[|actions|], a)
  {
    longer, more := states + [Next(states[|actions|], a)], actions + [a];
  }

  /** Proxy 7 with the entries of two managers, 3 and 5 bytes. */
  function TwoEntries(pc: R.Pc, other: R.Pc, total: nat, daily: nat, shown: set<nat>): State {
    State(map[], [Entry(7, 3, pc, false), Entry(7, 5, other, false)], map[7 := Row(total, daily, shown)], {}, 8)
  }

  lemma TwoDrained() returns (states: seq<State>, actions: seq<Action>)
    ensures IsRun(states, actions) && states[0].rows == map[]
    ensures states[|actions|] == TwoEntries(R.Waiting, R.Waiting, 0, 0, {})
  {
    states, actions := [State(map[], [], map[], {}, 0)], [];
    states, actions := OneMore(states, actions, AddProxy(7));
    states, actions := OneMore(states, actions, Report(Slot(1, 7, 1), 3));
    states, actions := OneMore(states, actions, Report(Slot(2, 7, 1), 5));
    states, actions := OneMore(states, actions, Drain(Slot(1, 7, 1)));
    states, actions := OneMore(states, actions, Drain(Slot(2, 7, 1)));
    assert states[|actions|].buffers == map[];
  }

  /** Both read before either writes: the proxy ends with a total of 5 and daily rows of 8. */
  lemma TwoManagersOverlap() returns (states: seq<State>, actions: seq<Action>)
    ensures IsRun(states, actions) && states[0].rows == map[] && 7 in states[|actions|].rows
    ensures var s := states[|actions|];
      QuietOn(s, 7) && s.rows[7].total == 5 && s.rows[7].daily == 8 && s.reported == 8 && s.buffers == map[]
  {
    states, actions := TwoDrained();
    states, actions := OneMore(states, actions, Read(0));
    states, actions := OneMore(states, actions, Read(1));
    BothRead();
    states, actions := OneMore(states, actions, Write(0));
    states, actions := OneMore(states, actions, Write(1));
    BothWritten();
    states, actions := OneMore(states, actions, Count(0));
    states, actions := OneMore(states, actions, Count(1));
  }

  lemma BothRead()
    ensures Next(Next(TwoEntries(R.Waiting, R.Waiting, 0, 0, {}), Read(0)), Read(1))
      == TwoEntries(R.Seen(0, {}), R.Seen(0, {}), 0, 0, {})
  {
  }

  lemma BothWritten()
    ensures Next(Next(TwoEntries(R.Seen(0, {}), R.Seen(0, {}), 0, 0, {}), Write(0)), Write(1))
      == TwoEntries(R.Written, R.Written, 5, 0, {1})
  {
    assert {} + {1 as nat} == {1};
  }
}
