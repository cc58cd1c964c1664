// Flush entries of several managers that overlap on one client, user or node row. Each entry reads the
// row, writes its counters (from zero if the row is due for a reset), and may set the quota flag in a
// write of its own; a write touches only the columns it sets. All entries share one instant.
module AccountOverlap {
  import opened Traffic
  import opened Wrappers
  import R = FlushOverlap

  /** `shown` is history: the entries whose bytes the counters include. */
  datatype Pc = Waiting | Seen(row: Account, shown: set<nat>) | Written(row: Account, used: Bytes) | Done(used: Bytes)

  datatype State = State(row: Account, pcs: seq<Pc>, shown: set<nat>)

  datatype Action = Read(entry: nat) | Write(entry: nat) | Flag(entry: nat)

  predicate Enabled(s: State, a: Action) {
    a.entry < |s.pcs| &&
    match a
    case Read(i) => s.pcs[i].Waiting?
    case Write(i) => s.pcs[i].Seen?
    case Flag(i) => s.pcs[i].Written?
  }

  function Next(entries: seq<Bytes>, now: Stamp, s: State, a: Action): State
    requires |s.pcs| == |entries| && Enabled(s, a)
  {
    match a
    case Read(i) => s.(pcs := s.pcs[i := Seen(s.row, s.shown)])
    case Write(i) =>
      var seen := s.pcs[i].row;
      var used := UsedAfter(seen, entries[i], now);
      var row := if ShouldReset(seen, now) then s.row.(used := used, exceeded := false, lastReset := Some(now))
        else s.row.(used := used);
      State(row, s.pcs[i := Written(seen, used)], s.pcs[i].shown + {i})
    case Flag(i) =>
      var pc := s.pcs[i];
      var row := if Over(pc.row, pc.used) && !pc.row.exceeded then s.row.(exceeded := true) else s.row;
      s.(row := row, pcs := s.pcs[i := Done(pc.used)])
  }

  ghost predicate IsRun(entries: seq<Bytes>, now: Stamp, start: Account, states: seq<State>, actions: seq<Action>) {
    && |states| == |actions| + 1
    && states[0] == State(start, seq(|entries|, i => Waiting), {})
    && (forall k | 0 <= k < |states| :: |states[k].pcs| == |entries|)
    && forall k | 0 <= k < |actions| ::
      Enabled(states[k], actions[k]) && states[k + 1] == Next(entries, now, states[k], actions[k])
  }

  // ----- The counters lose what a proxy total loses -------------------------------------

  /** One direction of the traffic. */
  function Count(b: Bytes, sent: bool): nat {
    if sent then b.sent else b.received
  }

  function Counts(entries: seq<Bytes>, sent: bool): (counts: seq<nat>)
    ensures |counts| == |entries| && forall i | 0 <= i < |entries| :: counts[i] == Count(entries[i], sent)
  {
    seq(|entries|, i requires 0 <= i < |entries| => Count(entries[i], sent))
  }

  /** What the counters go on from: nothing, if the row is due for a reset. */
  function Base(start: Account, now: Stamp, sent: bool): nat {
    if ShouldReset(start, now) then 0 else Count(start.used, sent)
  }

  /** The row read as a total that starts at the base. */
  function Total(start: Account, now: Stamp, row: Account, shown: set<nat>, sent: bool): nat {
    if shown == {} then Base(start, now, sent) else Count(row.used, sent)
  }

  function PcView(start: Account, now: Stamp, pc: Pc, sent: bool): R.Pc {
    match pc
    case Waiting => R.Waiting
    case Seen(row, shown) => R.Seen(Total(start, now, row, shown, sent), shown)
    case Written(_, _) => R.Written
    case Done(_) => R.Counted
  }

  function Through(s: State): set<nat> {
    set i: nat | i < |s.pcs| && s.pcs[i].Done?
  }

  function View(entries: seq<Bytes>, now: Stamp, start: Account, s: State, sent: bool): (v: R.State)
    requires |s.pcs| == |entries|
    ensures |v.pcs| == |s.pcs| && forall i | 0 <= i < |s.pcs| :: v.pcs[i] == PcView(start, now, s.pcs[i], sent)
  {
    R.State(Total(start, now, s.row, s.shown, sent), R.SumOf(Counts(entries, sent), Through(s)),
            seq(|s.pcs|, i requires 0 <= i < |s.pcs| => PcView(start, now, s.pcs[i], sent)), s.shown)
  }

  function ActionView(a: Action): R.Action {
    match a case Read(i) => R.Read(i) case Write(i) => R.Write(i) case Flag(i) => R.Count(i)
  }

  /** A row that shows no entry yet is the one from the start; any other is not due for a reset. */
  ghost predicate Fits(start: Account, now: Stamp, row: Account, shown: set<nat>) {
    && row.cycle == start.cycle && row.quotaGb == start.quotaGb
    && (if shown == {} then row == start else !ShouldReset(row, now))
  }

  ghost predicate Inv(start: Account, now: Stamp, s: State) {
    && Fits(start, now, s.row, s.shown)
    && forall i | 0 <= i < |s.pcs| ::
         && (s.pcs[i].Seen? ==>
           Fits(start, now, s.pcs[i].row, s.pcs[i].shown) && (s.pcs[i].shown != {} ==> s.shown != {}))
         && (s.pcs[i].Written? ==> s.shown != {})
  }

  lemma StepKeepsInv(entries: seq<Bytes>, now: Stamp, start: Account, s: State, a: Action)
    requires |s.pcs| == |entries| && Enabled(s, a) && Inv(start, now, s)
    ensures Inv(start, now, Next(entries, now, s, a))
  {
  }

  /** A step of the account row is a step of a row as FlushOverlap describes it. */
  lemma StepView(entries: seq<Bytes>, now: Stamp, start: Account, s: State, a: Action, sent: bool)
    requires |s.pcs| == |entries| && Enabled(s, a) && Inv(start, now, s)
    ensures var v, b, n := View(entries, now, start, s, sent), ActionView(a), Next(entries, now, s, a);
      R.Enabled(v, b) && View(entries, now, start, n, sent) == R.Next(Counts(entries, sent), v, b)
  {
    var v, b, n := View(entries, now, start, s, sent), ActionView(a), Next(entries, now, s, a);
    var counts := Counts(entries, sent);
    if a.Flag? {
      assert Through(n) == Through(s) + {a.entry};
      R.SumAdd(counts, |counts|, Through(s), a.entry);
    } else {
      assert Through(n) == Through(s);
    }
    var w := R.Next(counts, v, b);
    assert View(entries, now, start, n, sent).pcs == w.pcs;
  }

  ghost function Views(entries: seq<Bytes>, now: Stamp, start: Account, states: seq<State>,
                       sent: bool): (views: seq<R.State>)
    requires forall k | 0 <= k < |states| :: |states[k].pcs| == |entries|
    ensures |views| == |states| && forall k | 0 <= k < |states| ::
      views[k] == View(entries, now, start, states[k], sent)
  {
    seq(|states|, k requires 0 <= k < |states| => View(entries, now, start, states[k], sent))
  }

  function ActionViews(actions: seq<Action>): (acts: seq<R.Action>)
    ensures |acts| == |actions| && forall k | 0 <= k < |actions| :: acts[k] == ActionView(actions[k])
  {
    seq(|actions|, k requires 0 <= k < |actions| => ActionView(actions[k]))
  }

  lemma {:induction false} InvHolds(entries: seq<Bytes>, now: Stamp, start: Account, states: seq<State>,
                                    actions: seq<Action>, k: nat)
    requires IsRun(entries, now, start, states, actions) && k < |states|
    ensures Inv(start, now, states[k])
  {
    if k > 0 {
      InvHolds(entries, now, start, states, actions, k - 1);
      StepKeepsInv(entries, now, start, states[k - 1], actions[k - 1]);
    }
  }

  /** Every run on an account row is, counter by counter, a run of a row as FlushOverlap describes it. */
  lemma RunView(entries: seq<Bytes>, now: Stamp, start: Account, states: seq<State>, actions: seq<Action>, sent: bool)
    requires IsRun(entries, now, start, states, actions)
    ensures R.IsRun(Counts(entries, sent), Base(start, now, sent), 0,
      Views(entries, now, start, states, sent), ActionViews(actions))
  {
    var views, acts := Views(entries, now, start, states, sent), ActionViews(actions);
    forall k | 0 <= k < |acts|
      ensures R.Enabled(views[k], acts[k]) && views[k + 1] == R.Next(Counts(entries, sent), views[k], acts[k])
    {
      InvHolds(entries, now, start, states, actions, k);
      StepView(entries, now, start, states[k], actions[k], sent);
    }
    R.SumNone(Counts(entries, sent), |entries|);
    assert Through(states[0]) == {};
    assert views[0].pcs == seq(|entries|, i => R.Waiting);
  }

  /** An entry writes while another has read and not written yet. */
  ghost predicate OverlapAt(states: seq<State>, actions: seq<Action>, k: nat, other: nat)
    requires |states| == |actions| + 1
  {
    && k < |actions| && actions[k].Write? && other != actions[k].entry
    && other < |states[k].pcs| && states[k].pcs[other].Seen?
  }

  ghost predicate NoOverlap(states: seq<State>, actions: seq<Action>)
    requires |states| == |actions| + 1
  {
    forall k: nat, other: nat :: !OverlapAt(states, actions, k, other)
  }

  predicate AllDone(s: State) {
    forall i | 0 <= i < |s.pcs| :: s.pcs[i].Done?
  }

  /** Once all entries are through, each counter is its base plus the bytes of the entries that the row
      shows: it lacks exactly those of the others, and there are no others if and only if no two
      entries overlapped on the row. A reset does not change that; it only sets the base to 0. */
  lemma CountersLoseExactly(entries: seq<Bytes>, now: Stamp, start: Account, states: seq<State>, actions: seq<Action>,
                            sent: bool)
    requires IsRun(entries, now, start, states, actions) && entries != [] && AllDone(states[|actions|])
    ensures var s := states[|actions|]; var all := Through(s);
      && s.shown <= all && (forall i: nat :: i in all <==> i < |entries|)
      && (if sent then s.row.used.sent else s.row.used.received)
           == Base(start, now, sent) + R.SumOf(Counts(entries, sent), s.shown)
      && R.SumOf(Counts(entries, sent), all) - R.SumOf(Counts(entries, sent), s.shown)
        == R.SumOf(Counts(entries, sent), all - s.shown)
      && (s.shown == all <==> NoOverlap(states, actions))
  {
    var s, counts := states[|actions|], Counts(entries, sent);
    var views, acts := Views(entries, now, start, states, sent), ActionViews(actions);
    RunView(entries, now, start, states, actions, sent);
    R.LossExactly(counts, Base(start, now, sent), 0, views, acts, |actions|);
    R.AllShownExactly(counts, Base(start, now, sent), 0, views, acts, |actions|);
    assert R.DoneCounting(views[|actions|]) == Through(s);
    SameOverlaps(entries, now, start, states, actions, sent);
    SomethingShown(entries, now, start, states, actions, |actions|);
  }

  lemma SameOverlaps(entries: seq<Bytes>, now: Stamp, start: Account, states: seq<State>, actions: seq<Action>,
                     sent: bool)
    requires IsRun(entries, now, start, states, actions)
    ensures R.NoOverlap(Views(entries, now, start, states, sent), ActionViews(actions), |actions|) <==>
      NoOverlap(states, actions)
  {
    var views, acts := Views(entries, now, start, states, sent), ActionViews(actions);
    forall k: nat, other: nat | k < |actions|
      ensures R.OverlapAt(views, acts, k, other) <==> OverlapAt(states, actions, k, other)
    {
      assert |views[k].pcs| == |states[k].pcs|;
    }
  }

  lemma {:induction false} SomethingShown(entries: seq<Bytes>, now: Stamp, start: Account, states: seq<State>,
                                          actions: seq<Action>, k: nat)
    requires IsRun(entries, now, start, states, actions) && k < |states|
    ensures (exists i: nat :: i < |states[k].pcs| && (states[k].pcs[i].Written? || states[k].pcs[i].Done?)) ==>
      states[k].shown != {}
  {
    if k > 0 {
      SomethingShown(entries, now, start, states, actions, k - 1);
      var s, n, a := states[k - 1], states[k], actions[k - 1];
      if a.Write? {
        assert a.entry in n.shown;
      } else if i: nat :| i < |n.pcs| && (n.pcs[i].Written? || n.pcs[i].Done?) {
        assert s.pcs[i].Written? || s.pcs[i].Done?;
      }
    }
  }

  // ----- The quota flag of a row that is not due ----------------------------------------

  ghost predicate Reached(start: Account, s: State) {
    exists i: nat :: i < |s.pcs| && s.pcs[i].Done? && Over(start, s.pcs[i].used)
  }

  ghost predicate FlagInv(start: Account, s: State) {
    && (s.row.exceeded <==> start.exceeded || Reached(start, s))
    && s.row.quotaGb == start.quotaGb
    && forall i | 0 <= i < |s.pcs| :: var pc := s.pcs[i];
         (pc.Seen? || pc.Written? ==> pc.row.quotaGb == start.quotaGb && (pc.row.exceeded ==> s.row.exceeded))
  }

  lemma StepKeepsFlag(entries: seq<Bytes>, now: Stamp, start: Account, s: State, a: Action)
    requires |s.pcs| == |entries| && Enabled(s, a) && Inv(start, now, s) && FlagInv(start, s)
      && !ShouldReset(start, now)
    ensures FlagInv(start, Next(entries, now, s, a))
  {
    var n := Next(entries, now, s, a);
    if a.Flag? && Over(start, s.pcs[a.entry].used) {
      assert n.pcs[a.entry].Done? && Over(start, n.pcs[a.entry].used);
    }
    if Reached(start, s) {
      var i: nat :| i < |s.pcs| && s.pcs[i].Done? && Over(start, s.pcs[i].used);
      assert n.pcs[i] == s.pcs[i];
    }
    if Reached(start, n) {
      var i: nat :| i < |n.pcs| && n.pcs[i].Done? && Over(start, n.pcs[i].used);
      assert n.pcs[i] == s.pcs[i] || a == Flag(i);
    }
  }

  /** On a row not due for a reset the flag survives every interleaving: it is set if and only if it was
      before, or some entry wrote a total that reaches the quota, be that total lost again or not. */
  lemma {:induction false} FlagExactly(entries: seq<Bytes>, now: Stamp, start: Account, states: seq<State>,
                                       actions: seq<Action>, k: nat)
    requires IsRun(entries, now, start, states, actions) && k < |states| && !ShouldReset(start, now)
    ensures FlagInv(start, states[k])
  {
    if k > 0 {
      FlagExactly(entries, now, start, states, actions, k - 1);
      InvHolds(entries, now, start, states, actions, k - 1);
      StepKeepsFlag(entries, now, start, states[k - 1], actions[k - 1]);
    }
  }

  /** An entry that nothing overlaps charges the row as a flush on its own does. */
  lemma AloneIsCharge(entries: seq<Bytes>, now: Stamp, s: State, i: nat)
    requires |s.pcs| == |entries| && Enabled(s, Read(i))
    ensures var read := Next(entries, now, s, Read(i));
      var written := Next(entries, now, read, Write(i));
      var done := Next(entries, now, written, Flag(i));
      done.row == Charge(s.row, entries[i], now) && done.shown == s.shown + {i}
  {
  }
}
