// Several traffic managers flushing entries of one proxy at the same time. Each entry reads the proxy
// row, writes the total back with its bytes added, and increments the daily row in the database; any
// other entry may run in between. One direction of the traffic is modelled; the other is alike.
module FlushOverlap {

  /** `shown` is history: the entries whose bytes a total includes. */
  datatype Pc = Waiting | Seen(value: nat, shown: set<nat>) | Written | Counted

  datatype State = State(total: nat, daily: nat, pcs: seq<Pc>, shown: set<nat>)

  /** `Skip` leaves room for what happens elsewhere. */
  datatype Action = Read(entry: nat) | Write(entry: nat) | Count(entry: nat) | Skip

  predicate Enabled(s: State, a: Action) {
    match a
    case Read(i) => i < |s.pcs| && s.pcs[i].Waiting?
    case Write(i) => i < |s.pcs| && s.pcs[i].Seen?
    case Count(i) => i < |s.pcs| && s.pcs[i].Written?
    case Skip => true
  }

  function Next(bytes: seq<nat>, s: State, a: Action): State
    requires |s.pcs| == |bytes| && Enabled(s, a)
  {
    match a
    case Read(i) => s.(pcs := s.pcs[i := Seen(s.total, s.shown)])
    case Write(i) => s.(total := s.pcs[i].value + bytes[i], shown := s.pcs[i].shown + {i}, pcs := s.pcs[i := Written])
    case Count(i) => s.(daily := s.daily + bytes[i], pcs := s.pcs[i := Counted])
    case Skip => s
  }

  ghost predicate IsRun(bytes: seq<nat>, total: nat, daily: nat, states: seq<State>, actions: seq<Action>) {
    && |states| == |actions| + 1
    && states[0] == State(total, daily, seq(|bytes|, i => Waiting), {})
    && (forall k | 0 <= k < |states| :: |states[k].pcs| == |bytes|)
    && forall k | 0 <= k < |actions| ::
      Enabled(states[k], actions[k]) && states[k + 1] == Next(bytes, states[k], actions[k])
  }

  // ----- Sums over chosen entries -------------------------------------------------------

  function SumTo(bytes: seq<nat>, n: nat, chosen: set<nat>): nat
    requires n <= |bytes|
  {
    if n == 0 then 0 else SumTo(bytes, n - 1, chosen) + if n - 1 in chosen then bytes[n - 1] else 0
  }

  function SumOf(bytes: seq<nat>, chosen: set<nat>): nat {
    SumTo(bytes, |bytes|, chosen)
  }

  lemma {:induction false} SumAdd(bytes: seq<nat>, n: nat, chosen: set<nat>, i: nat)
    requires n <= |bytes| && i < |bytes| && i !in chosen
    ensures SumTo(bytes, n, chosen + {i}) == SumTo(bytes, n, chosen) + if i < n then bytes[i] else 0
  {
    if n > 0 {
      SumAdd(bytes, n - 1, chosen, i);
    }
  }

  lemma {:induction false} SumNone(bytes: seq<nat>, n: nat)
    requires n <= |bytes|
    ensures SumTo(bytes, n, {}) == 0
  {
    if n > 0 {
      SumNone(bytes, n - 1);
    }
  }

  lemma {:induction false} SumSplit(bytes: seq<nat>, n: nat, chosen: set<nat>, all: set<nat>)
    requires n <= |bytes| && chosen <= all
    ensures SumTo(bytes, n, all) == SumTo(bytes, n, chosen) + SumTo(bytes, n, all - chosen)
  {
    if n > 0 {
      SumSplit(bytes, n - 1, chosen, all);
    }
  }

  lemma {:induction false} SumPositive(bytes: seq<nat>, n: nat, chosen: set<nat>, i: nat)
    requires i < n <= |bytes| && i in chosen
    ensures SumTo(bytes, n, chosen) >= bytes[i]
  {
    if i < n - 1 {
      SumPositive(bytes, n - 1, chosen, i);
    }
  }

  // ----- What the rows hold -------------------------------------------------------------

  function DoneCounting(s: State): set<nat> {
    set i: nat | i < |s.pcs| && s.pcs[i].Counted?
  }

  predicate HasWritten(s: State, i: nat) {
    i < |s.pcs| && (s.pcs[i].Written? || s.pcs[i].Counted?)
  }

  /** The total holds the bytes of the entries it shows, and so does every total an entry has seen. */
  ghost predicate TotalInv(bytes: seq<nat>, total: nat, s: State) {
    && |s.pcs| == |bytes|
    && s.total == total + SumOf(bytes, s.shown)
    && (forall i | i in s.shown :: HasWritten(s, i))
    && (forall k | 0 <= k < |s.pcs| && s.pcs[k].Seen? ::
          s.pcs[k].value == total + SumOf(bytes, s.pcs[k].shown) && forall i | i in s.pcs[k].shown :: HasWritten(s, i))
  }

  lemma StepKeepsTotal(bytes: seq<nat>, total: nat, s: State, a: Action)
    requires TotalInv(bytes, total, s) && Enabled(s, a)
    ensures TotalInv(bytes, total, Next(bytes, s, a))
  {
    if a.Write? {
      SumAdd(bytes, |bytes|, s.pcs[a.entry].shown, a.entry);
    }
  }

  lemma StepKeepsDaily(bytes: seq<nat>, daily: nat, s: State, a: Action)
    requires |s.pcs| == |bytes| && s.daily == daily + SumOf(bytes, DoneCounting(s)) && Enabled(s, a)
    ensures var n := Next(bytes, s, a); n.daily == daily + SumOf(bytes, DoneCounting(n))
  {
    var n := Next(bytes, s, a);
    if a.Count? {
      SumAdd(bytes, |bytes|, DoneCounting(s), a.entry);
      assert DoneCounting(n) == DoneCounting(s) + {a.entry};
    } else {
      assert DoneCounting(n) == DoneCounting(s);
    }
  }

  /** In every state of every interleaving the total holds the bytes of the entries it shows, and the
      daily row the bytes of every entry counted so far. */
  lemma {:induction false} RowsHold(bytes: seq<nat>, total: nat, daily: nat, states: seq<State>, actions: seq<Action>,
                                    k: nat)
    requires IsRun(bytes, total, daily, states, actions) && k < |states|
    ensures TotalInv(bytes, total, states[k])
    ensures states[k].daily == daily + SumOf(bytes, DoneCounting(states[k]))
  {
    if k == 0 {
      SumNone(bytes, |bytes|);
      assert DoneCounting(states[0]) == {};
    } else {
      RowsHold(bytes, total, daily, states, actions, k - 1);
      StepKeepsTotal(bytes, total, states[k - 1], actions[k - 1]);
      StepKeepsDaily(bytes, daily, states[k - 1], actions[k - 1]);
    }
  }

  /** No entry is under way. */
  predicate Quiet(s: State) {
    forall i | 0 <= i < |s.pcs| :: s.pcs[i].Waiting? || s.pcs[i].Counted?
  }

  /** Whenever no entry is under way, the daily row has grown by the bytes of all entries that are
      through and the total by those it shows: what it lacks is exactly the bytes of the others. */
  lemma LossExactly(bytes: seq<nat>, total: nat, daily: nat, states: seq<State>, actions: seq<Action>, k: nat)
    requires IsRun(bytes, total, daily, states, actions) && k < |states| && Quiet(states[k])
    ensures var s, done := states[k], DoneCounting(states[k]);
      && s.shown <= done
      && s.daily == daily + SumOf(bytes, done) && s.total == total + SumOf(bytes, s.shown)
      && (s.daily - daily) - (s.total - total) == SumOf(bytes, done - s.shown)
  {
    var s, done := states[k], DoneCounting(states[k]);
    RowsHold(bytes, total, daily, states, actions, k);
    assert forall i | i in s.shown :: HasWritten(s, i) && i in done;
    SumSplit(bytes, |bytes|, s.shown, done);
  }

  // ----- When anything is lost ----------------------------------------------------------

  /** At step `k` an entry writes while another has read and not written yet. */
  ghost predicate OverlapAt(states: seq<State>, actions: seq<Action>, k: nat, other: nat)
    requires |states| == |actions| + 1
  {
    && k < |actions| && actions[k].Write? && other != actions[k].entry
    && other < |states[k].pcs| && states[k].pcs[other].Seen?
  }

  ghost predicate NoOverlap(states: seq<State>, actions: seq<Action>, before: nat)
    requires |states| == |actions| + 1
  {
    forall k: nat, other: nat | k < before :: !OverlapAt(states, actions, k, other)
  }

  /** Without overlaps every write is shown, and whoever has read has seen the latest total. */
  ghost predicate Clean(s: State) {
    && (forall i: nat :: HasWritten(s, i) ==> i in s.shown)
    && forall i | 0 <= i < |s.pcs| && s.pcs[i].Seen? :: s.pcs[i].shown == s.shown
  }

  lemma {:induction false} NoOverlapIsClean(bytes: seq<nat>, total: nat, daily: nat, states: seq<State>,
                                            actions: seq<Action>, k: nat)
    requires IsRun(bytes, total, daily, states, actions) && k < |states| && NoOverlap(states, actions, k)
    ensures Clean(states[k])
  {
    if k > 0 {
      var s, a, n := states[k - 1], actions[k - 1], states[k];
      NoOverlapIsClean(bytes, total, daily, states, actions, k - 1);
      if a.Write? {
        forall i | 0 <= i < |n.pcs| ensures !n.pcs[i].Seen? {
          assert !OverlapAt(states, actions, k - 1, i);
        }
      }
    }
  }

  /** `first` wrote while `second` held an older total: from then on no total shows both. */
  ghost predicate Apart(s: State, first: nat, second: nat) {
    && HasWritten(s, first) && second < |s.pcs| && !s.pcs[second].Waiting?
    && (s.pcs[second].Seen? ==> first !in s.pcs[second].shown)
    && !(first in s.shown && second in s.shown)
    && forall k | 0 <= k < |s.pcs| && s.pcs[k].Seen? :: !(first in s.pcs[k].shown && second in s.pcs[k].shown)
  }

  lemma {:induction false} OverlapKeepsApart(bytes: seq<nat>, total: nat, daily: nat, states: seq<State>,
                                             actions: seq<Action>,
                                             k: nat, second: nat, later: nat)
    requires IsRun(bytes, total, daily, states, actions) && OverlapAt(states, actions, k, second)
      && k < later < |states|
    ensures Apart(states[later], actions[k].entry, second)
  {
    RowsHold(bytes, total, daily, states, actions, later - 1);
    if later > k + 1 {
      OverlapKeepsApart(bytes, total, daily, states, actions, k, second, later - 1);
    }
  }

  /** Over every interleaving, whenever no entry is under way: the total shows all that are through if
      and only if none wrote between another's read and write. */
  lemma AllShownExactly(bytes: seq<nat>, total: nat, daily: nat, states: seq<State>, actions: seq<Action>, k: nat)
    requires IsRun(bytes, total, daily, states, actions) && k < |states| && Quiet(states[k])
    ensures states[k].shown == DoneCounting(states[k]) <==> NoOverlap(states, actions, k)
  {
    var s := states[k];
    LossExactly(bytes, total, daily, states, actions, k);
    if NoOverlap(states, actions, k) {
      NoOverlapIsClean(bytes, total, daily, states, actions, k);
      assert forall i | i in DoneCounting(s) :: HasWritten(s, i);
    } else {
      var x: nat, other: nat :| x < k && OverlapAt(states, actions, x, other);
      OverlapKeepsApart(bytes, total, daily, states, actions, x, other, k);
      assert actions[x].entry in DoneCounting(s) && other in DoneCounting(s);
    }
  }

  /** So a proxy's total and its daily row have grown alike exactly if no two flushes overlapped on the proxy. */
  lemma GrowAlikeExactly(bytes: seq<nat>, total: nat, daily: nat, states: seq<State>, actions: seq<Action>, k: nat)
    requires IsRun(bytes, total, daily, states, actions) && k < |states| && Quiet(states[k])
    requires forall i | i in DoneCounting(states[k]) :: bytes[i] > 0
    ensures states[k].total - total == states[k].daily - daily <==> NoOverlap(states, actions, k)
  {
    var s := states[k];
    var lost := DoneCounting(s) - s.shown;
    LossExactly(bytes, total, daily, states, actions, k);
    AllShownExactly(bytes, total, daily, states, actions, k);
    if lost == {} {
      assert forall i | i in DoneCounting(s) :: i in lost || i in s.shown;
      assert s.shown == DoneCounting(s);
      SumNone(bytes, |bytes|);
    } else {
      var i :| i in lost;
      SumPositive(bytes, |bytes|, lost, i);
    }
  }

  /** Two flushes that overlap: the total ends without the bytes of the one that wrote first, and the
      daily row has both. */
  lemma TwoFlushesLoseFirst(bytes: seq<nat>, total: nat, daily: nat, states: seq<State>, actions: seq<Action>, x: nat,
                            second: nat, k: nat)
    requires IsRun(bytes, total, daily, states, actions) && x < k < |states| && Quiet(states[k])
    requires |bytes| == 2 && OverlapAt(states, actions, x, second)
    ensures states[k].total == total + bytes[second] && states[k].daily == daily + bytes[0] + bytes[1]
  {
    var s := states[k];
    LossExactly(bytes, total, daily, states, actions, k);
    OverlapKeepsApart(bytes, total, daily, states, actions, x, second, k);
    SecondIsShown(bytes, total, daily, states, actions, x, second, k);
    assert DoneCounting(s) == {0, 1} && s.shown == {second};
    SumOfTwo(bytes, second);
  }

  /** For instance 3 and 5 bytes on a total and a daily row of 10: the total ends at 15, the daily row at 18. */
  lemma OverlapExample() returns (states: seq<State>, actions: seq<Action>)
    ensures actions == [Read(0), Read(1), Write(0), Write(1), Count(0), Count(1)]
    ensures IsRun([3, 5], 10, 10, states, actions) && states[6].total == 15 && states[6].daily == 18
  {
    states, actions := [State(10, 10, seq(2, _ => Waiting), {})], [];
    states, actions := OneMore([3, 5], 10, 10, states, actions, Read(0));
    states, actions := OneMore([3, 5], 10, 10, states, actions, Read(1));
    states, actions := OneMore([3, 5], 10, 10, states, actions, Write(0));
    states, actions := OneMore([3, 5], 10, 10, states, actions, Write(1));
    states, actions := OneMore([3, 5], 10, 10, states, actions, Count(0));
    states, actions := OneMore([3, 5], 10, 10, states, actions, Count(1));
  }

  lemma OneMore(bytes: seq<nat>, total: nat, daily: nat, states: seq<State>, actions: seq<Action>, a: Action)
    returns (longer: seq<State>, more: seq<Action>)
    requires IsRun(bytes, total, daily, states, actions) && Enabled(states[|actions|], a)
    ensures more == actions + [a] && IsRun(bytes, total, daily, longer, more)
    ensures longer[|more|] == Next(bytes, states[|actions|], a)
  {
    longer, more := states + [Next(bytes, states[|actions|], a)], actions + [a];
  }

  lemma SumOfTwo(bytes: seq<nat>, i: nat)
    requires |bytes| == 2 && i < 2
    ensures SumOf(bytes, {i}) == bytes[i] && SumOf(bytes, {0, 1}) == bytes[0] + bytes[1]
  {
    assert SumTo(bytes, 1, {i}) == if i == 0 then bytes[0] else 0;
    assert SumTo(bytes, 1, {0, 1}) == bytes[0];
  }

  lemma {:induction false} SecondIsShown(bytes: seq<nat>, total: nat, daily: nat, states: seq<State>,
                                         actions: seq<Action>,
                                         k: nat, second: nat, later: nat)
    requires IsRun(bytes, total, daily, states, actions) && |bytes| == 2
    requires OverlapAt(states, actions, k, second) && k < later < |states|
    ensures states[later].pcs[second].Seen? || second in states[later].shown
  {
    if later > k + 1 {
      SecondIsShown(bytes, total, daily, states, actions, k, second, later - 1);
      OverlapKeepsApart(bytes, total, daily, states, actions, k, second, later - 1);
      assert actions[later - 1].Write? ==> actions[later - 1].entry == second;
    }
  }
}
