// The heartbeat loop of a control stream, polled once per millisecond. At each instant the biased
// select looks at new responses first, then at the deadline, then at the next heartbeat.
module Heartbeat {
  import opened Wrappers

  const HEARTBEAT_INTERVAL: nat := 15000
  const HEARTBEAT_TIMEOUT: nat := 45000
  /** A tick at most this late still counts as on time. */
  const TICK_SLACK: nat := 5

  /** `responded(t)`: a response arrived at instant `t`. */
  type Schedule = nat -> bool

  /** `room(t)`: how many messages the outbound queue still takes at instant `t`. */
  type Rooms = nat -> nat

  /** `sending`: the current heartbeat has had its tick but not its place in the queue. */
  datatype Loop =
    | Running(lastResponse: nat, nextTick: nat, sending: bool)
    | TimedOut(at: nat)

  /** `MissedTickBehavior::Delay`: a late tick restarts the period. */
  function TickAfter(due: nat, now: nat): nat {
    if now > due + TICK_SLACK then now + HEARTBEAT_INTERVAL else due + HEARTBEAT_INTERVAL
  }

  /** The turns of the third branch at one instant: tick if due, send if there is room, and turn again.
      Also returned is how many heartbeats went out. */
  function Send(s: Loop, now: nat, room: nat): (r: (Loop, nat))
    requires s.Running?
    ensures r.0.Running? && r.0.lastResponse == s.lastResponse
    decreases room
  {
    if !s.sending && now < s.nextTick then (s, 0)
    else
      var nextTick := if s.sending then s.nextTick else TickAfter(s.nextTick, now);
      if room == 0 then (Running(s.lastResponse, nextTick, true), 0)
      else
        var rest := Send(Running(s.lastResponse, nextTick, false), now, room - 1);
        (rest.0, rest.1 + 1)
  }

  /** At most one heartbeat that was held up and one whose tick is due go out at one instant. */
  lemma AtMostTwo(s: Loop, now: nat, room: nat)
    requires s.Running?
    ensures Send(s, now, room).1 <= if s.sending then 2 else 1
    decreases room
  {
    if room > 0 && !(!s.sending && now < s.nextTick) {
      var nextTick := if s.sending then s.nextTick else TickAfter(s.nextTick, now);
      AtMostTwo(Running(s.lastResponse, nextTick, false), now, room - 1);
      assert !s.sending ==> now < nextTick;
    }
  }

  /** All turns of the loop at instant `now`, and how many heartbeats went out. A response drops the
      third branch with the heartbeat it was sending, and the loop turns again at the same instant. */
  function Poll(s: Loop, now: nat, responded: bool, room: nat): (Loop, nat)
    requires s.Running?
  {
    var seen := if responded then Running(now, s.nextTick, false) else s;
    if now >= seen.lastResponse + HEARTBEAT_TIMEOUT then (TimedOut(now), 0) else Send(seen, now, room)
  }

  /** The loop starts at instant 0, the moment the watch was created with. */
  const START := Running(0, HEARTBEAT_INTERVAL, false)

  function After(responded: Schedule, room: Rooms, instants: nat): Loop {
    if instants == 0 then START
    else
      var s := After(responded, room, instants - 1);
      if s.TimedOut? then s else Poll(s, instants - 1, responded(instants - 1), room(instants - 1)).0
  }

  /** How many heartbeats go out at an instant. */
  function BeatsAt(responded: Schedule, room: Rooms, now: nat): nat {
    var s := After(responded, room, now);
    if s.Running? then Poll(s, now, responded(now), room(now)).1 else 0
  }

  // ----- When the loop gives up ---------------------------------------------------------

  /** Instant `t` saw the start or a response. */
  predicate Heard(responded: Schedule, t: nat) {
    t == 0 || responded(t)
  }

  /** `at` is 45 s after a response that no other follows within 45 s. */
  ghost predicate Silence(responded: Schedule, at: nat) {
    && at >= HEARTBEAT_TIMEOUT
    && Heard(responded, at - HEARTBEAT_TIMEOUT)
    && forall t | at - HEARTBEAT_TIMEOUT < t <= at :: !responded(t)
  }

  ghost predicate FirstSilence(responded: Schedule, at: nat) {
    Silence(responded, at) && forall t | 0 <= t < at :: !Silence(responded, t)
  }

  ghost predicate IsLastResponse(responded: Schedule, last: nat, instants: nat) {
    && (last < instants || last == 0) && Heard(responded, last)
    && forall t | last < t < instants :: !responded(t)
  }

  lemma {:induction false} LoopInvariant(responded: Schedule, room: Rooms, instants: nat)
    ensures match After(responded, room, instants)
      case Running(last, _, _) =>
        && IsLastResponse(responded, last, instants) && instants <= last + HEARTBEAT_TIMEOUT
        && forall t | 0 <= t < instants :: !Silence(responded, t)
      case TimedOut(at) => at < instants && FirstSilence(responded, at)
  {
    if instants > 0 {
      var now := instants - 1;
      LoopInvariant(responded, room, now);
    }
  }

  /** For every response schedule and every filling of the outbound queue, the loop has given up at
      `at` exactly if `at` is the first instant 45 s after a response that no other follows in time. */
  lemma TimesOutExactly(responded: Schedule, room: Rooms, instants: nat, at: nat)
    ensures After(responded, room, instants) == TimedOut(at) <==> at < instants && FirstSilence(responded, at)
  {
    LoopInvariant(responded, room, instants);
    var s := After(responded, room, instants);
    if s.TimedOut? && at < instants && FirstSilence(responded, at) {
      assert s.at == at;
    }
  }

  /** Outbound blocking never moves the timeout. */
  lemma BlockingIsIrrelevant(responded: Schedule, room: Rooms, other: Rooms, instants: nat)
    ensures After(responded, room, instants).TimedOut? == After(responded, other, instants).TimedOut?
    ensures After(responded, room, instants).TimedOut? ==>
      After(responded, room, instants) == After(responded, other, instants)
  {
    var s, f := After(responded, room, instants), After(responded, other, instants);
    if s.TimedOut? {
      TimesOutExactly(responded, room, instants, s.at);
      TimesOutExactly(responded, other, instants, s.at);
    } else if f.TimedOut? {
      TimesOutExactly(responded, other, instants, f.at);
      TimesOutExactly(responded, room, instants, f.at);
    }
  }

  // ----- A peer that answers ------------------------------------------------------------

  ghost predicate NeverFull(room: Rooms) {
    forall t :: room(t) > 0
  }

  lemma FreeTick(s: Loop, now: nat, room: nat)
    requires s.Running? && !s.sending && now <= s.nextTick && room > 0
    ensures Send(s, now, room) == if now < s.nextTick then (s, 0)
      else (Running(s.lastResponse, now + HEARTBEAT_INTERVAL, false), 1)
  {
    if now == s.nextTick {
      var next := Running(s.lastResponse, now + HEARTBEAT_INTERVAL, false);
      assert Send(next, now, room - 1) == (next, 0);
    }
  }

  /** A tick is never late, and the next one is the next multiple of the interval. */
  ghost predicate OnBeat(s: Loop, instants: nat) {
    && s.Running? && !s.sending && s.nextTick > 0 && s.nextTick % HEARTBEAT_INTERVAL == 0
    && instants <= s.nextTick < (if instants == 0 then 1 else instants) + HEARTBEAT_INTERVAL
  }

  lemma {:induction false} TicksEveryInterval(responded: Schedule, room: Rooms, instants: nat)
    requires NeverFull(room) && After(responded, room, instants).Running?
    ensures OnBeat(After(responded, room, instants), instants)
  {
    if instants > 0 {
      TicksEveryInterval(responded, room, instants - 1);
      FreePoll(After(responded, room, instants - 1), instants - 1, responded(instants - 1), room(instants - 1));
    }
  }

  lemma FreePoll(s: Loop, now: nat, responded: bool, room: nat)
    requires OnBeat(s, now) && room > 0
    ensures var p := Poll(s, now, responded, room);
      p.0.Running? ==> OnBeat(p.0, now + 1) && p.1 == if now == s.nextTick then 1 else 0
  {
    FreeTick(if responded then Running(now, s.nextTick, false) else s, now, room);
    NextMultiple(s.nextTick);
  }

  lemma NextMultiple(n: nat)
    ensures (n + HEARTBEAT_INTERVAL) % HEARTBEAT_INTERVAL == n % HEARTBEAT_INTERVAL
  {
  }

  /** On a free queue one heartbeat goes out at every multiple of the interval while the loop runs. */
  lemma BeatsEveryInterval(responded: Schedule, room: Rooms, now: nat)
    requires NeverFull(room) && After(responded, room, now + 1).Running?
    ensures BeatsAt(responded, room, now) == if now > 0 && now % HEARTBEAT_INTERVAL == 0 then 1 else 0
  {
    var s := After(responded, room, now);
    assert s.Running?;
    TicksEveryInterval(responded, room, now);
    FreePoll(s, now, responded(now), room(now));
    OnlyMultiple(s.nextTick, now);
  }

  lemma OnlyMultiple(tick: nat, now: nat)
    requires tick % HEARTBEAT_INTERVAL == 0 && now <= tick < (if now == 0 then 1 else now) + HEARTBEAT_INTERVAL
    requires tick > 0
    ensures now == tick <==> now > 0 && now % HEARTBEAT_INTERVAL == 0
  {
    var k := tick / HEARTBEAT_INTERVAL;
    assert tick == k * HEARTBEAT_INTERVAL;
  }

  /** At the instant of the timeout, and from then on, nothing is sent. */
  lemma NoBeatAfterTimeout(responded: Schedule, room: Rooms, now: nat)
    ensures After(responded, room, now + 1).TimedOut? ==> BeatsAt(responded, room, now) == 0
  {
  }

  ghost predicate Answered(responded: Schedule, beat: nat) {
    exists r :: beat <= r <= beat + 30000 && responded(r)
  }

  /** A peer that answers every heartbeat within 30 s, over a queue that is never full, is never dropped. */
  lemma AnsweringPeerIsNeverDropped(responded: Schedule, room: Rooms, instants: nat)
    requires NeverFull(room)
    requires forall t | BeatsAt(responded, room, t) > 0 :: Answered(responded, t)
    ensures After(responded, room, instants).Running?
  {
    var s := After(responded, room, instants);
    if s.TimedOut? {
      LoopInvariant(responded, room, instants);
      var last := s.at - HEARTBEAT_TIMEOUT;
      var beat := BeatAfter(last);
      StillRunning(responded, room, instants, beat + 1);
      BeatsEveryInterval(responded, room, beat);
      assert false;
    }
  }

  lemma BeatAfter(last: nat) returns (beat: nat)
    ensures last < beat <= last + HEARTBEAT_INTERVAL && beat % HEARTBEAT_INTERVAL == 0
  {
    beat := (last / HEARTBEAT_INTERVAL + 1) * HEARTBEAT_INTERVAL;
  }

  lemma StillRunning(responded: Schedule, room: Rooms, instants: nat, earlier: nat)
    requires After(responded, room, instants).TimedOut? && earlier <= After(responded, room, instants).at
    ensures After(responded, room, earlier).Running?
  {
    var at := After(responded, room, instants).at;
    TimesOutExactly(responded, room, instants, at);
    if After(responded, room, earlier).TimedOut? {
      var first := After(responded, room, earlier).at;
      TimesOutExactly(responded, room, earlier, first);
      assert false;
    }
  }

  /** The 30 s are needed: a peer whose first answer takes one millisecond longer is dropped. */
  lemma SlowerPeerIsDropped()
    ensures After(t => t == HEARTBEAT_INTERVAL + 30001, t => 1, 45001) == TimedOut(45000)
  {
    TimesOutExactly(t => t == HEARTBEAT_INTERVAL + 30001, t => 1, 45001, 45000);
  }

  // ----- A queue that is full for a while -----------------------------------------------

  /** From the tick at `from` on the queue is full until `to`, and no response comes. */
  ghost predicate Blocked(responded: Schedule, room: Rooms, from: nat, to: nat) {
    && from < to
    && (forall t | from <= t < to :: room(t) == 0)
    && forall t | from <= t <= to :: !responded(t)
  }

  lemma {:induction false} HeldUp(responded: Schedule, room: Rooms, last: nat, from: nat, t: nat)
    requires After(responded, room, from) == Running(last, from, false)
    requires from < t <= last + 45000
    requires forall x | from <= x < t :: room(x) == 0 && !responded(x)
    ensures After(responded, room, t) == Running(last, from + 15000, true)
    ensures BeatsAt(responded, room, t - 1) == 0
  {
    if from + 1 < t {
      HeldUp(responded, room, last, from, t - 1);
    }
  }

  /** A heartbeat that falls due at `from` and finds the queue full goes out at the first instant `to`
      with room, and no other before it. If the next one is due by then, it goes out with it if there is
      room for both. The one after that is due a period after its predecessor was, or, if that one was
      more than 5 ms late, a period after `to`. */
  lemma FirstAfterBlockage(responded: Schedule, room: Rooms, last: nat, from: nat, to: nat)
    requires After(responded, room, from) == Running(last, from, false)
    requires Blocked(responded, room, from, to) && to < last + 45000 && room(to) > 0
    ensures forall t | from <= t < to :: BeatsAt(responded, room, t) == 0
    ensures BeatsAt(responded, room, to) == if to >= from + 15000 && room(to) > 1 then 2 else 1
    ensures After(responded, room, to + 1)
      == Running(last,
                 if to < from + 15000 then from + 15000 else if to <= from + 15005 then from + 30000 else to + 15000,
                 to >= from + 15000 && room(to) == 1)
  {
    forall t | from <= t < to ensures BeatsAt(responded, room, t) == 0 {
      HeldUp(responded, room, last, from, t + 1);
    }
    HeldUp(responded, room, last, from, to);
    assert After(responded, room, to) == Running(last, from + 15000, true);
    SendHeldUp(last, from + 15000, to, room(to));
  }

  /** The turns at an instant with room, for a heartbeat that was held up. */
  lemma SendHeldUp(last: nat, due: nat, now: nat, room: nat)
    requires room > 0
    ensures Send(Running(last, due, true), now, room) ==
      if now < due then (Running(last, due, false), 1)
      else
        var next := if now > due + 5 then now + 15000 else due + 15000;
        if room == 1 then (Running(last, next, true), 1) else (Running(last, next, false), 2)
  {
    if now >= due && room > 1 {
      var next := TickAfter(due, now);
      assert now < next;
      assert Send(Running(last, next, false), now, room - 2) == (Running(last, next, false), 0);
      assert Send(Running(last, due, false), now, room - 1) == (Running(last, next, false), 1);
    }
  }

  /** With nothing held up, the next heartbeat goes out when it is due, if there is room, and none before;
      responses in between do not move it. */
  lemma {:induction false} NextWhenDue(responded: Schedule, room: Rooms, now: nat, due: nat, t: nat)
    requires var s := After(responded, room, now); s.Running? && s.nextTick == due && !s.sending
    requires now <= t <= due && After(responded, room, t + 1).Running?
    ensures var s := After(responded, room, t); s.Running? && s.nextTick == due && !s.sending
    ensures BeatsAt(responded, room, t) == if t == due && room(t) > 0 then 1 else 0
    decreases t
  {
    if now < t {
      NextWhenDue(responded, room, now, due, t - 1);
    }
    SendWhenDue(due, t, room(t));
  }

  lemma SendWhenDue(due: nat, now: nat, room: nat)
    requires now <= due
    ensures forall last :: Send(Running(last, due, false), now, room).1 == if now == due && room > 0 then 1 else 0
    ensures forall last | now < due :: Send(Running(last, due, false), now, room).0 == Running(last, due, false)
  {
  }

  // ----- The loop itself ----------------------------------------------------------------

  function Copies(n: nat, x: nat): seq<nat> {
    if n == 0 then [] else Copies(n - 1, x) + [x]
  }

  lemma {:induction false} CopiesCount(n: nat, x: nat, y: nat)
    ensures multiset(Copies(n, x))[y] == if x == y then n else 0
  {
    if n > 0 {
      CopiesCount(n - 1, x, y);
    }
  }

  /** `beats` holds each instant below `now` as often as heartbeats went out at it, and no other. */
  ghost predicate IsBeats(beats: seq<nat>, responded: Schedule, room: Rooms, now: nat) {
    forall t: nat :: multiset(beats)[t] == if t < now then BeatsAt(responded, room, t) else 0
  }

  lemma MoreBeats(beats: seq<nat>, responded: Schedule, room: Rooms, now: nat)
    requires IsBeats(beats, responded, room, now)
    ensures IsBeats(beats + Copies(BeatsAt(responded, room, now), now), responded, room, now + 1)
  {
    var n := BeatsAt(responded, room, now);
    forall t: nat ensures multiset(beats + Copies(n, now))[t] ==
      if t < now + 1 then BeatsAt(responded, room, t) else 0
    {
      CopiesCount(n, now, t);
    }
  }

  /** `heartbeat_loop` up to a horizon: when it gave up, if it did, and the heartbeats it sent. */
  method HeartbeatLoop(responded: Schedule, room: Rooms, horizon: nat) returns (timedOut: Option<nat>, beats: seq<nat>)
    ensures timedOut.Some? ==> timedOut.value < horizon && FirstSilence(responded, timedOut.value)
    ensures timedOut.None? ==> forall at | 0 <= at < horizon :: !Silence(responded, at)
    ensures IsBeats(beats, responded, room, horizon)
  {
    var s := START;
    var now: nat := 0;
    beats := [];
    while now < horizon && s.Running?
      invariant now <= horizon && s == After(responded, room, now)
      invariant IsBeats(beats, responded, room, now)
    {
      var polled := Poll(s, now, responded(now), room(now));
      MoreBeats(beats, responded, room, now);
      beats := beats + Copies(polled.1, now);
      s := polled.0;
      now := now + 1;
    }
    timedOut := if s.TimedOut? then Some(s.at) else None;
    Ended(beats, responded, room, now, horizon);
  }

  lemma Ended(beats: seq<nat>, responded: Schedule, room: Rooms, now: nat, horizon: nat)
    requires now <= horizon && IsBeats(beats, responded, room, now)
      && (now < horizon ==> After(responded, room, now).TimedOut?)
    ensures var s := After(responded, room, now);
      if s.TimedOut? then s.at < horizon && FirstSilence(responded, s.at)
      else forall at | 0 <= at < horizon :: !Silence(responded, at)
    ensures IsBeats(beats, responded, room, horizon)
  {
    LoopInvariant(responded, room, now);
    if now < horizon {
      BeatsEnd(beats, responded, room, now, horizon);
    }
  }

  lemma BeatsEnd(beats: seq<nat>, responded: Schedule, room: Rooms, stopped: nat, horizon: nat)
    requires stopped <= horizon && After(responded, room, stopped).TimedOut? && IsBeats(beats, responded, room, stopped)
    ensures IsBeats(beats, responded, room, horizon)
  {
    StaysStopped(responded, room, stopped, horizon);
  }

  lemma {:induction false} StaysStopped(responded: Schedule, room: Rooms, stopped: nat, horizon: nat)
    requires stopped <= horizon
    requires After(responded, room, stopped).TimedOut?
    ensures forall t: nat | stopped <= t <= horizon :: After(responded, room, t) == After(responded, room, stopped)
  {
    if stopped < horizon {
      StaysStopped(responded, room, stopped, horizon - 1);
    }
  }
}
