// The registry of live control sessions and the persisted online column. Session tasks and the
// periodic sync interleave at every await; a read-write lock is held across each database write.
module SessionRegistry {
  import opened Wrappers

  type Id = int
  /** A task; a session's channel is identified by the task that created it. */
  type Task = nat

  // ----- The lock-protected operations, run without interruption ------------------------

  /** An update of a row that does not exist changes nothing. */
  function Persist(online: map<Id, bool>, id: Id, value: bool): map<Id, bool> {
    if id in online then online[id := value] else online
  }

  predicate Live(streams: map<Id, Task>, closed: set<Task>, id: Id) {
    id in streams && streams[id] !in closed
  }

  /** One row of the node or client table as an API response carries it. */
  datatype Row = Row(id: Id, name: string, isOnline: bool)

  class StreamManager {
    var streams: map<Id, Task>
    var closed: set<Task>
    var online: map<Id, bool>

    method Register(id: Id, channel: Task)
      modifies this`streams, this`online
      ensures streams == old(streams)[id := channel]
      ensures online.Keys == old(online).Keys
      ensures forall i | i in online :: online[i] == (i == id || old(online)[i])
    {
      streams := streams[id := channel];
      online := Persist(online, id, true);
    }

    method Unregister(id: Id, channel: Task)
      modifies this`streams, this`online
      ensures if id in old(streams) && old(streams)[id] == channel
              then streams == old(streams) - {id} && online.Keys == old(online).Keys
                && forall i | i in online :: online[i] == (i != id && old(online)[i])
              else streams == old(streams) && online == old(online)
    {
      if !(id in streams && streams[id] == channel) {
        return;
      }
      streams := streams - {id};
      online := Persist(online, id, false);
    }

    /** After an undisturbed sync the column tells exactly which rows have an open session. */
    method SyncOnlineStatus(rows: seq<Id>)
      requires forall id :: id in rows <==> id in online
      modifies this`online
      ensures online.Keys == old(online).Keys
      ensures forall id | id in online :: online[id] <==> id in streams && streams[id] !in closed
    {
      for i := 0 to |rows|
        invariant online.Keys == old(online).Keys
        invariant forall id | id in rows[..i] :: online[id] <==> id in streams && streams[id] !in closed
      {
        var live := rows[i] in streams && streams[rows[i]] !in closed;
        online := Persist(online, rows[i], live);
      }
      assert rows[..|rows|] == rows;
    }

    method ApplyOnlineStatus(rows: array<Row>)
      modifies rows
      ensures forall i | 0 <= i < rows.Length ::
        && rows[i].id == old(rows[i].id) && rows[i].name == old(rows[i].name)
        && (rows[i].isOnline <==> rows[i].id in streams && streams[rows[i].id] !in closed)
    {
      for i := 0 to rows.Length
        invariant forall j | 0 <= j < i ::
          && rows[j].id == old(rows[j].id) && rows[j].name == old(rows[j].name)
          && (rows[j].isOnline <==> rows[j].id in streams && streams[rows[j].id] !in closed)
        invariant forall j | i <= j < rows.Length :: rows[j] == old(rows[j])
      {
        rows[i] := rows[i].(isOnline := rows[i].id in streams && streams[rows[i].id] !in closed);
      }
    }
  }

  // ----- The interleaved machine --------------------------------------------------------

  datatype Pc =
    | Arrived(id: Id)                              // authenticated as `id`, not registered yet
    | RegLocked(id: Id)                            // holds the write lock
    | RegInserted(id: Id)                          // in the map, column not written yet
    | Serving(id: Id)                              // message loop
    | UnregLocked(id: Id)                          // holds the write lock
    | UnregRemoved(id: Id)                         // out of the map, column not written yet
    | Finished(id: Id)
    | Rejected
    | SyncStart
    | SyncNext(todo: seq<Id>)
    | SyncLocked(todo: seq<Id>)                    // holds a read lock
    | SyncRead(todo: seq<Id>, value: bool)         // has read the map and the channel, column not written yet
    | SyncDone
    | PushStart(id: Id)                            // a list or snapshot for `id` is built
    | PushLocked(id: Id)                           // holds a read lock
    | PushSending(channel: Task)                   // holds a read lock, waits for room in the channel
    | PushDone
  {
    predicate HoldsWrite() { RegLocked? || RegInserted? || UnregLocked? || UnregRemoved? }
    predicate SyncHolds() { SyncLocked? || SyncRead? }
    predicate HoldsRead() { SyncHolds() || PushLocked? || PushSending? }
    predicate WantsWrite() { Arrived? || Serving? }
    predicate WantsRead() { PushStart? || (SyncNext? && todo != []) }
    predicate Ended() { Finished? || Rejected? || SyncDone? || PushDone? }
    predicate IsSync() { SyncStart? || SyncNext? || SyncLocked? || SyncRead? || SyncDone? }
    predicate IsPush() { PushStart? || PushLocked? || PushSending? || PushDone? }
    predicate IsSession() { HoldsWrite() || Arrived? || Serving? || Finished? || Rejected? }
    predicate InMap(i: Id) { this == RegInserted(i) || this == Serving(i) || this == UnregLocked(i) }
    predicate OutOfMap(i: Id) { this == UnregRemoved(i) || this == Finished(i) }
  }

  datatype Lock = Free | Write(owner: Task) | Read(owners: set<Task>)

  /** The lock is fair: `queue` holds the tasks that wait for it, first come first served. `full` are the
      channels without room. `latest` is history: the session inserted last for each id. */
  datatype State = State(pc: map<Task, Pc>, lock: Lock, queue: seq<Task>, streams: map<Id, Task>, closed: set<Task>,
                         full: set<Task>, online: map<Id, bool>, latest: map<Id, Task>)

  datatype Action =
    | Start(task: Task, pc: Pc)
    | Reject(task: Task)
    | Close(task: Task)
    | Room(task: Task, free: bool)                 // the channel of a session runs full or has room again
    | Fetch(task: Task, rows: seq<Id>)
    | Queue(task: Task)
    | Step(task: Task)

  ghost predicate Init(s: State) {
    s.pc == map[] && s.lock == Free && s.queue == [] && s.streams == map[] && s.closed == {} && s.latest == map[]
  }

  ghost predicate Enabled(s: State, a: Action) {
    match a
    case Start(t, pc) => t !in s.pc && (pc.Arrived? || pc.SyncStart? || pc.PushStart?)
    case Reject(t) => t in s.pc && s.pc[t].Arrived? && t !in s.queue
    case Close(t) => t in s.pc
    case Room(t, _) => t in s.pc
    case Fetch(t, rows) => t in s.pc && s.pc[t].SyncStart? && forall id :: id in rows <==> id in s.online
    case Queue(t) => t in s.pc && t !in s.queue && (s.pc[t].WantsWrite() || s.pc[t].WantsRead())
    case Step(t) =>
      && t in s.pc
      && !s.pc[t].Ended() && !s.pc[t].SyncStart?
      && (s.pc[t].WantsWrite() ==> IsHead(s, t) && s.lock.Free?)
      && (s.pc[t].WantsRead() ==> IsHead(s, t) && !s.lock.Write?)
      && (s.pc[t].HoldsRead() ==> s.lock.Read?)
      && (s.pc[t].SyncHolds() ==> s.pc[t].todo != [])
      && (s.pc[t].PushSending? ==> s.pc[t].channel !in s.full || s.pc[t].channel in s.closed)
  }

  predicate IsHead(s: State, t: Task) {
    s.queue != [] && s.queue[0] == t
  }

  function At(s: State, t: Task, pc: Pc): State {
    s.(pc := s.pc[t := pc])
  }

  /** The next in the queue gets the lock. */
  function Acquire(s: State, t: Task, pc: Pc, lock: Lock): State {
    At(s, t, pc).(lock := lock, queue := if s.queue == [] then [] else s.queue[1..])
  }

  function AddReader(lock: Lock, t: Task): Lock {
    Read((if lock.Read? then lock.owners else {}) + {t})
  }

  function DropReader(lock: Lock, t: Task): Lock {
    var left := if lock.Read? then lock.owners - {t} else {};
    if left == {} then Free else Read(left)
  }

  function SessionStep(s: State, t: Task): State
    requires t in s.pc
  {
    match s.pc[t]
    case Arrived(id) => Acquire(s, t, RegLocked(id), Write(t))
    case RegLocked(id) => At(s, t, RegInserted(id)).(streams := s.streams[id := t], latest := s.latest[id := t])
    case RegInserted(id) => At(s, t, Serving(id)).(online := Persist(s.online, id, true), lock := Free)
    case Serving(id) => Acquire(s, t, UnregLocked(id), Write(t))
    case UnregLocked(id) =>
      if id in s.streams && s.streams[id] == t then At(s, t, UnregRemoved(id)).(streams := s.streams - {id})
      else At(s, t, Finished(id)).(lock := Free)
    case UnregRemoved(id) => At(s, t, Finished(id)).(online := Persist(s.online, id, false), lock := Free)
    case _ => s
  }

  function SyncStep(s: State, t: Task): State
    requires t in s.pc && (s.pc[t].SyncHolds() ==> s.pc[t].todo != [])
  {
    match s.pc[t]
    case SyncNext(todo) => if todo == [] then At(s, t, SyncDone)
      else Acquire(s, t, SyncLocked(todo), AddReader(s.lock, t))
    case SyncLocked(todo) => At(s, t, SyncRead(todo, Live(s.streams, s.closed, todo[0])))
    case SyncRead(todo, value) =>
      At(s, t, SyncNext(todo[1..])).(online := Persist(s.online, todo[0], value), lock := DropReader(s.lock, t))
    case _ => s
  }

  function PushStep(s: State, t: Task): State
    requires t in s.pc
  {
    match s.pc[t]
    case PushStart(id) => Acquire(s, t, PushLocked(id), AddReader(s.lock, t))
    case PushLocked(id) =>
      if id in s.streams then At(s, t, PushSending(s.streams[id]))
        else At(s, t, PushDone).(lock := DropReader(s.lock, t))
    case PushSending(_) => At(s, t, PushDone).(lock := DropReader(s.lock, t))
    case _ => s
  }

  function StepTask(s: State, t: Task): State
    requires t in s.pc
    requires s.pc[t].SyncHolds() ==> s.pc[t].todo != []
  {
    if s.pc[t].IsSession() then SessionStep(s, t) else if s.pc[t].IsPush() then PushStep(s, t) else SyncStep(s, t)
  }

  function Next(s: State, a: Action): State
    requires a.Step? ==> a.task in s.pc && (s.pc[a.task].SyncHolds() ==> s.pc[a.task].todo != [])
  {
    match a
    case Start(t, pc) => At(s, t, pc)
    case Reject(t) => At(s, t, Rejected)
    case Close(t) => s.(closed := s.closed + {t})
    case Room(t, free) => s.(full := if free then s.full - {t} else s.full + {t})
    case Fetch(t, rows) => At(s, t, SyncNext(rows))
    case Queue(t) => s.(queue := s.queue + [t])
    case Step(t) => StepTask(s, t)
  }

  /** A run: `states[i + 1]` follows `states[i]` by `actions[i]`. */
  ghost predicate IsRun(states: seq<State>, actions: seq<Action>) {
    && |states| == |actions| + 1
    && Init(states[0])
    && forall i | 0 <= i < |actions| :: Enabled(states[i], actions[i]) && states[i + 1] == Next(states[i], actions[i])
  }

  // ----- The invariant ------------------------------------------------------------------

  ghost predicate WriteLockInv(s: State) {
    && (s.lock.Write? ==> s.lock.owner in s.pc && s.pc[s.lock.owner].HoldsWrite())
    && (forall t | t in s.pc && s.pc[t].HoldsWrite() :: s.lock == Write(t))
  }

  ghost predicate ReadLockInv(s: State) {
    && (s.lock.Read? ==> s.lock.owners != {} && forall t | t in s.lock.owners :: t in s.pc && s.pc[t].HoldsRead())
    && (forall t | t in s.pc && s.pc[t].HoldsRead() :: s.lock.Read? && t in s.lock.owners)
    && (forall t | t in s.pc && s.pc[t].SyncHolds() :: s.pc[t].todo != [])
  }

  ghost predicate LockInv(s: State) {
    WriteLockInv(s) && ReadLockInv(s)
  }

  /** The entry for an id is its latest session, until that session removes it. */
  ghost predicate MapInv(s: State) {
    && (forall id | id in s.streams :: id in s.latest && s.latest[id] == s.streams[id])
    && (forall id | id in s.latest :: s.latest[id] in s.pc)
    && (forall id | id in s.latest ::
          if id in s.streams then s.pc[s.latest[id]].InMap(id) else s.pc[s.latest[id]].OutOfMap(id))
  }

  /** A session that is about to write the column is the latest of its id. */
  ghost predicate WriterInv(s: State) {
    forall t | t in s.pc && (s.pc[t].RegInserted? || s.pc[t].UnregRemoved?) ::
      s.pc[t].id in s.latest && s.latest[s.pc[t].id] == t
  }

  ghost predicate OpenOnline(s: State)
    requires MapInv(s)
  {
    forall id | id in s.online && Live(s.streams, s.closed, id) && s.pc[s.streams[id]] != RegInserted(id) ::
      s.online[id]
  }

  ghost predicate GoneOffline(s: State)
    requires MapInv(s)
  {
    forall id | id in s.online && id in s.latest && s.pc[s.latest[id]] == Finished(id) :: !s.online[id]
  }

  /** The column is right for every id that no write-lock holder is busy with. */
  ghost predicate OnlineInv(s: State)
    requires MapInv(s)
  {
    OpenOnline(s) && GoneOffline(s)
  }

  /** A sync that has read an open session has read `true`; one that found no session has read `false`. */
  ghost predicate SyncInv(s: State) {
    forall t | t in s.pc && s.pc[t].SyncRead? && s.pc[t].todo != [] :: var id := s.pc[t].todo[0];
      && (Live(s.streams, s.closed, id) ==> s.pc[t].value)
      && (id !in s.streams ==> !s.pc[t].value)
  }

  ghost predicate Inv(s: State) {
    LockInv(s) && MapInv(s) && WriterInv(s) && OnlineInv(s) && SyncInv(s)
  }

  // The steps of a session, of a sync and of a push, and the actions that are not steps of a task.

  ghost predicate CanStep(s: State, t: Task) {
    Enabled(s, Step(t))
  }

  ghost predicate Holds(s: State, t: Task, write: bool) {
    t in s.pc && if write then s.pc[t].HoldsWrite() else s.pc[t].HoldsRead()
  }

  lemma SameHolders(s: State, n: State, t: Task, pc: Pc)
    requires LockInv(s) && n.lock == s.lock && n.pc == s.pc[t := pc]
    requires pc.HoldsWrite() == Holds(s, t, true) && pc.HoldsRead() == Holds(s, t, false)
      && (pc.SyncHolds() ==> pc.todo != [])
    ensures LockInv(n)
  {
  }

  lemma WriterEnters(s: State, n: State, t: Task, pc: Pc)
    requires LockInv(s) && s.lock.Free? && n.lock == Write(t) && n.pc == s.pc[t := pc] && pc.HoldsWrite()
    ensures LockInv(n)
  {
  }

  lemma WriterLeaves(s: State, n: State, t: Task, pc: Pc)
    requires LockInv(s) && Holds(s, t, true) && n.lock == Free && n.pc == s.pc[t := pc] && !pc.HoldsWrite()
      && !pc.HoldsRead()
    ensures LockInv(n)
  {
  }

  lemma ReaderEnters(s: State, n: State, t: Task, pc: Pc)
    requires LockInv(s) && !s.lock.Write? && !Holds(s, t, true) && n.lock == AddReader(s.lock, t)
      && n.pc == s.pc[t := pc]
    requires pc.HoldsRead() && !pc.HoldsWrite() && (pc.SyncHolds() ==> pc.todo != [])
    ensures LockInv(n)
  {
  }

  lemma ReaderLeaves(s: State, n: State, t: Task, pc: Pc)
    requires LockInv(s) && Holds(s, t, false) && n.lock == DropReader(s.lock, t) && n.pc == s.pc[t := pc]
    requires !pc.HoldsWrite() && !pc.HoldsRead()
    ensures LockInv(n)
  {
    if s.lock.owners - {t} == {} {
      assert s.lock.owners == {t};
    }
  }

  lemma SessionKeepsLock(s: State, t: Task)
    requires LockInv(s) && CanStep(s, t) && s.pc[t].IsSession()
    ensures LockInv(SessionStep(s, t))
  {
    var n := SessionStep(s, t);
    if s.pc[t].WantsWrite() {
      WriterEnters(s, n, t, n.pc[t]);
    } else if n.pc[t].HoldsWrite() {
      SameHolders(s, n, t, n.pc[t]);
    } else {
      WriterLeaves(s, n, t, n.pc[t]);
    }
  }

  lemma SyncKeepsLock(s: State, t: Task)
    requires LockInv(s) && CanStep(s, t) && s.pc[t].IsSync()
    ensures LockInv(SyncStep(s, t))
  {
    var n := SyncStep(s, t);
    if s.pc[t].WantsRead() {
      ReaderEnters(s, n, t, n.pc[t]);
    } else if s.pc[t].SyncRead? {
      ReaderLeaves(s, n, t, n.pc[t]);
    } else {
      SameHolders(s, n, t, n.pc[t]);
    }
  }

  lemma PushKeepsLock(s: State, t: Task)
    requires LockInv(s) && CanStep(s, t) && s.pc[t].IsPush()
    ensures LockInv(PushStep(s, t))
  {
    var n := PushStep(s, t);
    if s.pc[t].PushStart? {
      ReaderEnters(s, n, t, n.pc[t]);
    } else if n.pc[t].PushDone? {
      ReaderLeaves(s, n, t, n.pc[t]);
    } else {
      SameHolders(s, n, t, n.pc[t]);
    }
  }

  lemma OtherKeepsLock(s: State, a: Action)
    requires LockInv(s) && Enabled(s, a) && !a.Step?
    ensures LockInv(Next(s, a))
  {
  }

  /** A task moves on, and if it is the latest of an id it stays on the same side of the map. */
  lemma MovingKeepsMap(s: State, n: State, t: Task, pc: Pc)
    requires MapInv(s) && n.streams == s.streams && n.latest == s.latest && n.pc == s.pc[t := pc]
    requires forall id | t in s.pc && id in s.latest && s.latest[id] == t ::
      (s.pc[t].InMap(id) ==> pc.InMap(id)) && (s.pc[t].OutOfMap(id) ==> pc.OutOfMap(id))
    ensures MapInv(n)
  {
  }

  lemma InsertingKeepsMap(s: State, t: Task, id: Id)
    requires MapInv(s) && t in s.pc && s.pc[t] == RegLocked(id)
    ensures MapInv(SessionStep(s, t))
  {
  }

  lemma RemovingKeepsMap(s: State, t: Task, id: Id)
    requires MapInv(s) && t in s.pc && s.pc[t] == UnregLocked(id) && id in s.streams && s.streams[id] == t
    ensures MapInv(SessionStep(s, t))
  {
  }

  lemma SessionKeepsMap(s: State, t: Task)
    requires LockInv(s) && MapInv(s) && CanStep(s, t) && s.pc[t].IsSession()
    ensures MapInv(SessionStep(s, t))
  {
    var n := SessionStep(s, t);
    if s.pc[t].RegLocked? {
      InsertingKeepsMap(s, t, s.pc[t].id);
    } else if s.pc[t].UnregLocked? && s.pc[t].id in s.streams && s.streams[s.pc[t].id] == t {
      RemovingKeepsMap(s, t, s.pc[t].id);
    } else {
      MovingKeepsMap(s, n, t, n.pc[t]);
    }
  }

  lemma MovingKeepsWriter(s: State, n: State, t: Task, pc: Pc)
    requires WriterInv(s) && n.latest == s.latest && n.pc == s.pc[t := pc]
    requires pc.RegInserted? || pc.UnregRemoved? ==> pc.id in s.latest && s.latest[pc.id] == t
    ensures WriterInv(n)
  {
  }

  lemma SessionKeepsWriter(s: State, t: Task)
    requires LockInv(s) && MapInv(s) && WriterInv(s) && CanStep(s, t) && s.pc[t].IsSession()
    ensures WriterInv(SessionStep(s, t))
  {
    var n := SessionStep(s, t);
    if s.pc[t].RegLocked? {
      assert forall u | u in s.pc && u != t :: !s.pc[u].HoldsWrite();
    } else {
      MovingKeepsWriter(s, n, t, n.pc[t]);
    }
  }

  lemma SessionKeepsOnline(s: State, t: Task)
    requires Inv(s) && CanStep(s, t) && s.pc[t].IsSession() && MapInv(SessionStep(s, t))
    ensures OnlineInv(SessionStep(s, t))
  {
    SessionKeepsOpenOnline(s, t);
    SessionKeepsGoneOffline(s, t);
  }

  lemma SessionKeepsOpenOnline(s: State, t: Task)
    requires MapInv(s) && WriterInv(s) && OpenOnline(s)
    requires CanStep(s, t) && s.pc[t].IsSession() && MapInv(SessionStep(s, t))
    ensures OpenOnline(SessionStep(s, t))
  {
  }

  lemma SessionKeepsGoneOffline(s: State, t: Task)
    requires MapInv(s) && WriterInv(s) && GoneOffline(s)
    requires CanStep(s, t) && s.pc[t].IsSession() && MapInv(SessionStep(s, t))
    ensures GoneOffline(SessionStep(s, t))
  {
  }

  lemma SessionKeepsSync(s: State, t: Task)
    requires LockInv(s) && SyncInv(s) && CanStep(s, t) && s.pc[t].IsSession()
    ensures SyncInv(SessionStep(s, t))
  {
  }

  lemma SessionKeepsInv(s: State, t: Task)
    requires Inv(s) && CanStep(s, t) && s.pc[t].IsSession()
    ensures Inv(SessionStep(s, t))
  {
    SessionKeepsLock(s, t);
    SessionKeepsMap(s, t);
    SessionKeepsWriter(s, t);
    SessionKeepsOnline(s, t);
    SessionKeepsSync(s, t);
  }

  /** A task that is no session moves on, and a sync that has just read has read the truth. */
  lemma MovingKeepsRest(s: State, n: State, t: Task, pc: Pc)
    requires MapInv(s) && WriterInv(s) && OnlineInv(s) && SyncInv(s)
    requires n.streams == s.streams && n.latest == s.latest && n.closed == s.closed && n.online == s.online
      && n.pc == s.pc[t := pc]
    requires !pc.IsSession() && (t in s.pc ==> !s.pc[t].IsSession())
    requires pc.SyncRead? && pc.todo != [] ==> pc.value == Live(s.streams, s.closed, pc.todo[0])
    ensures MapInv(n) && WriterInv(n) && OnlineInv(n) && SyncInv(n)
  {
    MovingKeepsMap(s, n, t, pc);
  }

  lemma WritingKeepsOnline(s: State, t: Task)
    requires MapInv(s) && OnlineInv(s) && SyncInv(s) && CanStep(s, t) && s.pc[t].SyncRead? && MapInv(SyncStep(s, t))
    ensures OnlineInv(SyncStep(s, t))
  {
  }

  lemma SyncKeepsInv(s: State, t: Task)
    requires Inv(s) && CanStep(s, t) && s.pc[t].IsSync()
    ensures Inv(SyncStep(s, t))
  {
    var n := SyncStep(s, t);
    SyncKeepsLock(s, t);
    if s.pc[t].SyncRead? {
      MovingKeepsRest(s, At(s, t, n.pc[t]), t, n.pc[t]);
      WritingKeepsOnline(s, t);
    } else {
      MovingKeepsRest(s, n, t, n.pc[t]);
    }
  }

  lemma PushKeepsInv(s: State, t: Task)
    requires Inv(s) && CanStep(s, t) && s.pc[t].IsPush()
    ensures Inv(PushStep(s, t))
  {
    var n := PushStep(s, t);
    PushKeepsLock(s, t);
    MovingKeepsRest(s, n, t, n.pc[t]);
  }

  lemma StartingKeepsRest(s: State, t: Task, pc: Pc)
    requires MapInv(s) && WriterInv(s) && OnlineInv(s) && SyncInv(s)
    requires if t in s.pc then s.pc[t].Arrived? && pc.Rejected? else pc.Arrived?
    ensures var n := At(s, t, pc); MapInv(n) && WriterInv(n) && OnlineInv(n) && SyncInv(n)
  {
    MovingKeepsMap(s, At(s, t, pc), t, pc);
  }

  lemma OtherKeepsInv(s: State, a: Action)
    requires Inv(s) && Enabled(s, a) && !a.Step?
    ensures Inv(Next(s, a))
  {
    OtherKeepsLock(s, a);
    match a
    case Start(t, pc) =>
      if pc.Arrived? {
        StartingKeepsRest(s, t, pc);
      } else {
        MovingKeepsRest(s, At(s, t, pc), t, pc);
      }
    case Reject(t) => StartingKeepsRest(s, t, Rejected);
    case Fetch(t, rows) => MovingKeepsRest(s, At(s, t, SyncNext(rows)), t, SyncNext(rows));
    case Close(_) | Room(_, _) | Queue(_) =>
  }

  lemma StepKeepsInv(s: State, a: Action)
    requires Inv(s) && Enabled(s, a)
    ensures Inv(Next(s, a))
  {
    if !a.Step? {
      OtherKeepsInv(s, a);
    } else if s.pc[a.task].IsSession() {
      SessionKeepsInv(s, a.task);
    } else if s.pc[a.task].IsPush() {
      PushKeepsInv(s, a.task);
    } else {
      SyncKeepsInv(s, a.task);
    }
  }

  lemma {:induction false} InvHolds(states: seq<State>, actions: seq<Action>, i: nat)
    requires IsRun(states, actions) && i < |states|
    ensures Inv(states[i])
  {
    if i > 0 {
      InvHolds(states, actions, i - 1);
      StepKeepsInv(states[i - 1], actions[i - 1]);
    }
  }

  // ----- What holds in every run --------------------------------------------------------

  /** Whenever no task holds the write lock, an open registered session is persisted online and
      an id whose latest session has unregistered is persisted offline. */
  lemma PersistedPresence(states: seq<State>, actions: seq<Action>, i: nat, id: Id)
    requires IsRun(states, actions) && i < |states|
    requires var s := states[i]; !s.lock.Write? && id in s.online
    ensures var s := states[i]; id in s.streams && s.streams[id] !in s.closed ==> s.online[id]
    ensures var s := states[i]; id in s.latest && s.latest[id] in s.pc && s.pc[s.latest[id]].Finished? ==> !s.online[id]
  {
    InvHolds(states, actions, i);
  }

  /** The map entry of an id is the session inserted last, and absent exactly when that session has removed it. */
  lemma EntryIsLatest(states: seq<State>, actions: seq<Action>, i: nat, id: Id)
    requires IsRun(states, actions) && i < |states|
    ensures var s := states[i];
      && (id in s.streams ==> id in s.latest && s.streams[id] == s.latest[id])
      && (id in s.latest ==> s.latest[id] in s.pc)
      && (id in s.latest ==> (id !in s.streams <==> s.pc[s.latest[id]].UnregRemoved? || s.pc[s.latest[id]].Finished?))
  {
    InvHolds(states, actions, i);
  }

  /** Task `t` has read the row of `id` as `value` and not written it yet. */
  ghost predicate HasRead(s: State, t: Task, id: Id, value: bool) {
    t in s.pc && s.pc[t].SyncRead? && s.pc[t].todo != [] && s.pc[t].todo[0] == id && s.pc[t].value == value
  }

  lemma ReadStaysClosed(s: State, a: Action, t: Task, id: Id)
    requires LockInv(s) && Enabled(s, a) && a != Step(t)
    requires HasRead(s, t, id, false) && !Live(s.streams, s.closed, id)
    ensures HasRead(Next(s, a), t, id, false) && !Live(Next(s, a).streams, Next(s, a).closed, id)
  {
  }

  /** A row is down: offline, without an open session, and nobody is about to write it online. */
  ghost predicate Down(s: State, id: Id) {
    && !Live(s.streams, s.closed, id) && (id in s.online ==> !s.online[id])
    && forall t | t in s.pc :: s.pc[t] != RegInserted(id) && !HasRead(s, t, id, true)
  }

  lemma StaysDown(s: State, a: Action, id: Id)
    requires LockInv(s) && Enabled(s, a) && Down(s, id)
    requires a.Step? ==> s.pc[a.task] != RegLocked(id)
    ensures Down(Next(s, a), id)
  {
    if a.Step? {
      if s.pc[a.task].IsSession() {
        SessionStaysDown(s, a.task, id);
      } else if s.pc[a.task].IsPush() {
        PushStaysDown(s, a.task, id);
      } else {
        SyncStaysDown(s, a.task, id);
      }
    }
  }

  lemma SessionStaysDown(s: State, t: Task, id: Id)
    requires LockInv(s) && CanStep(s, t) && Down(s, id) && s.pc[t].IsSession() && s.pc[t] != RegLocked(id)
    ensures Down(SessionStep(s, t), id)
  {
  }

  lemma PushStaysDown(s: State, t: Task, id: Id)
    requires CanStep(s, t) && Down(s, id) && s.pc[t].IsPush()
    ensures Down(PushStep(s, t), id)
  {
  }

  lemma SyncStaysDown(s: State, t: Task, id: Id)
    requires CanStep(s, t) && Down(s, id) && s.pc[t].IsSync()
    ensures Down(SyncStep(s, t), id)
  {
  }

  lemma {:induction false} ReadHolds(states: seq<State>, actions: seq<Action>, k: nat, j: nat, t: Task, id: Id)
    requires IsRun(states, actions) && k < j < |states|
    requires actions[k] == Step(t) && states[k].pc[t].SyncLocked? && states[k].pc[t].todo != []
      && states[k].pc[t].todo[0] == id
    requires !Live(states[k].streams, states[k].closed, id)
    requires forall x | k < x < j :: actions[x] != Step(t)
    ensures HasRead(states[j], t, id, false) && !Live(states[j].streams, states[j].closed, id)
  {
    if k + 1 < j {
      ReadHolds(states, actions, k, j - 1, t, id);
      InvHolds(states, actions, j - 1);
      ReadStaysClosed(states[j - 1], actions[j - 1], t, id);
    }
  }

  lemma WriteTakesDown(s: State, t: Task, id: Id)
    requires LockInv(s) && Enabled(s, Step(t)) && HasRead(s, t, id, false) && !Live(s.streams, s.closed, id)
    requires forall u | u in s.pc :: !HasRead(s, u, id, true)
    ensures Down(Next(s, Step(t)), id)
  {
  }

  lemma ReadingStays(s: State, a: Action, t: Task, id: Id, value: bool)
    requires Enabled(s, a) && a != Step(t) && HasRead(s, t, id, value)
    ensures HasRead(Next(s, a), t, id, value)
  {
    OthersStay(s, a, t);
  }

  /** A sync goes on only by its own steps. */
  lemma OthersStay(s: State, a: Action, t: Task)
    requires Enabled(s, a) && a != Step(t) && t in s.pc && s.pc[t].IsSync() && !s.pc[t].SyncStart?
    ensures t in Next(s, a).pc && Next(s, a).pc[t] == s.pc[t]
  {
    if a.Step? {
      StepMovesOne(s, a.task);
    }
  }

  lemma StepMovesOne(s: State, t: Task)
    requires CanStep(s, t)
    ensures forall u | u != t && u in s.pc :: u in StepTask(s, t).pc && StepTask(s, t).pc[u] == s.pc[u]
  {
  }

  lemma {:induction false} ReadingLasts(states: seq<State>, actions: seq<Action>, k: nat, j: nat, t: Task, id: Id)
    requires IsRun(states, actions) && k < j < |states|
    requires actions[k] == Step(t) && states[k].pc[t].SyncLocked? && states[k].pc[t].todo != []
      && states[k].pc[t].todo[0] == id
    requires forall x | k < x < j :: actions[x] != Step(t)
    ensures HasRead(states[j], t, id, id in states[k].streams && states[k].streams[id] !in states[k].closed)
  {
    assert Enabled(states[k], actions[k]);
    if k + 1 < j {
      ReadingLasts(states, actions, k, j - 1, t, id);
      assert Enabled(states[j - 1], actions[j - 1]);
      ReadingStays(states[j - 1], actions[j - 1], t, id,
        id in states[k].streams && states[k].streams[id] !in states[k].closed);
    }
  }

  /** Whatever runs in between: what a sync writes for a row is whether, when the sync read the map, the
      row had an entry and the channel of that entry was not closed. */
  lemma SyncWritesWhatItRead(states: seq<State>, actions: seq<Action>, k: nat, j: nat, t: Task, id: Id)
    requires IsRun(states, actions) && k < j < |actions|
    requires actions[k] == Step(t) && states[k].pc[t].SyncLocked? && states[k].pc[t].todo != []
      && states[k].pc[t].todo[0] == id
    requires actions[j] == Step(t) && forall x | k < x < j :: actions[x] != Step(t)
    ensures id in states[j].online ==>
      id in states[j + 1].online
      && (states[j + 1].online[id] <==> id in states[k].streams && states[k].streams[id] !in states[k].closed)
    ensures forall i | i != id :: i in states[j + 1].online <==> i in states[j].online
    ensures forall i | i != id && i in states[j].online :: states[j + 1].online[i] == states[j].online[i]
  {
    ReadingLasts(states, actions, k, j, t, id);
    assert Enabled(states[j], actions[j]);
  }

  /** Task `t` reads the map for the row of `id`. */
  ghost predicate ReadsRow(states: seq<State>, actions: seq<Action>, j: nat, t: Task, id: Id)
    requires j < |actions| < |states|
  {
    && actions[j] == Step(t) && t in states[j].pc && states[j].pc[t].SyncLocked?
    && states[j].pc[t].todo != [] && states[j].pc[t].todo[0] == id
  }

  ghost predicate StillToDo(pc: Pc, id: Id) {
    match pc
    case SyncNext(todo) => id in todo
    case SyncLocked(todo) => id in todo
    case SyncRead(todo, _) => todo != [] && id in todo[1..]
    case _ => false
  }

  /** A sync leaves out no row it has fetched. */
  lemma {:induction false} SyncCoversRows(states: seq<State>, actions: seq<Action>, k: nat, m: nat, t: Task,
                                          rows: seq<Id>, id: Id)
    requires IsRun(states, actions) && k < m < |states| && actions[k] == Fetch(t, rows) && id in rows
    ensures t in states[m].pc && states[m].pc[t].IsSync() && !states[m].pc[t].SyncStart?
    ensures StillToDo(states[m].pc[t], id) || exists j :: k < j < m && ReadsRow(states, actions, j, t, id)
    ensures states[m].pc[t].SyncDone? ==> exists j :: k < j < m && ReadsRow(states, actions, j, t, id)
  {
    var s, a := states[m - 1], actions[m - 1];
    assert Enabled(s, a);
    if k + 1 < m {
      SyncCoversRows(states, actions, k, m - 1, t, rows, id);
      SyncProgress(s, a, t, id);
      if a == Step(t) && s.pc[t].SyncLocked? && s.pc[t].todo[0] == id {
        assert ReadsRow(states, actions, m - 1, t, id);
      }
    }
  }

  lemma SyncProgress(s: State, a: Action, t: Task, id: Id)
    requires Enabled(s, a) && t in s.pc && s.pc[t].IsSync() && !s.pc[t].SyncStart?
    ensures var n := Next(s, a); t in n.pc && n.pc[t].IsSync() && !n.pc[t].SyncStart?
    ensures StillToDo(s.pc[t], id) ==>
      StillToDo(Next(s, a).pc[t], id) || (a == Step(t) && s.pc[t].SyncLocked? && s.pc[t].todo[0] == id)
  {
    if a == Step(t) {
      OwnProgress(s, t, id);
    } else {
      OthersStay(s, a, t);
    }
  }

  lemma OwnProgress(s: State, t: Task, id: Id)
    requires CanStep(s, t) && s.pc[t].IsSync()
    ensures var n := SyncStep(s, t); t in n.pc && n.pc[t].IsSync() && !n.pc[t].SyncStart?
    ensures StillToDo(s.pc[t], id) ==>
      StillToDo(SyncStep(s, t).pc[t], id) || (s.pc[t].SyncLocked? && s.pc[t].todo[0] == id)
  {
  }

  lemma StepKeepsRows(s: State, a: Action)
    requires Enabled(s, a)
    ensures Next(s, a).online.Keys == s.online.Keys
  {
    if a.Step? {
      StepTaskKeepsRows(s, a.task);
    }
  }

  lemma StepTaskKeepsRows(s: State, t: Task)
    requires CanStep(s, t)
    ensures StepTask(s, t).online.Keys == s.online.Keys
  {
  }

  /** Presence is only ever written to rows that exist. */
  lemma {:induction false} RowsStay(states: seq<State>, actions: seq<Action>, i: nat)
    requires IsRun(states, actions) && i < |states|
    ensures states[i].online.Keys == states[0].online.Keys
  {
    if i > 0 {
      RowsStay(states, actions, i - 1);
      assert Enabled(states[i - 1], actions[i - 1]);
      StepKeepsRows(states[i - 1], actions[i - 1]);
    }
  }

  /** A sync that finds no open session for a row writes it offline, and offline it stays until a later
      registration of that id enters the map; other syncs must not be about to write an older reading. */
  lemma {:induction false} SyncTakesOffline(states: seq<State>, actions: seq<Action>, k: nat, j: nat, m: nat, t: Task,
                                            id: Id)
    requires IsRun(states, actions) && k < j < m < |states|
    requires actions[k] == Step(t) && states[k].pc[t].SyncLocked? && states[k].pc[t].todo != []
      && states[k].pc[t].todo[0] == id
    requires id in states[k].streams ==> states[k].streams[id] in states[k].closed
    requires actions[j] == Step(t) && forall x | k < x < j :: actions[x] != Step(t)
    requires forall u | u in states[j].pc :: !HasRead(states[j], u, id, true)
    requires forall x | j < x < m && actions[x].Step? ::
      actions[x].task in states[x].pc && states[x].pc[actions[x].task] != RegLocked(id)
    ensures Down(states[m], id) && (id in states[m].online ==> !states[m].online[id])
  {
    if j + 1 == m {
      ReadHolds(states, actions, k, j, t, id);
      InvHolds(states, actions, j);
      WriteTakesDown(states[j], t, id);
    } else {
      SyncTakesOffline(states, actions, k, j, m - 1, t, id);
      InvHolds(states, actions, m - 1);
      StaysDown(states[m - 1], actions[m - 1], id);
    }
  }

  /** Session `t` has been registered and another session of its id registered after it. */
  ghost predicate Replaced(s: State, t: Task) {
    && t in s.pc && (s.pc[t].Serving? || s.pc[t].UnregLocked? || s.pc[t].Finished?)
    && s.pc[t].id in s.latest && s.latest[s.pc[t].id] != t
  }

  lemma ReplacedStep(s: State, a: Action, t: Task)
    requires Inv(s) && Enabled(s, a) && Replaced(s, t)
    ensures Replaced(Next(s, a), t)
    ensures a == Step(t) ==> Next(s, a).streams == s.streams && Next(s, a).online == s.online
  {
    if a.Step? && s.pc[a.task].IsSession() {
      ReplacedSessionStep(s, a.task, t);
    }
  }

  lemma ReplacedSessionStep(s: State, u: Task, t: Task)
    requires Inv(s) && CanStep(s, u) && s.pc[u].IsSession() && Replaced(s, t)
    ensures Replaced(SessionStep(s, u), t)
    ensures u == t ==> SessionStep(s, u).streams == s.streams && SessionStep(s, u).online == s.online
  {
  }

  /** From the moment it is replaced, no step of a session changes the map or the column. */
  lemma {:induction false} ReplacedSessionIsInert(states: seq<State>, actions: seq<Action>, i: nat, k: nat, t: Task)
    requires IsRun(states, actions) && i <= k < |actions| && Replaced(states[i], t)
    ensures Replaced(states[k], t)
    ensures actions[k] == Step(t) ==>
      states[k + 1].streams == states[k].streams && states[k + 1].online == states[k].online
  {
    if i < k {
      ReplacedSessionIsInert(states, actions, i, k - 1, t);
      InvHolds(states, actions, k - 1);
      ReplacedStep(states[k - 1], actions[k - 1], t);
    }
    InvHolds(states, actions, k);
    ReplacedStep(states[k], actions[k], t);
  }

  /** Once every session task has ended, the map is empty and every id that was registered is offline. */
  lemma AllSessionsEnded(states: seq<State>, actions: seq<Action>, i: nat)
    requires IsRun(states, actions) && i < |states|
    requires var s := states[i]; forall t | t in s.pc && s.pc[t].IsSession() :: s.pc[t].Ended()
    ensures var s := states[i]; s.streams == map[] && forall id | id in s.latest && id in s.online :: !s.online[id]
  {
    InvHolds(states, actions, i);
    var s := states[i];
    forall id ensures id !in s.streams {
      if id in s.streams {
        assert false;
      }
    }
    forall id | id in s.latest && id in s.online ensures !s.online[id] {
      assert s.pc[s.latest[id]].OutOfMap(id);
    }
  }

  /** While a task holds the write lock, no other task changes the map, the column or the lock. */
  lemma WriterIsIsolated(s: State, a: Action, owner: Task)
    requires Inv(s) && Enabled(s, a) && s.lock == Write(owner) && a.task != owner
    ensures var n := Next(s, a);
      n.streams == s.streams && n.online == s.online && n.lock == s.lock && owner in n.pc && n.pc[owner] == s.pc[owner]
  {
  }

  /** How far the registration that task `t` began in state `b` has come in state `s`. */
  ghost predicate Registering(b: State, s: State, t: Task, id: Id) {
    t in s.pc &&
    match s.pc[t]
    case RegLocked(i) => i == id && s.streams == b.streams && s.online == b.online
    case RegInserted(i) => i == id && s.streams == b.streams[id := t] && s.online == b.online
    case Serving(i) => i == id && s.streams == b.streams[id := t] && s.online == Persist(b.online, id, true)
    case _ => false
  }

  ghost predicate Unregistering(b: State, s: State, t: Task, id: Id) {
    t in s.pc &&
    var mine := id in b.streams && b.streams[id] == t;
    match s.pc[t]
    case UnregLocked(i) => i == id && s.streams == b.streams && s.online == b.online
    case UnregRemoved(i) => i == id && mine && s.streams == b.streams - {id} && s.online == b.online
    case Finished(i) => i == id &&
      if mine then s.streams == b.streams - {id} && s.online == Persist(b.online, id, false)
      else s.streams == b.streams && s.online == b.online
    case _ => false
  }

  lemma RegisteringStarts(b: State, t: Task, id: Id)
    requires Enabled(b, Step(t)) && b.pc[t] == Arrived(id)
    ensures Registering(b, Next(b, Step(t)), t, id)
  {
  }

  lemma RegisteringStep(b: State, s: State, a: Action, t: Task, id: Id)
    requires Inv(s) && Enabled(s, a) && Registering(b, s, t, id) && s.pc[t].HoldsWrite()
    ensures Registering(b, Next(s, a), t, id)
  {
    if a.task != t {
      WriterIsIsolated(s, a, t);
    }
  }

  lemma UnregisteringStarts(b: State, t: Task, id: Id)
    requires Enabled(b, Step(t)) && b.pc[t] == Serving(id)
    ensures Unregistering(b, Next(b, Step(t)), t, id)
  {
  }

  lemma UnregisteringStep(b: State, s: State, a: Action, t: Task, id: Id)
    requires Inv(s) && Enabled(s, a) && Unregistering(b, s, t, id) && s.pc[t].HoldsWrite()
    ensures Unregistering(b, Next(s, a), t, id)
  {
    if a.task != t {
      WriterIsIsolated(s, a, t);
    }
  }

  /** Whatever runs in between, a registration changes the map and the column as one indivisible
      step, the one that `StreamManager.Register` describes. */
  lemma {:induction false} RegisterIsAtomic(states: seq<State>, actions: seq<Action>, i: nat, j: nat, t: Task, id: Id)
    requires IsRun(states, actions) && i < j < |states|
    requires t in states[i].pc && states[i].pc[t] == Arrived(id) && actions[i] == Step(t)
    requires forall k | i < k < j :: t in states[k].pc && states[k].pc[t].HoldsWrite()
    ensures Registering(states[i], states[j], t, id)
  {
    if i + 1 == j {
      RegisteringStarts(states[i], t, id);
    } else {
      RegisterIsAtomic(states, actions, i, j - 1, t, id);
      InvHolds(states, actions, j - 1);
      RegisteringStep(states[i], states[j - 1], actions[j - 1], t, id);
    }
  }

  /** So does an unregistration, as `StreamManager.Unregister` describes it. */
  lemma {:induction false} UnregisterIsAtomic(states: seq<State>, actions: seq<Action>, i: nat, j: nat, t: Task, id: Id)
    requires IsRun(states, actions) && i < j < |states|
    requires t in states[i].pc && states[i].pc[t] == Serving(id) && actions[i] == Step(t)
    requires forall k | i < k < j :: t in states[k].pc && states[k].pc[t].HoldsWrite()
    ensures Unregistering(states[i], states[j], t, id)
  {
    if i + 1 == j {
      UnregisteringStarts(states[i], t, id);
    } else {
      UnregisterIsAtomic(states, actions, i, j - 1, t, id);
      InvHolds(states, actions, j - 1);
      UnregisteringStep(states[i], states[j - 1], actions[j - 1], t, id);
    }
  }

  // ----- When the registry comes to a stop ----------------------------------------------

  /** Tasks in the queue wait for the lock, each once. */
  ghost predicate QueueInv(s: State) {
    && (forall i | 0 <= i < |s.queue| ::
      s.queue[i] in s.pc && (s.pc[s.queue[i]].WantsWrite() || s.pc[s.queue[i]].WantsRead()))
    && forall i, j | 0 <= i < j < |s.queue| :: s.queue[i] != s.queue[j]
  }

  /** A task outside the queue changes, or the head leaves it. */
  lemma MovingKeepsQueue(s: State, n: State, t: Task, pc: Pc)
    requires QueueInv(s) && n.pc == s.pc[t := pc]
    requires if IsHead(s, t) then n.queue == s.queue[1..] else t !in s.queue && n.queue == s.queue
    ensures QueueInv(n)
  {
  }

  lemma NotQueued(s: State, t: Task)
    requires QueueInv(s) && (t in s.pc ==> !s.pc[t].WantsWrite() && !s.pc[t].WantsRead())
    ensures t !in s.queue
  {
  }

  lemma SessionKeepsQueue(s: State, t: Task)
    requires QueueInv(s) && CanStep(s, t) && s.pc[t].IsSession()
    ensures QueueInv(SessionStep(s, t))
  {
    var n := SessionStep(s, t);
    if !s.pc[t].WantsWrite() {
      NotQueued(s, t);
    }
    MovingKeepsQueue(s, n, t, n.pc[t]);
  }

  lemma SyncKeepsQueue(s: State, t: Task)
    requires QueueInv(s) && CanStep(s, t) && s.pc[t].IsSync()
    ensures QueueInv(SyncStep(s, t))
  {
    var n := SyncStep(s, t);
    if !s.pc[t].WantsRead() {
      NotQueued(s, t);
    }
    MovingKeepsQueue(s, n, t, n.pc[t]);
  }

  lemma PushKeepsQueue(s: State, t: Task)
    requires QueueInv(s) && CanStep(s, t) && s.pc[t].IsPush()
    ensures QueueInv(PushStep(s, t))
  {
    var n := PushStep(s, t);
    if !s.pc[t].WantsRead() {
      NotQueued(s, t);
    }
    MovingKeepsQueue(s, n, t, n.pc[t]);
  }

  lemma StepKeepsQueue(s: State, a: Action)
    requires QueueInv(s) && Enabled(s, a)
    ensures QueueInv(Next(s, a))
  {
    match a
    case Step(t) =>
      if s.pc[t].IsSession() {
        SessionKeepsQueue(s, t);
      } else if s.pc[t].IsPush() {
        PushKeepsQueue(s, t);
      } else {
        SyncKeepsQueue(s, t);
      }
    case Start(t, pc) =>
      NotQueued(s, t);
      MovingKeepsQueue(s, At(s, t, pc), t, pc);
    case Reject(t) => MovingKeepsQueue(s, At(s, t, Rejected), t, Rejected);
    case Fetch(t, rows) =>
      NotQueued(s, t);
      MovingKeepsQueue(s, At(s, t, SyncNext(rows)), t, SyncNext(rows));
    case Close(_) | Room(_, _) | Queue(_) =>
  }

  lemma {:induction false} QueueInvHolds(states: seq<State>, actions: seq<Action>, i: nat)
    requires IsRun(states, actions) && i < |states|
    ensures QueueInv(states[i])
  {
    if i > 0 {
      QueueInvHolds(states, actions, i - 1);
      StepKeepsQueue(states[i - 1], actions[i - 1]);
    }
  }

  /** A push that holds the lock while its channel is open and has no room. */
  predicate Stalled(s: State, t: Task) {
    t in s.pc && s.pc[t].PushSending? && s.pc[t].channel in s.full && s.pc[t].channel !in s.closed
  }

  ghost predicate SomeStep(s: State) {
    exists a: Action :: (a.Step? || a.Fetch? || a.Queue?) && Enabled(s, a)
  }

  /** All readers are stalled pushes, and everything else waits in the queue, behind a writer. */
  ghost predicate Blocked(s: State) {
    && s.lock.Read? && (forall t | t in s.lock.owners :: Stalled(s, t))
    && (forall t | t in s.pc && !s.pc[t].Ended() :: Stalled(s, t) || t in s.queue)
    && (s.queue != [] ==> s.queue[0] in s.pc && s.pc[s.queue[0]].WantsWrite())
  }

  lemma QueuedWants(s: State, t: Task)
    requires QueueInv(s) && t in s.queue
    ensures t in s.pc && (s.pc[t].WantsWrite() || s.pc[t].WantsRead())
  {
    var i :| 0 <= i < |s.queue| && s.queue[i] == t;
  }

  lemma BlockedHasNoStep(s: State)
    requires QueueInv(s) && Blocked(s)
    ensures !SomeStep(s)
  {
    forall a: Action | a.Step? || a.Fetch? || a.Queue? ensures !Enabled(s, a) {
      if Enabled(s, a) && a.task in s.queue {
        QueuedWants(s, a.task);
      }
    }
  }

  /** A task that neither is stalled nor waits for the lock can do something of its own. */
  lemma OwnStep(s: State, t: Task)
    requires Inv(s) && t in s.pc && !s.pc[t].Ended() && !Stalled(s, t) && t !in s.queue
    ensures SomeStep(s)
  {
    if s.pc[t].SyncStart? {
      var rows := Listing(s.online.Keys);
      assert Enabled(s, Fetch(t, rows));
    } else if s.pc[t].WantsWrite() || s.pc[t].WantsRead() {
      assert Enabled(s, Queue(t));
    } else {
      assert Enabled(s, Step(t));
    }
  }

  /** While a task is unfinished, some task can take a step, except in exactly one situation: every
      holder of the lock is a push that waits on a full open channel, and nobody but queued tasks is
      left besides, with a writer in front. */
  lemma NoDeadlock(s: State, t: Task)
    requires Inv(s) && QueueInv(s) && t in s.pc && !s.pc[t].Ended()
    ensures SomeStep(s) <==> !Blocked(s)
  {
    if Blocked(s) {
      BlockedHasNoStep(s);
    } else if u :| u in s.pc && !s.pc[u].Ended() && !Stalled(s, u) && u !in s.queue {
      OwnStep(s, u);
    } else {
      HeadStep(s, t);
    }
  }

  /** With everything unfinished stalled or queued, it is the head of the queue that goes on. */
  lemma HeadStep(s: State, t: Task)
    requires Inv(s) && QueueInv(s) && !Blocked(s) && t in s.pc && !s.pc[t].Ended()
    requires forall u | u in s.pc && !s.pc[u].Ended() :: Stalled(s, u) || u in s.queue
    ensures SomeStep(s)
  {
    forall u | u in s.pc && (s.pc[u].HoldsWrite() || s.pc[u].HoldsRead()) ensures Stalled(s, u) {
      if u in s.queue {
        QueuedWants(s, u);
      }
    }
    assert !s.lock.Write?;
    assert s.lock.Free? ==> t in s.queue;
    QueuedWants(s, s.queue[0]);
    assert Enabled(s, Step(s.queue[0]));
  }

  /** While the channel of a stalled push stays full and open, nothing registers or unregisters; and
      once a writer waits, no further reader gets in either. */
  lemma StallStep(s: State, a: Action, r: Task)
    requires Inv(s) && QueueInv(s) && Enabled(s, a) && Stalled(s, r)
    requires a != Room(s.pc[r].channel, true) && a != Close(s.pc[r].channel)
    ensures StillStalled(s, Next(s, a), r)
  {
    if !a.Step? {
      StallOther(s, a, r);
    } else if s.pc[a.task].IsPush() {
      StallPushStep(s, a.task, r);
    } else if s.pc[a.task].IsSync() {
      StallSyncStep(s, a.task, r);
    }
  }

  ghost predicate StillStalled(s: State, n: State, r: Task)
    requires Stalled(s, r)
  {
    && Stalled(n, r) && n.pc[r] == s.pc[r] && n.streams == s.streams
    && (HeadWrites(s) ==> HeadWrites(n) && n.queue[0] == s.queue[0] && n.lock.owners <= s.lock.owners)
  }

  lemma StallOther(s: State, a: Action, r: Task)
    requires QueueInv(s) && Enabled(s, a) && !a.Step? && Stalled(s, r)
    requires a != Room(s.pc[r].channel, true) && a != Close(s.pc[r].channel)
    ensures StillStalled(s, Next(s, a), r)
  {
  }

  ghost predicate HeadWrites(s: State) {
    s.lock.Read? && s.queue != [] && s.queue[0] in s.pc && s.pc[s.queue[0]].WantsWrite()
  }

  lemma StallSyncStep(s: State, t: Task, r: Task)
    requires Inv(s) && QueueInv(s) && CanStep(s, t) && s.pc[t].IsSync() && Stalled(s, r)
    ensures StillStalled(s, SyncStep(s, t), r)
  {
    var n := SyncStep(s, t);
    assert r in s.lock.owners && t != r;
    assert r in s.lock.owners - {t};
    assert Stalled(n, r) && n.pc[r] == s.pc[r];
    assert HeadWrites(s) ==> !IsHead(s, t) && n.queue == s.queue;
  }

  lemma StallPushStep(s: State, t: Task, r: Task)
    requires Inv(s) && QueueInv(s) && CanStep(s, t) && s.pc[t].IsPush() && Stalled(s, r)
    ensures StillStalled(s, PushStep(s, t), r)
  {
    var n := PushStep(s, t);
    assert r in s.lock.owners && t != r;
    assert r in s.lock.owners - {t};
    assert Stalled(n, r) && n.pc[r] == s.pc[r];
    assert HeadWrites(s) ==> !IsHead(s, t) && n.queue == s.queue;
  }

  ghost predicate NoRelief(actions: seq<Action>, channel: Task, from: nat, to: nat)
    requires from <= to <= |actions|
  {
    forall k | from <= k < to :: actions[k] != Room(channel, true) && actions[k] != Close(channel)
  }

  /** So one peer that does not read stops all registrations, and once one of them waits, all syncs and
      pushes too, for as long as it neither reads nor goes away. */
  lemma {:induction false} StalledPeerBlocks(states: seq<State>, actions: seq<Action>, i: nat, j: nat, r: Task)
    requires IsRun(states, actions) && i <= j < |states| && Stalled(states[i], r)
    requires NoRelief(actions, states[i].pc[r].channel, i, j)
    ensures StillStalled(states[i], states[j], r)
    decreases j
  {
    if i < j {
      StalledPeerBlocks(states, actions, i, j - 1, r);
      InvHolds(states, actions, j - 1);
      QueueInvHolds(states, actions, j - 1);
      assert Enabled(states[j - 1], actions[j - 1]);
      StallStep(states[j - 1], actions[j - 1], r);
    }
  }

  /** Once the peer reads, or goes away, the push goes on. */
  lemma ReliefUnblocks(s: State, r: Task)
    requires Inv(s) && Stalled(s, r) && s.pc[r].channel in s.pc
    ensures var relief := Room(s.pc[r].channel, true); Enabled(s, relief) && Enabled(Next(s, relief), Step(r))
    ensures var relief := Close(s.pc[r].channel); Enabled(s, relief) && Enabled(Next(s, relief), Step(r))
  {
  }

  /** One more action of a run. */
  lemma Extend(states: seq<State>, actions: seq<Action>, a: Action) returns (longer: seq<State>)
    requires IsRun(states, actions) && Enabled(states[|actions|], a)
    ensures IsRun(longer, actions + [a]) && longer[|actions| + 1] == Next(states[|actions|], a)
  {
    longer := states + [Next(states[|actions|], a)];
    var more := actions + [a];
    forall i | 0 <= i < |more| ensures Enabled(longer[i], more[i]) && longer[i + 1] == Next(longer[i], more[i]) {
      if i < |actions| {
        assert Enabled(states[i], actions[i]);
      }
    }
  }

  /** One session, of id 1, in the map or on its way there. */
  function OneSession(pc: Pc, lock: Lock, queue: seq<Task>, streams: map<Id, Task>, online: bool): State {
    State(map[1 := pc], lock, queue, streams, {}, {}, map[1 := online, 2 := false], streams)
  }

  lemma OneArrives() returns (states: seq<State>, actions: seq<Action>)
    ensures IsRun(states, actions) && states[|actions|] == OneSession(Arrived(1), Free, [1], map[], false)
  {
    states, actions := [State(map[], Free, [], map[], {}, {}, map[1 := false, 2 := false], map[])], [];
    states := Extend(states, actions, Start(1, Arrived(1)));
    actions := actions + [Start(1, Arrived(1))];
    states := Extend(states, actions, Queue(1));
    actions := actions + [Queue(1)];
  }

  lemma OneTakesLock()
    ensures var s := OneSession(Arrived(1), Free, [1], map[], false);
      Enabled(s, Step(1)) && Next(s, Step(1)) == OneSession(RegLocked(1), Write(1), [], map[], false)
  {
  }

  lemma OneInserts()
    ensures var s := OneSession(RegLocked(1), Write(1), [], map[], false);
      Enabled(s, Step(1)) && Next(s, Step(1)) == OneSession(RegInserted(1), Write(1), [], map[1 := 1], false)
  {
  }

  lemma OneWrites()
    ensures var s := OneSession(RegInserted(1), Write(1), [], map[1 := 1], false);
      Enabled(s, Step(1)) && Next(s, Step(1)) == OneSession(Serving(1), Free, [], map[1 := 1], true)
  {
  }

  lemma OneStep(states: seq<State>, actions: seq<Action>, s: State, n: State) returns (longer: seq<State>)
    requires IsRun(states, actions) && states[|actions|] == s && Enabled(s, Step(1)) && Next(s, Step(1)) == n
    ensures IsRun(longer, actions + [Step(1)]) && longer[|actions + [Step(1)]|] == n
  {
    longer := Extend(states, actions, Step(1));
  }

  lemma OneLocks() returns (states: seq<State>, actions: seq<Action>)
    ensures IsRun(states, actions) && states[|actions|] == OneSession(RegLocked(1), Write(1), [], map[], false)
  {
    states, actions := OneArrives();
    OneTakesLock();
    states := OneStep(states, actions, states[|actions|], OneSession(RegLocked(1), Write(1), [], map[], false));
    actions := actions + [Step(1)];
  }

  lemma OneIsInserted() returns (states: seq<State>, actions: seq<Action>)
    ensures IsRun(states, actions) && states[|actions|] == OneSession(RegInserted(1), Write(1), [], map[1 := 1], false)
  {
    states, actions := OneLocks();
    OneInserts();
    states := OneStep(states, actions, states[|actions|], OneSession(RegInserted(1), Write(1), [], map[1 := 1], false));
    actions := actions + [Step(1)];
  }

  lemma OneRegisters() returns (states: seq<State>, actions: seq<Action>)
    ensures IsRun(states, actions) && states[|actions|] == OneSession(Serving(1), Free, [], map[1 := 1], true)
  {
    states, actions := OneIsInserted();
    OneWrites();
    states := OneStep(states, actions, states[|actions|], OneSession(Serving(1), Free, [], map[1 := 1], true));
    actions := actions + [Step(1)];
  }

  /** And a push to it, while its channel is full. */
  function WithPush(pc: Pc, lock: Lock, queue: seq<Task>): State {
    State(map[1 := Serving(1), 3 := pc], lock, queue, map[1 := 1], {}, {1}, map[1 := true, 2 := false], map[1 := 1])
  }

  lemma PushQueues() returns (states: seq<State>, actions: seq<Action>)
    ensures IsRun(states, actions) && states[|actions|] == WithPush(PushStart(1), Free, [3])
  {
    states, actions := OneRegisters();
    states := Extend(states, actions, Room(1, false));
    actions := actions + [Room(1, false)];
    states := Extend(states, actions, Start(3, PushStart(1)));
    actions := actions + [Start(3, PushStart(1))];
    states := Extend(states, actions, Queue(3));
    actions := actions + [Queue(3)];
  }

  lemma PushTakesLock()
    ensures var s := WithPush(PushStart(1), Free, [3]);
      Enabled(s, Step(3)) && Next(s, Step(3)) == WithPush(PushLocked(1), Read({3}), [])
  {
    assert {} + {3 as Task} == {3};
  }

  lemma PushStartsSending()
    ensures var s := WithPush(PushLocked(1), Read({3}), []);
      Enabled(s, Step(3)) && Next(s, Step(3)) == WithPush(PushSending(1), Read({3}), [])
  {
  }

  lemma PushStalls() returns (states: seq<State>, actions: seq<Action>)
    ensures IsRun(states, actions) && states[|actions|] == WithPush(PushSending(1), Read({3}), [])
  {
    states, actions := PushQueues();
    PushTakesLock();
    states := Extend(states, actions, Step(3));
    actions := actions + [Step(3)];
    PushStartsSending();
    states := Extend(states, actions, Step(3));
    actions := actions + [Step(3)];
  }

  /** A push to the session of id 1, which does not read, keeps id 2 from registering: both sessions
      wait for the lock, and no task can take a step. */
  lemma OnePeerStopsAnother() returns (states: seq<State>, actions: seq<Action>)
    ensures IsRun(states, actions) && Blocked(states[|actions|])
    ensures var s := states[|actions|];
      2 in s.pc && s.pc[2] == Arrived(2) && s.queue == [2, 1] && 2 !in s.streams && 2 in s.online && !s.online[2]
  {
    states, actions := PushStalls();
    states := Extend(states, actions, Start(2, Arrived(2)));
    actions := actions + [Start(2, Arrived(2))];
    states := Extend(states, actions, Queue(2));
    actions := actions + [Queue(2)];
    states := Extend(states, actions, Queue(1));
    actions := actions + [Queue(1)];
    assert states[|actions|] == State(map[1 := Serving(1), 3 := PushSending(1), 2 := Arrived(2)], Read({3}), [2, 1],
                                      map[1 := 1], {}, {1}, map[1 := true, 2 := false], map[1 := 1]);
  }

  /** And a sync, while its channel is closed. */
  function WithSync(pc: Pc, lock: Lock, queue: seq<Task>, online: bool): State {
    State(map[1 := Serving(1), 3 := pc], lock, queue, map[1 := 1], {1}, {}, map[1 := online, 2 := false], map[1 := 1])
  }

  lemma SyncArrives() returns (states: seq<State>, actions: seq<Action>)
    ensures IsRun(states, actions) && states[|actions|] == WithSync(SyncStart, Free, [], true)
  {
    states, actions := OneRegisters();
    states := Extend(states, actions, Close(1));
    actions := actions + [Close(1)];
    states := Extend(states, actions, Start(3, SyncStart));
    actions := actions + [Start(3, SyncStart)];
  }

  lemma SyncTakesLock()
    ensures var s := WithSync(SyncNext([1, 2]), Free, [3], true);
      Enabled(s, Step(3)) && Next(s, Step(3)) == WithSync(SyncLocked([1, 2]), Read({3}), [], true)
  {
    assert {} + {3 as Task} == {3};
  }

  lemma SyncReads()
    ensures var s := WithSync(SyncLocked([1, 2]), Read({3}), [], true);
      Enabled(s, Step(3)) && Next(s, Step(3)) == WithSync(SyncRead([1, 2], false), Read({3}), [], true)
  {
  }

  lemma SyncWrites()
    ensures var s := WithSync(SyncRead([1, 2], false), Read({3}), [], true);
      Enabled(s, Step(3)) && Next(s, Step(3)) == WithSync(SyncNext([2]), Free, [], false)
  {
    assert {3 as Task} - {3} == {};
  }

  lemma SyncQueues() returns (states: seq<State>, actions: seq<Action>)
    ensures IsRun(states, actions) && states[|actions|] == WithSync(SyncNext([1, 2]), Free, [3], true)
  {
    states, actions := SyncArrives();
    states := Extend(states, actions, Fetch(3, [1, 2]));
    actions := actions + [Fetch(3, [1, 2])];
    states := Extend(states, actions, Queue(3));
    actions := actions + [Queue(3)];
  }

  /** A peer is gone and its session has not unregistered yet: a sync takes its row offline, although the
      entry is still in the map. */
  lemma ClosedSessionGoesOffline() returns (states: seq<State>, actions: seq<Action>)
    ensures IsRun(states, actions)
    ensures var s := states[|actions|];
      1 in s.streams && s.streams[1] in s.closed && 1 in s.online && !s.online[1] && 1 in s.pc && s.pc[1].Serving?
  {
    states, actions := SyncQueues();
    SyncTakesLock();
    states := Extend(states, actions, Step(3));
    actions := actions + [Step(3)];
    SyncReads();
    SyncWrites();
    states := Extend(states, actions, Step(3));
    actions := actions + [Step(3)];
    states := Extend(states, actions, Step(3));
    actions := actions + [Step(3)];
  }
}
