// Traffic accounting: events are summed per (proxy, client, user) key and the sums are
// flushed into five tables, in whatever order the hash map hands the keys out.
module Traffic {
  import opened Wrappers

  // ----- Data ---------------------------------------------------------------------------

  /** A byte count per direction; `Key` is the hash-map key of the buffer. */
  datatype Bytes = Bytes(sent: nat, received: nat) {
    function Plus(b: Bytes): Bytes { Bytes(sent + b.sent, received + b.received) }
    predicate IsZero() { sent == 0 && received == 0 }
    function Total(): nat { sent + received }
  }
  function Zero(): Bytes { Bytes(0, 0) }

  datatype Key = Key(proxy: int, client: int, user: Option<int>)
  datatype Event = Event(key: Key, bytes: Bytes)

  datatype Date = Date(year: int, month: int, day: int)
  datatype Stamp = Stamp(date: Date, second: int)

  predicate After(a: Date, b: Date) {
    a.year > b.year
    || (a.year == b.year && (a.month > b.month || (a.month == b.month && a.day > b.day)))
  }

  /** The columns that client, user and node rows share. */
  datatype Account = Account(used: Bytes, cycle: string, lastReset: Option<Stamp>,
                             quotaGb: Option<real>, exceeded: bool)

  /** `days` holds the rows of the daily table that reference this proxy, keyed by date. */
  datatype ProxyRow = ProxyRow(node: Option<int>, owner: Option<int>, used: Bytes, days: map<Date, Bytes>)
  datatype ClientRow = ClientRow(owner: Option<int>, account: Account)

  datatype Database = Database(proxies: map<int, ProxyRow>, clients: map<int, ClientRow>,
                               users: map<int, Account>, nodes: map<int, Account>)

  // ----- One account --------------------------------------------------------------------

  predicate ShouldReset(a: Account, now: Stamp) {
    match a.lastReset
    case None => true
    case Some(last) =>
      if a.cycle == "daily" then After(now.date, last.date)
      else if a.cycle == "monthly" then
        now.date.year > last.date.year
        || (now.date.year == last.date.year && now.date.month > last.date.month)
      else false
  }

  const I64_MAX: int := 0x7fff_ffff_ffff_ffff
  const I64_MIN: int := -0x8000_0000_0000_0000

  /** `as i64` truncates toward zero and saturates. */
  function GbToBytes(gb: real): (bytes: int)
    ensures I64_MIN <= bytes <= I64_MAX
    ensures 0.0 <= gb ==> bytes as real <= gb * 1073741824.0
    ensures 0.0 <= gb && bytes < I64_MAX ==> gb * 1073741824.0 < bytes as real + 1.0
  {
    var exact := gb * 1073741824.0;
    var truncated := if exact >= 0.0 then exact.Floor else -((-exact).Floor);
    if truncated > I64_MAX then I64_MAX else if truncated < I64_MIN then I64_MIN else truncated
  }

  predicate Over(a: Account, used: Bytes) {
    a.quotaGb.Some? && used.Total() >= GbToBytes(a.quotaGb.value)
  }

  /** What the flush does to one row for one entry: reset or add, then the separate flag write,
      which tests the flag as it was read before the reset. */
  function Charge(a: Account, b: Bytes, now: Stamp): Account {
    var written :=
      if ShouldReset(a, now) then a.(used := b, exceeded := false, lastReset := Some(now))
      else a.(used := a.used.Plus(b));
    if Over(a, written.used) && !a.exceeded then written.(exceeded := true) else written
  }

  /** What a flush brings to one row: nothing, or some bytes from one entry or from several. */
  datatype Tally = Untouched | Touched(bytes: Bytes, several: bool) {
    function Plus(t: Tally): Tally {
      if Untouched? then t
      else if t.Untouched? then this
      else Touched(bytes.Plus(t.bytes), true)
    }

    function GetBytes(): Bytes {
      if Untouched? then Zero() else bytes
    }
  }

  function UsedAfter(a: Account, b: Bytes, now: Stamp): Bytes {
    if ShouldReset(a, now) then b else a.used.Plus(b)
  }

  /** The row after any number of entries, told from their sum and whether there are several. */
  function Charged(a: Account, t: Tally, now: Stamp): Account {
    match t
    case Untouched => a
    case Touched(bytes, several) =>
      var used := UsedAfter(a, bytes, now);
      if ShouldReset(a, now) then
        a.(used := used, lastReset := Some(now), exceeded := Over(a, used) && (!a.exceeded || several))
      else
        a.(used := used, exceeded := a.exceeded || Over(a, used))
  }

  lemma ChargeIsCharged(a: Account, b: Bytes, now: Stamp)
    ensures Charge(a, b, now) == Charged(a, Touched(b, false), now)
  {
  }

  /** A reset at `now` makes a second reset at `now` impossible, so charging composes. */
  lemma ChargedComposes(a: Account, s: Tally, t: Tally, now: Stamp)
    ensures Charged(Charged(a, s, now), t, now) == Charged(a, s.Plus(t), now)
  {
  }

  /** The entries of one account, charged one after another as the flush does. */
  function ChargeAll(a: Account, entries: seq<Bytes>, now: Stamp): Account {
    if entries == [] then a
    else Charge(ChargeAll(a, entries[..|entries| - 1], now), entries[|entries| - 1], now)
  }

  function TallyAll(entries: seq<Bytes>): Tally {
    if entries == [] then Untouched
    else TallyAll(entries[..|entries| - 1]).Plus(Touched(entries[|entries| - 1], false))
  }

  /** Charging a row entry by entry depends only on the sum and on whether there are several. */
  lemma {:induction false} ChargeAllIsCharged(a: Account, entries: seq<Bytes>, now: Stamp)
    ensures ChargeAll(a, entries, now) == Charged(a, TallyAll(entries), now)
    ensures TallyAll(entries).Touched? <==> entries != []
    ensures TallyAll(entries).Touched? ==> (TallyAll(entries).several <==> |entries| > 1)
  {
    if entries != [] {
      var most, last := entries[..|entries| - 1], entries[|entries| - 1];
      ChargeAllIsCharged(a, most, now);
      ChargeIsCharged(ChargeAll(a, most, now), last, now);
      ChargedComposes(a, TallyAll(most), Touched(last, false), now);
    }
  }

  /** The quota flag after a flush, exactly. It is up to date except in one case: the row was
      flagged, was reset by this flush, and was touched by a single entry. */
  lemma FlagAfterFlush(a: Account, entries: seq<Bytes>, now: Stamp)
    requires entries != []
    ensures var after := ChargeAll(a, entries, now);
            && (!ShouldReset(a, now) ==> (after.exceeded <==> a.exceeded || Over(a, after.used)))
            && (ShouldReset(a, now) && !a.exceeded ==> (after.exceeded <==> Over(a, after.used)))
            && (ShouldReset(a, now) && a.exceeded ==> (after.exceeded <==> Over(a, after.used) && |entries| > 1))
  {
    ChargeAllIsCharged(a, entries, now);
  }

  function UsedUp(last: Stamp): Account {
    Account(Bytes(1073741824, 0), "daily", Some(last), Some(1.0), true)
  }

  /** The stale test bites: a row that used up its quota of 1 GB yesterday, and whose first entry of
      the new day uses it up again, is left unflagged. */
  lemma StaleFlagExample(last: Stamp, now: Stamp)
    requires After(now.date, last.date)
    ensures var after := Charge(UsedUp(last), Bytes(1073741824, 0), now);
            Over(UsedUp(last), after.used) && !after.exceeded
  {
    OneGb();
  }

  lemma OneGb()
    ensures GbToBytes(1.0) == 1073741824
  {
  }

  // ----- Sums over maps -----------------------------------------------------------------

  ghost function Sum<K>(m: map<K, Bytes>): Bytes {
    if m == map[] then Zero()
    else
      var k :| k in m;
      m[k].Plus(Sum(m - {k}))
  }

  lemma {:induction false} SumRemove<K>(m: map<K, Bytes>, k: K)
    requires k in m
    ensures Sum(m) == m[k].Plus(Sum(m - {k}))
    decreases |m|
  {
    var j :| j in m && Sum(m) == m[j].Plus(Sum(m - {j}));
    if j != k {
      assert (m - {j}) - {k} == (m - {k}) - {j};
      SumRemove(m - {j}, k);
      SumRemove(m - {k}, j);
      var rest := Sum((m - {j}) - {k});
      assert Sum(m - {j}) == m[k].Plus(rest);
      assert Sum(m - {k}) == m[j].Plus(rest);
      assert m[j].Plus(m[k].Plus(rest)) == m[k].Plus(m[j].Plus(rest));
    }
  }

  lemma SumInsert<K>(m: map<K, Bytes>, k: K, b: Bytes)
    requires k !in m
    ensures Sum(m[k := b]) == Sum(m).Plus(b)
  {
    SumRemove(m[k := b], k);
    assert m[k := b] - {k} == m;
  }

  lemma SumIncrease<K>(m: map<K, Bytes>, k: K, b: Bytes)
    ensures Sum(m[k := (if k in m then m[k] else Zero()).Plus(b)]) == Sum(m).Plus(b)
  {
    if k in m {
      var bumped := m[k := m[k].Plus(b)];
      SumRemove(m, k);
      SumRemove(bumped, k);
      assert bumped - {k} == m - {k};
    } else {
      SumInsert(m, k, b);
    }
  }

  // ----- Which rows an entry reaches ----------------------------------------------------

  datatype Target = OfProxy(proxy: int) | OfClient(client: int) | OfUser(user: int) | OfNode(node: int)

  /** The direct owner of the proxy, else the owner of the client the entry names. */
  function OwnerOf(db: Database, k: Key): Option<int>
    requires k.proxy in db.proxies
  {
    var direct := db.proxies[k.proxy].owner;
    if direct.Some? then direct
    else if k.client in db.clients then db.clients[k.client].owner else None
  }

  /** Entries of a deleted proxy reach nothing. */
  predicate Reaches(db: Database, k: Key, t: Target) {
    k.proxy in db.proxies &&
    match t
    case OfProxy(p) => k.proxy == p
    case OfClient(c) => k.client == c
    case OfUser(u) => OwnerOf(db, k) == Some(u)
    case OfNode(n) => db.proxies[k.proxy].node == Some(n)
  }

  function EntryTally(db: Database, k: Key, b: Bytes, t: Target): Tally {
    if !b.IsZero() && Reaches(db, k, t) then Touched(b, false) else Untouched
  }

  /** The sum of one tally per entry. */
  ghost function Fold(m: map<Key, Bytes>, g: (Key, Bytes) -> Tally): Tally {
    if m == map[] then Untouched
    else
      var k :| k in m;
      g(k, m[k]).Plus(Fold(m - {k}, g))
  }

  lemma PlusCommutes(s: Tally, t: Tally, rest: Tally)
    ensures s.Plus(t.Plus(rest)) == t.Plus(s.Plus(rest))
    ensures s.Plus(t) == t.Plus(s)
  {
  }

  lemma {:induction false} FoldRemove(m: map<Key, Bytes>, g: (Key, Bytes) -> Tally, k: Key)
    requires k in m
    ensures Fold(m, g) == g(k, m[k]).Plus(Fold(m - {k}, g))
    decreases |m|
  {
    var j :| j in m && Fold(m, g) == g(j, m[j]).Plus(Fold(m - {j}, g));
    if j != k {
      assert (m - {j}) - {k} == (m - {k}) - {j};
      var rest := Fold((m - {j}) - {k}, g);
      FoldRemove(m - {j}, g, k);
      FoldRemove(m - {k}, g, j);
      PlusCommutes(g(j, m[j]), g(k, m[k]), rest);
    }
  }

  lemma FoldInsert(m: map<Key, Bytes>, g: (Key, Bytes) -> Tally, k: Key, b: Bytes)
    requires k !in m
    ensures Fold(m[k := b], g) == Fold(m, g).Plus(g(k, b))
  {
    FoldRemove(m[k := b], g, k);
    assert m[k := b] - {k} == m;
    PlusCommutes(g(k, b), Fold(m, g), Untouched);
  }

  function EntriesFor(db: Database, t: Target): (Key, Bytes) -> Tally {
    (k, b) => EntryTally(db, k, b, t)
  }

  /** What a buffer brings to one row. */
  ghost function TallyOf(db: Database, m: map<Key, Bytes>, t: Target): Tally {
    Fold(m, EntriesFor(db, t))
  }

  // ----- All tables at once -------------------------------------------------------------

  ghost function Both(f: Target -> Tally, g: Target -> Tally): Target -> Tally {
    t => f(t).Plus(g(t))
  }

  /** The proxy total grows by the bytes, and so does today's daily row, which is inserted if absent. */
  function ProxyAfter(row: ProxyRow, t: Tally, today: Date): ProxyRow {
    match t
    case Untouched => row
    case Touched(bytes, _) =>
      var day := if today in row.days then row.days[today].Plus(bytes) else bytes;
      row.(used := row.used.Plus(bytes), days := row.days[today := day])
  }

  lemma ProxyComposes(row: ProxyRow, s: Tally, t: Tally, today: Date)
    ensures ProxyAfter(ProxyAfter(row, s, today), t, today) == ProxyAfter(row, s.Plus(t), today)
  {
  }

  ghost function MapRows<V>(rows: map<int, V>, g: (int, V) -> V): map<int, V> {
    map k | k in rows :: g(k, rows[k])
  }

  lemma MapRowsCompose<V(!new)>(rows: map<int, V>, g: (int, V) -> V, h: (int, V) -> V, gh: (int, V) -> V)
    requires forall k, v :: h(k, g(k, v)) == gh(k, v)
    ensures MapRows(MapRows(rows, g), h) == MapRows(rows, gh)
  {
    var twice, once := MapRows(MapRows(rows, g), h), MapRows(rows, gh);
    forall k | k in rows ensures twice[k] == once[k] {
      assert h(k, g(k, rows[k])) == gh(k, rows[k]);
    }
    assert twice.Keys == once.Keys;
  }

  lemma MapRowsCongruence<V(!new)>(rows: map<int, V>, g: (int, V) -> V, h: (int, V) -> V)
    requires forall k, v :: g(k, v) == h(k, v)
    ensures MapRows(rows, g) == MapRows(rows, h)
  {
    forall k | k in rows ensures g(k, rows[k]) == h(k, rows[k]) {
    }
    assert MapRows(rows, g).Keys == MapRows(rows, h).Keys;
  }

  ghost function ProxyStep(f: Target -> Tally, today: Date): (int, ProxyRow) -> ProxyRow {
    (p, row) => ProxyAfter(row, f(OfProxy(p)), today)
  }

  ghost function ClientStep(f: Target -> Tally, now: Stamp): (int, ClientRow) -> ClientRow {
    (c: int, row: ClientRow) => row.(account := Charged(row.account, f(OfClient(c)), now))
  }

  ghost function UserStep(f: Target -> Tally, now: Stamp): (int, Account) -> Account {
    (u, row) => Charged(row, f(OfUser(u)), now)
  }

  ghost function NodeStep(f: Target -> Tally, now: Stamp): (int, Account) -> Account {
    (n, row) => Charged(row, f(OfNode(n)), now)
  }

  /** Every table after each row has received its tally. */
  ghost function Settle(db: Database, f: Target -> Tally, now: Stamp): Database {
    Database(MapRows(db.proxies, ProxyStep(f, now.date)), MapRows(db.clients, ClientStep(f, now)),
             MapRows(db.users, UserStep(f, now)), MapRows(db.nodes, NodeStep(f, now)))
  }

  lemma SettleComposes(db: Database, f: Target -> Tally, g: Target -> Tally, now: Stamp)
    ensures Settle(Settle(db, f, now), g, now) == Settle(db, Both(f, g), now)
  {
    var fg := Both(f, g);
    forall p, row ensures ProxyStep(g, now.date)(p, ProxyStep(f, now.date)(p, row)) == ProxyStep(fg, now.date)(p, row) {
      ProxyComposes(row, f(OfProxy(p)), g(OfProxy(p)), now.date);
    }
    MapRowsCompose(db.proxies, ProxyStep(f, now.date), ProxyStep(g, now.date), ProxyStep(fg, now.date));
    forall c, row ensures ClientStep(g, now)(c, ClientStep(f, now)(c, row)) == ClientStep(fg, now)(c, row) {
      ChargedComposes(row.account, f(OfClient(c)), g(OfClient(c)), now);
    }
    MapRowsCompose(db.clients, ClientStep(f, now), ClientStep(g, now), ClientStep(fg, now));
    forall u, row ensures UserStep(g, now)(u, UserStep(f, now)(u, row)) == UserStep(fg, now)(u, row) {
      ChargedComposes(row, f(OfUser(u)), g(OfUser(u)), now);
    }
    MapRowsCompose(db.users, UserStep(f, now), UserStep(g, now), UserStep(fg, now));
    forall n, row ensures NodeStep(g, now)(n, NodeStep(f, now)(n, row)) == NodeStep(fg, now)(n, row) {
      ChargedComposes(row, f(OfNode(n)), g(OfNode(n)), now);
    }
    MapRowsCompose(db.nodes, NodeStep(f, now), NodeStep(g, now), NodeStep(fg, now));
  }

  lemma SettleCongruence(db: Database, f: Target -> Tally, g: Target -> Tally, now: Stamp)
    requires forall t :: f(t) == g(t)
    ensures Settle(db, f, now) == Settle(db, g, now)
  {
    MapRowsCongruence(db.proxies, ProxyStep(f, now.date), ProxyStep(g, now.date));
    MapRowsCongruence(db.clients, ClientStep(f, now), ClientStep(g, now));
    MapRowsCongruence(db.users, UserStep(f, now), UserStep(g, now));
    MapRowsCongruence(db.nodes, NodeStep(f, now), NodeStep(g, now));
  }

  /** Flushing changes no column that decides where an entry goes. */
  lemma SettleKeepsNode(db: Database, f: Target -> Tally, now: Stamp, p: int)
    ensures p in Settle(db, f, now).proxies <==> p in db.proxies
    ensures p in db.proxies ==> Settle(db, f, now).proxies[p].node == db.proxies[p].node
    ensures p in db.proxies ==> Settle(db, f, now).proxies[p].owner == db.proxies[p].owner
  {
    if p in db.proxies {
      assert Settle(db, f, now).proxies[p] == ProxyAfter(db.proxies[p], f(OfProxy(p)), now.date);
    }
  }

  lemma SettleKeepsRoutes(db: Database, f: Target -> Tally, now: Stamp, k: Key, t: Target)
    ensures Reaches(Settle(db, f, now), k, t) == Reaches(db, k, t)
  {
    var after := Settle(db, f, now);
    SettleKeepsNode(db, f, now, k.proxy);
    assert k.client in after.clients <==> k.client in db.clients;
    if k.client in db.clients {
      assert after.clients[k.client] == ClientStep(f, now)(k.client, db.clients[k.client]);
      assert after.clients[k.client].owner == db.clients[k.client].owner;
    }
  }

  // ----- The buffer and its flush -------------------------------------------------------

  /** Nodes see their entries as one sum, so they are charged once per flush. */
  function Once(t: Tally): Tally { if t.Touched? then t.(several := false) else t }

  ghost function TallyFn(db: Database, m: map<Key, Bytes>): Target -> Tally {
    t => TallyOf(db, m, t)
  }

  /** Nodes receive their tally at the end of the flush, so those in `charged` have it and the rest do not. */
  ghost function Part(f: Target -> Tally, charged: set<int>): Target -> Tally {
    (t: Target) => if t.OfNode? then (if t.node in charged then Once(f(t)) else Untouched) else f(t)
  }

  ghost function NodesOnce(f: Target -> Tally): Target -> Tally {
    (t: Target) => if t.OfNode? then Once(f(t)) else f(t)
  }

  /** The tables after a flush, told without any drain order. */
  ghost function Flushed(db: Database, m: map<Key, Bytes>, now: Stamp): Database {
    Settle(db, NodesOnce(TallyFn(db, m)), now)
  }

  ghost function EntryFn(db: Database, k: Key, b: Bytes): Target -> Tally {
    t => EntryTally(db, k, b, t)
  }

  /** Steps 1 to 4 of the flush for one entry: every row it reaches except its node. */
  ghost function EntryRows(db: Database, k: Key, b: Bytes): Target -> Tally {
    Part(EntryFn(db, k, b), {})
  }

  ghost function OnlyNode(n: int, b: Bytes): Target -> Tally {
    t => if t == OfNode(n) then Touched(b, false) else Untouched
  }

  /** `traffic` holds the per-node sums. */
  ghost predicate NodeSums(traffic: map<int, Bytes>, f: Target -> Tally) {
    forall n :: var t := f(OfNode(n));
      && (n in traffic <==> t.Touched?)
      && (n in traffic ==> traffic[n] == t.bytes)
  }

  /** An entry adds itself to the tally of every row it reaches. */
  lemma TallyInsert(db: Database, m: map<Key, Bytes>, k: Key, b: Bytes, t: Target)
    requires k !in m
    ensures TallyFn(db, m[k := b])(t) == TallyFn(db, m)(t).Plus(EntryTally(db, k, b, t))
  {
    FoldInsert(m, EntriesFor(db, t), k, b);
  }

  /** One more entry of the drain extends the settled part by that entry. */
  lemma DrainStep(db: Database, done: map<Key, Bytes>, k: Key, b: Bytes, now: Stamp)
    requires k !in done
    ensures var part := Settle(db, Part(TallyFn(db, done), {}), now);
            && Settle(part, EntryRows(part, k, b), now) == Settle(db, Part(TallyFn(db, done[k := b]), {}), now)
            && NodeOf(part, k, b) == NodeOf(db, k, b)
  {
    SettleKeepsNode(db, Part(TallyFn(db, done), {}), now, k.proxy);
    var f := Part(TallyFn(db, done), {});
    var part := Settle(db, f, now);
    SameEntry(db, f, now, k, b);
    SettleCongruence(part, EntryRows(part, k, b), EntryRows(db, k, b), now);
    SettleComposes(db, f, EntryRows(db, k, b), now);
    DrainTally(db, done, k, b);
    SettleCongruence(db, Both(f, EntryRows(db, k, b)), Part(TallyFn(db, done[k := b]), {}), now);
  }

  lemma DrainTally(db: Database, done: map<Key, Bytes>, k: Key, b: Bytes)
    requires k !in done
    ensures forall t ::
        Both(Part(TallyFn(db, done), {}), EntryRows(db, k, b))(t) == Part(TallyFn(db, done[k := b]), {})(t)
  {
    forall t ensures TallyFn(db, done[k := b])(t) == TallyFn(db, done)(t).Plus(EntryFn(db, k, b)(t)) {
      TallyInsert(db, done, k, b, t);
    }
    PartDistributes(TallyFn(db, done), EntryFn(db, k, b), TallyFn(db, done[k := b]));
  }

  lemma PartDistributes(f: Target -> Tally, e: Target -> Tally, fe: Target -> Tally)
    requires forall t :: fe(t) == f(t).Plus(e(t))
    ensures forall t :: Both(Part(f, {}), Part(e, {}))(t) == Part(fe, {})(t)
  {
    forall t ensures Both(Part(f, {}), Part(e, {}))(t) == Part(fe, {})(t) {
      assert Both(Part(f, {}), Part(e, {}))(t) == Part(f, {})(t).Plus(Part(e, {})(t));
      assert fe(t) == f(t).Plus(e(t));
    }
  }

  /** One more node charged with its sum. */
  lemma NodeStepSettles(db: Database, f: Target -> Tally, charged: set<int>, n: int, now: Stamp)
    requires n !in charged && f(OfNode(n)).Touched?
    ensures Settle(Settle(db, Part(f, charged), now), OnlyNode(n, f(OfNode(n)).bytes), now)
         == Settle(db, Part(f, charged + {n}), now)
  {
    var g := OnlyNode(n, f(OfNode(n)).bytes);
    SettleComposes(db, Part(f, charged), g, now);
    PartGrows(f, charged, n);
    SettleCongruence(db, Both(Part(f, charged), g), Part(f, charged + {n}), now);
  }

  lemma PartGrows(f: Target -> Tally, charged: set<int>, n: int)
    requires n !in charged && f(OfNode(n)).Touched?
    ensures forall t :: Both(Part(f, charged), OnlyNode(n, f(OfNode(n)).bytes))(t) == Part(f, charged + {n})(t)
  {
    forall t ensures Both(Part(f, charged), OnlyNode(n, f(OfNode(n)).bytes))(t) == Part(f, charged + {n})(t) {
      assert OnlyNode(n, f(OfNode(n)).bytes)(t) == if t == OfNode(n) then Once(f(t)) else Untouched;
    }
  }

  lemma MapRowsOne<V(!new)>(rows: map<int, V>, g: (int, V) -> V, k: int)
    requires forall j, v :: j != k ==> g(j, v) == v
    ensures MapRows(rows, g) == if k in rows then rows[k := g(k, rows[k])] else rows
  {
  }

  /** Tables change only in the rows that a tally reaches. */
  lemma SettleOne(db: Database, f: Target -> Tally, now: Stamp, p: int, c: int, u: int, n: int)
    requires forall t :: t !in [OfProxy(p), OfClient(c), OfUser(u), OfNode(n)] ==> f(t) == Untouched
    ensures var after := Settle(db, f, now);
      && after.proxies == (if p in db.proxies then db.proxies[p := ProxyAfter(db.proxies[p], f(OfProxy(p)), now.date)]
        else db.proxies)
      && after.clients == (if c in db.clients then db.clients[c := ClientStep(f, now)(c, db.clients[c])]
        else db.clients)
      && after.users == (if u in db.users then db.users[u := Charged(db.users[u], f(OfUser(u)), now)] else db.users)
      && after.nodes == (if n in db.nodes then db.nodes[n := Charged(db.nodes[n], f(OfNode(n)), now)] else db.nodes)
  {
    forall j, v | j != p ensures ProxyStep(f, now.date)(j, v) == v {
      assert f(OfProxy(j)) == Untouched;
    }
    MapRowsOne(db.proxies, ProxyStep(f, now.date), p);
    forall j, v | j != c ensures ClientStep(f, now)(j, v) == v {
      assert f(OfClient(j)) == Untouched;
    }
    MapRowsOne(db.clients, ClientStep(f, now), c);
    forall j, v | j != u ensures UserStep(f, now)(j, v) == v {
      assert f(OfUser(j)) == Untouched;
    }
    MapRowsOne(db.users, UserStep(f, now), u);
    forall j, v | j != n ensures NodeStep(f, now)(j, v) == v {
      assert f(OfNode(j)) == Untouched;
    }
    MapRowsOne(db.nodes, NodeStep(f, now), n);
  }

  lemma SettleNothing(db: Database, f: Target -> Tally, now: Stamp)
    requires forall t :: f(t) == Untouched
    ensures Settle(db, f, now) == db
  {
    SettleOne(db, f, now, 0, 0, 0, 0);
    if 0 in db.clients {
      assert ClientStep(f, now)(0, db.clients[0]) == db.clients[0];
    }
  }

  /** What one entry does to the four tables. */
  lemma EntrySettles(db: Database, k: Key, b: Bytes, now: Stamp)
    requires !b.IsZero() && k.proxy in db.proxies
    ensures var after := Settle(db, EntryRows(db, k, b), now);
      && after.proxies == db.proxies[k.proxy := ProxyAfter(db.proxies[k.proxy], Touched(b, false), now.date)]
      && after.clients == (if k.client in db.clients then
           var row := db.clients[k.client];
           db.clients[k.client := row.(account := Charge(row.account, b, now))] else db.clients)
      && after.users == (if OwnerOf(db, k).Some? && OwnerOf(db, k).value in db.users then
           var u := OwnerOf(db, k).value;
           db.users[u := Charge(db.users[u], b, now)] else db.users)
      && after.nodes == db.nodes
  {
    var f := EntryRows(db, k, b);
    var owner := OwnerOf(db, k);
    assert f(OfProxy(k.proxy)) == Touched(b, false) && f(OfClient(k.client)) == Touched(b, false);
    assert f(OfUser(owner.GetOr(0))) == if owner.Some? then Touched(b, false) else Untouched;
    SettleEntry(db, f, k, owner, b, now);
  }

  lemma SettleEntry(db: Database, f: Target -> Tally, k: Key, owner: Option<int>, b: Bytes, now: Stamp)
    requires f(OfProxy(k.proxy)) == f(OfClient(k.client)) == Touched(b, false) && k.proxy in db.proxies
    requires f(OfUser(owner.GetOr(0))) == if owner.Some? then Touched(b, false) else Untouched
    requires forall t :: t !in [OfProxy(k.proxy), OfClient(k.client), OfUser(owner.GetOr(0))] ==> f(t) == Untouched
    ensures var after := Settle(db, f, now);
      && after.proxies == db.proxies[k.proxy := ProxyAfter(db.proxies[k.proxy], Touched(b, false), now.date)]
      && after.clients == (if k.client in db.clients then
           var row := db.clients[k.client];
           db.clients[k.client := row.(account := Charge(row.account, b, now))] else db.clients)
      && after.users == (if owner.Some? && owner.value in db.users then
           db.users[owner.value := Charge(db.users[owner.value], b, now)] else db.users)
      && after.nodes == db.nodes
  {
    SettleOne(db, f, now, k.proxy, k.client, owner.GetOr(0), 0);
    if k.client in db.clients {
      var row := db.clients[k.client];
      ChargeIsCharged(row.account, b, now);
      assert ClientStep(f, now)(k.client, row) == row.(account := Charged(row.account, Touched(b, false), now));
    }
    if owner.GetOr(0) in db.users {
      ChargeIsCharged(db.users[owner.GetOr(0)], b, now);
    }
  }

  lemma NodeSettles(db: Database, n: int, b: Bytes, now: Stamp)
    ensures Settle(db, OnlyNode(n, b), now)
         == db.(nodes := if n in db.nodes then db.nodes[n := Charge(db.nodes[n], b, now)] else db.nodes)
  {
    var f := OnlyNode(n, b);
    SettleOne(db, f, now, 0, 0, 0, n);
    if 0 in db.clients {
      assert ClientStep(f, now)(0, db.clients[0]) == db.clients[0] by {
        assert f(OfClient(0)) == Untouched;
      }
    }
    if n in db.nodes {
      ChargeIsCharged(db.nodes[n], b, now);
    }
  }

  /** The node an entry counts for, if any. */
  function NodeOf(db: Database, k: Key, b: Bytes): Option<int> {
    if b.IsZero() || k.proxy !in db.proxies then None else db.proxies[k.proxy].node
  }

  /** The per-node sums after one entry. */
  function TrafficAfter(traffic: map<int, Bytes>, node: Option<int>, b: Bytes): map<int, Bytes> {
    match node
    case None => traffic
    case Some(n) => traffic[n := if n in traffic then traffic[n].Plus(b) else b]
  }

  lemma NodeSumsStep(traffic: map<int, Bytes>, db: Database, done: map<Key, Bytes>, k: Key, b: Bytes)
    requires k !in done && NodeSums(traffic, TallyFn(db, done))
    ensures NodeSums(TrafficAfter(traffic, NodeOf(db, k, b), b), TallyFn(db, done[k := b]))
  {
    var node := NodeOf(db, k, b);
    forall n ensures TallyFn(db, done[k := b])(OfNode(n))
                  == TallyFn(db, done)(OfNode(n)).Plus(if node == Some(n) then Touched(b, false) else Untouched) {
      TallyInsert(db, done, k, b, OfNode(n));
    }
    SumsGrow(traffic, TallyFn(db, done), TallyFn(db, done[k := b]), node, b);
  }

  lemma SumsGrow(traffic: map<int, Bytes>, f: Target -> Tally, g: Target -> Tally, node: Option<int>, b: Bytes)
    requires NodeSums(traffic, f)
    requires forall n :: g(OfNode(n)) == f(OfNode(n)).Plus(if node == Some(n) then Touched(b, false) else Untouched)
    ensures NodeSums(TrafficAfter(traffic, node, b), g)
  {
  }

  lemma DrainStart(db: Database, now: Stamp)
    ensures Settle(db, Part(TallyFn(db, map[]), {}), now) == db
    ensures NodeSums(map[], TallyFn(db, map[]))
  {
    SettleNothing(db, Part(TallyFn(db, map[]), {}), now);
  }

  lemma AllCharged(traffic: map<int, Bytes>, f: Target -> Tally)
    requires NodeSums(traffic, f)
    ensures forall t :: Part(f, traffic.Keys)(t) == NodesOnce(f)(t)
  {
  }

  /** The tables when the nodes in `charged` have received their sums. */
  ghost function NodeStage(db: Database, f: Target -> Tally, now: Stamp): set<int> -> Database {
    charged => Settle(db, Part(f, charged), now)
  }

  lemma NodeStageLaw(db: Database, f: Target -> Tally, traffic: map<int, Bytes>, now: Stamp)
    requires NodeSums(traffic, f)
    ensures forall charged, n | n in traffic && n !in charged ::
      WithNode(NodeStage(db, f, now)(charged), n, traffic[n], now) == NodeStage(db, f, now)(charged + {n})
    ensures NodeStage(db, f, now)(traffic.Keys) == Settle(db, NodesOnce(f), now)
  {
    forall charged, n | n in traffic && n !in charged
      ensures WithNode(NodeStage(db, f, now)(charged), n, traffic[n], now) == NodeStage(db, f, now)(charged + {n})
    {
      assert f(OfNode(n)).Touched? && traffic[n] == f(OfNode(n)).bytes;
      NodeStepSettles(db, f, charged, n, now);
      NodeSettles(Settle(db, Part(f, charged), now), n, traffic[n], now);
    }
    AllCharged(traffic, f);
    SettleCongruence(db, Part(f, traffic.Keys), NodesOnce(f), now);
  }

  function WithNode(db: Database, n: int, b: Bytes, now: Stamp): Database {
    if n in db.nodes then db.(nodes := db.nodes[n := Charge(db.nodes[n], b, now)]) else db
  }

  class TrafficManager {
    var buffer: map<Key, Bytes>
    var rows: Database

    /** One event enters the buffer; a buffer of more than 1000 keys is flushed at once. */
    method Receive(e: Event, now: Stamp)
      modifies this
      ensures var grown := Accumulate(old(buffer), e);
              if |grown| > 1000 then buffer == map[] && rows == Flushed(old(rows), grown, now)
              else buffer == grown && rows == old(rows)
    {
      buffer := Accumulate(buffer, e);
      if |buffer| > 1000 {
        FlushBuffer(now);
      }
    }

    /** Drains the buffer in an arbitrary order, then charges the nodes in an arbitrary order. */
    method FlushBuffer(now: Stamp)
      modifies this
      ensures buffer == map[]
      ensures rows == Flushed(old(rows), old(buffer), now)
    {
      ghost var db, f := rows, TallyFn(rows, buffer);
      var traffic := DrainEntries(now);
      NodeStageLaw(db, f, traffic, now);
      ChargeNodes(traffic, now, NodeStage(db, f, now));
    }

    /** The drain loop; it returns the per-node sums. */
    method DrainEntries(now: Stamp) returns (traffic: map<int, Bytes>)
      modifies this
      ensures buffer == map[]
      ensures rows == Settle(old(rows), Part(TallyFn(old(rows), old(buffer)), {}), now)
      ensures NodeSums(traffic, TallyFn(old(rows), old(buffer)))
    {
      ghost var db := rows;
      ghost var done: map<Key, Bytes> := map[];
      var drained, rest := buffer, buffer.Keys;
      buffer := map[];
      traffic := map[];
      DrainStart(db, now);
      while rest != {}
        invariant buffer == map[]
        invariant rest <= drained.Keys && done == drained - rest
        invariant rows == Settle(db, Part(TallyFn(db, done), {}), now)
        invariant NodeSums(traffic, TallyFn(db, done))
      {
        var k := Any(rest);
        var b := drained[k];
        DrainStep(db, done, k, b, now);
        NodeSumsStep(traffic, db, done, k, b);
        traffic := FlushEntry(k, b, now, traffic);
        done := done[k := b];
        rest := rest - {k};
      }
      assert done == drained;
    }

    method ChargeNodes(traffic: map<int, Bytes>, now: Stamp, ghost stage: set<int> -> Database)
      requires rows == stage({})
      requires forall charged, n | n in traffic && n !in charged ::
        WithNode(stage(charged), n, traffic[n], now) == stage(charged + {n})
      modifies this`rows
      ensures rows == stage(traffic.Keys)
    {
      var pending := traffic.Keys;
      assert traffic.Keys - pending == {};
      while pending != {}
        invariant pending <= traffic.Keys
        invariant rows == stage(traffic.Keys - pending)
      {
        var n := Any(pending);
        if n in rows.nodes {
          rows := rows.(nodes := rows.nodes[n := Charge(rows.nodes[n], traffic[n], now)]);
        }
        assert traffic.Keys - (pending - {n}) == (traffic.Keys - pending) + {n};
        pending := pending - {n};
      }
      assert traffic.Keys - pending == traffic.Keys;
    }

    /** Steps 1 to 4 of the flush, for one entry of the buffer. */
    method FlushEntry(k: Key, b: Bytes, now: Stamp, traffic: map<int, Bytes>) returns (grown: map<int, Bytes>)
      modifies this`rows
      ensures rows == Settle(old(rows), EntryRows(old(rows), k, b), now)
      ensures grown == TrafficAfter(traffic, NodeOf(old(rows), k, b), b)
    {
      grown := traffic;
      if b.IsZero() || k.proxy !in rows.proxies {
        SettleNothing(rows, EntryRows(rows, k, b), now);
        return;
      }
      ghost var db := rows;
      var proxy := rows.proxies[k.proxy];
      if proxy.node.Some? {
        var n := proxy.node.value;
        grown := traffic[n := if n in traffic then traffic[n].Plus(b) else b];
      }
      var counted := proxy.(used := proxy.used.Plus(b));
      rows := rows.(proxies := rows.proxies[k.proxy := counted]);
      var client := if k.client in rows.clients then Some(rows.clients[k.client]) else None;
      var days := counted.days;
      days := days[now.date := if now.date in days then days[now.date].Plus(b) else b];
      rows := rows.(proxies := rows.proxies[k.proxy := counted.(days := days)]);
      var owner := if proxy.owner.Some? then proxy.owner else if client.Some? then client.value.owner else None;
      if client.Some? {
        rows := rows.(clients := rows.clients[k.client := client.value.(
          account := Charge(client.value.account, b, now))]);
      }
      if owner.Some? && owner.value in rows.users {
        rows := rows.(users := rows.users[owner.value := Charge(rows.users[owner.value], b, now)]);
      }
      assert rows.proxies == db.proxies[k.proxy := ProxyAfter(db.proxies[k.proxy], Touched(b, false), now.date)];
      EntrySettles(db, k, b, now);
    }
  }

  function Accumulate(m: map<Key, Bytes>, e: Event): map<Key, Bytes> {
    m[e.key := if e.key in m then m[e.key].Plus(e.bytes) else e.bytes]
  }

  /** The flag of one row after a flush: current, unless the row was flagged, reset, and touched by one entry. */
  ghost predicate FlagCurrent(before: Account, t: Tally, after: Account, now: Stamp) {
    if t.Untouched? then after == before
    else if ShouldReset(before, now) && before.exceeded && !t.several then !after.exceeded
    else after.exceeded <==> (before.exceeded && !ShouldReset(before, now)) || Over(before, after.used)
  }

  lemma FlagsAfterFlush(db: Database, m: map<Key, Bytes>, now: Stamp)
    ensures var after := Flushed(db, m, now);
      && (forall c | c in db.clients ::
        FlagCurrent(db.clients[c].account, TallyOf(db, m, OfClient(c)), after.clients[c].account, now))
      && (forall u | u in db.users :: FlagCurrent(db.users[u], TallyOf(db, m, OfUser(u)), after.users[u], now))
      && (forall n | n in db.nodes :: FlagCurrent(db.nodes[n], Once(TallyOf(db, m, OfNode(n))), after.nodes[n], now))
  {
    var f := NodesOnce(TallyFn(db, m));
    forall c | c in db.clients ensures f(OfClient(c)) == TallyOf(db, m, OfClient(c)) {
    }
    forall u | u in db.users ensures f(OfUser(u)) == TallyOf(db, m, OfUser(u)) {
    }
    forall n | n in db.nodes ensures f(OfNode(n)) == Once(TallyOf(db, m, OfNode(n))) {
    }
    FlagsSettled(db, f, now);
  }

  lemma FlagsSettled(db: Database, f: Target -> Tally, now: Stamp)
    ensures var after := Settle(db, f, now);
      && (forall c | c in db.clients ::
        FlagCurrent(db.clients[c].account, f(OfClient(c)), after.clients[c].account, now))
      && (forall u | u in db.users :: FlagCurrent(db.users[u], f(OfUser(u)), after.users[u], now))
      && (forall n | n in db.nodes :: FlagCurrent(db.nodes[n], f(OfNode(n)), after.nodes[n], now))
  {
  }

  // ----- One batch against one flush per event ------------------------------------------

  function Buffered(events: seq<Event>): map<Key, Bytes> {
    if events == [] then map[]
    else Accumulate(Buffered(events[..|events| - 1]), events[|events| - 1])
  }

  ghost function FlushEach(db: Database, events: seq<Event>, now: Stamp): Database {
    if events == [] then db
    else
      var last := events[|events| - 1];
      Flushed(FlushEach(db, events[..|events| - 1], now), map[last.key := last.bytes], now)
  }

  /** What the events, each flushed alone, bring to one row. */
  ghost function EventTally(db: Database, events: seq<Event>, t: Target): Tally {
    if events == [] then Untouched
    else
      var last := events[|events| - 1];
      EventTally(db, events[..|events| - 1], t).Plus(EntryTally(db, last.key, last.bytes, t))
  }

  ghost function EventFn(db: Database, events: seq<Event>): Target -> Tally {
    t => EventTally(db, events, t)
  }

  /** The same bytes, from no more entries. */
  ghost predicate Coarser(s: Tally, t: Tally) {
    (s.Untouched? <==> t.Untouched?) && (s.Touched? ==> s.bytes == t.bytes && (s.several ==> t.several))
  }

  lemma CoarserPlus(s: Tally, t: Tally, u: Tally, v: Tally)
    requires Coarser(s, t) && Coarser(u, v)
    ensures Coarser(s.Plus(u), t.Plus(v))
  {
  }

  lemma SameEntry(db: Database, f: Target -> Tally, now: Stamp, k: Key, b: Bytes)
    ensures forall t :: EntryFn(Settle(db, f, now), k, b)(t) == EntryFn(db, k, b)(t)
  {
    forall t ensures EntryTally(Settle(db, f, now), k, b, t) == EntryTally(db, k, b, t) {
      SettleKeepsRoutes(db, f, now, k, t);
    }
  }

  lemma {:induction false} FlushEachSettles(db: Database, events: seq<Event>, now: Stamp)
    ensures FlushEach(db, events, now) == Settle(db, EventFn(db, events), now)
  {
    if events == [] {
      SettleNothing(db, EventFn(db, events), now);
    } else {
      var most, e := events[..|events| - 1], events[|events| - 1];
      FlushEachSettles(db, most, now);
      var part := FlushEach(db, most, now);
      SingleFlush(part, e, now);
      SameEntry(db, EventFn(db, most), now, e.key, e.bytes);
      SettleCongruence(part, EntryFn(part, e.key, e.bytes), EntryFn(db, e.key, e.bytes), now);
      SettleComposes(db, EventFn(db, most), EntryFn(db, e.key, e.bytes), now);
      SettleCongruence(db, Both(EventFn(db, most), EntryFn(db, e.key, e.bytes)), EventFn(db, events), now);
    }
  }

  lemma SingleFlush(db: Database, e: Event, now: Stamp)
    ensures Flushed(db, map[e.key := e.bytes], now) == Settle(db, EntryFn(db, e.key, e.bytes), now)
  {
    var m := map[e.key := e.bytes];
    forall t ensures NodesOnce(TallyFn(db, m))(t) == EntryFn(db, e.key, e.bytes)(t) {
      var g := EntriesFor(db, t);
      FoldRemove(m, g, e.key);
      assert m - {e.key} == map[];
      PlusCommutes(g(e.key, m[e.key]), Untouched, Untouched);
      assert TallyFn(db, m)(t) == Fold(m, g) == g(e.key, e.bytes);
    }
    SettleCongruence(db, NodesOnce(TallyFn(db, m)), EntryFn(db, e.key, e.bytes), now);
  }

  /** Buffering merges events of one key; it changes no sum. */
  lemma {:induction false} BufferedTally(db: Database, events: seq<Event>, t: Target)
    ensures Coarser(TallyOf(db, Buffered(events), t), EventTally(db, events, t))
  {
    if events != [] {
      var most, e := events[..|events| - 1], events[|events| - 1];
      BufferedTally(db, most, t);
      AccumulateTally(db, Buffered(most), e, t);
      CoarserPlus(TallyOf(db, Buffered(most), t), EventTally(db, most, t),
                  EntryTally(db, e.key, e.bytes, t), EntryTally(db, e.key, e.bytes, t));
    }
  }

  lemma AccumulateTally(db: Database, m: map<Key, Bytes>, e: Event, t: Target)
    ensures Coarser(TallyOf(db, Accumulate(m, e), t), TallyOf(db, m, t).Plus(EntryTally(db, e.key, e.bytes, t)))
  {
    var g := EntriesFor(db, t);
    if e.key in m {
      var rest := m - {e.key};
      var both := m[e.key].Plus(e.bytes);
      FoldRemove(m, g, e.key);
      FoldInsert(rest, g, e.key, both);
      assert Accumulate(m, e) == rest[e.key := both];
      MergedEntry(db, e.key, m[e.key], e.bytes, t, Fold(rest, g));
    } else {
      FoldInsert(m, g, e.key, e.bytes);
    }
  }

  lemma MergedEntry(db: Database, k: Key, b: Bytes, c: Bytes, t: Target, rest: Tally)
    ensures Coarser(rest.Plus(EntryTally(db, k, b.Plus(c), t)),
                    EntryTally(db, k, b, t).Plus(rest).Plus(EntryTally(db, k, c, t)))
  {
    PlusCommutes(EntryTally(db, k, b, t), rest, Untouched);
    if b.IsZero() {
      assert b.Plus(c) == c;
    } else if c.IsZero() {
      assert b.Plus(c) == b;
    } else if Reaches(db, k, t) && rest.Touched? {
      assert rest.bytes.Plus(b.Plus(c)) == b.Plus(rest.bytes).Plus(c);
    }
  }

  predicate SameButFlag(a: Account, b: Account) {
    a.(exceeded := b.exceeded) == b
  }

  /** One entry or several make a difference only to a flag that was set before a reset. */
  lemma FlagGap(a: Account, s: Tally, t: Tally, now: Stamp)
    requires Coarser(s, t)
    ensures SameButFlag(Charged(a, s, now), Charged(a, t, now))
    ensures Charged(a, s, now).exceeded ==> Charged(a, t, now).exceeded
    ensures Charged(a, s, now).exceeded != Charged(a, t, now).exceeded <==>
      t.Touched? && !s.several && t.several && a.exceeded && ShouldReset(a, now) && Over(a, UsedAfter(a, t.bytes, now))
  {
  }

  /** A batch and a flush per event leave the same proxy and daily rows, and the same account rows up to flags. */
  lemma BatchAgreesWithSingles(db: Database, events: seq<Event>, now: Stamp)
    ensures var batch, singles := Flushed(db, Buffered(events), now), FlushEach(db, events, now);
      && batch.proxies == singles.proxies
      && batch.clients.Keys == singles.clients.Keys && batch.users.Keys == singles.users.Keys
        && batch.nodes.Keys == singles.nodes.Keys
      && (forall c | c in batch.clients :: batch.clients[c].owner == singles.clients[c].owner
                                        && SameButFlag(batch.clients[c].account, singles.clients[c].account))
      && (forall u | u in batch.users :: SameButFlag(batch.users[u], singles.users[u]))
      && (forall n | n in batch.nodes :: SameButFlag(batch.nodes[n], singles.nodes[n]))
  {
    var f, g := NodesOnce(TallyFn(db, Buffered(events))), EventFn(db, events);
    FlushEachSettles(db, events, now);
    forall t ensures Coarser(f(t), g(t)) {
      BufferedTally(db, events, t);
      assert TallyFn(db, Buffered(events))(t) == TallyOf(db, Buffered(events), t);
      assert g(t) == EventTally(db, events, t);
    }
    SettleCoarser(db, f, g, now);
  }

  ghost function Touching(m: map<Key, Bytes>, g: (Key, Bytes) -> Tally): set<Key> {
    set k | k in m && g(k, m[k]).Touched?
  }

  lemma {:induction false} FoldCounts(m: map<Key, Bytes>, g: (Key, Bytes) -> Tally)
    requires forall k | k in m :: g(k, m[k]).Touched? ==> !g(k, m[k]).several
    ensures Fold(m, g).Touched? <==> Touching(m, g) != {}
    ensures Fold(m, g).Touched? ==> (Fold(m, g).several <==> |Touching(m, g)| > 1)
    decreases |m|
  {
    if m != map[] {
      var k :| k in m;
      var rest := m - {k};
      FoldCounts(rest, g);
      FoldRemove(m, g, k);
      TouchingRemove(m, g, k);
      var before := Touching(rest, g);
      assert before != {} <==> |before| > 0;
    }
  }

  lemma TouchingRemove(m: map<Key, Bytes>, g: (Key, Bytes) -> Tally, k: Key)
    requires k in m
    ensures k !in Touching(m - {k}, g)
    ensures Touching(m, g) == if g(k, m[k]).Touched? then Touching(m - {k}, g) + {k} else Touching(m - {k}, g)
  {
  }

  /** The keys of a buffer that reach a row with bytes. */
  ghost function Reaching(db: Database, m: map<Key, Bytes>, t: Target): set<Key> {
    Touching(m, EntriesFor(db, t))
  }

  /** How many events reach a row with bytes. */
  ghost function Hits(db: Database, events: seq<Event>, t: Target): nat {
    if events == [] then 0
    else
      var last := events[|events| - 1];
      Hits(db, events[..|events| - 1], t) + if EntryTally(db, last.key, last.bytes, t).Touched? then 1 else 0
  }

  lemma {:induction false} TallyCountsEvents(db: Database, events: seq<Event>, t: Target)
    ensures EventTally(db, events, t).Touched? <==> Hits(db, events, t) > 0
    ensures EventTally(db, events, t).Touched? ==> (EventTally(db, events, t).several <==> Hits(db, events, t) > 1)
  {
    if events != [] {
      TallyCountsEvents(db, events[..|events| - 1], t);
    }
  }

  /** Flagged, due for a reset, over its quota again by the events alone, and reached by several events
      of which the batch makes one entry; a node gets one entry from any batch. */
  ghost predicate FlagLost(db: Database, events: seq<Event>, t: Target, a: Account, now: Stamp) {
    && a.exceeded && ShouldReset(a, now)
    && Hits(db, events, t) > 1 && (t.OfNode? || |Reaching(db, Buffered(events), t)| == 1)
    && Over(a, EventTally(db, events, t).GetBytes())
  }

  lemma RowFlags(db: Database, events: seq<Event>, t: Target, a: Account, now: Stamp)
    ensures var s, e := NodesOnce(TallyFn(db, Buffered(events)))(t), EventTally(db, events, t);
      && Coarser(s, e)
      && (Charged(a, s, now).exceeded != Charged(a, e, now).exceeded <==> FlagLost(db, events, t, a, now))
      && (Charged(a, s, now).exceeded ==> Charged(a, e, now).exceeded)
  {
    BufferedTally(db, events, t);
    FoldCounts(Buffered(events), EntriesFor(db, t));
    TallyCountsEvents(db, events, t);
    assert TallyFn(db, Buffered(events))(t) == TallyOf(db, Buffered(events), t);
    FlagGap(a, NodesOnce(TallyFn(db, Buffered(events)))(t), EventTally(db, events, t), now);
  }

  /** The flags of two databases differ exactly in the rows that `lost` names. */
  ghost predicate FlagsDifferBy(db: Database, batch: Database, singles: Database, lost: (Target, Account) -> bool) {
    && (forall c | c in db.clients :: c in batch.clients && c in singles.clients
          && (batch.clients[c].account.exceeded != singles.clients[c].account.exceeded <==>
            lost(OfClient(c), db.clients[c].account)))
    && (forall u | u in db.users :: u in batch.users && u in singles.users
          && (batch.users[u].exceeded != singles.users[u].exceeded <==> lost(OfUser(u), db.users[u])))
    && (forall n | n in db.nodes :: n in batch.nodes && n in singles.nodes
          && (batch.nodes[n].exceeded != singles.nodes[n].exceeded <==> lost(OfNode(n), db.nodes[n])))
  }

  lemma SettledRows(db: Database, f: Target -> Tally, now: Stamp)
    ensures var after := Settle(db, f, now);
      && (forall c | c in db.clients ::
        c in after.clients && after.clients[c].account == Charged(db.clients[c].account, f(OfClient(c)), now))
      && (forall u | u in db.users :: u in after.users && after.users[u] == Charged(db.users[u], f(OfUser(u)), now))
      && (forall n | n in db.nodes :: n in after.nodes && after.nodes[n] == Charged(db.nodes[n], f(OfNode(n)), now))
  {
    forall c | c in db.clients
      ensures Settle(db, f, now).clients[c].account == Charged(db.clients[c].account, f(OfClient(c)), now)
    {
      assert Settle(db, f, now).clients[c] == ClientStep(f, now)(c, db.clients[c]);
    }
  }

  lemma SettledFlags(db: Database, f: Target -> Tally, g: Target -> Tally, now: Stamp, lost: (Target, Account) -> bool)
    requires forall t, a :: lost(t, a) <==> Charged(a, f(t), now).exceeded != Charged(a, g(t), now).exceeded
    ensures FlagsDifferBy(db, Settle(db, f, now), Settle(db, g, now), lost)
  {
    SettledRows(db, f, now);
    SettledRows(db, g, now);
  }

  ghost function LostIn(db: Database, events: seq<Event>, now: Stamp): (Target, Account) -> bool {
    (t, a) => FlagLost(db, events, t, a, now)
  }

  /** The one difference between a batch and a flush per event, exactly: the flags lost in the batch. */
  lemma BatchFlagsExactly(db: Database, events: seq<Event>, now: Stamp)
    ensures FlagsDifferBy(db, Flushed(db, Buffered(events), now), FlushEach(db, events, now), LostIn(db, events, now))
  {
    var f, g, lost := NodesOnce(TallyFn(db, Buffered(events))), EventFn(db, events), LostIn(db, events, now);
    FlushEachSettles(db, events, now);
    forall t, a ensures lost(t, a) <==> Charged(a, f(t), now).exceeded != Charged(a, g(t), now).exceeded {
      RowFlags(db, events, t, a, now);
      assert lost(t, a) == FlagLost(db, events, t, a, now);
      assert g(t) == EventTally(db, events, t);
    }
    SettledFlags(db, f, g, now, lost);
  }

  /** Two events of one key that use up the quota of a row that is flagged and due for a reset. */
  lemma TwiceLosesFlag(db: Database, e: Event, t: Target, a: Account, now: Stamp)
    requires EntryTally(db, e.key, e.bytes, t).Touched?
    requires a.exceeded && ShouldReset(a, now) && Over(a, e.bytes.Plus(e.bytes))
    ensures FlagLost(db, [e, e], t, a, now)
  {
    TwiceOneKey(db, e, t);
  }

  /** For instance on a client that used up its quota of 1 GB yesterday: two reports of half a GB on
      one key flag it when flushed alone, and leave it unflagged in one batch. */
  lemma BatchLosesFlag(db: Database, last: Stamp, now: Stamp)
    requires After(now.date, last.date)
    requires 7 in db.proxies && 1 in db.clients && db.clients[1].account == UsedUp(last)
    ensures var e := Event(Key(7, 1, None), Bytes(536870912, 0));
            var batch, singles := Flushed(db, Buffered([e, e]), now), FlushEach(db, [e, e], now);
            1 in batch.clients && 1 in singles.clients
              && batch.clients[1].account.exceeded != singles.clients[1].account.exceeded
  {
    var e := Event(Key(7, 1, None), Bytes(536870912, 0));
    OneGb();
    TwiceLosesFlag(db, e, OfClient(1), UsedUp(last), now);
    BatchFlagsExactly(db, [e, e], now);
    assert LostIn(db, [e, e], now)(OfClient(1), UsedUp(last));
  }

  lemma TwiceOneKey(db: Database, e: Event, t: Target)
    requires EntryTally(db, e.key, e.bytes, t).Touched?
    ensures Hits(db, [e, e], t) == 2 && Reaching(db, Buffered([e, e]), t) == {e.key}
    ensures EventTally(db, [e, e], t) == Touched(e.bytes.Plus(e.bytes), true)
  {
    assert [e, e][..1] == [e] && [e][..0] == [];
    assert Buffered([e]) == map[e.key := e.bytes];
    assert Buffered([e, e]) == map[e.key := e.bytes.Plus(e.bytes)];
    assert Hits(db, [e], t) == 1;
    assert EventTally(db, [e], t) == EntryTally(db, e.key, e.bytes, t);
  }

  lemma SettleCoarser(db: Database, f: Target -> Tally, g: Target -> Tally, now: Stamp)
    requires forall t :: Coarser(f(t), g(t))
    ensures var batch, singles := Settle(db, f, now), Settle(db, g, now);
      && batch.proxies == singles.proxies
      && (forall c | c in db.clients :: batch.clients[c].owner == singles.clients[c].owner
                                     && SameButFlag(batch.clients[c].account, singles.clients[c].account))
      && (forall u | u in db.users :: SameButFlag(batch.users[u], singles.users[u]))
      && (forall n | n in db.nodes :: SameButFlag(batch.nodes[n], singles.nodes[n]))
  {
    forall p, row ensures ProxyStep(f, now.date)(p, row) == ProxyStep(g, now.date)(p, row) {
      assert Coarser(f(OfProxy(p)), g(OfProxy(p)));
    }
    MapRowsCongruence(db.proxies, ProxyStep(f, now.date), ProxyStep(g, now.date));
    forall c | c in db.clients
      ensures SameButFlag(ClientStep(f, now)(c, db.clients[c]).account, ClientStep(g, now)(c, db.clients[c]).account)
    {
      FlagGap(db.clients[c].account, f(OfClient(c)), g(OfClient(c)), now);
    }
    forall u | u in db.users ensures SameButFlag(UserStep(f, now)(u, db.users[u]), UserStep(g, now)(u, db.users[u])) {
      FlagGap(db.users[u], f(OfUser(u)), g(OfUser(u)), now);
    }
    forall n | n in db.nodes ensures SameButFlag(NodeStep(f, now)(n, db.nodes[n]), NodeStep(g, now)(n, db.nodes[n])) {
      FlagGap(db.nodes[n], f(OfNode(n)), g(OfNode(n)), now);
    }
  }

  // ----- Conservation over runs ---------------------------------------------------------

  /** The controller's state: the buffers of all traffic managers (each report of a node makes a new
      one), the tables, and the bytes reported, skipped and removed with their proxy so far. */
  datatype Books = Books(buffers: map<int, map<Key, Bytes>>, rows: Database, reported: Bytes, skipped: Bytes,
                         removed: Bytes) {
    function Buffer(manager: int): map<Key, Bytes> {
      if manager in buffers then buffers[manager] else map[]
    }
  }

  /** Flushes of different managers may come in any order, one after the other. */
  datatype Op =
    | Report(manager: int, event: Event, at: Stamp)
    | Tick(manager: int, at: Stamp)
    | AddProxy(proxy: int, node: Option<int>, owner: Option<int>)
    | DeleteProxy(proxy: int)

  ghost function UsedBy(proxies: map<int, ProxyRow>): map<int, Bytes> {
    map p | p in proxies :: proxies[p].used
  }

  ghost function ProxyTotal(db: Database): Bytes {
    Sum(UsedBy(db.proxies))
  }

  /** Entries whose proxy row is gone; the flush drops them. */
  ghost function Orphans(db: Database, m: map<Key, Bytes>): map<Key, Bytes> {
    map k | k in m && k.proxy !in db.proxies :: m[k]
  }

  ghost function FlushBooks(s: Books, manager: int, now: Stamp): Books {
    var m := s.Buffer(manager);
    s.(buffers := s.buffers[manager := map[]], rows := Flushed(s.rows, m, now),
      skipped := s.skipped.Plus(Sum(Orphans(s.rows, m))))
  }

  ghost function Record(s: Books, manager: int, e: Event): Books {
    s.(buffers := s.buffers[manager := Accumulate(s.Buffer(manager), e)], reported := s.reported.Plus(e.bytes))
  }

  ghost function Apply(s: Books, op: Op): Books {
    match op
    case Report(manager, e, now) =>
      var grown := Record(s, manager, e);
      if |grown.buffers[manager]| > 1000 then FlushBooks(grown, manager, now) else grown
    case Tick(manager, now) => FlushBooks(s, manager, now)
    case AddProxy(p, node, owner) =>
      if p in s.rows.proxies then s
      else s.(rows := s.rows.(proxies := s.rows.proxies[p := ProxyRow(node, owner, Zero(), map[])]))
    case DeleteProxy(p) =>
      if p !in s.rows.proxies then s
      else s.(rows := s.rows.(proxies := s.rows.proxies - {p}), removed := s.removed.Plus(s.rows.proxies[p].used))
  }

  ghost function Run(s: Books, ops: seq<Op>): Books {
    if ops == [] then s else Apply(Run(s, ops[..|ops| - 1]), ops[|ops| - 1])
  }

  ghost function Sums(buffers: map<int, map<Key, Bytes>>): map<int, Bytes> {
    map m | m in buffers :: Sum(buffers[m])
  }

  /** Everything that is accounted for somewhere. */
  ghost function Held(s: Books): Bytes {
    Sum(Sums(s.buffers)).Plus(ProxyTotal(s.rows)).Plus(s.skipped).Plus(s.removed)
  }

  /** The proxy rows after a flush of `m`; accounts play no part. */
  ghost function ProxiesFlushed(db: Database, m: map<Key, Bytes>, today: Date): map<int, ProxyRow> {
    MapRows(db.proxies, ProxyStep(TallyFn(db, m), today))
  }

  lemma ProxiesFlushedStep(db: Database, m: map<Key, Bytes>, k: Key, b: Bytes, today: Date)
    requires k !in m
    ensures var before, after := ProxiesFlushed(db, m, today), ProxiesFlushed(db, m[k := b], today);
            after == if k.proxy in db.proxies && !b.IsZero()
                     then before[k.proxy := ProxyAfter(before[k.proxy], Touched(b, false), today)] else before
  {
    var f, e, fe := TallyFn(db, m), EntryFn(db, k, b), TallyFn(db, m[k := b]);
    forall p, row ensures ProxyStep(e, today)(p, ProxyStep(f, today)(p, row)) == ProxyStep(fe, today)(p, row) {
      TallyInsert(db, m, k, b, OfProxy(p));
      ProxyComposes(row, f(OfProxy(p)), e(OfProxy(p)), today);
    }
    MapRowsCompose(db.proxies, ProxyStep(f, today), ProxyStep(e, today), ProxyStep(fe, today));
    var hit := k.proxy in db.proxies && !b.IsZero();
    assert e(OfProxy(k.proxy)) == if hit then Touched(b, false) else Untouched;
    forall j, v | j != k.proxy ensures ProxyStep(e, today)(j, v) == v {
      assert e(OfProxy(j)) == Untouched;
    }
    MapRowsOne(ProxiesFlushed(db, m, today), ProxyStep(e, today), k.proxy);
    if k.proxy in db.proxies && b.IsZero() {
      assert ProxiesFlushed(db, m, today)[k.proxy := ProxiesFlushed(db, m, today)[k.proxy]]
        == ProxiesFlushed(db, m, today);
    }
  }

  lemma FlushOfNothing(db: Database, today: Date)
    ensures ProxiesFlushed(db, map[], today) == db.proxies
  {
    var step := ProxyStep(TallyFn(db, map[]), today);
    forall p | p in db.proxies ensures step(p, db.proxies[p]) == db.proxies[p] {
      assert TallyFn(db, map[])(OfProxy(p)) == Untouched;
    }
    assert MapRows(db.proxies, step) == db.proxies;
  }

  lemma UsedUpdate(proxies: map<int, ProxyRow>, p: int, row: ProxyRow)
    ensures UsedBy(proxies[p := row]) == UsedBy(proxies)[p := row.used]
  {
  }

  lemma UsedStep(db: Database, m: map<Key, Bytes>, k: Key, b: Bytes, today: Date)
    requires k !in m && k.proxy in db.proxies
    ensures Sum(UsedBy(ProxiesFlushed(db, m[k := b], today))) == Sum(UsedBy(ProxiesFlushed(db, m, today))).Plus(b)
  {
    var before := ProxiesFlushed(db, m, today);
    ProxiesFlushedStep(db, m, k, b, today);
    if b.IsZero() {
      PlusZero(Sum(UsedBy(before)), b);
    } else {
      UsedUpdate(before, k.proxy, ProxyAfter(before[k.proxy], Touched(b, false), today));
      SumIncrease(UsedBy(before), k.proxy, b);
    }
  }

  lemma OrphansStep(db: Database, m: map<Key, Bytes>, k: Key, b: Bytes)
    requires k !in m
    ensures Sum(Orphans(db, m[k := b])) == if k.proxy in db.proxies then Sum(Orphans(db, m))
      else Sum(Orphans(db, m)).Plus(b)
  {
    if k.proxy in db.proxies {
      assert Orphans(db, m[k := b]) == Orphans(db, m);
    } else {
      assert Orphans(db, m[k := b]) == Orphans(db, m)[k := b];
      SumInsert(Orphans(db, m), k, b);
    }
  }

  /** The proxies grow by exactly the bytes of the entries whose proxy exists. */
  lemma {:induction false} FlushConserves(db: Database, m: map<Key, Bytes>, today: Date)
    ensures Sum(UsedBy(ProxiesFlushed(db, m, today))).Plus(Sum(Orphans(db, m))) == ProxyTotal(db).Plus(Sum(m))
    decreases |m|
  {
    if m == map[] {
      FlushOfNothing(db, today);
      assert Orphans(db, m) == m;
    } else {
      var k :| k in m;
      var rest, b := m - {k}, m[k];
      assert rest[k := b] == m;
      FlushConserves(db, rest, today);
      SumInsert(rest, k, b);
      OrphansStep(db, rest, k, b);
      Regroup(Sum(UsedBy(ProxiesFlushed(db, rest, today))), Sum(Orphans(db, rest)), ProxyTotal(db), Sum(rest), b);
      if k.proxy in db.proxies {
        UsedStep(db, rest, k, b, today);
      } else {
        ProxiesFlushedStep(db, rest, k, b, today);
      }
    }
  }

  lemma PlusZero(x: Bytes, zero: Bytes)
    requires zero.IsZero()
    ensures x.Plus(zero) == x
  {
  }

  lemma Regroup(x: Bytes, o: Bytes, p: Bytes, q: Bytes, b: Bytes)
    requires x.Plus(o) == p.Plus(q)
    ensures x.Plus(b).Plus(o) == x.Plus(o.Plus(b)) == p.Plus(q.Plus(b))
  {
  }

  lemma SumReplace<K>(m: map<K, Bytes>, k: K, b: Bytes)
    requires k in m
    ensures Sum(m[k := b]).Plus(m[k]) == Sum(m).Plus(b)
  {
    SumRemove(m[k := b], k);
    SumRemove(m, k);
    assert m[k := b] - {k} == m - {k};
  }

  lemma SumsPut(buffers: map<int, map<Key, Bytes>>, manager: int, m: map<Key, Bytes>)
    ensures Sums(buffers[manager := m]) == Sums(buffers)[manager := Sum(m)]
  {
  }

  lemma BufferPut(s: Books, manager: int, m: map<Key, Bytes>)
    ensures Sum(Sums(s.buffers[manager := m])).Plus(Sum(s.Buffer(manager))) == Sum(Sums(s.buffers)).Plus(Sum(m))
  {
    SumsPut(s.buffers, manager, m);
    if manager in s.buffers {
      SumReplace(Sums(s.buffers), manager, Sum(m));
    } else {
      SumInsert(Sums(s.buffers), manager, Sum(m));
      PlusZero(Sum(Sums(s.buffers[manager := m])), Sum<Key>(map[]));
    }
  }

  lemma ProxiesAfterFlush(db: Database, m: map<Key, Bytes>, now: Stamp)
    ensures Flushed(db, m, now).proxies == ProxiesFlushed(db, m, now.date)
  {
    var f, g := NodesOnce(TallyFn(db, m)), TallyFn(db, m);
    forall p, row ensures ProxyStep(f, now.date)(p, row) == ProxyStep(g, now.date)(p, row) {
    }
    MapRowsCongruence(db.proxies, ProxyStep(f, now.date), ProxyStep(g, now.date));
  }

  lemma FlushBooksConserve(s: Books, manager: int, now: Stamp)
    ensures Held(FlushBooks(s, manager, now)) == Held(s)
    ensures FlushBooks(s, manager, now).reported == s.reported
  {
    var m := s.Buffer(manager);
    FlushConserves(s.rows, m, now.date);
    ProxiesAfterFlush(s.rows, m, now);
    BufferPut(s, manager, map[]);
    HeldRegroup(Sum(Sums(s.buffers)), Sum(Sums(s.buffers[manager := map[]])), Sum(m), ProxyTotal(s.rows),
                Sum(UsedBy(ProxiesFlushed(s.rows, m, now.date))), Sum(Orphans(s.rows, m)), s.skipped, s.removed,
                  Sum<Key>(map[]));
  }

  lemma HeldRegroup(pool: Bytes, left: Bytes, buffer: Bytes, total: Bytes, grown: Bytes, orphans: Bytes,
                    skipped: Bytes, removed: Bytes, zero: Bytes)
    requires zero.IsZero() && left.Plus(buffer) == pool.Plus(zero) && grown.Plus(orphans) == total.Plus(buffer)
    ensures left.Plus(grown).Plus(skipped.Plus(orphans)).Plus(removed) == pool.Plus(total).Plus(skipped).Plus(removed)
  {
  }

  lemma RecordConserves(s: Books, manager: int, e: Event)
    ensures Held(Record(s, manager, e)) == Held(s).Plus(e.bytes)
  {
    var m := s.Buffer(manager);
    AccumulateGrows(m, e);
    BufferPut(s, manager, Accumulate(m, e));
    assert Sum(Sums(Record(s, manager, e).buffers)) == Sum(Sums(s.buffers)).Plus(e.bytes);
  }

  lemma ApplyConserves(s: Books, op: Op)
    ensures Held(Apply(s, op)).Plus(s.reported) == Held(s).Plus(Apply(s, op).reported)
  {
    match op
    case Report(manager, e, now) =>
      RecordConserves(s, manager, e);
      FlushBooksConserve(Record(s, manager, e), manager, now);
    case Tick(manager, now) =>
      FlushBooksConserve(s, manager, now);
    case AddProxy(p, node, owner) =>
      AddConserves(s.rows.proxies, p, ProxyRow(node, owner, Zero(), map[]));
    case DeleteProxy(p) =>
      DeleteConserves(s.rows.proxies, p);
  }

  lemma AddConserves(proxies: map<int, ProxyRow>, p: int, row: ProxyRow)
    requires row.used.IsZero()
    ensures p !in proxies ==> Sum(UsedBy(proxies[p := row])) == Sum(UsedBy(proxies))
  {
    if p !in proxies {
      UsedUpdate(proxies, p, row);
      SumInsert(UsedBy(proxies), p, row.used);
      PlusZero(Sum(UsedBy(proxies)), row.used);
    }
  }

  lemma DeleteConserves(proxies: map<int, ProxyRow>, p: int)
    ensures p in proxies ==> Sum(UsedBy(proxies)) == proxies[p].used.Plus(Sum(UsedBy(proxies - {p})))
  {
    if p in proxies {
      assert UsedBy(proxies - {p}) == UsedBy(proxies) - {p};
      SumRemove(UsedBy(proxies), p);
    }
  }

  lemma AccumulateGrows(m: map<Key, Bytes>, e: Event)
    ensures Sum(Accumulate(m, e)) == Sum(m).Plus(e.bytes)
  {
    if e.key in m {
      SumIncrease(m, e.key, e.bytes);
    } else {
      SumInsert(m, e.key, e.bytes);
    }
  }

  /** Over every run, each reported byte is in some manager's buffer, in a proxy total, skipped, or went with its
      proxy. */
  lemma {:induction false} BytesAreConserved(s: Books, ops: seq<Op>)
    ensures Held(Run(s, ops)).Plus(s.reported) == Held(s).Plus(Run(s, ops).reported)
  {
    if ops != [] {
      var most := ops[..|ops| - 1];
      BytesAreConserved(s, most);
      ApplyConserves(Run(s, most), ops[|ops| - 1]);
    }
  }

  /** The bytes of the reports among some operations. */
  function ReportedIn(ops: seq<Op>): Bytes {
    if ops == [] then Zero()
    else
      var last := ops[|ops| - 1];
      if last.Report? then ReportedIn(ops[..|ops| - 1]).Plus(last.event.bytes) else ReportedIn(ops[..|ops| - 1])
  }

  /** And the bytes reported are those of the reports. */
  lemma {:induction false} ReportedExactly(s: Books, ops: seq<Op>)
    ensures Run(s, ops).reported == s.reported.Plus(ReportedIn(ops))
  {
    if ops != [] {
      ReportedExactly(s, ops[..|ops| - 1]);
    }
  }

  /** A new proxy starts from zero without daily rows, a deleted one is gone with its daily rows, and no
      other row changes. */
  lemma ProxyComesAndGoes(s: Books, p: int, node: Option<int>, owner: Option<int>)
    ensures var after := Apply(s, AddProxy(p, node, owner));
      && after.buffers == s.buffers && after.rows.clients == s.rows.clients && after.rows.users == s.rows.users
      && after.rows.nodes == s.rows.nodes && p in after.rows.proxies
      && after.rows.proxies[p]
           == (if p in s.rows.proxies then s.rows.proxies[p] else ProxyRow(node, owner, Bytes(0, 0), map[]))
      && after.rows.proxies - {p} == s.rows.proxies - {p}
    ensures var after := Apply(s, DeleteProxy(p));
      && after.buffers == s.buffers && after.rows.clients == s.rows.clients && after.rows.users == s.rows.users
      && after.rows.nodes == s.rows.nodes && after.rows.proxies == s.rows.proxies - {p}
  {
    assert p !in s.rows.proxies ==> s.rows.proxies - {p} == s.rows.proxies;
    assert s.rows.proxies[p := ProxyRow(node, owner, Zero(), map[])] - {p} == s.rows.proxies - {p};
  }

  /** A report stays in the buffer, and no row changes, until the buffer holds more than 1000 keys. */
  lemma ReportWaits(s: Books, manager: int, e: Event, now: Stamp)
    ensures var after := Apply(s, Report(manager, e, now));
      if |s.Buffer(manager).Keys + {e.key}| <= 1000
      then after.rows == s.rows && after.Buffer(manager).Keys == s.Buffer(manager).Keys + {e.key}
      else after.Buffer(manager) == map[]
  {
    var grown := Accumulate(s.Buffer(manager), e);
    assert grown.Keys == s.Buffer(manager).Keys + {e.key} && |grown| == |grown.Keys|;
  }

  /** So no buffer ever holds more than 1000 keys. */
  lemma {:induction false} BuffersStaySmall(s: Books, ops: seq<Op>)
    requires forall m | m in s.buffers :: |s.buffers[m]| <= 1000
    ensures forall m | m in Run(s, ops).buffers :: |Run(s, ops).buffers[m]| <= 1000
  {
    if ops != [] {
      BuffersStaySmall(s, ops[..|ops| - 1]);
    }
  }

  /** A proxy total and the sum of its daily rows over all dates grow alike. */
  ghost predicate GrewAlike(before: ProxyRow, after: ProxyRow) {
    after.used.Plus(Sum(before.days)) == before.used.Plus(Sum(after.days))
  }

  lemma ProxyAfterGrowsAlike(row: ProxyRow, t: Tally, today: Date)
    ensures GrewAlike(row, ProxyAfter(row, t, today))
  {
    if t.Touched? {
      if today in row.days {
        SumIncrease(row.days, today, t.bytes);
      } else {
        SumInsert(row.days, today, t.bytes);
      }
    }
  }

  lemma {:induction false} TotalsMatchDailyRows(s: Books, ops: seq<Op>, p: int)
    requires p in s.rows.proxies && DeleteProxy(p) !in ops
    ensures p in Run(s, ops).rows.proxies
    ensures GrewAlike(s.rows.proxies[p], Run(s, ops).rows.proxies[p])
  {
    if ops != [] {
      var most, op := ops[..|ops| - 1], ops[|ops| - 1];
      TotalsMatchDailyRows(s, most, p);
      ApplyKeepsProxy(Run(s, most), op, p);
    }
  }

  lemma ApplyKeepsProxy(s: Books, op: Op, p: int)
    requires p in s.rows.proxies && op != DeleteProxy(p)
    ensures p in Apply(s, op).rows.proxies
    ensures GrewAlike(s.rows.proxies[p], Apply(s, op).rows.proxies[p])
  {
    if op.Report? || op.Tick? {
      var m := s.Buffer(op.manager);
      var buffer := if op.Report? then Accumulate(m, op.event) else m;
      ProxyAfterGrowsAlike(s.rows.proxies[p], NodesOnce(TallyFn(s.rows, buffer))(OfProxy(p)), op.at.date);
    }
  }
}
