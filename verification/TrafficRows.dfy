// What a flush leaves in each row, told from the keys and bytes of the buffer and the columns of the
// row alone: when a period starts over, when a quota is used up, and who is charged for an entry.
module TrafficRows {
  import opened Traffic
  import opened Wrappers

  // ----- One account --------------------------------------------------------------------

  ghost predicate InCalendar(d: Date) {
    1 <= d.month <= 12 && 1 <= d.day <= 31
  }

  function MonthNumber(d: Date): int {
    12 * d.year + d.month
  }

  /** Grows from each date of the calendar to the next. */
  function DayNumber(d: Date): int {
    31 * MonthNumber(d) + d.day
  }

  /** The account starts over: it never has, or the month or the date has grown since. */
  ghost predicate NewPeriod(a: Account, now: Stamp) {
    match a.lastReset
    case None => true
    case Some(last) =>
      (a.cycle == "monthly" && MonthNumber(now.date) > MonthNumber(last.date))
      || (a.cycle == "daily" && DayNumber(now.date) > DayNumber(last.date))
  }

  ghost predicate Dated(a: Account, now: Stamp) {
    InCalendar(now.date) && (a.lastReset.Some? ==> InCalendar(a.lastReset.value.date))
  }

  lemma ResetExactly(a: Account, now: Stamp)
    requires Dated(a, now)
    ensures ShouldReset(a, now) <==> NewPeriod(a, now)
  {
  }

  /** Sent and received bytes together reach the quota, cut to whole bytes and to 63 bits. */
  ghost predicate UsesUp(quotaGb: Option<real>, used: Bytes) {
    var total := used.sent + used.received;
    quotaGb.Some? && (total >= 0x7fff_ffff_ffff_ffff || (total + 1) as real > quotaGb.value * 1073741824.0)
  }

  lemma OverExactly(a: Account, used: Bytes)
    ensures Over(a, used) <==> UsesUp(a.quotaGb, used)
  {
  }

  /** `after` is `before` with some bytes charged, by several entries or by one. */
  ghost predicate Receives(before: Account, after: Account, bytes: Bytes, several: bool, now: Stamp) {
    var anew := NewPeriod(before, now);
    && after.used.sent == (if anew then 0 else before.used.sent) + bytes.sent
    && after.used.received == (if anew then 0 else before.used.received) + bytes.received
    && after.lastReset == (if anew then Some(now) else before.lastReset)
    && after.cycle == before.cycle && after.quotaGb == before.quotaGb
    && (after.exceeded <==>
          if anew then UsesUp(before.quotaGb, after.used) && (!before.exceeded || several)
          else before.exceeded || UsesUp(before.quotaGb, after.used))
  }

  /** What one entry leaves in an account. */
  lemma ChargeExactly(a: Account, b: Bytes, now: Stamp)
    requires Dated(a, now)
    ensures Receives(a, Charge(a, b, now), b, false, now)
  {
    ResetExactly(a, now);
    OverExactly(a, Charge(a, b, now).used);
  }

  lemma ChargedExactly(a: Account, bytes: Bytes, several: bool, now: Stamp)
    requires Dated(a, now)
    ensures Receives(a, Charged(a, Touched(bytes, several), now), bytes, several, now)
  {
    ResetExactly(a, now);
    OverExactly(a, UsedAfter(a, bytes, now));
  }

  /** For instance a monthly account last reset in December, charged in January: it starts over. */
  lemma JanuaryStartsOver(quotaGb: Option<real>, exceeded: bool, b: Bytes)
    ensures var last, now := Stamp(Date(2025, 12, 20), 0), Stamp(Date(2026, 1, 5), 0);
      var after := Charge(Account(Bytes(900000000, 0), "monthly", Some(last), quotaGb, exceeded), b, now);
      after.used == b && after.lastReset == Some(now)
  {
  }

  // ----- The entries for a row ----------------------------------------------------------

  /** The entries with bytes whose key satisfies `p`. */
  ghost function Among(m: map<Key, Bytes>, p: Key -> bool): map<Key, Bytes> {
    map k | k in m && p(k) && m[k].sent + m[k].received > 0 :: m[k]
  }

  ghost function ForProxy(db: Database, p: int): Key -> bool {
    (k: Key) => k.proxy in db.proxies && k.proxy == p
  }

  ghost function ForClient(db: Database, c: int): Key -> bool {
    (k: Key) => k.proxy in db.proxies && k.client == c
  }

  ghost function ForNode(db: Database, n: int): Key -> bool {
    (k: Key) => k.proxy in db.proxies && db.proxies[k.proxy].node == Some(n)
  }

  /** The proxy belongs to the user, or to nobody and its client belongs to the user. */
  ghost function ForUser(db: Database, u: int): Key -> bool {
    (k: Key) => k.proxy in db.proxies
      && match db.proxies[k.proxy].owner
         case Some(direct) => direct == u
         case None => k.client in db.clients && db.clients[k.client].owner == Some(u)
  }

  ghost function TallyOfSum(mine: map<Key, Bytes>): Tally {
    if mine == map[] then Untouched else Touched(Sum(mine), |mine| > 1)
  }

  lemma {:induction false} FoldIsSum(m: map<Key, Bytes>, g: (Key, Bytes) -> Tally, p: Key -> bool)
    requires forall k | k in m ::
      g(k, m[k]) == if p(k) && m[k].sent + m[k].received > 0 then Touched(m[k], false) else Untouched
    ensures Fold(m, g) == TallyOfSum(Among(m, p))
    decreases |m|
  {
    if m != map[] {
      var k :| k in m;
      FoldIsSum(m - {k}, g, p);
      FoldRemove(m, g, k);
      AmongOneMore(m, p, k);
    }
  }

  lemma AmongOneMore(m: map<Key, Bytes>, p: Key -> bool, k: Key)
    requires k in m
    ensures var own := if p(k) && m[k].sent + m[k].received > 0 then Touched(m[k], false) else Untouched;
      TallyOfSum(Among(m, p)) == own.Plus(TallyOfSum(Among(m - {k}, p)))
  {
    if k in Among(m, p) {
      assert Among(m, p) - {k} == Among(m - {k}, p);
      OneMoreEntry(Among(m, p), k);
    } else {
      assert Among(m, p) == Among(m - {k}, p);
    }
  }

  lemma OneMoreEntry(mine: map<Key, Bytes>, k: Key)
    requires k in mine
    ensures TallyOfSum(mine) == Touched(mine[k], false).Plus(TallyOfSum(mine - {k}))
  {
    SumRemove(mine, k);
    assert mine.Keys == (mine - {k}).Keys + {k};
    assert |mine.Keys| == |mine| && |(mine - {k}).Keys| == |mine - {k}|;
    assert |mine - {k}| == 0 <==> mine - {k} == map[];
  }

  lemma TallyExactly(db: Database, m: map<Key, Bytes>, t: Target)
    ensures var mine := Among(m, match t case OfProxy(p) => ForProxy(db, p) case OfClient(c) => ForClient(db, c)
                                         case OfUser(u) => ForUser(db, u) case OfNode(n) => ForNode(db, n));
      TallyOf(db, m, t) == TallyOfSum(mine)
  {
    var p := match t case OfProxy(p) => ForProxy(db, p) case OfClient(c) => ForClient(db, c)
                     case OfUser(u) => ForUser(db, u) case OfNode(n) => ForNode(db, n);
    FoldIsSum(m, EntriesFor(db, t), p);
  }

  // ----- Every row after a flush --------------------------------------------------------

  ghost predicate AllDated(db: Database, now: Stamp) {
    && (forall c | c in db.clients :: Dated(db.clients[c].account, now))
    && (forall u | u in db.users :: Dated(db.users[u], now))
    && (forall n | n in db.nodes :: Dated(db.nodes[n], now))
  }

  /** An account that no entry reaches is unchanged; the others receive the sum of theirs. */
  ghost predicate RowReceives(before: Account, after: Account, mine: map<Key, Bytes>, several: bool, now: Stamp) {
    if mine == map[] then after == before else Receives(before, after, Sum(mine), several, now)
  }

  /** The total and the daily row of `today` grow by the sum, which inserts that row if it is absent. */
  ghost predicate ProxyReceives(before: ProxyRow, after: ProxyRow, mine: map<Key, Bytes>, today: Date) {
    if mine == map[] then after == before
    else
      var day := if today in before.days then before.days[today] else Bytes(0, 0);
      && after.node == before.node && after.owner == before.owner
      && after.used.sent == before.used.sent + Sum(mine).sent
      && after.used.received == before.used.received + Sum(mine).received
      && after.days.Keys == before.days.Keys + {today}
      && after.days[today] == Bytes(day.sent + Sum(mine).sent, day.received + Sum(mine).received)
      && forall d | d in before.days && d != today :: after.days[d] == before.days[d]
  }

  ghost predicate ProxiesReceive(db: Database, after: Database, m: map<Key, Bytes>, today: Date) {
    && after.proxies.Keys == db.proxies.Keys
    && forall p | p in db.proxies ::
         ProxyReceives(db.proxies[p], after.proxies[p], Among(m, ForProxy(db, p)), today)
  }

  ghost predicate ClientsReceive(db: Database, after: Database, m: map<Key, Bytes>, now: Stamp) {
    && after.clients.Keys == db.clients.Keys
    && forall c | c in db.clients :: var mine := Among(m, ForClient(db, c));
         && after.clients[c].owner == db.clients[c].owner
         && RowReceives(db.clients[c].account, after.clients[c].account, mine, |mine| > 1, now)
  }

  ghost predicate UsersReceive(db: Database, after: Database, m: map<Key, Bytes>, now: Stamp) {
    && after.users.Keys == db.users.Keys
    && forall u | u in db.users :: var mine := Among(m, ForUser(db, u));
         RowReceives(db.users[u], after.users[u], mine, |mine| > 1, now)
  }

  /** A node gets the sum of its entries as one. */
  ghost predicate NodesReceive(db: Database, after: Database, m: map<Key, Bytes>, now: Stamp) {
    && after.nodes.Keys == db.nodes.Keys
    && forall n | n in db.nodes :: RowReceives(db.nodes[n], after.nodes[n], Among(m, ForNode(db, n)), false, now)
  }

  /** What every row of the five tables is after a flush, from the entries and the row alone. */
  lemma FlushExactly(db: Database, m: map<Key, Bytes>, now: Stamp)
    requires AllDated(db, now)
    ensures var after := Flushed(db, m, now);
      && ProxiesReceive(db, after, m, now.date) && ClientsReceive(db, after, m, now)
      && UsersReceive(db, after, m, now) && NodesReceive(db, after, m, now)
  {
    ProxiesExactly(db, m, now);
    ClientsExactly(db, m, now);
    UsersExactly(db, m, now);
    NodesExactly(db, m, now);
  }

  lemma ProxiesExactly(db: Database, m: map<Key, Bytes>, now: Stamp)
    ensures ProxiesReceive(db, Flushed(db, m, now), m, now.date)
  {
    var f := NodesOnce(TallyFn(db, m));
    forall p | p in db.proxies
      ensures ProxyReceives(db.proxies[p], Flushed(db, m, now).proxies[p], Among(m, ForProxy(db, p)), now.date)
    {
      TallyExactly(db, m, OfProxy(p));
      assert f(OfProxy(p)) == TallyOf(db, m, OfProxy(p));
      assert Flushed(db, m, now).proxies[p] == ProxyAfter(db.proxies[p], f(OfProxy(p)), now.date);
    }
  }

  lemma ClientsExactly(db: Database, m: map<Key, Bytes>, now: Stamp)
    requires AllDated(db, now)
    ensures ClientsReceive(db, Flushed(db, m, now), m, now)
  {
    var f := NodesOnce(TallyFn(db, m));
    forall c | c in db.clients
      ensures var mine, after := Among(m, ForClient(db, c)), Flushed(db, m, now).clients[c];
        after.owner == db.clients[c].owner && RowReceives(db.clients[c].account, after.account, mine, |mine| > 1, now)
    {
      TallyExactly(db, m, OfClient(c));
      assert f(OfClient(c)) == TallyOf(db, m, OfClient(c));
      assert Flushed(db, m, now).clients[c] == ClientStep(f, now)(c, db.clients[c]);
      RowSettled(db.clients[c].account, Among(m, ForClient(db, c)), f(OfClient(c)), now);
    }
  }

  lemma UsersExactly(db: Database, m: map<Key, Bytes>, now: Stamp)
    requires AllDated(db, now)
    ensures UsersReceive(db, Flushed(db, m, now), m, now)
  {
    var f := NodesOnce(TallyFn(db, m));
    forall u | u in db.users
      ensures var mine := Among(m, ForUser(db, u));
        RowReceives(db.users[u], Flushed(db, m, now).users[u], mine, |mine| > 1, now)
    {
      TallyExactly(db, m, OfUser(u));
      assert f(OfUser(u)) == TallyOf(db, m, OfUser(u));
      assert Flushed(db, m, now).users[u] == UserStep(f, now)(u, db.users[u]);
      RowSettled(db.users[u], Among(m, ForUser(db, u)), f(OfUser(u)), now);
    }
  }

  lemma NodesExactly(db: Database, m: map<Key, Bytes>, now: Stamp)
    requires AllDated(db, now)
    ensures NodesReceive(db, Flushed(db, m, now), m, now)
  {
    var f := NodesOnce(TallyFn(db, m));
    forall n | n in db.nodes
      ensures RowReceives(db.nodes[n], Flushed(db, m, now).nodes[n], Among(m, ForNode(db, n)), false, now)
    {
      TallyExactly(db, m, OfNode(n));
      assert f(OfNode(n)) == Once(TallyOf(db, m, OfNode(n)));
      assert Flushed(db, m, now).nodes[n] == NodeStep(f, now)(n, db.nodes[n]);
      RowSettled(db.nodes[n], Among(m, ForNode(db, n)), f(OfNode(n)), now);
    }
  }

  lemma RowSettled(a: Account, mine: map<Key, Bytes>, t: Tally, now: Stamp)
    requires Dated(a, now)
    requires t == if mine == map[] then Untouched else Touched(Sum(mine), t.Touched? && t.several)
    ensures RowReceives(a, Charged(a, t, now), mine, t.Touched? && t.several, now)
  {
    if t.Touched? {
      ChargedExactly(a, t.bytes, t.several, now);
    }
  }
}
