// Subscriptions add their quotas to the user's own quota columns and take them back when they end.
module SubscriptionQuota {
  import opened Wrappers

  /** What a subscription grants; `None` grants nothing. */
  datatype Quota = Quota(traffic: real, ports: Option<int>, nodes: Option<int>, clients: Option<int>)

  /** A user's limits; `None` is unlimited. */
  datatype User = User(traffic: Option<real>, ports: Option<int>, nodes: Option<int>, clients: Option<int>)

  datatype Sub = Sub(id: int, user: int, endDate: int, active: bool, merged: bool, quota: Quota)

  function Plus(current: Option<int>, amount: Option<int>): Option<int> {
    if amount.None? then current else Some(current.GetOr(0) + amount.value)
  }

  function Minus(current: Option<int>, amount: Option<int>): Option<int> {
    if amount.None? then current
    else
      var rest := current.GetOr(0) - amount.value;
      Some(if rest < 0 then 0 else rest)
  }

  function Merged(u: User, q: Quota): User {
    User(Some(u.traffic.GetOr(0.0) + q.traffic), Plus(u.ports, q.ports), Plus(u.nodes, q.nodes),
      Plus(u.clients, q.clients))
  }

  function RolledBack(u: User, q: Quota): User {
    var rest := u.traffic.GetOr(0.0) - q.traffic;
    User(Some(if rest < 0.0 then 0.0 else rest), Minus(u.ports, q.ports), Minus(u.nodes, q.nodes),
      Minus(u.clients, q.clients))
  }

  /** The user and subscription tables; subscription rows in the order the queries return them. */
  datatype Books = Books(users: map<int, User>, subs: seq<Sub>)

  function Find(subs: seq<Sub>, id: int): (at: Option<nat>)
    ensures at.Some? ==> at.value < |subs| && subs[at.value].id == id
    ensures at.None? ==> forall i | 0 <= i < |subs| :: subs[i].id != id
  {
    if subs == [] then None
    else if subs[|subs| - 1].id == id then Some(|subs| - 1)
    else Find(subs[..|subs| - 1], id)
  }

  function MergeInto(users: map<int, User>, user: int, q: Quota): map<int, User> {
    if user in users then users[user := Merged(users[user], q)] else users
  }

  function TakeFrom(users: map<int, User>, user: int, q: Quota): map<int, User> {
    if user in users then users[user := RolledBack(users[user], q)] else users
  }

  predicate Due(s: Sub, now: int) {
    s.active && s.endDate < now
  }

  predicate InRange(rows: seq<nat>, n: nat) {
    forall k | 0 <= k < |rows| :: rows[k] < n
  }

  function DueRows(subs: seq<Sub>, now: int): (rows: seq<nat>)
    ensures InRange(rows, |subs|)
    ensures forall i | 0 <= i < |subs| :: i in rows <==> Due(subs[i], now)
    ensures forall j, k | 0 <= j < k < |rows| :: rows[j] != rows[k]
  {
    if subs == [] then []
    else
      var rows := DueRows(subs[..|subs| - 1], now);
      if Due(subs[|subs| - 1], now) then rows + [|subs| - 1] else rows
  }

  /** A merged row of a missing user cannot be rolled back and stays as it is. */
  predicate Stuck(users: map<int, User>, s: Sub) {
    s.merged && s.user !in users
  }

  function ExpireRow(b: Books, i: nat): Books
    requires i < |b.subs|
  {
    var s := b.subs[i];
    if Stuck(b.users, s) then b
    else Books(if s.merged then TakeFrom(b.users, s.user, s.quota) else b.users, b.subs[i := s.(active := false)])
  }

  function ExpireRows(b: Books, rows: seq<nat>): (after: Books)
    requires InRange(rows, |b.subs|)
    ensures |after.subs| == |b.subs|
  {
    if rows == [] then b
    else ExpireRow(ExpireRows(b, rows[..|rows| - 1]), rows[|rows| - 1])
  }

  function Toggled(b: Books, i: nat, on: bool): Books
    requires i < |b.subs|
  {
    var s := b.subs[i];
    if s.active && !on then
      Books(if s.merged then TakeFrom(b.users, s.user, s.quota) else b.users, b.subs[i := s.(active := false)])
    else if !s.active && on then
      Books(MergeInto(b.users, s.user, s.quota), b.subs[i := s.(active := true, merged := true)])
    else b
  }

  function Deleted(b: Books, i: nat): Books
    requires i < |b.subs|
  {
    var s := b.subs[i];
    Books(if s.active && s.merged then TakeFrom(b.users, s.user, s.quota) else b.users, b.subs[..i] + b.subs[i + 1..])
  }

  datatype Op =
    | Create(id: int, user: int, endDate: int, quota: Quota)
    | SetActive(id: int, on: bool)
    | Delete(id: int)
    | Expire(now: int)

  function Apply(b: Books, op: Op): Books {
    match op
    case Create(id, user, endDate, q) =>
      if user !in b.users then b
      else Books(MergeInto(b.users, user, q), b.subs + [Sub(id, user, endDate, true, true, q)])
    case SetActive(id, on) =>
      (match Find(b.subs, id) case None => b case Some(i) => Toggled(b, i, on))
    case Delete(id) =>
      (match Find(b.subs, id) case None => b case Some(i) => Deleted(b, i))
    case Expire(now) => ExpireRows(b, DueRows(b.subs, now))
  }

  function Run(b: Books, ops: seq<Op>): Books {
    if ops == [] then b else Apply(Run(b, ops[..|ops| - 1]), ops[|ops| - 1])
  }

  class QuotaBook {
    var users: map<int, User>
    var subs: seq<Sub>

    function Current(): Books
      reads this
    {
      Books(users, subs)
    }

    method Merge(user: int, q: Quota) returns (ok: bool)
      modifies this`users
      ensures ok <==> user in old(users)
      ensures users == MergeInto(old(users), user, q)
    {
      if user !in users {
        return false;
      }
      var u := users[user];
      u := u.(traffic := Some(users[user].traffic.GetOr(0.0) + q.traffic));
      if q.ports.Some? {
        u := u.(ports := Some(users[user].ports.GetOr(0) + q.ports.value));
      }
      if q.nodes.Some? {
        u := u.(nodes := Some(users[user].nodes.GetOr(0) + q.nodes.value));
      }
      if q.clients.Some? {
        u := u.(clients := Some(users[user].clients.GetOr(0) + q.clients.value));
      }
      users := users[user := u];
      return true;
    }

    method Rollback(user: int, q: Quota) returns (ok: bool)
      modifies this`users
      ensures ok <==> user in old(users)
      ensures users == TakeFrom(old(users), user, q)
    {
      if user !in users {
        return false;
      }
      var u := users[user];
      var rest := u.traffic.GetOr(0.0) - q.traffic;
      u := u.(traffic := Some(if rest < 0.0 then 0.0 else rest));
      if q.ports.Some? {
        u := u.(ports := Minus(u.ports, q.ports));
      }
      if q.nodes.Some? {
        u := u.(nodes := Minus(u.nodes, q.nodes));
      }
      if q.clients.Some? {
        u := u.(clients := Minus(u.clients, q.clients));
      }
      users := users[user := u];
      return true;
    }

    method CreateSubscription(id: int, user: int, endDate: int, q: Quota)
      modifies this
      ensures Current() == Apply(old(Current()), Create(id, user, endDate, q))
    {
      if user !in users {
        return;
      }
      subs := subs + [Sub(id, user, endDate, true, true, q)];
      var _ := Merge(user, q);
    }

    method UpdateActive(id: int, on: bool)
      modifies this
      ensures Current() == Apply(old(Current()), SetActive(id, on))
    {
      var at := Find(subs, id);
      if at.None? {
        return;
      }
      var s := subs[at.value];
      var changed := s.(active := on);
      if s.active && !on && s.merged {
        var _ := Rollback(s.user, s.quota);
      } else if !s.active && on {
        var _ := Merge(s.user, s.quota);
        changed := changed.(merged := true);
      }
      subs := subs[at.value := changed];
    }

    method DeleteSubscription(id: int)
      modifies this
      ensures Current() == Apply(old(Current()), Delete(id))
    {
      var at := Find(subs, id);
      if at.None? {
        return;
      }
      var s := subs[at.value];
      if s.active && s.merged {
        var _ := Rollback(s.user, s.quota);
      }
      subs := subs[..at.value] + subs[at.value + 1..];
    }

    /** Reports exactly the rows it has ended, in order. */
    method ExpireSubscriptions(now: int) returns (expired: seq<(int, int)>)
      modifies this
      ensures Current() == Apply(old(Current()), Expire(now))
      ensures |subs| == |old(subs)| && expired == Ended(old(subs), subs)
    {
      ghost var start := Current();
      expired := EndAll(DueRows(subs, now));
      ReportsEnded(start, now);
    }

    method EndAll(due: seq<nat>) returns (expired: seq<(int, int)>)
      requires InRange(due, |subs|) && forall j, k | 0 <= j < k < |due| :: due[j] != due[k]
      modifies this
      ensures Current() == ExpireRows(old(Current()), due)
      ensures expired == Reported(old(Current()), due)
    {
      expired := [];
      ghost var start := Current();
      for k := 0 to |due|
        invariant |subs| == |start.subs|
        invariant users.Keys == start.users.Keys
        invariant forall j | k <= j < |due| :: subs[due[j]] == start.subs[due[j]]
        invariant Current() == ExpireRows(start, due[..k])
        invariant expired == Reported(start, due[..k])
      {
        ExpireStep(start, due, k);
        var s := subs[due[k]];
        var ended := EndSubscription(due[k]);
        if ended {
          expired := expired + [(s.id, s.user)];
        }
      }
      assert due[..|due|] == due;
    }

    /** One row of an expiry: the rollback first, and the row is ended only if that succeeds. */
    method EndSubscription(i: nat) returns (ended: bool)
      requires i < |subs|
      modifies this
      ensures Current() == ExpireRow(old(Current()), i)
      ensures users.Keys == old(users).Keys && ended == !Stuck(old(users), old(subs)[i])
      ensures |subs| == |old(subs)| && forall j | 0 <= j < |subs| && j != i :: subs[j] == old(subs)[j]
    {
      var s := subs[i];
      if s.merged {
        var ok := Rollback(s.user, s.quota);
        if !ok {
          return false;
        }
      }
      subs := subs[i := s.(active := false)];
      return true;
    }
  }

  lemma ExpireStep(b: Books, rows: seq<nat>, k: nat)
    requires InRange(rows, |b.subs|) && k < |rows|
    ensures ExpireRows(b, rows[..k + 1]) == ExpireRow(ExpireRows(b, rows[..k]), rows[k])
    ensures var s := b.subs[rows[k]];
      Reported(b, rows[..k + 1]) == Reported(b, rows[..k]) + if Stuck(b.users, s) then [] else [(s.id, s.user)]
  {
    assert rows[..k + 1][..k] == rows[..k];
  }

  function Reported(b: Books, rows: seq<nat>): seq<(int, int)>
    requires InRange(rows, |b.subs|)
  {
    if rows == [] then []
    else
      var s := b.subs[rows[|rows| - 1]];
      Reported(b, rows[..|rows| - 1]) + if Stuck(b.users, s) then [] else [(s.id, s.user)]
  }

  /** The rows that were active before and are not after, by id and user. */
  function Ended(before: seq<Sub>, after: seq<Sub>): seq<(int, int)>
    requires |before| == |after|
  {
    if before == [] then []
    else
      var last := |before| - 1;
      Ended(before[..last], after[..last])
        + if before[last].active && !after[last].active then [(before[last].id, before[last].user)] else []
  }

  // ----- Row by row ---------------------------------------------------------------------

  lemma {:induction false} EndedRows(b: Books, rows: seq<nat>)
    requires InRange(rows, |b.subs|) && forall k | 0 <= k < |rows| :: b.subs[rows[k]].active
    requires forall j, k | 0 <= j < k < |rows| :: rows[j] != rows[k]
    ensures var after := ExpireRows(b, rows);
      && after.users.Keys == b.users.Keys
      && forall i | 0 <= i < |b.subs| ::
           after.subs[i] == if i in rows && !Stuck(b.users, b.subs[i]) then b.subs[i].(active := false) else b.subs[i]
  {
    if rows != [] {
      EndedRows(b, rows[..|rows| - 1]);
      assert rows == rows[..|rows| - 1] + [rows[|rows| - 1]];
      assert rows[|rows| - 1] !in rows[..|rows| - 1];
    }
  }

  /** What an expiry does to each row. A row whose end date has not passed stays as it is; an active one
      whose date has passed is ended, unless it is merged and its user is missing. */
  lemma ExpiryRowByRow(b: Books, now: int)
    ensures var after := Apply(b, Expire(now));
      && |after.subs| == |b.subs| && after.users.Keys == b.users.Keys
      && forall i | 0 <= i < |b.subs| :: var s, t := b.subs[i], after.subs[i];
           && t.id == s.id && t.user == s.user && t.endDate == s.endDate && t.merged == s.merged && t.quota == s.quota
           && (t.active <==> s.active && (s.endDate >= now || (s.merged && s.user !in b.users)))
  {
    var rows := DueRows(b.subs, now);
    forall k | 0 <= k < |rows| ensures b.subs[rows[k]].active {
      assert rows[k] in rows;
    }
    EndedRows(b, rows);
  }

  lemma ReportsEnded(b: Books, now: int)
    ensures var after := Apply(b, Expire(now));
      |after.subs| == |b.subs| && Reported(b, DueRows(b.subs, now)) == Ended(b.subs, after.subs)
  {
    ExpiryRowByRow(b, now);
    ReportsEndedUpTo(b, Apply(b, Expire(now)).subs, now, |b.subs|);
    assert b.subs[..|b.subs|] == b.subs && Apply(b, Expire(now)).subs[..|b.subs|] == Apply(b, Expire(now)).subs;
  }

  lemma {:induction false} ReportsEndedUpTo(b: Books, after: seq<Sub>, now: int, n: nat)
    requires |after| == |b.subs| && n <= |b.subs|
    requires forall i | 0 <= i < |b.subs| :: var s := b.subs[i];
      after[i].active <==> s.active && (s.endDate >= now || (s.merged && s.user !in b.users))
    ensures Reported(b, DueRows(b.subs[..n], now)) == Ended(b.subs[..n], after[..n])
  {
    if n > 0 {
      ReportsEndedUpTo(b, after, now, n - 1);
      DueOneMore(b.subs, now, n);
      EndedOneMore(b.subs, after, n);
      var rows, s := DueRows(b.subs[..n - 1], now), b.subs[n - 1];
      if Due(s, now) {
        ReportedOneMore(b, rows, n - 1);
        assert DueRows(b.subs[..n], now) == rows + [n - 1];
      } else {
        assert DueRows(b.subs[..n], now) == rows;
      }
      assert s.active && !after[n - 1].active <==> Due(s, now) && !Stuck(b.users, s);
    }
  }

  lemma DueOneMore(subs: seq<Sub>, now: int, n: nat)
    requires 0 < n <= |subs|
    ensures DueRows(subs[..n], now) == DueRows(subs[..n - 1], now) + if Due(subs[n - 1], now) then [n - 1] else []
  {
    assert subs[..n][..n - 1] == subs[..n - 1];
  }

  lemma EndedOneMore(before: seq<Sub>, after: seq<Sub>, n: nat)
    requires 0 < n <= |before| == |after|
    ensures var s := before[n - 1];
      Ended(before[..n], after[..n])
        == Ended(before[..n - 1], after[..n - 1]) + if s.active && !after[n - 1].active then [(s.id, s.user)] else []
  {
    assert before[..n][..n - 1] == before[..n - 1] && after[..n][..n - 1] == after[..n - 1];
  }

  lemma ReportedOneMore(b: Books, rows: seq<nat>, i: nat)
    requires InRange(rows, |b.subs|) && i < |b.subs|
    ensures var s := b.subs[i];
      Reported(b, rows + [i]) == Reported(b, rows) + if Stuck(b.users, s) then [] else [(s.id, s.user)]
  {
    assert (rows + [i])[..|rows|] == rows;
  }

  /** A new subscription of an existing user is active and merged, with its own dates and amounts. */
  lemma CreateRowByRow(b: Books, id: int, user: int, endDate: int, q: Quota)
    ensures var after := Apply(b, Create(id, user, endDate, q));
      if user !in b.users then after == b
      else
        && |after.subs| == |b.subs| + 1 && after.users.Keys == b.users.Keys
        && (forall i | 0 <= i < |b.subs| :: after.subs[i] == b.subs[i])
        && (forall u | u in b.users && u != user :: after.users[u] == b.users[u])
        && var s := after.subs[|b.subs|];
           s.id == id && s.user == user && s.endDate == endDate && s.quota == q && s.active && s.merged
  {
  }

  /** Switching a subscription sets its flags and nothing else in the table; once it is on, it is merged. */
  lemma SwitchRowByRow(b: Books, i: nat, on: bool)
    requires i < |b.subs| && forall j | 0 <= j < |b.subs| && j != i :: b.subs[j].id != b.subs[i].id
    ensures var s := b.subs[i]; var after := Apply(b, SetActive(s.id, on));
      && |after.subs| == |b.subs| && after.users.Keys == b.users.Keys
      && (forall j | 0 <= j < |b.subs| && j != i :: after.subs[j] == b.subs[j])
      && (forall u | u in b.users && u != s.user :: after.users[u] == b.users[u])
      && var t := after.subs[i];
         && t.id == s.id && t.user == s.user && t.endDate == s.endDate && t.quota == s.quota && t.active == on
         && (t.merged <==> s.merged || (on && !s.active))
  {
  }

  /** A deleted subscription is gone, and the others stand as before. */
  lemma DeleteRowByRow(b: Books, i: nat)
    requires i < |b.subs| && forall j | 0 <= j < |b.subs| && j != i :: b.subs[j].id != b.subs[i].id
    ensures var s := b.subs[i]; var after := Apply(b, Delete(s.id));
      && |after.subs| == |b.subs| - 1 && after.users.Keys == b.users.Keys
      && (forall j | 0 <= j < i :: after.subs[j] == b.subs[j])
      && (forall j | i < j < |b.subs| :: after.subs[j - 1] == b.subs[j])
      && (forall u | u in b.users && u != s.user :: after.users[u] == b.users[u])
  {
  }

  // ----- Conservation -------------------------------------------------------------------

  datatype Meter = Traffic | Ports | Nodes | Clients

  function Count(n: Option<int>): real {
    n.GetOr(0) as real
  }

  /** A user's quota on one meter, unlimited read as 0. */
  function Read(u: User, m: Meter): real {
    match m
    case Traffic => u.traffic.GetOr(0.0)
    case Ports => Count(u.ports)
    case Nodes => Count(u.nodes)
    case Clients => Count(u.clients)
  }

  function Amount(q: Quota, m: Meter): real {
    match m
    case Traffic => q.traffic
    case Ports => Count(q.ports)
    case Nodes => Count(q.nodes)
    case Clients => Count(q.clients)
  }

  /** What a subscription holds of a user's quota. */
  function Weight(s: Sub, user: int, m: Meter): real {
    if s.user == user && s.active && s.merged then Amount(s.quota, m) else 0.0
  }

  function Held(subs: seq<Sub>, user: int, m: Meter): real {
    if subs == [] then 0.0 else Held(subs[..|subs| - 1], user, m) + Weight(subs[|subs| - 1], user, m)
  }

  ghost predicate NonNegative(q: Quota) {
    forall m :: Amount(q, m) >= 0.0
  }

  type Base = (int, Meter) -> real

  /** Each quota is the user's own base plus what the active merged subscriptions hold. */
  ghost predicate Balanced(b: Books, base: Base) {
    && (forall u, m | u in b.users :: Read(b.users[u], m) == base(u, m) + Held(b.subs, u, m))
    && (forall u, m :: base(u, m) >= 0.0)
    && (forall i | 0 <= i < |b.subs| :: NonNegative(b.subs[i].quota))
  }

  lemma {:induction false} HeldBounds(subs: seq<Sub>, user: int, m: Meter, i: nat)
    requires i < |subs| && forall j | 0 <= j < |subs| :: NonNegative(subs[j].quota)
    ensures 0.0 <= Weight(subs[i], user, m) <= Held(subs, user, m)
  {
    if i < |subs| - 1 {
      HeldBounds(subs[..|subs| - 1], user, m, i);
    } else if i > 0 {
      HeldBounds(subs[..i], user, m, i - 1);
    }
  }

  lemma {:induction false} HeldUpdate(subs: seq<Sub>, i: nat, s: Sub, user: int, m: Meter)
    requires i < |subs|
    ensures Held(subs[i := s], user, m) == Held(subs, user, m) - Weight(subs[i], user, m) + Weight(s, user, m)
  {
    var last := |subs| - 1;
    if i < last {
      assert subs[i := s][..last] == subs[..last][i := s];
      HeldUpdate(subs[..last], i, s, user, m);
    } else {
      assert subs[i := s][..last] == subs[..last];
    }
  }

  lemma {:induction false} HeldRemove(subs: seq<Sub>, i: nat, user: int, m: Meter)
    requires i < |subs|
    ensures Held(subs[..i] + subs[i + 1..], user, m) == Held(subs, user, m) - Weight(subs[i], user, m)
  {
    var last := |subs| - 1;
    if i < last {
      assert (subs[..i] + subs[i + 1..])[..last - 1] == subs[..last][..i] + subs[..last][i + 1..];
      HeldRemove(subs[..last], i, user, m);
    } else {
      assert subs[..i] + subs[i + 1..] == subs[..last];
    }
  }

  /** A merge adds the amount on every meter; a rollback takes it back, but never below 0. */
  lemma QuotaReads(u: User, q: Quota, m: Meter)
    ensures Read(Merged(u, q), m) == Read(u, m) + Amount(q, m)
    ensures NonNegative(q) && Read(u, m) >= 0.0 ==>
              Read(RolledBack(u, q), m) == if Read(u, m) < Amount(q, m) then 0.0 else Read(u, m) - Amount(q, m)
  {
  }

  /** The floor at 0 is never reached: a user has at least what any one active merged subscription holds. */
  lemma FloorNeverBites(b: Books, base: Base, i: nat, m: Meter)
    requires Balanced(b, base) && i < |b.subs| && b.subs[i].user in b.users && b.subs[i].active && b.subs[i].merged
    ensures var s := b.subs[i];
      && Read(b.users[s.user], m) >= Amount(s.quota, m)
      && Read(RolledBack(b.users[s.user], s.quota), m) == Read(b.users[s.user], m) - Amount(s.quota, m)
  {
    var s := b.subs[i];
    HeldBounds(b.subs, s.user, m, i);
    QuotaReads(b.users[s.user], s.quota, m);
  }

  /** Ending one active subscription, wherever it is done. */
  lemma EndKeepsBalance(b: Books, base: Base, i: nat)
    requires Balanced(b, base) && i < |b.subs| && b.subs[i].active
    ensures var s := b.subs[i]; var users := if s.merged then TakeFrom(b.users, s.user, s.quota) else b.users;
      && Balanced(Books(users, b.subs[i := s.(active := false)]), base)
      && Balanced(Books(users, b.subs[..i] + b.subs[i + 1..]), base)
  {
    var s := b.subs[i];
    var users := if s.merged then TakeFrom(b.users, s.user, s.quota) else b.users;
    forall u, m | u in users
      ensures Read(users[u], m) == base(u, m) + Held(b.subs[i := s.(active := false)], u, m)
      ensures Read(users[u], m) == base(u, m) + Held(b.subs[..i] + b.subs[i + 1..], u, m)
    {
      HeldUpdate(b.subs, i, s.(active := false), u, m);
      HeldRemove(b.subs, i, u, m);
      if s.merged && u == s.user {
        FloorNeverBites(b, base, i, m);
      }
    }
  }

  lemma StartKeepsBalance(b: Books, base: Base, i: nat)
    requires Balanced(b, base) && i < |b.subs| && !b.subs[i].active
    ensures var s := b.subs[i];
      Balanced(Books(MergeInto(b.users, s.user, s.quota), b.subs[i := s.(active := true, merged := true)]), base)
  {
    var s := b.subs[i];
    var users := MergeInto(b.users, s.user, s.quota);
    forall u, m | u in users
      ensures Read(users[u], m) == base(u, m) + Held(b.subs[i := s.(active := true, merged := true)], u, m)
    {
      HeldUpdate(b.subs, i, s.(active := true, merged := true), u, m);
      if u == s.user {
        QuotaReads(b.users[u], s.quota, m);
      }
    }
  }

  lemma CreateKeepsBalance(b: Books, base: Base, s: Sub)
    requires Balanced(b, base) && s.user in b.users && s.active && s.merged && NonNegative(s.quota)
    ensures Balanced(Books(MergeInto(b.users, s.user, s.quota), b.subs + [s]), base)
  {
  }

  /** Rows listed once and active at the start: each is ended unless it is stuck, no other row changes. */
  lemma {:induction false} ExpiredRows(b: Books, base: Base, rows: seq<nat>)
    requires Balanced(b, base)
    requires InRange(rows, |b.subs|) && forall k | 0 <= k < |rows| :: b.subs[rows[k]].active
    requires forall j, k | 0 <= j < k < |rows| :: rows[j] != rows[k]
    ensures var after := ExpireRows(b, rows);
      && Balanced(after, base)
      && after.users.Keys == b.users.Keys
      && forall i | 0 <= i < |b.subs| ::
           after.subs[i] == if i in rows && !Stuck(b.users, b.subs[i]) then b.subs[i].(active := false) else b.subs[i]
  {
    if rows != [] {
      var most, last := rows[..|rows| - 1], rows[|rows| - 1];
      ExpiredRows(b, base, most);
      EndedRows(b, rows);
      assert rows == most + [last];
      var before := ExpireRows(b, most);
      assert last !in most && last in rows;
      if !Stuck(before.users, before.subs[last]) {
        EndKeepsBalance(before, base, last);
      }
    }
  }

  ghost predicate Allowed(op: Op) {
    op.Create? ==> NonNegative(op.quota)
  }

  /** Over every run of creations, activations, deactivations, deletions and expiries. */
  lemma {:induction false} QuotaIsConserved(b: Books, base: Base, ops: seq<Op>)
    requires Balanced(b, base) && forall op | op in ops :: Allowed(op)
    ensures Balanced(Run(b, ops), base)
  {
    if ops != [] {
      var most, op := ops[..|ops| - 1], ops[|ops| - 1];
      assert op in ops;
      QuotaIsConserved(b, base, most);
      OpKeepsBalance(Run(b, most), base, op);
    }
  }

  lemma OpKeepsBalance(b: Books, base: Base, op: Op)
    requires Balanced(b, base) && Allowed(op)
    ensures Balanced(Apply(b, op), base)
  {
    match op {
      case Create(id, user, endDate, q) =>
        if user in b.users {
          CreateKeepsBalance(b, base, Sub(id, user, endDate, true, true, q));
        }
      case SetActive(id, on) =>
        var at := Find(b.subs, id);
        if at.Some? && b.subs[at.value].active && !on {
          EndKeepsBalance(b, base, at.value);
        } else if at.Some? && !b.subs[at.value].active && on {
          StartKeepsBalance(b, base, at.value);
        }
      case Delete(id) =>
        var at := Find(b.subs, id);
        if at.Some? {
          if b.subs[at.value].active {
            EndKeepsBalance(b, base, at.value);
          } else {
            RemoveKeepsBalance(b, base, at.value);
          }
        }
      case Expire(now) => ExpiredRows(b, base, DueRows(b.subs, now));
    }
  }

  lemma RemoveKeepsBalance(b: Books, base: Base, i: nat)
    requires Balanced(b, base) && i < |b.subs| && !b.subs[i].active
    ensures Balanced(Books(b.users, b.subs[..i] + b.subs[i + 1..]), base)
  {
    forall u, m | u in b.users ensures Read(b.users[u], m) == base(u, m) + Held(b.subs[..i] + b.subs[i + 1..], u, m) {
      HeldRemove(b.subs, i, u, m);
    }
  }

  // ----- Each expired subscription is rolled back once ----------------------------------

  /** What the active merged subscriptions of a user hold whose end date has passed. */
  function DueHeld(subs: seq<Sub>, now: int, user: int, m: Meter): real {
    if subs == [] then 0.0
    else
      var s := subs[|subs| - 1];
      DueHeld(subs[..|subs| - 1], now, user, m)
        + if s.user == user && s.active && s.merged && s.endDate < now then Amount(s.quota, m) else 0.0
  }

  lemma {:induction false} HeldAfterExpiry(subs: seq<Sub>, after: seq<Sub>, now: int, user: int, m: Meter)
    requires |after| == |subs|
    requires forall i | 0 <= i < |subs| && subs[i].user == user ::
      after[i] == if Due(subs[i], now) then subs[i].(active := false) else subs[i]
    requires forall i | 0 <= i < |subs| :: after[i].user == subs[i].user
    ensures Held(after, user, m) == Held(subs, user, m) - DueHeld(subs, now, user, m)
  {
    if subs != [] {
      var last := |subs| - 1;
      HeldAfterExpiry(subs[..last], after[..last], now, user, m);
    }
  }

  /** An expiry lowers each quota by what the user's due subscriptions held, each taken once, and the
      only rows still due afterwards are those of missing users. */
  lemma ExpiryTakesEachOnce(b: Books, base: Base, now: int, user: int, m: Meter)
    requires Balanced(b, base) && user in b.users
    ensures var after := Apply(b, Expire(now));
      && user in after.users
      && Read(after.users[user], m) == Read(b.users[user], m) - DueHeld(b.subs, now, user, m)
      && forall i | 0 <= i < |after.subs| && after.subs[i].active && after.subs[i].endDate < now ::
           after.subs[i].merged && after.subs[i].user !in b.users
  {
    var rows := DueRows(b.subs, now);
    var after := ExpireRows(b, rows);
    ExpiredRows(b, base, rows);
    HeldAfterExpiry(b.subs, after.subs, now, user, m);
  }

  lemma {:induction false} StuckRowsStay(b: Books, rows: seq<nat>)
    requires InRange(rows, |b.subs|) && forall k | 0 <= k < |rows| :: Stuck(b.users, b.subs[rows[k]])
    ensures ExpireRows(b, rows) == b
  {
    if rows != [] {
      StuckRowsStay(b, rows[..|rows| - 1]);
    }
  }

  /** A second expiry, at any time up to the first, changes nothing. */
  lemma ExpiredOnce(b: Books, base: Base, now: int, earlier: int)
    requires Balanced(b, base) && earlier <= now
    ensures var after := Apply(b, Expire(now)); Apply(after, Expire(earlier)) == after
  {
    var after := Apply(b, Expire(now));
    ExpiredRows(b, base, DueRows(b.subs, now));
    var rows := DueRows(after.subs, earlier);
    forall k | 0 <= k < |rows| ensures Stuck(after.users, after.subs[rows[k]]) {
      assert rows[k] in rows && Due(after.subs[rows[k]], now);
    }
    StuckRowsStay(after, rows);
  }

  /** Taking an amount from balanced books without ending a row for it keeps them balanced exactly if
      there is nothing to take. */
  lemma TakenWithoutRow(b: Books, base: Base, user: int, q: Quota)
    requires Balanced(b, base) && user in b.users && NonNegative(q)
    ensures Balanced(Books(TakeFrom(b.users, user, q), b.subs), base)
            <==> forall m :: Amount(q, m) == 0.0 || Read(b.users[user], m) == 0.0
  {
    var late := Books(TakeFrom(b.users, user, q), b.subs);
    forall m ensures Read(late.users[user], m) == Read(b.users[user], m) <==>
      Amount(q, m) == 0.0 || Read(b.users[user], m) == 0.0 {
      HeldNonNegative(b.subs, user, m);
      QuotaReads(b.users[user], q, m);
      assert Amount(q, m) >= 0.0;
    }
    if !(forall m :: Amount(q, m) == 0.0 || Read(b.users[user], m) == 0.0) {
      var m :| Amount(q, m) != 0.0 && Read(b.users[user], m) != 0.0;
      assert Read(late.users[user], m) != base(user, m) + Held(late.subs, user, m);
    }
  }

  /** The expiry works on rows it has read before. If one of them is deleted or deactivated in between,
      both roll it back; the books then still balance only if there was nothing to take the second time. */
  lemma RolledBackTwice(b: Books, base: Base, i: nat, deleted: bool)
    requires Balanced(b, base) && i < |b.subs| && b.subs[i].active && b.subs[i].merged && b.subs[i].user in b.users
    ensures var s := b.subs[i]; var between := if deleted then Deleted(b, i) else Toggled(b, i, false);
      Balanced(Books(TakeFrom(between.users, s.user, s.quota), between.subs), base)
      <==> forall m :: Amount(s.quota, m) == 0.0 || Read(between.users[s.user], m) == 0.0
  {
    var s := b.subs[i];
    EndKeepsBalance(b, base, i);
    TakenWithoutRow(if deleted then Deleted(b, i) else Toggled(b, i, false), base, s.user, s.quota);
  }

  lemma HeldNonNegative(subs: seq<Sub>, user: int, m: Meter)
    requires forall j | 0 <= j < |subs| :: NonNegative(subs[j].quota)
    ensures Held(subs, user, m) >= 0.0
  {
  }

  // ----- Unlimited quotas ---------------------------------------------------------------

  predicate Limited(u: User, m: Meter) {
    match m
    case Traffic => u.traffic.Some?
    case Ports => u.ports.Some?
    case Nodes => u.nodes.Some?
    case Clients => u.clients.Some?
  }

  predicate Grants(q: Quota, m: Meter) {
    match m
    case Traffic => true
    case Ports => q.ports.Some?
    case Nodes => q.nodes.Some?
    case Clients => q.clients.Some?
  }

  /** An unlimited user with one subscription of 5 GB, which ends: what is left is a quota of 0. */
  lemma UnlimitedIsNotRestored()
    ensures var b := Books(map[1 := User(None, None, None, None)], []);
            var after := Apply(Apply(b, Create(1, 1, 10, Quota(5.0, None, None, None))), Expire(20));
            |after.subs| == 1 && !after.subs[0].active && 1 in after.users && after.users[1].traffic == Some(0.0)
  {
    var b := Books(map[1 := User(None, None, None, None)], []);
    var during := Apply(b, Create(1, 1, 10, Quota(5.0, None, None, None)));
    assert DueRows(during.subs[..0], 20) == [] && DueRows(during.subs, 20) == [0];
    assert ExpireRows(during, [0][..0]) == during;
  }

  /** A merge and a rollback limit exactly the meters that the subscription grants. */
  lemma LimitedByMove(u: User, q: Quota, m: Meter)
    ensures Limited(Merged(u, q), m) <==> Limited(u, m) || Grants(q, m)
    ensures Limited(RolledBack(u, q), m) <==> Limited(u, m) || Grants(q, m)
  {
  }

  /** The user is limited on the meter already, or has no subscription that grants it. */
  ghost predicate Covered(b: Books, user: int, m: Meter) {
    user in b.users
    && forall i | 0 <= i < |b.subs| && b.subs[i].user == user && Grants(b.subs[i].quota, m) :: Limited(b.users[user], m)
  }

  ghost predicate Introduces(op: Op, user: int, m: Meter) {
    op.Create? && op.user == user && Grants(op.quota, m)
  }

  /** Moving quotas of other users, or quotas that an existing row already granted, limits nobody anew. */
  lemma {:induction false} ExpiryLimits(b: Books, rows: seq<nat>, user: int, m: Meter)
    requires InRange(rows, |b.subs|) && Covered(b, user, m)
    ensures var after := ExpireRows(b, rows);
      && Covered(after, user, m) && (Limited(after.users[user], m) <==> Limited(b.users[user], m))
  {
    if rows != [] {
      var before, last := ExpireRows(b, rows[..|rows| - 1]), rows[|rows| - 1];
      ExpiryLimits(b, rows[..|rows| - 1], user, m);
      LimitedByMove(before.users[user], before.subs[last].quota, m);
    }
  }

  lemma OpLimits(b: Books, op: Op, user: int, m: Meter)
    requires Covered(b, user, m)
    ensures var after := Apply(b, op);
      && Covered(after, user, m)
        && (Limited(after.users[user], m) <==> Limited(b.users[user], m) || Introduces(op, user, m))
  {
    match op {
      case Create(_, owner, _, q) =>
        if owner == user {
          LimitedByMove(b.users[user], q, m);
        }
      case Expire(now) => ExpiryLimits(b, DueRows(b.subs, now), user, m);
      case _ =>
        var at := Find(b.subs, op.id);
        if at.Some? {
          LimitedByMove(b.users[user], b.subs[at.value].quota, m);
        }
    }
  }

  /** Over every run, a user ends limited on a meter exactly if the user was before, or was given a
      subscription that grants it; whether that subscription has ended since makes no difference. */
  lemma {:induction false} LimitedExactly(b: Books, ops: seq<Op>, user: int, m: Meter)
    requires Covered(b, user, m)
    ensures var after := Run(b, ops);
      && Covered(after, user, m)
      && (Limited(after.users[user], m) <==>
          Limited(b.users[user], m) || exists op :: op in ops && Introduces(op, user, m))
  {
    if ops != [] {
      var most, last := ops[..|ops| - 1], ops[|ops| - 1];
      LimitedExactly(b, most, user, m);
      OpLimits(Run(b, most), last, user, m);
      assert ops == most + [last];
      assert last in ops;
    }
  }

  lemma {:induction false} ExpiryNeverUnlimits(b: Books, rows: seq<nat>, user: int, m: Meter)
    requires InRange(rows, |b.subs|)
    requires user in b.users && Limited(b.users[user], m)
    ensures var after := ExpireRows(b, rows); user in after.users && Limited(after.users[user], m)
  {
    if rows != [] {
      ExpiryNeverUnlimits(b, rows[..|rows| - 1], user, m);
    }
  }

  /** A subscription that grants a meter makes an unlimited user limited on it, for the rest of every run. */
  lemma {:induction false} UnlimitedIsLost(b: Books, create: Op, ops: seq<Op>, m: Meter)
    requires create.Create? && create.user in b.users && Grants(create.quota, m)
    ensures var after := Run(Apply(b, create), ops); create.user in after.users && Limited(after.users[create.user], m)
  {
    if ops != [] {
      var before := Run(Apply(b, create), ops[..|ops| - 1]);
      UnlimitedIsLost(b, create, ops[..|ops| - 1], m);
      var op := ops[|ops| - 1];
      if op.Expire? {
        ExpiryNeverUnlimits(before, DueRows(before.subs, op.now), create.user, m);
      }
    }
  }
}
