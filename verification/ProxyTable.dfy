// The proxy table behind its two triggers, which refuse rows that would share a port in conflict.
module ProxyTable {
  import opened Wrappers
  import opened Domain

  datatype Row = Row(node: Option<int>, port: int, kind: string, domain: string, enabled: bool)

  predicate IsHttp(kind: string) { kind in ["http", "https"] }

  /** The relation that the handlers check. */
  predicate RoutesConflict(kind: string, domain: string, otherKind: string, otherDomain: string) {
    !IsHttp(kind) || kind != otherKind || domain == otherDomain
  }

  /** The WHEN clause of both triggers, for the new row and one stored row. `IS` is equality that takes NULL as a
      value. */
  predicate Guard(addedId: int, added: Row, id: int, p: Row) {
    && added.enabled
    && id != addedId && p.enabled
    && p.node == added.node && p.port == added.port
    && (added.kind !in ["http", "https"] || p.kind != added.kind || p.domain == added.domain)
  }

  predicate SamePort(p: Row, q: Row) {
    p.enabled && q.enabled && p.node == q.node && p.port == q.port
  }

  predicate Clash(p: Row, q: Row) {
    SamePort(p, q) && RoutesConflict(p.kind, p.domain, q.kind, q.domain)
  }

  /** The trigger and the handlers decide by the same relation, and it is symmetric. */
  lemma GuardIsRelation(addedId: int, added: Row, id: int, p: Row)
    ensures Guard(addedId, added, id, p) <==> id != addedId && Clash(added, p)
    ensures Clash(added, p) <==> Clash(p, added)
  {
  }

  ghost predicate Aborts(rows: map<int, Row>, id: int, row: Row) {
    exists j :: j in rows && Guard(id, row, j, rows[j])
  }

  ghost predicate ConflictFree(rows: map<int, Row>) {
    forall i, j | i in rows && j in rows && i != j :: !Clash(rows[i], rows[j])
  }

  // ----- The gated statements -----------------------------------------------------------

  datatype Statement =
    | Insert(id: int, row: Row)
    | Update(changes: seq<(int, Row)>)
    | Delete(ids: set<int>)

  /** Row by row, each change passing the trigger against the rows changed so far; an abort undoes the statement. */
  ghost function UpdateRows(rows: map<int, Row>, changes: seq<(int, Row)>): Option<map<int, Row>> {
    if changes == [] then Some(rows)
    else
      var (id, row) := changes[|changes| - 1];
      match UpdateRows(rows, changes[..|changes| - 1])
      case None => None
      case Some(part) =>
        if id !in part then Some(part)
        else if Aborts(part, id, row) then None
        else Some(part[id := row])
  }

  ghost function Execute(rows: map<int, Row>, s: Statement): Option<map<int, Row>> {
    match s
    case Insert(id, row) => if id in rows || Aborts(rows, id, row) then None else Some(rows[id := row])
    case Update(changes) => UpdateRows(rows, changes)
    case Delete(ids) => Some(rows - ids)
  }

  /** The table after a run of statements; a refused one changes nothing. */
  ghost function Run(rows: map<int, Row>, statements: seq<Statement>): map<int, Row> {
    if statements == [] then rows
    else
      var before := Run(rows, statements[..|statements| - 1]);
      Execute(before, statements[|statements| - 1]).GetOr(before)
  }

  class Table {
    var rows: map<int, Row>

    /** The EXISTS query of the triggers. */
    method Refused(id: int, row: Row) returns (refused: bool)
      ensures refused <==> Aborts(rows, id, row)
    {
      var left := rows.Keys;
      refused := false;
      while left != {}
        invariant left <= rows.Keys
        invariant !refused ==> forall j | j in rows.Keys - left :: !Guard(id, row, j, rows[j])
        invariant refused ==> Aborts(rows, id, row)
      {
        var j := Any(left);
        if Guard(id, row, j, rows[j]) {
          refused := true;
        }
        left := left - {j};
      }
    }

    method InsertRow(id: int, row: Row) returns (accepted: bool)
      modifies this
      ensures accepted <==> Execute(old(rows), Insert(id, row)).Some?
      ensures rows == Execute(old(rows), Insert(id, row)).GetOr(old(rows))
    {
      var refused := Refused(id, row);
      accepted := id !in rows && !refused;
      if accepted {
        rows := rows[id := row];
      }
    }

    method UpdateEach(changes: seq<(int, Row)>) returns (accepted: bool)
      modifies this
      ensures accepted <==> Execute(old(rows), Update(changes)).Some?
      ensures rows == Execute(old(rows), Update(changes)).GetOr(old(rows))
    {
      var saved := rows;
      for k := 0 to |changes|
        invariant UpdateRows(saved, changes[..k]) == Some(rows)
      {
        assert changes[..k + 1][..k] == changes[..k];
        var (id, row) := changes[k];
        if id in rows {
          var refused := Refused(id, row);
          if refused {
            AbortIsFinal(saved, changes, k + 1);
            rows := saved;
            return false;
          }
          rows := rows[id := row];
        }
      }
      assert changes[..|changes|] == changes;
      accepted := true;
    }

    method DeleteRows(ids: set<int>)
      modifies this
      ensures rows == Execute(old(rows), Delete(ids)).GetOr(old(rows))
    {
      rows := rows - ids;
    }
  }

  lemma {:induction false} AbortIsFinal(rows: map<int, Row>, changes: seq<(int, Row)>, k: nat)
    requires k <= |changes| && UpdateRows(rows, changes[..k]).None?
    ensures UpdateRows(rows, changes).None?
    decreases |changes|
  {
    if k < |changes| {
      assert changes[..|changes| - 1][..k] == changes[..k];
      AbortIsFinal(rows, changes[..|changes| - 1], k);
    } else {
      assert changes[..k] == changes;
    }
  }

  // ----- Row by row ---------------------------------------------------------------------

  ghost predicate SameRow(rows: map<int, Row>, after: map<int, Row>, i: int) {
    (i in after <==> i in rows) && (i in rows ==> after[i] == rows[i])
  }

  /** An insert is refused for a taken id, or if an enabled row of another id on the same node and port
      would be in conflict; otherwise the new row is there as given, beside all others as they were. */
  lemma InsertRowByRow(rows: map<int, Row>, id: int, row: Row)
    ensures var result := Execute(rows, Insert(id, row));
      && (result.None? <==> id in rows || exists j :: j in rows && Clash(row, rows[j]))
      && (result.Some? ==>
            && id in result.value && result.value[id] == row
            && forall i | i != id :: SameRow(rows, result.value, i))
  {
    if id !in rows && exists j :: j in rows && Clash(row, rows[j]) {
      var j :| j in rows && Clash(row, rows[j]);
      assert Guard(id, row, j, rows[j]);
    }
  }

  /** An accepted update leaves each row as its last change says, and a row without a change as it was;
      ids without a row stay without one. */
  lemma {:induction false} UpdateRowByRow(rows: map<int, Row>, changes: seq<(int, Row)>, i: int)
    ensures var result := UpdateRows(rows, changes);
      result.Some? ==>
        && (i in result.value <==> i in rows)
        && (i in rows && !Changes(changes, i) ==> result.value[i] == rows[i])
        && (i in rows && Changes(changes, i) ==>
              exists k :: IsLastChange(changes, k, i) && result.value[i] == changes[k].1)
  {
    if changes != [] {
      var most := changes[..|changes| - 1];
      UpdateRowByRow(rows, most, i);
      var part, result := UpdateRows(rows, most), UpdateRows(rows, changes);
      if result.Some? && i in rows {
        if changes[|most|].0 == i {
          assert IsLastChange(changes, |most|, i);
        } else if Changes(most, i) {
          var k :| IsLastChange(most, k, i) && part.value[i] == most[k].1;
          assert IsLastChange(changes, k, i);
        } else {
          assert forall k | 0 <= k < |changes| :: changes[k].0 != i;
        }
      }
    }
  }

  ghost predicate Changes(changes: seq<(int, Row)>, i: int) {
    exists k :: 0 <= k < |changes| && changes[k].0 == i
  }

  ghost predicate IsLastChange(changes: seq<(int, Row)>, k: int, i: int) {
    0 <= k < |changes| && changes[k].0 == i && forall l | k < l < |changes| :: changes[l].0 != i
  }

  /** An update is refused exactly if one of its changes, applied after those before it, meets an existing
      row and would be in conflict with another. */
  lemma {:induction false} UpdateRefusedExactly(rows: map<int, Row>, changes: seq<(int, Row)>)
    ensures UpdateRows(rows, changes).None? <==> exists k :: Meets(rows, changes, k)
  {
    if changes != [] {
      var last := |changes| - 1;
      UpdateRefusedExactly(rows, changes[..last]);
      forall k | 0 <= k < last ensures Meets(rows, changes, k) <==> Meets(rows, changes[..last], k) {
        assert changes[..last][..k] == changes[..k];
      }
      if UpdateRows(rows, changes).None? {
        if UpdateRows(rows, changes[..last]).None? {
          var k :| Meets(rows, changes[..last], k);
          assert Meets(rows, changes, k);
        } else {
          var part := UpdateRows(rows, changes[..last]).value;
          var j :| j in part && Guard(changes[last].0, changes[last].1, j, part[j]);
          assert Meets(rows, changes, last);
        }
      }
    }
  }

  ghost predicate Meets(rows: map<int, Row>, changes: seq<(int, Row)>, k: int) {
    && 0 <= k < |changes| && UpdateRows(rows, changes[..k]).Some?
    && var part := UpdateRows(rows, changes[..k]).value;
       changes[k].0 in part && exists j :: j in part && j != changes[k].0 && Clash(changes[k].1, part[j])
  }

  /** A delete takes out its rows and no others. */
  lemma DeleteRowByRow(rows: map<int, Row>, ids: set<int>)
    ensures var result := Execute(rows, Delete(ids));
      && result.Some? && result.value.Keys == rows.Keys - ids
      && forall i | i !in ids :: SameRow(rows, result.value, i)
  {
  }

  /** Over a run: each statement works on the table that those before it have left, and one that is
      refused leaves that table as it was. */
  lemma RunOneMore(rows: map<int, Row>, statements: seq<Statement>, s: Statement)
    ensures var before, after := Run(rows, statements), Run(rows, statements + [s]);
      if Execute(before, s).Some? then after == Execute(before, s).value else after == before
  {
    assert (statements + [s])[..|statements|] == statements;
  }

  /** For instance an accepted insert is in the table. */
  lemma InsertedIsThere(rows: map<int, Row>, statements: seq<Statement>, id: int, row: Row)
    ensures var before, after := Run(rows, statements), Run(rows, statements + [Insert(id, row)]);
      id !in before && !(exists j :: j in before && Clash(row, before[j])) ==> id in after && after[id] == row
  {
    RunOneMore(rows, statements, Insert(id, row));
    InsertRowByRow(Run(rows, statements), id, row);
  }

  // ----- What the triggers keep ---------------------------------------------------------

  lemma PutKeepsConflictFree(rows: map<int, Row>, id: int, row: Row)
    requires ConflictFree(rows) && !Aborts(rows, id, row)
    ensures ConflictFree(rows[id := row])
  {
  }

  lemma {:induction false} UpdateKeepsConflictFree(rows: map<int, Row>, changes: seq<(int, Row)>)
    requires ConflictFree(rows)
    ensures UpdateRows(rows, changes).Some? ==> ConflictFree(UpdateRows(rows, changes).value)
  {
    if changes != [] {
      var (id, row) := changes[|changes| - 1];
      UpdateKeepsConflictFree(rows, changes[..|changes| - 1]);
      var part := UpdateRows(rows, changes[..|changes| - 1]);
      if part.Some? && !Aborts(part.value, id, row) {
        PutKeepsConflictFree(part.value, id, row);
      }
    }
  }

  /** Every run of accepted and refused statements keeps a conflict-free table conflict-free. */
  lemma {:induction false} RunKeepsConflictFree(rows: map<int, Row>, statements: seq<Statement>)
    requires ConflictFree(rows)
    ensures ConflictFree(Run(rows, statements))
  {
    if statements != [] {
      var before, last := Run(rows, statements[..|statements| - 1]), statements[|statements| - 1];
      RunKeepsConflictFree(rows, statements[..|statements| - 1]);
      match last
      case Insert(id, row) =>
        if !Aborts(before, id, row) {
          PutKeepsConflictFree(before, id, row);
        }
      case Update(changes) => UpdateKeepsConflictFree(before, changes);
      case Delete(ids) =>
    }
  }

  /** The gate is not too strict: a statement that writes one row is refused only if the table would conflict. */
  lemma RefusedOnlyOnConflict(rows: map<int, Row>, id: int, row: Row)
    requires ConflictFree(rows)
    ensures Aborts(rows, id, row) <==> !ConflictFree(rows[id := row])
  {
    if Aborts(rows, id, row) {
      var j :| j in rows && Guard(id, row, j, rows[j]);
      assert Clash(rows[id := row][id], rows[id := row][j]);
    } else {
      PutKeepsConflictFree(rows, id, row);
    }
  }

  // ----- What conflict-free means for one port ------------------------------------------

  predicate OnPort(r: Row, node: Option<int>, port: int) {
    r.enabled && r.node == node && r.port == port
  }

  ghost predicate SingleRow(rows: map<int, Row>, node: Option<int>, port: int) {
    forall i, j | i in rows && j in rows && OnPort(rows[i], node, port) && OnPort(rows[j], node, port) :: i == j
  }

  ghost predicate DistinctDomains(rows: map<int, Row>, node: Option<int>, port: int) {
    forall i, j | i in rows && j in rows && OnPort(rows[i], node, port) && OnPort(rows[j], node, port) ::
      rows[i].kind in ["http", "https"] && rows[i].kind == rows[j].kind && (i != j ==> rows[i].domain != rows[j].domain)
  }

  /** A table is conflict-free exactly if every port carries at most one row, or rows of one of the
      two HTTP protocols with distinct domains. */
  lemma ConflictFreePorts(rows: map<int, Row>)
    ensures ConflictFree(rows) <==>
      forall node, port :: SingleRow(rows, node, port) || DistinctDomains(rows, node, port)
  {
    if ConflictFree(rows) {
      forall node, port ensures SingleRow(rows, node, port) || DistinctDomains(rows, node, port) {
        if !SingleRow(rows, node, port) {
          var i, j :| i in rows && j in rows && OnPort(rows[i], node, port) && OnPort(rows[j], node, port) && i != j;
          assert !Clash(rows[i], rows[j]);
          forall k | k in rows && OnPort(rows[k], node, port)
            ensures IsHttp(rows[k].kind) && rows[k].kind == rows[i].kind
          {
            if k != i {
              assert !Clash(rows[k], rows[i]);
            }
          }
          forall k, l | k in rows && l in rows && OnPort(rows[k], node, port) && OnPort(rows[l], node, port) && k != l
            ensures rows[k].domain != rows[l].domain
          {
            assert !Clash(rows[k], rows[l]);
          }
        }
      }
    }
    if forall node, port :: SingleRow(rows, node, port) || DistinctDomains(rows, node, port) {
      forall i, j | i in rows && j in rows && i != j ensures !Clash(rows[i], rows[j]) {
        if SamePort(rows[i], rows[j]) {
          assert SingleRow(rows, rows[i].node, rows[i].port) || DistinctDomains(rows, rows[i].node, rows[i].port);
        }
      }
    }
  }

  // ----- The proxy chosen for a host ----------------------------------------------------

  /** A listener's route table: the proxies of one port, keyed by domain. */
  ghost predicate RoutesOf(routes: map<string, int>, rows: map<int, Row>, node: Option<int>, port: int) {
    && (forall d | d in routes ::
      routes[d] in rows && OnPort(rows[routes[d]], node, port) && rows[routes[d]].domain == d)
    && (forall i | i in rows && OnPort(rows[i], node, port) :: rows[i].domain in routes)
  }

  lemma NoClash(rows: map<int, Row>, i: int, j: int)
    requires ConflictFree(rows)
    ensures i in rows && j in rows && Clash(rows[i], rows[j]) ==> i == j
  {
  }

  lemma SameRoutes(rows: map<int, Row>, node: Option<int>, port: int, routes: map<string, int>, other: map<string, int>)
    requires ConflictFree(rows) && RoutesOf(routes, rows, node, port) && RoutesOf(other, rows, node, port)
    ensures forall d | d in routes :: d in other && other[d] == routes[d]
  {
    forall d | d in routes ensures d in other && other[d] == routes[d] {
      var i := routes[d];
      assert OnPort(rows[i], node, port) && rows[i].domain == d;
      assert rows[i].domain in other;
      NoClash(rows, i, other[d]);
    }
  }

  /** Behind the triggers, the table of a port and the proxy found for a host do not depend on the
      order in which the rows were entered. */
  lemma ChosenProxyIsUnique(rows: map<int, Row>, statements: seq<Statement>, node: Option<int>, port: int, host: string,
                            routes: map<string, int>, other: map<string, int>)
    requires ConflictFree(rows)
    requires var after := Run(rows, statements);
      RoutesOf(routes, after, node, port) && RoutesOf(other, after, node, port)
    ensures routes == other
    ensures FindRoute(routes, host) == FindRoute(other, host)
    ensures FindRoute(routes, host).Some? ==>
      exists d :: IsBest(routes, host, d) && forall i | i in Run(rows, statements)
        && OnPort(Run(rows, statements)[i], node, port) && Run(rows, statements)[i].domain == d ::
          i == FindRoute(routes, host).value
  {
    var after := Run(rows, statements);
    RunKeepsConflictFree(rows, statements);
    SameRoutes(after, node, port, routes, other);
    SameRoutes(after, node, port, other, routes);
    FindRouteIsBest(routes, host);
    if FindRoute(routes, host).Some? {
      var d :| IsBest(routes, host, d) && FindRoute(routes, host).value == routes[d];
      forall i | i in after && OnPort(after[i], node, port) && after[i].domain == d ensures i == routes[d] {
        assert !Clash(after[i], after[routes[d]]) || i == routes[d];
      }
    }
  }
}
