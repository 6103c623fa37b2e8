/** Cursor-paged reads of an asset's holders, as the dividend and governance snapshots make them. */
module Snapshots {
  import opened Common
  import opened Balances

  /** A balance row of one asset; ids are unique and the query sorts by them. */
  datatype HoldingRow = HoldingRow(id: nat, user: UserId, available: real, locked: real)

  function HeldBy(row: HoldingRow): real {
    row.available + row.locked
  }

  ghost predicate SortedById(rows: seq<HoldingRow>) {
    forall i, j :: 0 <= i < j < |rows| ==> rows[i].id < rows[j].id
  }

  /** The rows the query selects: those with something in either pocket. */
  function Held(table: seq<HoldingRow>): seq<HoldingRow> {
    if table == [] then []
    else
      var n := |table| - 1;
      Held(table[..n]) + if table[n].available > 0.0 || table[n].locked > 0.0 then [table[n]] else []
  }

  /** The selected rows after a cursor. */
  function Beyond(rows: seq<HoldingRow>, cursor: Option<nat>): seq<HoldingRow> {
    if rows == [] then []
    else if cursor.Some? && rows[0].id <= cursor.value then Beyond(rows[1..], cursor)
    else [rows[0]] + Beyond(rows[1..], cursor)
  }

  /** One page of the query. */
  function Page(table: seq<HoldingRow>, cursor: Option<nat>, take: nat): seq<HoldingRow> {
    var rows := Beyond(Held(table), cursor);
    if |rows| <= take then rows else rows[..take]
  }

  lemma {:induction false} HeldMembers(table: seq<HoldingRow>)
    requires SortedById(table)
    ensures SortedById(Held(table))
    ensures forall row :: row in Held(table) <==> row in table && (row.available > 0.0 || row.locked > 0.0)
  {
    if table != [] {
      var n := |table| - 1;
      HeldMembers(table[..n]);
      assert table == table[..n] + [table[n]];
      forall i | 0 <= i < |Held(table[..n])|
        ensures Held(table[..n])[i].id < table[n].id
      {
        assert Held(table[..n])[i] in table[..n];
      }
    }
  }

  lemma {:induction false} BeyondAll(rows: seq<HoldingRow>, cursor: Option<nat>)
    requires cursor.Some? ==> forall i :: 0 <= i < |rows| ==> rows[i].id > cursor.value
    ensures Beyond(rows, cursor) == rows
  {
    if rows != [] {
      BeyondAll(rows[1..], cursor);
    }
  }

  /** A cursor at the last row of a page leaves exactly the rows after that page. */
  lemma {:induction false} BeyondSplit(rows: seq<HoldingRow>, n: nat)
    requires SortedById(rows) && 0 < n <= |rows|
    ensures Beyond(rows, Some(rows[n - 1].id)) == rows[n..]
  {
    if n == 1 {
      BeyondAll(rows[1..], Some(rows[0].id));
    } else {
      BeyondSplit(rows[1..], n - 1);
      assert rows[1..][n - 1..] == rows[n..];
    }
  }

  /** Where a paging loop stands once it has gone through some of the selected rows. */
  ghost predicate Visited(table: seq<HoldingRow>, cursor: Option<nat>, done: seq<HoldingRow>) {
    && SortedById(Held(table))
    && |done| <= |Held(table)|
    && done == Held(table)[..|done|]
    && (if done == [] then cursor.None? else cursor == Some(done[|done| - 1].id))
  }

  lemma VisitedNone(table: seq<HoldingRow>)
    requires SortedById(table)
    ensures Visited(table, None, [])
  {
    HeldMembers(table);
  }

  /** The next page continues where the last one ended, and is empty only at the end. */
  lemma NextPage(table: seq<HoldingRow>, cursor: Option<nat>, done: seq<HoldingRow>, take: nat)
    requires take > 0 && Visited(table, cursor, done)
    ensures var page := Page(table, cursor, take);
            && (page == [] ==> done == Held(table))
            && (page != [] ==> Visited(table, Some(page[|page| - 1].id), done + page))
  {
    var held, n, page := Held(table), |done|, Page(table, cursor, take);
    if n == 0 {
      BeyondAll(held, cursor);
    } else {
      BeyondSplit(held, n);
    }
    assert Beyond(held, cursor) == held[n..];
    PageOf(held, n, take, page);
  }

  lemma PageOf<T>(rows: seq<T>, n: nat, take: nat, page: seq<T>)
    requires n <= |rows| && page == if |rows[n..]| <= take then rows[n..] else rows[n..][..take]
    ensures n + |page| <= |rows| && rows[..n] + page == rows[..n + |page|]
    ensures take > 0 && page == [] ==> rows[..n] == rows
  {
    assert page == rows[n..n + |page|];
  }
}
