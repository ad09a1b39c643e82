// Pedido.monto_total (project_core/models.py): the SQL SUM of `total` over
// the order's line items, read fresh from the line-item table each time,
// with 0.00 in place of the NULL that SUM gives over no rows. Also the
// table operations on the line-item table that the store performs, with
// how each of them moves every order's total.

module OrderTotals {
  import opened Rows

  /** No two rows of the line-item table share a primary key. */
  ghost predicate DistinctIds(items: seq<LineItem>) {
    forall i, j | 0 <= i < j < |items| :: items[i].id != items[j].id
  }

  /** What one row adds to the total of order `o`. */
  function Share(d: LineItem, o: RowId): Cents {
    if d.order == o then d.total else 0
  }

  /** What a row that may be absent adds to the total of order `o`. */
  function ShareOf(row: Option<LineItem>, o: RowId): Cents {
    match row
    case None => 0
    case Some(d) => Share(d, o)
  }

  /** The related manager `pedido.detalles`: the rows whose order is `o`, in table order. */
  function RowsOf(items: seq<LineItem>, o: RowId): (r: seq<LineItem>)
    ensures |r| <= |items|
    ensures forall d :: d in r <==> d in items && d.order == o
    ensures forall d :: multiset(r)[d] == if d.order == o then multiset(items)[d] else 0
  {
    if items == [] then []
    else
      assert multiset(items) == multiset{items[0]} + multiset(items[1..]) by {
        assert items == [items[0]] + items[1..];
      }
      if items[0].order == o then [items[0]] + RowsOf(items[1..], o)
      else RowsOf(items[1..], o)
  }

  /** The sum of the `total` column over `rows`. */
  function SumTotals(rows: seq<LineItem>): Cents {
    if rows == [] then 0 else rows[0].total + SumTotals(rows[1..])
  }

  /** SQL SUM over the `total` column: NULL (None) over no rows. */
  function SumAggregate(rows: seq<LineItem>): Option<Cents> {
    if rows == [] then None else Some(SumTotals(rows))
  }

  /**
   * Pedido.monto_total: the aggregate, or 0 when it is NULL. The fallback
   * agrees with the plain sum, and an order without rows totals 0.
   */
  function OrderTotal(items: seq<LineItem>, o: RowId): (t: Cents)
    ensures t == SumTotals(RowsOf(items, o))
    ensures (forall d | d in items :: d.order != o) ==> t == 0
  {
    match SumAggregate(RowsOf(items, o))
    case None => 0
    case Some(s) => s
  }

  /** The first row whose primary key is `id`, if any. */
  function FindById(items: seq<LineItem>, id: RowId): (r: Option<LineItem>)
    ensures r.Some? ==> r.value in items && r.value.id == id
    ensures r.None? <==> forall d | d in items :: d.id != id
  {
    if items == [] then None
    else if items[0].id == id then Some(items[0])
    else FindById(items[1..], id)
  }

  /**
   * Model.save on the line-item table: the row with the same primary key is
   * replaced in place (UPDATE), or the row is appended when there is none (INSERT).
   */
  function Upsert(items: seq<LineItem>, d: LineItem): (r: seq<LineItem>)
    ensures d in r
    ensures forall x | x in r :: x == d || x in items
    ensures forall x | x in items && x.id != d.id :: x in r
    ensures |r| == if FindById(items, d.id).Some? then |items| else |items| + 1
  {
    if items == [] then [d]
    else if items[0].id == d.id then [d] + items[1..]
    else [items[0]] + Upsert(items[1..], d)
  }

  /** The cascade of deleting order `o`: every row of `o` goes, every other row stays. */
  function WithoutOrder(items: seq<LineItem>, o: RowId): (r: seq<LineItem>)
    ensures forall d :: d in r <==> d in items && d.order != o
  {
    if items == [] then []
    else if items[0].order == o then WithoutOrder(items[1..], o)
    else [items[0]] + WithoutOrder(items[1..], o)
  }

  /** DELETE of the row with primary key `id`: every other row stays. */
  function WithoutId(items: seq<LineItem>, id: RowId): (r: seq<LineItem>)
    ensures forall d :: d in r <==> d in items && d.id != id
  {
    if items == [] then []
    else if items[0].id == id then WithoutId(items[1..], id)
    else [items[0]] + WithoutId(items[1..], id)
  }

  /** The total as a fold: the first row's share plus the total of the rest. */
  lemma {:induction false} OrderTotalUnfold(items: seq<LineItem>, o: RowId)
    requires items != []
    ensures OrderTotal(items, o) == Share(items[0], o) + OrderTotal(items[1..], o)
  {
  }

  lemma {:induction false} OrderTotalConcat(a: seq<LineItem>, b: seq<LineItem>, o: RowId)
    ensures OrderTotal(a + b, o) == OrderTotal(a, o) + OrderTotal(b, o)
  {
    if a == [] {
      assert a + b == b;
    } else {
      assert (a + b)[1..] == a[1..] + b;
      OrderTotalUnfold(a + b, o);
      OrderTotalUnfold(a, o);
      OrderTotalConcat(a[1..], b, o);
    }
  }

  lemma OrderTotalSingleton(d: LineItem, o: RowId)
    ensures OrderTotal([d], o) == Share(d, o)
  {
    OrderTotalUnfold([d], o);
  }

  /** Adding a row raises its own order's total by the row's total and leaves every other order's alone. */
  lemma OrderTotalAppend(items: seq<LineItem>, d: LineItem, o: RowId)
    ensures OrderTotal(items + [d], o) == OrderTotal(items, o) + Share(d, o)
    ensures d.order != o ==> OrderTotal(items + [d], o) == OrderTotal(items, o)
  {
    OrderTotalConcat(items, [d], o);
    OrderTotalSingleton(d, o);
  }

  /** A row of another order, wherever it stands, does not affect the total of `o`. */
  lemma OrderTotalIgnoresOtherOrders(a: seq<LineItem>, d: LineItem, b: seq<LineItem>, o: RowId)
    requires d.order != o
    ensures OrderTotal(a + [d] + b, o) == OrderTotal(a + b, o)
  {
    OrderTotalInsertAnywhere(a, d, b, o);
  }

  /** The total depends only on the rows of `o`. */
  lemma {:induction false} OrderTotalOfOwnRows(items: seq<LineItem>, o: RowId)
    ensures OrderTotal(RowsOf(items, o), o) == OrderTotal(items, o)
  {
    if items != [] {
      OrderTotalUnfold(items, o);
      OrderTotalOfOwnRows(items[1..], o);
      if items[0].order == o {
        OrderTotalUnfold(RowsOf(items, o), o);
        assert RowsOf(items, o)[1..] == RowsOf(items[1..], o);
      }
    }
  }

  /** Replacing one row moves the total by the difference of the two rows' shares. */
  lemma OrderTotalReplace(items: seq<LineItem>, i: nat, d: LineItem, o: RowId)
    requires i < |items|
    ensures OrderTotal(items[i := d], o) == OrderTotal(items, o) - Share(items[i], o) + Share(d, o)
  {
    var before, after := items[..i], items[i + 1..];
    assert items == before + [items[i]] + after;
    assert items[i := d] == before + [d] + after;
    OrderTotalConcat(before + [items[i]], after, o);
    OrderTotalConcat(before + [d], after, o);
    OrderTotalAppend(before, items[i], o);
    OrderTotalAppend(before, d, o);
  }

  /** The table has no row order: rearranging its rows leaves every total unchanged. */
  lemma {:induction false} OrderTotalPermutation(a: seq<LineItem>, b: seq<LineItem>, o: RowId)
    requires multiset(a) == multiset(b)
    ensures OrderTotal(a, o) == OrderTotal(b, o)
    decreases |a|
  {
    if a == [] {
      assert b == [] by { assert |b| == |multiset(b)| == 0; }
    } else {
      var x := a[0];
      assert x in multiset(b);
      var i :| 0 <= i < |b| && b[i] == x;
      var rest := b[..i] + b[i + 1..];
      calc {
        multiset(rest);
        multiset(b[..i]) + multiset(b[i + 1..]);
        multiset(b[..i]) + multiset{x} + multiset(b[i + 1..]) - multiset{x};
        { assert b == b[..i] + [x] + b[i + 1..]; }
        multiset(b) - multiset{x};
        multiset(a) - multiset{x};
        { assert a == [x] + a[1..]; }
        multiset(a[1..]);
      }
      OrderTotalPermutation(a[1..], rest, o);
      OrderTotalUnfold(a, o);
      assert b == b[..i] + [x] + b[i + 1..];
      OrderTotalInsertAnywhere(b[..i], x, b[i + 1..], o);
    }
  }

  /** A row standing anywhere adds its share to the total of the rows around it. */
  lemma OrderTotalInsertAnywhere(a: seq<LineItem>, d: LineItem, b: seq<LineItem>, o: RowId)
    ensures OrderTotal(a + [d] + b, o) == OrderTotal(a + b, o) + Share(d, o)
  {
    OrderTotalConcat(a + [d], b, o);
    OrderTotalAppend(a, d, o);
    OrderTotalConcat(a, b, o);
  }

  /** Saving a row moves each order's total by the new row's share less the share of the row it replaces. */
  lemma {:induction false} OrderTotalUpsert(items: seq<LineItem>, d: LineItem, o: RowId)
    ensures OrderTotal(Upsert(items, d), o) == OrderTotal(items, o) - ShareOf(FindById(items, d.id), o) + Share(d, o)
  {
    if items == [] {
      OrderTotalSingleton(d, o);
    } else {
      OrderTotalUnfold(items, o);
      OrderTotalUnfold(Upsert(items, d), o);
      if items[0].id == d.id {
        assert Upsert(items, d)[1..] == items[1..];
      } else {
        assert Upsert(items, d)[1..] == Upsert(items[1..], d);
        OrderTotalUpsert(items[1..], d, o);
      }
    }
  }

  /** Deleting order `o` leaves it with no rows and every other order's total as it was. */
  lemma {:induction false} OrderTotalWithoutOrder(items: seq<LineItem>, o: RowId, p: RowId)
    ensures OrderTotal(WithoutOrder(items, o), p) == if p == o then 0 else OrderTotal(items, p)
  {
    if items != [] {
      OrderTotalUnfold(items, p);
      OrderTotalWithoutOrder(items[1..], o, p);
      if items[0].order != o {
        OrderTotalUnfold(WithoutOrder(items, o), p);
        assert WithoutOrder(items, o)[1..] == WithoutOrder(items[1..], o);
      }
    }
  }

  /** Deleting the row with key `id` lowers each order's total by that row's share. */
  lemma {:induction false} OrderTotalWithoutId(items: seq<LineItem>, id: RowId, o: RowId)
    requires DistinctIds(items)
    ensures OrderTotal(WithoutId(items, id), o) == OrderTotal(items, o) - ShareOf(FindById(items, id), o)
  {
    if items != [] {
      OrderTotalUnfold(items, o);
      DistinctTail(items);
      OrderTotalWithoutId(items[1..], id, o);
      if items[0].id == id {
        assert FindById(items[1..], id).None? by {
          forall d | d in items[1..] ensures d.id != id {
            var k :| 0 <= k < |items[1..]| && items[1..][k] == d;
            assert items[k + 1] == d;
          }
        }
      } else {
        OrderTotalUnfold(WithoutId(items, id), o);
        assert WithoutId(items, id)[1..] == WithoutId(items[1..], id);
      }
    }
  }

  lemma DistinctTail(items: seq<LineItem>)
    requires items != [] && DistinctIds(items)
    ensures DistinctIds(items[1..])
    ensures forall d | d in items[1..] :: d.id != items[0].id
  {
    forall d | d in items[1..] ensures d.id != items[0].id {
      var k :| 0 <= k < |items[1..]| && items[1..][k] == d;
      assert items[k + 1] == d;
    }
  }

  lemma DistinctCons(x: LineItem, rest: seq<LineItem>)
    requires DistinctIds(rest)
    requires forall d | d in rest :: d.id != x.id
    ensures DistinctIds([x] + rest)
  {
    var s := [x] + rest;
    forall i, j | 0 <= i < j < |s| ensures s[i].id != s[j].id {
      assert s[j] == rest[j - 1];
      if i > 0 {
        assert s[i] == rest[i - 1];
      } else {
        assert rest[j - 1] in rest;
      }
    }
  }

  /** Saving a row keeps the primary keys distinct. */
  lemma {:induction false} UpsertKeepsIdsDistinct(items: seq<LineItem>, d: LineItem)
    requires DistinctIds(items)
    ensures DistinctIds(Upsert(items, d))
  {
    if items == [] {
    } else if items[0].id == d.id {
      DistinctTail(items);
      DistinctCons(d, items[1..]);
    } else {
      DistinctTail(items);
      UpsertKeepsIdsDistinct(items[1..], d);
      DistinctCons(items[0], Upsert(items[1..], d));
    }
  }

  /** The order cascade keeps the primary keys distinct. */
  lemma {:induction false} WithoutOrderKeepsIdsDistinct(items: seq<LineItem>, o: RowId)
    requires DistinctIds(items)
    ensures DistinctIds(WithoutOrder(items, o))
  {
    if items != [] {
      DistinctTail(items);
      WithoutOrderKeepsIdsDistinct(items[1..], o);
      if items[0].order != o {
        DistinctCons(items[0], WithoutOrder(items[1..], o));
      }
    }
  }

  /** Deleting a row keeps the primary keys distinct. */
  lemma {:induction false} WithoutIdKeepsIdsDistinct(items: seq<LineItem>, id: RowId)
    requires DistinctIds(items)
    ensures DistinctIds(WithoutId(items, id))
  {
    if items != [] {
      DistinctTail(items);
      WithoutIdKeepsIdsDistinct(items[1..], id);
      if items[0].id != id {
        DistinctCons(items[0], WithoutId(items[1..], id));
      }
    }
  }
}
