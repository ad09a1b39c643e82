// The derived columns of a line item (DetallePedido, project_core/models.py):
// every save overwrites `subtotal` and `total` from `quantity`, `unitPrice`
// and `discount`, whatever the row held before.

module LineItems {
  import opened Rows

  /** The derived columns agree with the inputs they are computed from. */
  predicate IsSaved(d: LineItem) {
    d.subtotal == d.quantity * d.unitPrice && d.total == d.subtotal - d.discount
  }

  /**
   * A line item built without a discount: the column's default of 0.00.
   * `subtotal` and `total` start at 0 and are filled in by the save.
   */
  function Undiscounted(id: RowId, order: RowId, product: Sku, quantity: int, unitPrice: Cents): LineItem {
    LineItem(id, order, product, quantity, unitPrice, 0, 0, 0)
  }

  /**
   * The pre-persist transform of DetallePedido.save: the result is a saved
   * row that keeps every input column of `d`.
   */
  function Recompute(d: LineItem): (r: LineItem)
    ensures IsSaved(r)
    ensures r.id == d.id && r.order == d.order && r.product == d.product
    ensures r.quantity == d.quantity && r.unitPrice == d.unitPrice && r.discount == d.discount
  {
    var withSubtotal := d.(subtotal := d.quantity * d.unitPrice);
    withSubtotal.(total := withSubtotal.subtotal - withSubtotal.discount)
  }

  /** Whatever subtotal and total the caller put in the row are discarded. */
  lemma RecomputeDiscardsStoredValues(d: LineItem, subtotal: Cents, total: Cents)
    ensures Recompute(d.(subtotal := subtotal, total := total)) == Recompute(d)
  {
  }

  /** Two rows that agree on quantity, unit price and discount get the same derived columns. */
  lemma RecomputeDependsOnInputsOnly(d: LineItem, e: LineItem)
    requires d.quantity == e.quantity && d.unitPrice == e.unitPrice && d.discount == e.discount
    ensures Recompute(d).subtotal == Recompute(e).subtotal
    ensures Recompute(d).total == Recompute(e).total
  {
  }

  /** Saving an unchanged row again changes nothing; the saved rows are exactly the fixpoints. */
  lemma RecomputeIdempotent(d: LineItem)
    ensures Recompute(Recompute(d)) == Recompute(d)
    ensures IsSaved(d) <==> Recompute(d) == d
  {
  }

  /**
   * With a discount of 0 the total equals the subtotal. This is the case of
   * a discount of zero held as a decimal; the column's literal default is a
   * float, for which the subtraction is not defined on a decimal subtotal.
   */
  lemma UndiscountedTotalIsSubtotal(id: RowId, order: RowId, product: Sku, quantity: int, unitPrice: Cents)
    ensures Recompute(Undiscounted(id, order, product, quantity, unitPrice)).total == quantity * unitPrice
  {
  }

  /** A discount larger than the subtotal is accepted and gives a negative total. */
  lemma DiscountMayExceedSubtotal(d: LineItem)
    requires d.discount > d.quantity * d.unitPrice
    ensures Recompute(d).total < 0
  {
  }

  /**
   * Changing the quantity and saving again recomputes both columns:
   * 3 x 4.00 less 1.00 is 12.00 / 11.00; with quantity 5 it is 20.00 / 19.00.
   */
  lemma QuantityChangeRecomputes(d: LineItem)
    requires d.quantity == 3 && d.unitPrice == 400 && d.discount == 100
    ensures Recompute(d).subtotal == 1200 && Recompute(d).total == 1100
    ensures Recompute(Recompute(d).(quantity := 5)).subtotal == 2000
    ensures Recompute(Recompute(d).(quantity := 5)).total == 1900
  {
  }
}
