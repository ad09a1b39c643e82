// The store behind the models of project_core/models.py: one table per
// model, the delete rules declared by each foreign key's `on_delete`, the
// uniqueness of each OneToOneField, and DetallePedido.save's recomputation
// of `subtotal` and `total` before the row is written.

module Ledger {
  import opened Rows
  import opened LineItems
  import opened OrderTotals

  /** Why the store refuses a write. */
  datatype Refusal =
    | Restricted           // on_delete=RESTRICT: some row still references the row being deleted
    | ForeignKeyViolation  // the row references a row that does not exist
    | UniqueViolation      // the row's OneToOneField value is already held by another row

  datatype Outcome = Done | Refused(reason: Refusal)

  /** The contents of every table at one moment. */
  datatype Tables = Tables(
    products: map<Sku, Product>,
    prices: map<RowId, Price>,
    inventories: map<RowId, Inventory>,
    customers: map<RowId, Customer>,
    orders: map<RowId, Order>,
    details: seq<LineItem>,
    carriers: map<RowId, Carrier>)

  /** The price table without the rows of product `sku` (the cascade from Producto). */
  function PricesNotOf(m: map<RowId, Price>, sku: Sku): map<RowId, Price> {
    map k | k in m && m[k].product != sku :: m[k]
  }

  /** The inventory table without the rows of product `sku` (the cascade from Producto). */
  function InventoriesNotOf(m: map<RowId, Inventory>, sku: Sku): map<RowId, Inventory> {
    map k | k in m && m[k].product != sku :: m[k]
  }

  /** The carrier table without the rows of order `o` (the cascade from Pedido). */
  function CarriersNotOf(m: map<RowId, Carrier>, o: RowId): map<RowId, Carrier> {
    map k | k in m && m[k].order != o :: m[k]
  }

  /** Some line item sells product `sku`. */
  predicate ProductSold(items: seq<LineItem>, sku: Sku) {
    exists d | d in items :: d.product == sku
  }

  /** Customer `c` has at least one order. */
  predicate HasOrders(orders: map<RowId, Order>, c: RowId) {
    exists k | k in orders :: orders[k].customer == c
  }

  /** A price row other than `id` already belongs to product `sku`. */
  predicate PriceTaken(prices: map<RowId, Price>, id: RowId, sku: Sku) {
    exists k | k in prices && k != id :: prices[k].product == sku
  }

  /** An inventory row other than `id` already belongs to product `sku`. */
  predicate InventoryTaken(inventories: map<RowId, Inventory>, id: RowId, sku: Sku) {
    exists k | k in inventories && k != id :: inventories[k].product == sku
  }

  /** A carrier row other than `id` already belongs to order `o`. */
  predicate CarrierTaken(carriers: map<RowId, Carrier>, id: RowId, o: RowId) {
    exists k | k in carriers && k != id :: carriers[k].order == o
  }

  /** Every foreign key names an existing row. */
  ghost predicate ForeignKeysHold(t: Tables) {
    && (forall k | k in t.prices :: t.prices[k].product in t.products)
    && (forall k | k in t.inventories :: t.inventories[k].product in t.products)
    && (forall k | k in t.orders :: t.orders[k].customer in t.customers)
    && (forall d | d in t.details :: d.order in t.orders && d.product in t.products)
    && (forall k | k in t.carriers :: t.carriers[k].order in t.orders)
  }

  /** Each product has at most one price and one inventory, each order at most one carrier. */
  ghost predicate OneToOneHold(t: Tables) {
    && (forall k, k' | k in t.prices && k' in t.prices && t.prices[k].product == t.prices[k'].product :: k == k')
    && (forall k, k' | k in t.inventories && k' in t.inventories && t.inventories[k].product == t.inventories[k'].product :: k == k')
    && (forall k, k' | k in t.carriers && k' in t.carriers && t.carriers[k].order == t.carriers[k'].order :: k == k')
  }

  /** The integrity the store keeps between writes. */
  ghost predicate Consistent(t: Tables) {
    && ForeignKeysHold(t)
    && OneToOneHold(t)
    && (forall d | d in t.details :: IsSaved(d))
    && DistinctIds(t.details)
  }

  lemma AtMostOneKey(ks: set<RowId>)
    requires forall k, k' | k in ks && k' in ks :: k == k'
    ensures |ks| <= 1
  {
    if ks != {} {
      var k :| k in ks;
      assert ks == {k};
    }
  }

  /** The keys of the price rows of product `sku`. */
  function PriceRowsOf(m: map<RowId, Price>, sku: Sku): set<RowId> {
    set k | k in m && m[k].product == sku
  }

  /** The keys of the inventory rows of product `sku`. */
  function InventoryRowsOf(m: map<RowId, Inventory>, sku: Sku): set<RowId> {
    set k | k in m && m[k].product == sku
  }

  /** The keys of the carrier rows of order `o`. */
  function CarrierRowsOf(m: map<RowId, Carrier>, o: RowId): set<RowId> {
    set k | k in m && m[k].order == o
  }

  /** Precio.producto is a OneToOneField: in a consistent store a product has at most one price row. */
  lemma OnePricePerProduct(t: Tables, sku: Sku)
    requires Consistent(t)
    ensures |PriceRowsOf(t.prices, sku)| <= 1
  {
    AtMostOneKey(PriceRowsOf(t.prices, sku));
  }

  /** Inventario.producto is a OneToOneField: in a consistent store a product has at most one inventory row. */
  lemma OneInventoryPerProduct(t: Tables, sku: Sku)
    requires Consistent(t)
    ensures |InventoryRowsOf(t.inventories, sku)| <= 1
  {
    AtMostOneKey(InventoryRowsOf(t.inventories, sku));
  }

  /** Transportista.pedido is a OneToOneField: in a consistent store an order has at most one carrier row. */
  lemma OneCarrierPerOrder(t: Tables, o: RowId)
    requires Consistent(t)
    ensures |CarrierRowsOf(t.carriers, o)| <= 1
  {
    AtMostOneKey(CarrierRowsOf(t.carriers, o));
  }

  /** In a consistent store an order that does not exist has no line items, so its total is 0. */
  lemma MissingOrderTotalsZero(t: Tables, o: RowId)
    requires Consistent(t) && o !in t.orders
    ensures OrderTotal(t.details, o) == 0
  {
  }

  /** The database: one field per table. */
  class Store {
    var products: map<Sku, Product>
    var prices: map<RowId, Price>
    var inventories: map<RowId, Inventory>
    var customers: map<RowId, Customer>
    var orders: map<RowId, Order>
    var details: seq<LineItem>
    var carriers: map<RowId, Carrier>

    ghost function Snapshot(): Tables
      reads this
    {
      Tables(products, prices, inventories, customers, orders, details, carriers)
    }

    ghost predicate Valid()
      reads this
    {
      Consistent(Snapshot())
    }

    constructor ()
      ensures Valid()
      ensures Snapshot() == Tables(map[], map[], map[], map[], map[], [], map[])
    {
      products, prices, inventories, customers := map[], map[], map[], map[];
      orders, details, carriers := map[], [], map[];
    }

    /** Pedido.monto_total of order `o`, read from the current line items. */
    method OrderAmount(o: RowId) returns (t: Cents)
      requires Valid()
      ensures t == SumTotals(RowsOf(details, o))
      ensures o !in orders ==> t == 0
    {
      t := OrderTotal(details, o);
    }

    /** Producto.save: insert or update the product with key `sku`. */
    method SaveProduct(sku: Sku, p: Product)
      requires Valid()
      modifies this
      ensures Valid()
      ensures Snapshot() == old(Snapshot()).(products := old(products)[sku := p])
    {
      products := products[sku := p];
    }

    /** Cliente.save: insert or update customer `id`. */
    method SaveCustomer(id: RowId, c: Customer)
      requires Valid()
      modifies this
      ensures Valid()
      ensures Snapshot() == old(Snapshot()).(customers := old(customers)[id := c])
    {
      customers := customers[id := c];
    }

    /** Pedido.save: insert or update order `id`; its customer must exist. */
    method SaveOrder(id: RowId, o: Order) returns (r: Outcome)
      requires Valid()
      modifies this
      ensures Valid()
      ensures r == if o.customer in old(customers) then Done else Refused(ForeignKeyViolation)
      ensures r.Refused? ==> Snapshot() == old(Snapshot())
      ensures r.Done? ==> Snapshot() == old(Snapshot()).(orders := old(orders)[id := o])
    {
      if o.customer !in customers {
        return Refused(ForeignKeyViolation);
      }
      orders := orders[id := o];
      r := Done;
    }

    /** Precio.save: insert or update price row `id`; one price per existing product. */
    method SavePrice(id: RowId, p: Price) returns (r: Outcome)
      requires Valid()
      modifies this
      ensures Valid()
      ensures r == if p.product !in old(products) then Refused(ForeignKeyViolation)
                   else if PriceTaken(old(prices), id, p.product) then Refused(UniqueViolation)
                   else Done
      ensures r.Refused? ==> Snapshot() == old(Snapshot())
      ensures r.Done? ==> Snapshot() == old(Snapshot()).(prices := old(prices)[id := p])
    {
      if p.product !in products {
        return Refused(ForeignKeyViolation);
      }
      if PriceTaken(prices, id, p.product) {
        return Refused(UniqueViolation);
      }
      prices := prices[id := p];
      r := Done;
    }

    /** Inventario.save: insert or update inventory row `id`; one inventory per existing product. */
    method SaveInventory(id: RowId, inv: Inventory) returns (r: Outcome)
      requires Valid()
      modifies this
      ensures Valid()
      ensures r == if inv.product !in old(products) then Refused(ForeignKeyViolation)
                   else if InventoryTaken(old(inventories), id, inv.product) then Refused(UniqueViolation)
                   else Done
      ensures r.Refused? ==> Snapshot() == old(Snapshot())
      ensures r.Done? ==> Snapshot() == old(Snapshot()).(inventories := old(inventories)[id := inv])
    {
      if inv.product !in products {
        return Refused(ForeignKeyViolation);
      }
      if InventoryTaken(inventories, id, inv.product) {
        return Refused(UniqueViolation);
      }
      inventories := inventories[id := inv];
      r := Done;
    }

    /** Transportista.save: insert or update carrier row `id`; one carrier per existing order. */
    method SaveCarrier(id: RowId, c: Carrier) returns (r: Outcome)
      requires Valid()
      modifies this
      ensures Valid()
      ensures r == if c.order !in old(orders) then Refused(ForeignKeyViolation)
                   else if CarrierTaken(old(carriers), id, c.order) then Refused(UniqueViolation)
                   else Done
      ensures r.Refused? ==> Snapshot() == old(Snapshot())
      ensures r.Done? ==> Snapshot() == old(Snapshot()).(carriers := old(carriers)[id := c])
    {
      if c.order !in orders {
        return Refused(ForeignKeyViolation);
      }
      if CarrierTaken(carriers, id, c.order) {
        return Refused(UniqueViolation);
      }
      carriers := carriers[id := c];
      r := Done;
    }

    /**
     * DetallePedido.save: `subtotal` and then `total` are assigned from the
     * row's inputs, whatever it held, and the row is then written (UPDATE of
     * the row with the same key, or INSERT). The assignments happen before
     * the write, so `saved` carries them even when the write is refused.
     */
    method SaveLineItem(d: LineItem) returns (r: Outcome, saved: LineItem)
      requires Valid()
      modifies this
      ensures Valid()
      ensures saved == Recompute(d)
      ensures saved.subtotal == d.quantity * d.unitPrice && saved.total == saved.subtotal - d.discount
      ensures r == if d.order in old(orders) && d.product in old(products) then Done else Refused(ForeignKeyViolation)
      ensures r.Refused? ==> Snapshot() == old(Snapshot())
      ensures r.Done? ==> Snapshot() == old(Snapshot()).(details := Upsert(old(details), saved))
      ensures r.Done? ==> forall o ::
                OrderTotal(details, o) == OrderTotal(old(details), o) - ShareOf(FindById(old(details), d.id), o) + Share(saved, o)
    {
      saved := d.(subtotal := d.quantity * d.unitPrice);
      saved := saved.(total := saved.subtotal - saved.discount);
      if d.order !in orders || d.product !in products {
        r := Refused(ForeignKeyViolation);
        return;
      }
      UpsertKeepsIdsDistinct(details, saved);
      forall o ensures OrderTotal(Upsert(details, saved), o) ==
          OrderTotal(details, o) - ShareOf(FindById(details, d.id), o) + Share(saved, o) {
        OrderTotalUpsert(details, saved, o);
      }
      details := Upsert(details, saved);
      r := Done;
    }

    /** DetallePedido.delete: the row with key `id` goes; nothing references a line item. */
    method DeleteLineItem(id: RowId)
      requires Valid()
      modifies this
      ensures Valid()
      ensures Snapshot() == old(Snapshot()).(details := WithoutId(old(details), id))
      ensures forall o :: OrderTotal(details, o) == OrderTotal(old(details), o) - ShareOf(FindById(old(details), id), o)
    {
      WithoutIdKeepsIdsDistinct(details, id);
      forall o ensures OrderTotal(WithoutId(details, id), o) == OrderTotal(details, o) - ShareOf(FindById(details, id), o) {
        OrderTotalWithoutId(details, id, o);
      }
      details := WithoutId(details, id);
    }

    /**
     * Pedido.delete: the order goes, and with it (on_delete=CASCADE) its line
     * items and its carrier row; nothing else changes.
     */
    method DeleteOrder(id: RowId)
      requires Valid()
      modifies this
      ensures Valid()
      ensures Snapshot() == old(Snapshot()).(
                orders := old(orders) - {id},
                details := WithoutOrder(old(details), id),
                carriers := CarriersNotOf(old(carriers), id))
      ensures forall o :: OrderTotal(details, o) == if o == id then 0 else OrderTotal(old(details), o)
    {
      WithoutOrderKeepsIdsDistinct(details, id);
      forall o ensures OrderTotal(WithoutOrder(details, id), o) == if o == id then 0 else OrderTotal(details, o) {
        OrderTotalWithoutOrder(details, id, o);
      }
      orders := orders - {id};
      details := WithoutOrder(details, id);
      carriers := CarriersNotOf(carriers, id);
    }

    /** Cliente.delete: refused (on_delete=RESTRICT) while the customer has an order. */
    method DeleteCustomer(id: RowId) returns (r: Outcome)
      requires Valid()
      modifies this
      ensures Valid()
      ensures r == if HasOrders(old(orders), id) then Refused(Restricted) else Done
      ensures r.Refused? ==> Snapshot() == old(Snapshot())
      ensures r.Done? ==> Snapshot() == old(Snapshot()).(customers := old(customers) - {id})
    {
      if HasOrders(orders, id) {
        return Refused(Restricted);
      }
      customers := customers - {id};
      r := Done;
    }

    /**
     * Producto.delete: refused (on_delete=RESTRICT) while a line item sells
     * the product; otherwise the product goes, and with it (on_delete=CASCADE)
     * its price and inventory rows; nothing else changes.
     */
    method DeleteProduct(sku: Sku) returns (r: Outcome)
      requires Valid()
      modifies this
      ensures Valid()
      ensures r == if ProductSold(old(details), sku) then Refused(Restricted) else Done
      ensures r.Refused? ==> Snapshot() == old(Snapshot())
      ensures r.Done? ==> Snapshot() == old(Snapshot()).(
                products := old(products) - {sku},
                prices := PricesNotOf(old(prices), sku),
                inventories := InventoriesNotOf(old(inventories), sku))
    {
      if ProductSold(details, sku) {
        return Refused(Restricted);
      }
      products := products - {sku};
      prices := PricesNotOf(prices, sku);
      inventories := InventoriesNotOf(inventories, sku);
      r := Done;
    }
  }
}
