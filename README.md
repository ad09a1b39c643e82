# Papelería Santiago order ledger, in Dafny

This project models the data layer of the Papelería Santiago stationery store
(`Backend/papeleria_santiago/project_core/models.py`). The store keeps these
tables: products (`Producto`), their price (`Precio`) and inventory
(`Inventario`), customers (`Cliente`), orders (`Pedido`), order line items
(`DetallePedido`) and carrier records (`Transportista`).

The model has three parts:

- **Line-item save** (`line_items.dfy`, module `LineItems`). `DetallePedido.save`
  overwrites `subtotal` with `cantidad × precio_unitario`. It then overwrites
  `total` with `subtotal − descuento`. The row is written after that.
  `Recompute` is that transform as a function. `Ledger.Store.SaveLineItem`
  performs it step by step and then writes the row.
- **Order total** (`order_totals.dfy`, module `OrderTotals`). `Pedido.monto_total`
  is the SQL `SUM` of `total` over the order's line items. When there are none,
  `SUM` gives NULL and the property returns 0 instead. It is read fresh every
  time and never stored. `OrderTotal` models it as a fold over the line-item
  table. The lemmas describe how the total moves when rows are added, replaced,
  deleted, cascaded away or reordered.
- **Store** (`store.dfy`, module `Ledger`). The class `Store` has one field per
  table. Its methods model save and delete, with the rules the foreign keys
  declare:
  - `CASCADE` from a product to its price and inventory.
  - `CASCADE` from an order to its line items and carrier.
  - `RESTRICT` from a line item to its product.
  - `RESTRICT` from an order to its customer.
  - Uniqueness of every `OneToOneField`.
  - A row that names a missing row is refused, as the database's foreign-key
    constraint does.

  `Valid()` is the integrity the store keeps between writes. It covers
  foreign keys, one-to-one uniqueness, saved derived columns and distinct
  line-item keys. Every method preserves it. Every method also states its whole
  new state through `Snapshot()`.

Each money column is a `DecimalField` with two decimal places, so amounts are
exact integers of cents (`Cents`). The IVA percentage is held in hundredths
of a percent. The line-item table is a sequence of rows, each carrying its
primary key. `OrderTotalPermutation` shows that the row order does not affect
any total. All other tables are maps keyed by primary key. For the product
table that key is the SKU.

A `OneToOneField` only makes the dependent side unique, so a product may have
no price and no inventory, and an order may have no carrier. The model
therefore enforces at most one such row per product or order.

## Model

| member | source | states |
|---|---|---|
| `LineItems.Recompute` | Backend/papeleria_santiago/project_core/models.py:151-153 | the saved row has `subtotal == quantity * unitPrice` and `total == subtotal - discount`; every input column (key, order, product, quantity, unit price, discount) is kept |
| `LineItems.RecomputeDiscardsStoredValues` | Backend/papeleria_santiago/project_core/models.py:151-153 | whatever subtotal and total the row held before the save make no difference to the saved row |
| `LineItems.RecomputeDependsOnInputsOnly` | Backend/papeleria_santiago/project_core/models.py:151-153 | two rows with equal quantity, unit price and discount get equal subtotal and total |
| `LineItems.RecomputeIdempotent` | Backend/papeleria_santiago/project_core/models.py:151-154 | saving a saved row again changes nothing; a row is unchanged by saving exactly when its derived columns already agree with its inputs |
| `LineItems.UndiscountedTotalIsSubtotal` | Backend/papeleria_santiago/project_core/models.py:148-153 | with a discount of zero the saved total equals quantity × unit price (the float default is covered under Left out) |
| `LineItems.DiscountMayExceedSubtotal` | Backend/papeleria_santiago/project_core/models.py:153 | a discount larger than the subtotal is not clamped: the saved total is negative |
| `LineItems.QuantityChangeRecomputes` | Backend/papeleria_santiago/project_core/models.py:151-153 | 3 × 4.00 less 1.00 saves as 12.00 / 11.00; changing the quantity to 5 and saving again gives 20.00 / 19.00 |
| `OrderTotals.RowsOf` | Backend/papeleria_santiago/project_core/models.py:135-139 | the related rows `pedido.detalles` are exactly the line items whose order is `o`, each as many times as it occurs in the table |
| `OrderTotals.OrderTotal` | Backend/papeleria_santiago/project_core/models.py:120-124 | the NULL-to-0 fallback agrees with the plain sum of `total` over the order's rows; an order with no line items totals 0 |
| `OrderTotals.Upsert` | Backend/papeleria_santiago/project_core/models.py:151-154 | writing a saved row puts it in the table. Every row with another key stays. Nothing else enters. The table grows by one row exactly when no row had that key |
| `OrderTotals.WithoutOrder` | Backend/papeleria_santiago/project_core/models.py:135-139 | the line-item cascade of deleting order `o` keeps exactly the rows of other orders |
| `OrderTotals.WithoutId` | Backend/papeleria_santiago/project_core/models.py:132-149 | deleting a line item keeps exactly the rows with another key |
| `OrderTotals.OrderTotalUnfold` | Backend/papeleria_santiago/project_core/models.py:120-124 | the total is the first row's share plus the total of the remaining rows |
| `OrderTotals.OrderTotalConcat` | Backend/papeleria_santiago/project_core/models.py:120-124 | the total over two runs of rows is the sum of the totals over each |
| `OrderTotals.OrderTotalAppend` | Backend/papeleria_santiago/project_core/models.py:120-124 | adding a line item raises its own order's total by its `total` and leaves every other order's total unchanged |
| `OrderTotals.OrderTotalIgnoresOtherOrders` | Backend/papeleria_santiago/project_core/models.py:120-124 | a line item of another order, wherever it stands, does not change the total of `o` |
| `OrderTotals.OrderTotalInsertAnywhere` | Backend/papeleria_santiago/project_core/models.py:120-124 | a row inserted anywhere adds exactly its share to the total |
| `OrderTotals.OrderTotalOfOwnRows` | Backend/papeleria_santiago/project_core/models.py:120-124 | the total over the order's own rows equals the total over the whole table |
| `OrderTotals.OrderTotalReplace` | Backend/papeleria_santiago/project_core/models.py:120-124 | replacing one row moves the total by the new row's share less the old row's share |
| `OrderTotals.OrderTotalPermutation` | Backend/papeleria_santiago/project_core/models.py:120-124 | any rearrangement of the table's rows gives the same total for every order |
| `OrderTotals.OrderTotalUpsert` | Backend/papeleria_santiago/project_core/models.py:151-154 | saving a line item moves each order's total by the saved row's share less the share of the row with the same key it replaces (none on insert) |
| `OrderTotals.OrderTotalWithoutOrder` | Backend/papeleria_santiago/project_core/models.py:137 | after the cascade from order `o`, the total of `o` is 0 and every other order's total is unchanged |
| `OrderTotals.OrderTotalWithoutId` | Backend/papeleria_santiago/project_core/models.py:132-149 | with distinct keys, deleting a line item lowers its order's total by that row's `total` and changes no other order's total |
| `OrderTotals.UpsertKeepsIdsDistinct` | Backend/papeleria_santiago/project_core/models.py:151-154 | saving a line item keeps the table's primary keys distinct |
| `OrderTotals.WithoutOrderKeepsIdsDistinct` | Backend/papeleria_santiago/project_core/models.py:137 | the cascade from an order keeps the primary keys distinct |
| `OrderTotals.WithoutIdKeepsIdsDistinct` | Backend/papeleria_santiago/project_core/models.py:132-149 | deleting a line item keeps the primary keys distinct |
| `Ledger.OnePricePerProduct` | Backend/papeleria_santiago/project_core/models.py:42-46 | in a consistent store a product has at most one price row |
| `Ledger.OneInventoryPerProduct` | Backend/papeleria_santiago/project_core/models.py:61-65 | in a consistent store a product has at most one inventory row |
| `Ledger.OneCarrierPerOrder` | Backend/papeleria_santiago/project_core/models.py:165-169 | in a consistent store an order has at most one carrier row |
| `Ledger.MissingOrderTotalsZero` | Backend/papeleria_santiago/project_core/models.py:120-124 | in a consistent store an order that does not exist has no line items, so its total is 0 |
| `Ledger.Store.OrderAmount` | Backend/papeleria_santiago/project_core/models.py:120-124 | reading an order's total gives the sum of `total` over its current line items, and 0 for an order that does not exist |
| `Ledger.Store.SaveProduct` | Backend/papeleria_santiago/project_core/models.py:17-29 | inserts or updates the product under its SKU; no other table changes; integrity is kept |
| `Ledger.Store.SaveCustomer` | Backend/papeleria_santiago/project_core/models.py:76-90 | inserts or updates the customer; no other table changes |
| `Ledger.Store.SaveOrder` | Backend/papeleria_santiago/project_core/models.py:99-118 | refused exactly when the customer does not exist, and then nothing changes; otherwise only the order row is inserted or updated |
| `Ledger.Store.SavePrice` | Backend/papeleria_santiago/project_core/models.py:39-49 | refused when the product does not exist or already has a price under another key, and then nothing changes; otherwise only that price row is written |
| `Ledger.Store.SaveInventory` | Backend/papeleria_santiago/project_core/models.py:58-67 | refused when the product does not exist or already has an inventory under another key, and then nothing changes; otherwise only that inventory row is written |
| `Ledger.Store.SaveCarrier` | Backend/papeleria_santiago/project_core/models.py:164-181 | refused when the order does not exist or already has a carrier under another key, and then nothing changes; otherwise only that carrier row is written |
| `Ledger.Store.SaveLineItem` | Backend/papeleria_santiago/project_core/models.py:151-154 | the row is saved with `subtotal == quantity * unitPrice` and `total == subtotal - discount`, even when the write is refused. The write is refused exactly when the order or product is missing, and then nothing changes. Otherwise only the line-item table changes, by replacing the row with that key or appending. Each order's total moves by the new row's share less the replaced row's |
| `Ledger.Store.DeleteLineItem` | Backend/papeleria_santiago/project_core/models.py:132-149 | only the row with that key leaves the line-item table; its order's total drops by its `total` |
| `Ledger.Store.DeleteOrder` | Backend/papeleria_santiago/project_core/models.py:135-169 | the order, all its line items and its carrier row go, and nothing else changes; its total becomes 0 and every other order's total is unchanged |
| `Ledger.Store.DeleteCustomer` | Backend/papeleria_santiago/project_core/models.py:110-115 | refused exactly when the customer has an order, and then nothing changes; otherwise only the customer row goes |
| `Ledger.Store.DeleteProduct` | Backend/papeleria_santiago/project_core/models.py:42-143 | refused exactly when a line item sells the product, and then nothing changes; otherwise the product, its price rows and its inventory rows go, and nothing else changes |

## Left out

- `admin.py` only registers the models with the administrative site and holds no logic.
- The `__str__` methods are display formatting only.
- Dates are left out. `fecha_pedido` is set from the clock on creation. `fecha_actualizacion` is a plain optional date with no rule attached.
- Column validation is left out. This covers `max_length`, URL format, `max_digits`, and whether a stored value is one of the declared choices. `save()` calls no validation, and the digit-width check depends on the database backend. The status types are therefore free enumerations with arbitrary assignment and no transition rules.
- Automatically numbered primary keys are left out. The caller passes the key of every new row.
- The ORM and the database are not modelled: SQL generation, transactions, and how the SUM query runs. Each store method is one atomic write, and the aggregate is a fold over the table.
- `monto_total` returns the float `0.00` for an order without rows and a `Decimal` otherwise. Both are modelled as integer cents.
- Deleting a price, inventory or carrier row on its own is left out. No row references those tables, so such a delete only removes the row.
- Bulk writes that bypass `save()` are left out: `QuerySet.update`, `bulk_create` and raw SQL. The store's invariant assumes every line item was written by a plain `save()` of whole-cent values, as modelled by `Ledger.Store.SaveLineItem`.
- LineItems.UndiscountedTotalIsSubtotal: holds for a discount of zero held as a decimal (a row loaded from the database or filled in by a form). A line item built in code without a discount gets the column default `0.00`, a float. Its save then subtracts a float from a decimal subtotal, which raises TypeError before anything is written. The model does not represent this failure.
- Ledger.Store.SaveLineItem: does not model the TypeError raised when the discount is still the float default `0.00` and the unit price is a decimal. In that case the source writes nothing, while the model writes the row. The source saves normally when the unit price is an int or float, or when the discount is a decimal.
- Ledger.Store.SaveLineItem: does not model the keyword arguments `save()` passes on to the underlying write. With `update_fields` that leave out `subtotal` and `total`, the recomputed values stay in memory and the stored columns go stale. `force_insert` on an existing key, or `force_update` on a missing key, fails instead of writing. The model always writes the whole row, by update or insert.
- Ledger.Store.SaveLineItem: does not model rounding of input finer than a cent. The database rounds each decimal column to two places on its own. For example, 3 × 4.005 is stored as a subtotal of 12.02 while the stored unit price is 4.00, so the stored columns no longer agree. The model takes every amount as whole cents.
- Changing an existing row's primary key is left out.
- Django's `RESTRICT` lets a delete through when the referencing row is itself removed by a cascade of the same delete. No cascade path in this schema reaches such a row, so the model does not represent that exception.
