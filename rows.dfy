// The rows of the stationery store's tables (project_core/models.py).
// Money columns are DecimalField(decimal_places=2): every amount is held
// exactly as an integer number of cents.

module Rows {

  datatype Option<+T> = None | Some(value: T)

  /** Amount in hundredths (cents for money, hundredths of a percent for IVA). */
  type Cents = int

  /** Producto.SKU, the product table's primary key. */
  type Sku = string

  /** An automatically numbered primary key (every table but Producto). */
  type RowId = nat

  /** Cliente.tipo_cliente: stored as 'Persona' or 'Empresa'. */
  datatype CustomerKind = Individual | Business

  /** Pedido.estado_pedido: 'Pendiente', 'Pagado' or 'Cancelado'; any value may follow any other. */
  datatype OrderStatus = Pending | Paid | Cancelled

  /** Transportista.estado_entrega: 'Pendiente', 'Preparando', 'Despachado' or 'Entregado'. */
  datatype DeliveryStatus = Pending | Preparing | Dispatched | Delivered

  /** Producto; its key (the SKU) is the key of the product table. */
  datatype Product = Product(
    barcode: Option<string>,
    name: string,
    description: Option<string>,
    brand: Option<string>,
    category: Option<string>,
    subcategory: Option<string>,
    variant: Option<string>,
    imageUrl: Option<string>)

  /** Precio: public (pvp) and wholesale (pvm) sale price and IVA percentage of one product. */
  datatype Price = Price(product: Sku, pvp: Cents, pvm: Cents, iva: Cents)

  /** Inventario: stock count and warehouse location of one product. */
  datatype Inventory = Inventory(product: Sku, stock: int, location: Option<string>)

  /** Cliente. */
  datatype Customer = Customer(
    name: string,
    nationalId: Option<string>,
    phone: Option<string>,
    email: Option<string>,
    address: Option<string>,
    kind: CustomerKind)

  /** Pedido: the customer it belongs to and its status. */
  datatype Order = Order(customer: RowId, status: OrderStatus)

  /**
   * DetallePedido. The line-item table is kept as a sequence of rows, so each
   * row carries its own primary key `id`.
   */
  datatype LineItem = LineItem(
    id: RowId,
    order: RowId,
    product: Sku,
    quantity: int,
    unitPrice: Cents,
    subtotal: Cents,
    discount: Cents,
    total: Cents)

  /** Transportista: the carrier handling one order. */
  datatype Carrier = Carrier(
    order: RowId,
    company: string,
    waybill: Option<string>,
    status: DeliveryStatus)
}
