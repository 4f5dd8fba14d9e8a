/**
 * The rows of the shop's database tables. Money is in integer centavos,
 * quantities are integers, timestamps are integer milliseconds since the epoch.
 * Row ids are serial: a row's id is its position in its table (see Db.Store.Valid).
 */
module Inventory {
  import opened Wrappers

  /** A catalogue entry; `archivedAt` is None while the product is active. */
  datatype Product = Product(
    id: nat,
    name: string,
    sku: string,
    unit: string,
    sellingPrice: int,
    lowStockThreshold: int,
    archivedAt: Option<int>)

  /**
   * One stock receipt. `quantity` is what was received, `remaining` what is
   * left of it, `costPrice` the unit cost, `receivedAt` the FIFO ordering key.
   */
  datatype Batch = Batch(
    id: nat,
    productId: nat,
    quantity: int,
    remaining: int,
    costPrice: int,
    receivedAt: int)

  /** A recorded sale; `cancelledAt` is None until the sale is cancelled. */
  datatype Sale = Sale(
    id: nat,
    displayId: string,
    createdAt: int,
    totalAmount: int,
    cancelledAt: Option<int>)

  /**
   * One line of a sale. `costPrice` is the cost of goods sold for the WHOLE
   * line (the FIFO total), not a unit cost.
   */
  datatype SaleItem = SaleItem(
    saleId: nat,
    productId: nat,
    quantity: int,
    sellingPrice: int,
    costPrice: int)

  /** One row of the product change log; only the groups that changed are present. */
  datatype PriceChange = PriceChange(oldPrice: int, newPrice: int)
  datatype UnitChange = UnitChange(oldUnit: string, newUnit: string)
  datatype ThresholdChange = ThresholdChange(oldThreshold: int, newThreshold: int)
  datatype HistoryRow = HistoryRow(
    productId: nat,
    price: Option<PriceChange>,
    unit: Option<UnitChange>,
    threshold: Option<ThresholdChange>)

  function Remaining(b: Batch): int { b.remaining }
}
