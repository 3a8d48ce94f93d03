/**
 * The inventory screen: its low-stock count, the stock status shown beside each material, and
 * the stock-update dialog with the request it sends.
 */
module InventoryManagement {
  import opened Wrappers
  import opened Seqs
  import opened Records
  import opened Js
  import Dashboard

  /** `lowStockCount`: the listed materials whose quantity is strictly below their minimum stock. */
  function LowStockCount(ms: seq<Material>): (n: nat)
    ensures n <= |ms|
    ensures n == Dashboard.LowStockAlerts(ms)
  {
    CountSame((m: Material) => m.quantity < m.minStock, IsLowStock, ms);
    Count((m: Material) => m.quantity < m.minStock, ms)
  }

  /** The three labels of the status column. */
  datatype StockStatus = OutOfStock | LowStock | InStock

  /**
   * `getStockStatus`: an empty shelf first, whatever the minimum, then the low-stock test, then
   * in stock.
   */
  function GetStockStatus(m: Material): (s: StockStatus)
    ensures s == OutOfStock <==> m.quantity == 0
    ensures s == LowStock <==> m.quantity != 0 && IsLowStock(m)
    ensures s == InStock <==> m.quantity != 0 && !IsLowStock(m)
    ensures m.quantity >= 0 ==> (s == LowStock <==> 0 < m.quantity < m.minStock)
  {
    if m.quantity == 0 then OutOfStock
    else if m.quantity < m.minStock then LowStock
    else InStock
  }

  predicate ShowsLowStock(m: Material) { GetStockStatus(m) == LowStock }

  /** An empty shelf whose minimum is above zero: counted as low but labelled out of stock. */
  predicate EmptyBelowMinimum(m: Material) { m.quantity == 0 && 0 < m.minStock }

  /**
   * The count above the table and the labels in it agree: every material counted as low stock is
   * labelled "Low Stock", except an empty shelf with a positive minimum, labelled "Out of Stock".
   */
  lemma {:induction false} LowStockCountMatchesLabels(ms: seq<Material>)
    ensures LowStockCount(ms) == Count(ShowsLowStock, ms) + Count(EmptyBelowMinimum, ms)
  {
    if ms != [] {
      LowStockCountMatchesLabels(ms[1..]);
      assert Count(IsLowStock, ms) == (if IsLowStock(ms[0]) then 1 else 0) + Count(IsLowStock, ms[1..]);
    }
  }

  /** The request of a stock update: the material's id in the path, and a body with only the quantity. */
  datatype StockUpdate = StockUpdate(id: string, quantity: int)

  /** The stock-update dialog: the material it is open for, if any, and the quantity typed. */
  class StockDialog {
    var target: Option<Material>
    var amount: int

    constructor ()
      ensures target == None && amount == 0
    {
      target, amount := None, 0;
    }

    /** "Update Stock" on a row: the dialog opens on that material with its current quantity. */
    method Open(m: Material)
      modifies this
      ensures target == Some(m) && amount == m.quantity
    {
      target, amount := Some(m), m.quantity;
    }

    /** Typing in the quantity field: `parseInt(value) || 0`. */
    method Enter(text: string)
      modifies this
      ensures amount == CoerceInt(Str(text)) && target == old(target)
    {
      amount := CoerceInt(Str(text));
    }

    /**
     * `handleStockUpdate`: with the dialog open, the one request it sends carries the typed
     * quantity and nothing else of the material; the dialog closes either way.
     */
    method Submit() returns (sent: Option<StockUpdate>)
      modifies this
      ensures old(target).None? ==> sent.None?
      ensures old(target).Some? ==> sent == Some(StockUpdate(old(target).value.id, old(amount)))
      ensures target == None && amount == old(amount)
    {
      sent := None;
      if target.Some? {
        sent := Some(StockUpdate(target.value.id, amount));
      }
      target := None;
    }
  }
}
