/** The dashboard's read-only figures over the current tables: total units in
    stock, number of products at or below their minimum, and the newest
    ledger rows, newest first. */
module Dashboard {
  import opened Inventory

  // ----- Total units -----

  /** Sum of the stock column; 0 for an empty table, and never negative while
      no stock level is. */
  function TotalUnits(rows: seq<Product>): (total: int)
    ensures rows == [] ==> total == 0
    ensures StockNonNegative(rows) ==> total >= 0
  {
    if rows == [] then 0 else TotalUnits(rows[..|rows| - 1]) + rows[|rows| - 1].quantity
  }

  /** Two tables that differ only in the stock of row k differ in total by
      exactly that row's difference. */
  lemma {:induction false} TotalUnitsOneRowChanged(a: seq<Product>, b: seq<Product>, k: nat)
    requires |a| == |b| && k < |a|
    requires forall i :: 0 <= i < |a| && i != k ==> a[i].quantity == b[i].quantity
    ensures TotalUnits(b) == TotalUnits(a) + b[k].quantity - a[k].quantity
    decreases |a|
  {
    var n := |a| - 1;
    if k == n {
      TotalUnitsSameStock(a[..n], b[..n]);
    } else {
      TotalUnitsOneRowChanged(a[..n], b[..n], k);
    }
  }

  lemma {:induction false} TotalUnitsSameStock(a: seq<Product>, b: seq<Product>)
    requires |a| == |b|
    requires forall i :: 0 <= i < |a| ==> a[i].quantity == b[i].quantity
    ensures TotalUnits(b) == TotalUnits(a)
    decreases |a|
  {
    if a != [] {
      TotalUnitsSameStock(a[..|a| - 1], b[..|b| - 1]);
    }
  }

  lemma TotalUnitsAppend(rows: seq<Product>, p: Product)
    ensures TotalUnits(rows + [p]) == TotalUnits(rows) + p.quantity
  {
  }

  /** With distinct ids, a table in which only the rows carrying `id` got a
      new stock q has a total that differs by q minus that product's old
      stock. */
  lemma OneProductChangedTotal(s: Store, r: seq<Product>, id: nat, q: int)
    requires WellFormed(s) && HasProduct(s.products, id)
    requires |r| == |s.products|
    requires forall i :: 0 <= i < |s.products| && s.products[i].id == id ==> r[i].quantity == q
    requires forall i :: 0 <= i < |s.products| && s.products[i].id != id ==> r[i] == s.products[i]
    ensures TotalUnits(r) == TotalUnits(s.products) + q - Find(s.products, id).quantity
  {
    var k := ProductIndex(s.products, id);
    forall i | 0 <= i < |s.products| && i != k
      ensures s.products[i].quantity == r[i].quantity
    {
      assert s.products[i].id != s.products[k].id;
    }
    TotalUnitsOneRowChanged(s.products, r, k);
  }

  /** A receipt of n units raises the total by n. */
  lemma ReceiveTotal(s: Store, id: nat, amount: int, note: string, now: string)
    requires WellFormed(s) && HasProduct(s.products, id)
    ensures TotalUnits(Receive(s, id, amount, note, now).products) == TotalUnits(s.products) + amount
  {
    var r := Receive(s, id, amount, note, now);
    OneProductChangedTotal(s, r.products, id, Find(s.products, id).quantity + amount);
  }

  /** A successful issue of n units lowers the total by n; a refused one
      leaves it alone. */
  lemma IssueTotal(s: Store, id: nat, amount: int, note: string, now: string)
    requires WellFormed(s) && HasProduct(s.products, id)
    ensures var r := Issue(s, id, amount, note, now);
      TotalUnits(r.after.products) == TotalUnits(s.products) - (if r.outcome == Done then amount else 0)
  {
    var r := Issue(s, id, amount, note, now);
    if r.outcome == Done {
      OneProductChangedTotal(s, r.after.products, id, Find(s.products, id).quantity - amount);
    }
  }

  /** A successful registration raises the total by the initial stock. */
  lemma RegisterTotal(s: Store, f: Form, now: string)
    requires SelectionResolvable(s.categories, f)
    ensures var r := Register(s, f, now);
      TotalUnits(r.after.products) == TotalUnits(s.products) + (if r.outcome == Done then f.quantity else 0)
  {
  }

  // ----- Low-stock count -----

  predicate IsLow(p: Product)
  {
    p.quantity <= p.minStock
  }

  ghost function LowRows(rows: seq<Product>): set<nat>
  {
    set i: nat | i < |rows| && IsLow(rows[i])
  }

  /** Number of products whose stock is at or below their minimum. */
  function LowStockCount(rows: seq<Product>): (n: nat)
    ensures n == |LowRows(rows)|
    ensures n <= |rows|
  {
    if rows == [] then
      assert LowRows(rows) == {};
      0
    else
      var init := rows[..|rows| - 1];
      var last := |rows| - 1;
      assert LowRows(rows) == LowRows(init) + (if IsLow(rows[last]) then {last} else {}) by {
        forall i: nat | i < last ensures rows[i] == init[i] { }
      }
      assert last !in LowRows(init);
      LowStockCount(init) + (if IsLow(rows[last]) then 1 else 0)
  }

  /** If every row that is low in b is low in a, b has no more low rows. */
  lemma {:induction false} LowStockCountMonotone(a: seq<Product>, b: seq<Product>)
    requires |a| == |b|
    requires forall i :: 0 <= i < |b| && IsLow(b[i]) ==> IsLow(a[i])
    ensures LowStockCount(b) <= LowStockCount(a)
    decreases |a|
  {
    if a != [] {
      var n := |a| - 1;
      LowStockCountMonotone(a[..n], b[..n]);
    }
  }

  /** Receiving never adds to the low-stock figure. */
  lemma ReceiveLowStock(s: Store, id: nat, amount: int, note: string, now: string)
    requires WellFormed(s) && HasProduct(s.products, id) && amount >= 0
    ensures LowStockCount(Receive(s, id, amount, note, now).products) <= LowStockCount(s.products)
  {
    var r := Receive(s, id, amount, note, now).products;
    var k := ProductIndex(s.products, id);
    forall i | 0 <= i < |r| && IsLow(r[i]) ensures IsLow(s.products[i]) {
      if s.products[i].id == id {
        assert i == k;
      }
    }
    LowStockCountMonotone(s.products, r);
  }

  /** Issuing never lowers the low-stock figure. */
  lemma IssueLowStock(s: Store, id: nat, amount: int, note: string, now: string)
    requires WellFormed(s) && HasProduct(s.products, id) && amount >= 0
    ensures LowStockCount(s.products) <= LowStockCount(Issue(s, id, amount, note, now).after.products)
  {
    var r := Issue(s, id, amount, note, now);
    if r.outcome == Done {
      var k := ProductIndex(s.products, id);
      forall i | 0 <= i < |s.products| && IsLow(s.products[i]) ensures IsLow(r.after.products[i]) {
        if s.products[i].id == id {
          assert i == k;
        }
      }
      LowStockCountMonotone(r.after.products, s.products);
    }
  }

  // ----- Newest ledger rows -----

  /** The columns the dashboard selects from Historia: date, product, action
      text and amount (the note is not shown). */
  datatype HistoryRow = HistoryRow(at: string, product: string, action: string, amount: int)

  function Shown(e: Entry): HistoryRow
  {
    HistoryRow(e.at, e.product, Label(e.action), e.amount)
  }

  /** Number of rows the dashboard shows. */
  const RecentLimit: nat := 5

  /** The last `limit` ledger rows, newest first (identity ids grow with
      insertion, so descending id is reverse insertion order). */
  function Recent(h: seq<Entry>, limit: nat): (r: seq<HistoryRow>)
    ensures |r| == if |h| < limit then |h| else limit
    ensures forall i :: 0 <= i < |r| ==> r[i] == Shown(h[|h| - 1 - i])
  {
    if limit == 0 || h == [] then []
    else [Shown(h[|h| - 1])] + Recent(h[..|h| - 1], limit - 1)
  }

  /** After a ledger row is appended, it heads the list and the rows that
      were newest before follow it, one fewer of them. */
  lemma RecentAfterAppend(h: seq<Entry>, e: Entry, limit: nat)
    requires limit >= 1
    ensures Recent(h + [e], limit) == [Shown(e)] + Recent(h, limit - 1)
  {
  }

  /** A successful receipt shows up first on the dashboard. */
  lemma ReceiveShownFirst(s: Store, id: nat, amount: int, note: string, now: string)
    requires HasProduct(s.products, id)
    ensures Recent(Receive(s, id, amount, note, now).history, RecentLimit)
         == [HistoryRow(now, Find(s.products, id).name, "PRZYJĘCIE", amount)] + Recent(s.history, RecentLimit - 1)
  {
  }
}
