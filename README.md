# Stock ledger of the NexGen warehouse dashboard

A Dafny model of the stock-ledger logic inside `pgprogram1.py`, a Streamlit
dashboard that keeps its data in three hosted database tables:

- **Produkty**: id, name, stock (`ilosc`), price, category id, minimum stock
  (`min_stan`), SKU.
- **Kategorie**: id, name.
- **Historia**: the ledger. Each row holds a timestamp, a product name, an action
  text, an amount and a note.

The model covers what the dashboard does to these tables:

- **Receiving** (`PRZYJĘCIE`) adds the amount to the selected product's stock.
  There is no guard.
- **Issuing** (`WYDANIE`) is refused when the stock does not cover the amount.
- **Registering** a product checks for a duplicate name, then for an empty name,
  then resolves the category. It inserts a new category when the new-category
  text is non-empty. The product insert and a `UTWORZENIE` ledger row follow.
- Every successful operation goes through `log_action`, which appends exactly one
  ledger row.
- The dashboard figures are total units, the low-stock count and the five newest
  ledger rows.

Files:

- `inventory.dfy` (module `Inventory`): the tables as values (`Store`). It holds
  the row lookups and the row update. It defines `Receive`, `Issue` and
  `Register` as functions from the old tables to the outcome and the new tables,
  and proves per operation that the table invariants are kept.
- `operations.dfy` (module `Operations`): class `Database` has one field per
  table. Its methods change those fields step by step, as the page code does:
  - read the current stock, then update the row, then call `LogAction`;
  - or: check the name, insert the category, insert the product, then log.
  
  `Receive`, `Issue` and `Register` are each proved to produce exactly the
  state the `Inventory` function of the same name describes. These three and
  the single-table writes they use (`LogAction`, `InsertCategory`,
  `InsertProduct`) all keep `Valid()`. `WidgetWalkthrough` is a client that replays
  a concrete session on the class:
  - a product at 10 units is issued 4;
  - then 10 (refused);
  - then receives 20.
- `sessions.dfy` (module `Sessions`): arbitrary sequences of operations.
  - Stock never becomes negative.
  - The ledger is append-only, with one row per successful operation.
  - Receiving is not idempotent.
- `dashboard.dfy` (module `Dashboard`): the figures as functions, and how each
  operation moves them.

Modelling choices:

- **Tables are sequences in insertion order.** Ids come from counters that stand
  for the identity columns, and start at 1. The Kategorie select has no
  ordering, and its row order is taken to be insertion order (see "Left out").
- **Newest ledger rows.** "Ordered by id, descending" is modelled as reverse
  insertion order.
- **Inputs treated as opaque.** The clock reading is an opaque `now` string
  parameter. The price is an opaque `real` that is carried along and never used
  in a calculation.
- **Lookup by id.** It reads the first row with that id. This is what `.eq("id",
  id)` followed by `data[0]` returns.
- **Update by id.** It changes every row with that id. This is what
  `update(...).eq("id", id)` does. `WellFormed` keeps ids distinct, so only one
  row is affected.
- **Lookup by category name** takes the first category with that name. The
  selection list is built from the table, so the name is always present. A new
  category is inserted even when its name already exists, so names can repeat.
  Product names, by contrast, stay distinct (`RunKeepsNamesDistinct`).
- **The `if final_cat_id:` test** is modelled as Python truthiness (`Truthy`):
  `None` and `0` both count as "no category". In a well-formed database no
  category id is 0, so the test passes exactly when a category was typed or
  selected (`ResolvedCategoryTruthy`). `RegisterCategoryResolution` shows that
  registration then fails only when no new category is typed and the
  placeholder is selected. Then nothing changes, not even Kategorie.
- **The placeholder.** A category literally named `-- Wybierz --` cannot be
  selected, because choosing it reads as "no selection". The model keeps this.
- **Preconditions stand for the widget bounds:**
  - amount ≥ 1;
  - initial stock ≥ 0, price ≥ 0 and minimum stock ≥ 5;
  - the product is picked from the product list;
  - the category name is picked from the category list.
- **Ledger action texts** are the code's strings `PRZYJĘCIE`, `WYDANIE` and
  `UTWORZENIE` (`Label`).
- **Registration checks.** The duplicate-name and missing-category checks are
  part of `Register`, because the code runs them in the same branch as the
  insert.
- **The `if selected_id:` test.** The receipt and issue buttons exist only for a
  truthy product id, so an operation on id 0 is never enabled (`Enabled`
  requires id ≥ 1). In a well-formed database no id is 0 anyway.

## Model

| member | source | states |
|---|---|---|
| `Inventory.ProductIndex` | pgprogram1.py:204-205 | the row found for an id carries that id, and no earlier row does |
| `Inventory.Find` | pgprogram1.py:204-205 | the row read for the selected id carries that id (it is the row `ProductIndex` locates) |
| `Inventory.RegisterKeepsNamesDistinct` | pgprogram1.py:269-274 | because of the duplicate-name check, registration keeps product names pairwise distinct |
| `Inventory.ReceiveIssueKeepNamesDistinct` | pgprogram1.py:211-226 | receipts and issues change only stock, so product names stay pairwise distinct |
| `Inventory.RegisterTwiceRejected` | pgprogram1.py:271-274 | once a name is registered, registering it again is rejected as a duplicate and changes nothing |
| `Inventory.ResolvedCategoryTruthy` | pgprogram1.py:278-290 | in a well-formed database the `if final_cat_id:` test passes exactly when a new category is typed or an existing one is selected |
| `Inventory.CategoryIndex` | pgprogram1.py:288 | the category found for a name carries that name, and no earlier category does |
| `Inventory.SetQuantity` | pgprogram1.py:213 | the update by id gives every row with that id the new stock and leaves every other row and the row count unchanged |
| `Inventory.SetQuantityKeepsIndex` | pgprogram1.py:204-213 | after the update by id, a lookup by the same id finds the same row, now carrying the new stock |
| `Inventory.Receive` | pgprogram1.py:211-216 | receiving sets the selected product's stock to old + amount, leaves all other products, categories and ids unchanged, and appends exactly one `PRZYJĘCIE` row (product name, amount, note) |
| `Inventory.Issue` | pgprogram1.py:218-226 | issuing succeeds iff stock ≥ amount; on success stock becomes old − amount, other products are unchanged and exactly one `WYDANIE` row is appended; otherwise the outcome is InsufficientStock and nothing changes |
| `Inventory.ReceiveKeepsWellFormed` | pgprogram1.py:211-213 | with amount ≥ 1, receiving keeps stock non-negative and ids distinct |
| `Inventory.IssueKeepsWellFormed` | pgprogram1.py:219-221 | the stock guard keeps stock non-negative after an issue |
| `Inventory.ResolveCategory` | pgprogram1.py:278-288 | non-empty new-category text inserts exactly one category with a fresh id and yields that id, taking precedence over the selection; otherwise a real selection yields the id of the first category with that name and inserts nothing; otherwise there is no category |
| `Inventory.Register` | pgprogram1.py:269-306 | a taken name gives DuplicateName with nothing changed (checked before the empty name); an empty name gives EmptyName with nothing changed; on success exactly one product with the form's values and the resolved category, with a fresh id, is appended, and exactly one `UTWORZENIE` row with the initial stock and note `Inicjalizacja`; a failure never adds a product or ledger row |
| `Inventory.RegisterCategoryResolution` | pgprogram1.py:280-306 | in a well-formed database, registration of a new non-empty name succeeds iff a new category is typed or one is selected; it fails with NoCategory exactly when neither; every failure leaves all tables unchanged; the product's category is the new category's id or the selected one's |
| `Inventory.RegisterKeepsWellFormed` | pgprogram1.py:292-300 | registration with initial stock ≥ 0 keeps stock non-negative and ids distinct and below the next id |
| `Sessions.StepKeepsWellFormed` | pgprogram1.py:202-306 | each enabled operation keeps the table invariants |
| `Sessions.StepKeepsNamesDistinct` | pgprogram1.py:202-306 | each enabled operation keeps product names pairwise distinct |
| `Sessions.RunKeepsNamesDistinct` | pgprogram1.py:269-274 | from distinct product names, no admissible sequence of operations creates two products with the same name |
| `Sessions.StepLedger` | pgprogram1.py:44-53 | one operation keeps the existing ledger as a prefix and appends exactly one row if it succeeds and none if it fails; in a well-formed database a failure changes nothing |
| `Sessions.RunKeepsStockNonNegative` | pgprogram1.py:219-220 | from non-negative stock, no admissible sequence of receipts, issues and registrations makes any stock negative |
| `Sessions.RunLedgerAppendOnly` | pgprogram1.py:44-53 | over any sequence of operations the old ledger is a prefix of the new one, and the ledger grows by exactly the number of successful operations |
| `Sessions.ReceiveTwice` | pgprogram1.py:211-214 | repeating a receipt adds the amount twice and leaves two ledger rows (not idempotent) |
| `Dashboard.TotalUnits` | pgprogram1.py:111 | total units is 0 for an empty table and non-negative when every stock is |
| `Dashboard.TotalUnitsAppend` | pgprogram1.py:111 | appending a product raises the total by its stock |
| `Dashboard.ReceiveTotal` | pgprogram1.py:212-213 | a receipt raises total units by exactly the amount |
| `Dashboard.IssueTotal` | pgprogram1.py:219-221 | a successful issue lowers total units by exactly the amount; a refused one leaves it unchanged |
| `Dashboard.RegisterTotal` | pgprogram1.py:292-300 | a successful registration raises total units by the initial stock; a failed one leaves it unchanged |
| `Dashboard.LowStockCount` | pgprogram1.py:113 | the low-stock figure equals the number of products whose stock is at or below their minimum |
| `Dashboard.ReceiveLowStock` | pgprogram1.py:212-213 | a receipt never raises the low-stock figure |
| `Dashboard.IssueLowStock` | pgprogram1.py:219-221 | an issue never lowers the low-stock figure |
| `Dashboard.Recent` | pgprogram1.py:141 | the recent list has min(5, ledger length) rows, the i-th being the i-th newest ledger row's date, product, action and amount |
| `Dashboard.RecentAfterAppend` | pgprogram1.py:141 | after a ledger row is appended, it heads the recent list and the previously newest rows follow it |
| `Dashboard.ReceiveShownFirst` | pgprogram1.py:214 | after a receipt, the dashboard's recent list starts with its `PRZYJĘCIE` row |
| `Operations.Database.LogAction` | pgprogram1.py:44-53 | appends exactly one ledger row with the given timestamp, product, action, amount and note, and changes nothing else |
| `Operations.Database.InsertCategory` | pgprogram1.py:283-285 | appends one category with the next id and returns that id; nothing else changes |
| `Operations.Database.InsertProduct` | pgprogram1.py:292-300 | appends one product with the next id and returns that id; nothing else changes |
| `Operations.Database.Receive` | pgprogram1.py:211-216 | the in-place receipt leaves the tables exactly as `Inventory.Receive` describes and keeps the table invariants |
| `Operations.Database.Issue` | pgprogram1.py:218-226 | the in-place issue returns the outcome and leaves the tables exactly as `Inventory.Issue` describes, keeping the invariants |
| `Operations.Database.Register` | pgprogram1.py:269-306 | the in-place registration returns the outcome and leaves the tables exactly as `Inventory.Register` describes, keeping the invariants |

## Left out

- Page layout, CSS, the sidebar menu, widgets, success and error banners, and
  `st.rerun` are user interface. Outcomes are modelled as an `Outcome` value,
  not as messages.
- The database client (`init_connection`, secrets, `create_client`, `.execute()`)
  is a foreign library. Its tables are modelled as plain state, and every call
  is assumed to succeed.
- QR label generation (`generate_qr`, the image buffer) is library calls only.
- The sunburst chart and the display-only merge of products with categories are
  presentation. So is the category count on the dashboard (`nunique` of the
  joined category names).
- Money is left out because it is floating-point: the stock value per row, the
  total value and its formatting. The price is only carried.
- `datetime.now()` and its formatting are left out. The timestamp is an opaque
  parameter.
- The report page (full history listing and its search) is left out. The search
  uses regular-expression matching with case folding, which cannot be modelled
  faithfully.
- Concurrency is out of scope. The read of the current stock and the write that
  follows are one atomic step here. The race between two sessions is not
  modelled.
- Integer width is not modelled: stock is an unbounded integer, with no 32-bit
  column limit.
- Row order of the unordered Kategorie select: `CategoryIndex`,
  `ResolveCategory` and `RegisterCategoryResolution` assume the database returns
  categories in insertion order. When two categories share the selected name,
  the real page takes the first match in whatever order the database returns,
  which may be a different category id.
- Unknown product ids: the page only offers existing products, and the code has
  no branch for a missing row. Receive and Issue therefore require the id to be
  present.
