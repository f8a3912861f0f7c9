/** The three tables of the warehouse dashboard (Produkty, Kategorie, Historia)
    as values, and what receiving stock, issuing stock and registering a new
    product do to them. The class Operations.Database changes the same tables
    in place, step by step, and is proved to agree with these functions. */
module Inventory {

  datatype Option<T> = None | Some(value: T)

  /** Kind of stock movement recorded in a Historia row. */
  datatype Action = Received | Issued | Created

  /** The text stored in the "akcja" column for each kind. */
  function Label(a: Action): string
  {
    match a
    case Received => "PRZYJĘCIE"
    case Issued => "WYDANIE"
    case Created => "UTWORZENIE"
  }

  /** A Historia row: when (the formatted clock reading, kept opaque), which
      product (by name, not by id), what kind, how many, and a free-text note. */
  datatype Entry = Entry(at: string, product: string, action: Action, amount: int, note: string)

  /** A Produkty row. The price is stored and carried, never computed with. */
  datatype Product = Product(id: nat, name: string, quantity: int, price: real,
                             categoryId: nat, minStock: int, sku: string)

  /** A Kategorie row. */
  datatype Category = Category(id: nat, name: string)

  /** The database: the three tables with rows in insertion order, and the next
      id the identity columns of Produkty and Kategorie hand out. */
  datatype Store = Store(products: seq<Product>, categories: seq<Category>, history: seq<Entry>,
                         nextProductId: nat, nextCategoryId: nat)

  /** How an operation ended; every outcome but Done leaves the ledger alone. */
  datatype Outcome = Done | InsufficientStock | DuplicateName | EmptyName | NoCategory

  datatype Transition = Transition(outcome: Outcome, after: Store)

  /** Note written with the ledger row of a newly registered product. */
  const InitNote: string := "Inicjalizacja"

  /** First entry of the category list, meaning "nothing selected". */
  const Placeholder: string := "-- Wybierz --"

  // ----- Reading rows -----

  predicate HasProduct(rows: seq<Product>, id: nat)
  {
    exists i :: 0 <= i < |rows| && rows[i].id == id
  }

  /** Position of the first row carrying `id`: the row a select filtered on
      the id and read at index 0 returns. */
  function ProductIndex(rows: seq<Product>, id: nat): (k: nat)
    requires HasProduct(rows, id)
    ensures k < |rows| && rows[k].id == id
    ensures forall j :: 0 <= j < k ==> rows[j].id != id
  {
    if rows[0].id == id then 0
    else
      assert HasProduct(rows[1..], id) by {
        var i :| 0 <= i < |rows| && rows[i].id == id;
        assert rows[1..][i - 1] == rows[i];
      }
      1 + ProductIndex(rows[1..], id)
  }

  /** The row a select filtered on the id returns. */
  function Find(rows: seq<Product>, id: nat): (p: Product)
    requires HasProduct(rows, id)
    ensures p.id == id
  {
    rows[ProductIndex(rows, id)]
  }

  /** True when some row already carries this name (the duplicate check). */
  predicate NameTaken(rows: seq<Product>, name: string)
  {
    exists i :: 0 <= i < |rows| && rows[i].name == name
  }

  predicate HasCategoryNamed(cats: seq<Category>, name: string)
  {
    exists i :: 0 <= i < |cats| && cats[i].name == name
  }

  /** Position of the first category with this name; category names are not
      unique, and a lookup by name takes the first match. */
  function CategoryIndex(cats: seq<Category>, name: string): (k: nat)
    requires HasCategoryNamed(cats, name)
    ensures k < |cats| && cats[k].name == name
    ensures forall j :: 0 <= j < k ==> cats[j].name != name
  {
    if cats[0].name == name then 0
    else
      assert HasCategoryNamed(cats[1..], name) by {
        var i :| 0 <= i < |cats| && cats[i].name == name;
        assert cats[1..][i - 1] == cats[i];
      }
      1 + CategoryIndex(cats[1..], name)
  }

  // ----- Writing rows -----

  /** An update of the quantity filtered on the id: every row carrying `id`
      gets quantity `q`, every other row is left as it was. */
  function SetQuantity(rows: seq<Product>, id: nat, q: int): (r: seq<Product>)
    ensures |r| == |rows|
    ensures forall i :: 0 <= i < |rows| && rows[i].id == id ==> r[i] == rows[i].(quantity := q)
    ensures forall i :: 0 <= i < |rows| && rows[i].id != id ==> r[i] == rows[i]
  {
    if rows == [] then []
    else [if rows[0].id == id then rows[0].(quantity := q) else rows[0]] + SetQuantity(rows[1..], id, q)
  }

  /** Changing a quantity does not move the row that a lookup by id finds,
      and that row then carries the new quantity. */
  lemma SetQuantityKeepsIndex(rows: seq<Product>, id: nat, q: int)
    requires HasProduct(rows, id)
    ensures HasProduct(SetQuantity(rows, id, q), id)
    ensures ProductIndex(SetQuantity(rows, id, q), id) == ProductIndex(rows, id)
    ensures Find(SetQuantity(rows, id, q), id) == Find(rows, id).(quantity := q)
  {
  }

  // ----- Table invariants -----

  predicate StockNonNegative(rows: seq<Product>)
  {
    forall i :: 0 <= i < |rows| ==> rows[i].quantity >= 0
  }

  /** What the database keeps true: identity ids are at least 1, below the next
      id to hand out and distinct, and no stock level is negative. */
  ghost predicate WellFormed(s: Store)
  {
    && s.nextProductId >= 1
    && s.nextCategoryId >= 1
    && (forall i :: 0 <= i < |s.products| ==> 1 <= s.products[i].id < s.nextProductId)
    && (forall i, j :: 0 <= i < j < |s.products| ==> s.products[i].id != s.products[j].id)
    && (forall i :: 0 <= i < |s.categories| ==> 1 <= s.categories[i].id < s.nextCategoryId)
    && (forall i, j :: 0 <= i < j < |s.categories| ==> s.categories[i].id != s.categories[j].id)
    && StockNonNegative(s.products)
  }

  // ----- Receive and issue -----

  /** Receiving ("PRZYJĘCIE"): no guard; the selected product's stock grows by
      `amount` and one ledger row records it. */
  function Receive(s: Store, id: nat, amount: int, note: string, now: string): (r: Store)
    requires HasProduct(s.products, id)
    ensures HasProduct(r.products, id)
    ensures |r.products| == |s.products|
    ensures forall i :: 0 <= i < |s.products| && s.products[i].id == id ==>
      r.products[i] == s.products[i].(quantity := Find(s.products, id).quantity + amount)
    ensures forall i :: 0 <= i < |s.products| && s.products[i].id != id ==> r.products[i] == s.products[i]
    ensures r.history == s.history + [Entry(now, Find(s.products, id).name, Received, amount, note)]
    ensures r.categories == s.categories
    ensures r.nextProductId == s.nextProductId && r.nextCategoryId == s.nextCategoryId
  {
    var row := Find(s.products, id);
    var rows := SetQuantity(s.products, id, row.quantity + amount);
    assert rows[ProductIndex(s.products, id)].id == id;
    s.(products := rows, history := s.history + [Entry(now, row.name, Received, amount, note)])
  }

  /** Issue ("WYDANIE"): succeeds exactly when the stock covers `amount`; then
      the stock shrinks by `amount` and one ledger row records it. Otherwise
      nothing at all changes. */
  function Issue(s: Store, id: nat, amount: int, note: string, now: string): (r: Transition)
    requires HasProduct(s.products, id)
    ensures r.outcome == Done <==> Find(s.products, id).quantity >= amount
    ensures r.outcome != Done ==> r.outcome == InsufficientStock && r.after == s
    ensures r.outcome == Done ==> HasProduct(r.after.products, id)
    ensures r.outcome == Done ==> |r.after.products| == |s.products|
    ensures r.outcome == Done ==> forall i :: 0 <= i < |s.products| && s.products[i].id == id ==>
      r.after.products[i] == s.products[i].(quantity := Find(s.products, id).quantity - amount)
    ensures r.outcome == Done ==> forall i :: 0 <= i < |s.products| && s.products[i].id != id ==>
      r.after.products[i] == s.products[i]
    ensures r.outcome == Done ==>
      r.after.history == s.history + [Entry(now, Find(s.products, id).name, Issued, amount, note)]
    ensures r.outcome == Done ==>
      r.after.categories == s.categories &&
      r.after.nextProductId == s.nextProductId && r.after.nextCategoryId == s.nextCategoryId
  {
    var row := Find(s.products, id);
    if row.quantity >= amount then
      var rows := SetQuantity(s.products, id, row.quantity - amount);
      assert rows[ProductIndex(s.products, id)].id == id;
      Transition(Done, s.(products := rows, history := s.history + [Entry(now, row.name, Issued, amount, note)]))
    else
      Transition(InsufficientStock, s)
  }

  lemma ReceiveKeepsWellFormed(s: Store, id: nat, amount: int, note: string, now: string)
    requires WellFormed(s) && HasProduct(s.products, id) && amount >= 1
    ensures WellFormed(Receive(s, id, amount, note, now))
  {
  }

  lemma IssueKeepsWellFormed(s: Store, id: nat, amount: int, note: string, now: string)
    requires WellFormed(s) && HasProduct(s.products, id)
    ensures WellFormed(Issue(s, id, amount, note, now).after)
  {
  }

  // ----- Registration -----

  /** The registration form: name, SKU, initial stock, price, minimum stock,
      the "new category" text and the selected existing category. */
  datatype Form = Form(name: string, sku: string, quantity: int, price: real, minStock: int,
                       newCategory: string, selectedCategory: string)

  /** The bounds the number inputs of the form enforce. */
  predicate FormInBounds(f: Form)
  {
    f.quantity >= 0 && f.price >= 0.0 && f.minStock >= 5
  }

  /** The selection list offers the placeholder and the names in Kategorie. */
  predicate SelectionResolvable(cats: seq<Category>, f: Form)
  {
    f.selectedCategory == Placeholder || HasCategoryNamed(cats, f.selectedCategory)
  }

  /** Python truthiness of the resolved category id: None and 0 are false. */
  predicate Truthy(c: Option<nat>)
  {
    c.Some? && c.value != 0
  }

  /** Category resolution: a non-empty new-category text inserts a category
      and yields its fresh id, ahead of any selection; otherwise a real
      selection yields the id of the first category with that name; otherwise
      there is no category. */
  function ResolveCategory(s: Store, f: Form): (r: (Option<nat>, Store))
    requires SelectionResolvable(s.categories, f)
    ensures r.1.products == s.products && r.1.history == s.history && r.1.nextProductId == s.nextProductId
    ensures f.newCategory != "" ==>
      && r.0 == Some(s.nextCategoryId)
      && r.1.categories == s.categories + [Category(s.nextCategoryId, f.newCategory)]
      && r.1.nextCategoryId == s.nextCategoryId + 1
    ensures f.newCategory == "" ==> r.1 == s
    ensures f.newCategory == "" && f.selectedCategory == Placeholder ==> r.0 == None
    ensures f.newCategory == "" && f.selectedCategory != Placeholder ==>
      exists k :: 0 <= k < |s.categories| && s.categories[k].name == f.selectedCategory
        && r.0 == Some(s.categories[k].id)
        && forall j :: 0 <= j < k ==> s.categories[j].name != f.selectedCategory
  {
    if f.newCategory != "" then
      (Some(s.nextCategoryId),
       s.(categories := s.categories + [Category(s.nextCategoryId, f.newCategory)],
          nextCategoryId := s.nextCategoryId + 1))
    else if f.selectedCategory != Placeholder then
      (Some(s.categories[CategoryIndex(s.categories, f.selectedCategory)].id), s)
    else
      (None, s)
  }

  /** Registration: the duplicate-name check comes first, then the empty-name
      check, then category resolution; on success exactly one product row and
      one "UTWORZENIE" ledger row are appended. */
  function Register(s: Store, f: Form, now: string): (r: Transition)
    requires SelectionResolvable(s.categories, f)
    ensures NameTaken(s.products, f.name) ==> r == Transition(DuplicateName, s)
    ensures !NameTaken(s.products, f.name) && f.name == "" ==> r == Transition(EmptyName, s)
    ensures r.outcome != Done ==> r.after.products == s.products && r.after.history == s.history
    ensures r.outcome == Done ==>
      && !NameTaken(s.products, f.name) && f.name != ""
      && (f.newCategory != "" || f.selectedCategory != Placeholder)
      && r.after.products == s.products + [Product(s.nextProductId, f.name, f.quantity, f.price,
                                                   ResolveCategory(s, f).0.value, f.minStock, f.sku)]
      && r.after.history == s.history + [Entry(now, f.name, Created, f.quantity, InitNote)]
      && r.after.categories == ResolveCategory(s, f).1.categories
      && r.after.nextProductId == s.nextProductId + 1
  {
    if NameTaken(s.products, f.name) then Transition(DuplicateName, s)
    else if f.name == "" then Transition(EmptyName, s)
    else
      var resolved := ResolveCategory(s, f);
      var t := resolved.1;
      if Truthy(resolved.0) then
        Transition(Done, t.(products := t.products + [Product(t.nextProductId, f.name, f.quantity, f.price,
                                                              resolved.0.value, f.minStock, f.sku)],
                            nextProductId := t.nextProductId + 1,
                            history := t.history + [Entry(now, f.name, Created, f.quantity, InitNote)]))
      else
        Transition(NoCategory, t)
  }

  /** In a well-formed database no id is 0, so registration with a name that
      is new and non-empty fails exactly when neither a new category is typed
      nor an existing one selected, and a failed registration changes
      nothing, not even Kategorie. */
  lemma RegisterCategoryResolution(s: Store, f: Form, now: string)
    requires WellFormed(s) && SelectionResolvable(s.categories, f)
    ensures var r := Register(s, f, now);
      && (r.outcome == Done <==>
            !NameTaken(s.products, f.name) && f.name != "" && (f.newCategory != "" || f.selectedCategory != Placeholder))
      && (r.outcome == NoCategory <==>
            !NameTaken(s.products, f.name) && f.name != "" && f.newCategory == "" && f.selectedCategory == Placeholder)
      && (r.outcome != Done ==> r.after == s)
      && (r.outcome == Done && f.newCategory != "" ==>
            r.after.categories == s.categories + [Category(s.nextCategoryId, f.newCategory)]
            && r.after.products[|s.products|].categoryId == s.nextCategoryId)
      && (r.outcome == Done && f.newCategory == "" ==>
            r.after.categories == s.categories
            && r.after.products[|s.products|].categoryId
               == s.categories[CategoryIndex(s.categories, f.selectedCategory)].id)
  {
  }

  /** In a well-formed database the `if final_cat_id:` test passes exactly
      when a new category is typed or an existing one is selected: no
      resolved id is ever 0. */
  lemma ResolvedCategoryTruthy(s: Store, f: Form)
    requires WellFormed(s) && SelectionResolvable(s.categories, f)
    ensures Truthy(ResolveCategory(s, f).0) <==> f.newCategory != "" || f.selectedCategory != Placeholder
  {
  }

  /** Once a name is registered, the duplicate check rejects it: a second
      registration with the same form fails and changes nothing. */
  lemma RegisterTwiceRejected(s: Store, f: Form, now: string)
    requires SelectionResolvable(s.categories, f)
    ensures var r := Register(s, f, now);
      r.outcome == Done ==>
        && NameTaken(r.after.products, f.name)
        && SelectionResolvable(r.after.categories, f)
        && Register(r.after, f, now) == Transition(DuplicateName, r.after)
  {
    var r := Register(s, f, now);
    if r.outcome == Done {
      assert r.after.products[|s.products|].name == f.name;
      if f.selectedCategory != Placeholder {
        var i :| 0 <= i < |s.categories| && s.categories[i].name == f.selectedCategory;
        assert r.after.categories[i] == s.categories[i];
      }
    }
  }

  lemma RegisterKeepsWellFormed(s: Store, f: Form, now: string)
    requires WellFormed(s) && SelectionResolvable(s.categories, f) && FormInBounds(f)
    ensures WellFormed(Register(s, f, now).after)
  {
  }

  // ----- Product names -----

  /** No two product rows share a name: what the duplicate check is there to
      keep true. */
  predicate NamesDistinct(rows: seq<Product>)
  {
    forall i, j :: 0 <= i < j < |rows| ==> rows[i].name != rows[j].name
  }

  /** Registration appends a product only when no row has its name, so it
      keeps product names distinct. */
  lemma RegisterKeepsNamesDistinct(s: Store, f: Form, now: string)
    requires NamesDistinct(s.products) && SelectionResolvable(s.categories, f)
    ensures NamesDistinct(Register(s, f, now).after.products)
  {
  }

  /** Receipts and issues change only stock, so they keep names distinct. */
  lemma ReceiveIssueKeepNamesDistinct(s: Store, id: nat, amount: int, note: string, now: string)
    requires NamesDistinct(s.products) && HasProduct(s.products, id)
    ensures NamesDistinct(Receive(s, id, amount, note, now).products)
    ensures NamesDistinct(Issue(s, id, amount, note, now).after.products)
  {
  }
}
