/** The database as the "Operacje" and "Dodaj Nowy" pages use it: three tables
    that each operation changes in place, one insert or update at a time.
    Receive, Issue and Register are proved to have exactly the effect the
    Inventory function of the same name describes; every method, the
    single-table writes included, keeps the table invariants. */
module Operations {
  import opened Inventory

  class Database {
    var products: seq<Product>
    var categories: seq<Category>
    var history: seq<Entry>
    var nextProductId: nat
    var nextCategoryId: nat

    /** The tables as a value. */
    function State(): Store
      reads this
    {
      Store(products, categories, history, nextProductId, nextCategoryId)
    }

    ghost predicate Valid()
      reads this
    {
      WellFormed(State())
    }

    constructor (s: Store)
      requires WellFormed(s)
      ensures Valid() && State() == s
    {
      products := s.products;
      categories := s.categories;
      history := s.history;
      nextProductId := s.nextProductId;
      nextCategoryId := s.nextCategoryId;
    }

    /** log_action: appends exactly one Historia row and touches nothing else. */
    method LogAction(product: string, action: Action, amount: int, note: string, now: string)
      requires Valid()
      modifies this
      ensures Valid()
      ensures history == old(history) + [Entry(now, product, action, amount, note)]
      ensures products == old(products) && categories == old(categories)
      ensures nextProductId == old(nextProductId) && nextCategoryId == old(nextCategoryId)
    {
      history := history + [Entry(now, product, action, amount, note)];
    }

    /** Insert into Kategorie; the identity column hands out the id. */
    method InsertCategory(name: string) returns (id: nat)
      requires Valid()
      modifies this
      ensures Valid()
      ensures id == old(nextCategoryId)
      ensures categories == old(categories) + [Category(id, name)]
      ensures nextCategoryId == old(nextCategoryId) + 1
      ensures products == old(products) && history == old(history) && nextProductId == old(nextProductId)
    {
      id := nextCategoryId;
      categories := categories + [Category(id, name)];
      nextCategoryId := nextCategoryId + 1;
    }

    /** Insert into Produkty; the identity column hands out the id. */
    method InsertProduct(name: string, quantity: int, price: real, categoryId: nat, minStock: int, sku: string)
      returns (id: nat)
      requires Valid() && quantity >= 0
      modifies this
      ensures Valid()
      ensures id == old(nextProductId)
      ensures products == old(products) + [Product(id, name, quantity, price, categoryId, minStock, sku)]
      ensures nextProductId == old(nextProductId) + 1
      ensures categories == old(categories) && history == old(history) && nextCategoryId == old(nextCategoryId)
    {
      id := nextProductId;
      products := products + [Product(id, name, quantity, price, categoryId, minStock, sku)];
      nextProductId := nextProductId + 1;
    }

    /** The receipt button: read the current stock, write stock + amount,
        log a "PRZYJĘCIE" row. */
    method Receive(id: nat, amount: int, note: string, now: string)
      requires Valid() && HasProduct(products, id) && amount >= 1
      modifies this
      ensures Valid()
      ensures State() == Inventory.Receive(old(State()), id, amount, note, now)
    {
      ghost var before := State();
      var current := Find(products, id);
      ReceiveKeepsWellFormed(before, id, amount, note, now);
      products := SetQuantity(products, id, current.quantity + amount);
      assert products == Inventory.Receive(before, id, amount, note, now).products;
      LogAction(current.name, Received, amount, note, now);
    }

    /** The issue button: read the current stock; when it covers the amount,
        write stock - amount and log a "WYDANIE" row, otherwise report
        insufficient stock and change nothing. */
    method Issue(id: nat, amount: int, note: string, now: string) returns (outcome: Outcome)
      requires Valid() && HasProduct(products, id) && amount >= 1
      modifies this
      ensures Valid()
      ensures Inventory.Issue(old(State()), id, amount, note, now) == Transition(outcome, State())
    {
      ghost var before := State();
      IssueKeepsWellFormed(before, id, amount, note, now);
      var current := Find(products, id);
      if current.quantity >= amount {
        products := SetQuantity(products, id, current.quantity - amount);
        LogAction(current.name, Issued, amount, note, now);
        outcome := Done;
      } else {
        outcome := InsufficientStock;
      }
    }

    /** The registration form's submit: duplicate-name check, empty-name
        check, category resolution (possibly inserting a category), then the
        product insert and the "UTWORZENIE" ledger row. */
    method Register(form: Form, now: string) returns (outcome: Outcome)
      requires Valid() && SelectionResolvable(categories, form) && FormInBounds(form)
      modifies this
      ensures Valid()
      ensures Inventory.Register(old(State()), form, now) == Transition(outcome, State())
    {
      ghost var before := State();
      RegisterKeepsWellFormed(before, form, now);
      if NameTaken(products, form.name) {
        return DuplicateName;
      }
      if form.name == "" {
        return EmptyName;
      }
      var categoryId: Option<nat> := None;
      if form.newCategory != "" {
        var id := InsertCategory(form.newCategory);
        categoryId := Some(id);
      } else if form.selectedCategory != Placeholder {
        categoryId := Some(categories[CategoryIndex(categories, form.selectedCategory)].id);
      }
      if Truthy(categoryId) {
        var _ := InsertProduct(form.name, form.quantity, form.price, categoryId.value, form.minStock, form.sku);
        LogAction(form.name, Created, form.quantity, InitNote, now);
        outcome := Done;
      } else {
        outcome := NoCategory;
      }
    }
  }

  /** The walk-through of a product "Widget" holding 10 units: issuing 4
      leaves 6 with one "WYDANIE" row, issuing 10 is refused with nothing
      changed, receiving 20 gives 26 with one "PRZYJĘCIE" row. */
  method WidgetWalkthrough()
  {
    var widget := Product(1, "Widget", 10, 2.5, 1, 5, "W-1");
    var db := new Database(Store([widget], [Category(1, "Parts")], [], 2, 2));
    assert HasProduct(db.products, 1) by { assert db.products[0].id == 1; }

    var outcome := db.Issue(1, 4, "WZ/1", "2024-01-01 10:00:00");
    assert outcome == Done;
    assert db.products == [widget.(quantity := 6)];
    assert db.history == [Entry("2024-01-01 10:00:00", "Widget", Issued, 4, "WZ/1")];

    assert HasProduct(db.products, 1) by { assert db.products[0].id == 1; }
    outcome := db.Issue(1, 10, "WZ/2", "2024-01-01 10:05:00");
    assert outcome == InsufficientStock;
    assert db.products == [widget.(quantity := 6)];
    assert |db.history| == 1;

    db.Receive(1, 20, "PZ/1", "2024-01-01 10:10:00");
    assert db.products == [widget.(quantity := 26)];
    assert |db.history| == 2 && db.history[1] == Entry("2024-01-01 10:10:00", "Widget", Received, 20, "PZ/1");
  }
}
