/** A session as a sequence of receipts, issues and registrations, each run to
    completion before the next: what stays true of the stock and of the
    ledger however the operations are interleaved. */
module Sessions {
  import opened Inventory

  datatype Op =
    | ReceiveOp(id: nat, amount: int, note: string, now: string)
    | IssueOp(id: nat, amount: int, note: string, now: string)
    | RegisterOp(form: Form, now: string)

  /** What the page guarantees before an operation runs: the product is
      picked from the product list and its id is truthy (the receipt and
      issue buttons are only shown for a non-zero id), the amount input
      starts at 1, the form's number inputs respect their minimums, and the
      category is picked from the category list. */
  predicate Enabled(s: Store, op: Op)
  {
    match op
    case ReceiveOp(id, amount, _, _) => id >= 1 && HasProduct(s.products, id) && amount >= 1
    case IssueOp(id, amount, _, _) => id >= 1 && HasProduct(s.products, id) && amount >= 1
    case RegisterOp(f, _) => FormInBounds(f) && SelectionResolvable(s.categories, f)
  }

  function Step(s: Store, op: Op): Transition
    requires Enabled(s, op)
  {
    match op
    case ReceiveOp(id, amount, note, now) => Transition(Done, Receive(s, id, amount, note, now))
    case IssueOp(id, amount, note, now) => Issue(s, id, amount, note, now)
    case RegisterOp(f, now) => Register(s, f, now)
  }

  /** Every operation of the sequence is enabled in the state it runs in. */
  ghost predicate Admissible(s: Store, ops: seq<Op>)
    decreases |ops|
  {
    ops == [] || (Enabled(s, ops[0]) && Admissible(Step(s, ops[0]).after, ops[1..]))
  }

  ghost function Run(s: Store, ops: seq<Op>): Store
    requires Admissible(s, ops)
    decreases |ops|
  {
    if ops == [] then s else Run(Step(s, ops[0]).after, ops[1..])
  }

  /** Number of operations of the sequence that end with Done. */
  ghost function Successes(s: Store, ops: seq<Op>): nat
    requires Admissible(s, ops)
    decreases |ops|
  {
    if ops == [] then 0
    else (if Step(s, ops[0]).outcome == Done then 1 else 0) + Successes(Step(s, ops[0]).after, ops[1..])
  }

  lemma StepKeepsWellFormed(s: Store, op: Op)
    requires WellFormed(s) && Enabled(s, op)
    ensures WellFormed(Step(s, op).after)
  {
    match op
    case ReceiveOp(id, amount, note, now) => ReceiveKeepsWellFormed(s, id, amount, note, now);
    case IssueOp(id, amount, note, now) => IssueKeepsWellFormed(s, id, amount, note, now);
    case RegisterOp(f, now) => RegisterKeepsWellFormed(s, f, now);
  }

  /** One operation appends one ledger row when it succeeds and none when it
      fails; the rows already there are kept as they are. In a well-formed
      database a failed operation changes nothing at all. */
  lemma StepLedger(s: Store, op: Op)
    requires Enabled(s, op)
    ensures var t := Step(s, op);
      && s.history <= t.after.history
      && |t.after.history| == |s.history| + (if t.outcome == Done then 1 else 0)
    ensures WellFormed(s) && Step(s, op).outcome != Done ==> Step(s, op).after == s
  {
  }

  /** Starting from non-negative stock, no admissible sequence of receipts,
      issues and registrations makes any stock level negative (and the other
      table invariants hold throughout). */
  lemma {:induction false} RunKeepsStockNonNegative(s: Store, ops: seq<Op>)
    requires WellFormed(s) && Admissible(s, ops)
    ensures WellFormed(Run(s, ops))
    ensures StockNonNegative(Run(s, ops).products)
    decreases |ops|
  {
    if ops != [] {
      StepKeepsWellFormed(s, ops[0]);
      RunKeepsStockNonNegative(Step(s, ops[0]).after, ops[1..]);
    }
  }

  lemma StepKeepsNamesDistinct(s: Store, op: Op)
    requires NamesDistinct(s.products) && Enabled(s, op)
    ensures NamesDistinct(Step(s, op).after.products)
  {
  }

  /** Starting from distinct product names, no admissible sequence of
      operations ever creates two products with the same name. */
  lemma {:induction false} RunKeepsNamesDistinct(s: Store, ops: seq<Op>)
    requires NamesDistinct(s.products) && Admissible(s, ops)
    ensures NamesDistinct(Run(s, ops).products)
    decreases |ops|
  {
    if ops != [] {
      StepKeepsNamesDistinct(s, ops[0]);
      RunKeepsNamesDistinct(Step(s, ops[0]).after, ops[1..]);
    }
  }

  /** The ledger is append-only: the rows present before a session are a
      prefix of the rows after it, and the session adds exactly one row per
      successful operation. */
  lemma {:induction false} RunLedgerAppendOnly(s: Store, ops: seq<Op>)
    requires Admissible(s, ops)
    ensures s.history <= Run(s, ops).history
    ensures |Run(s, ops).history| == |s.history| + Successes(s, ops)
    decreases |ops|
  {
    if ops != [] {
      StepLedger(s, ops[0]);
      RunLedgerAppendOnly(Step(s, ops[0]).after, ops[1..]);
    }
  }

  /** Receiving is not idempotent: the same receipt twice adds the amount
      twice and leaves two identical ledger rows. */
  lemma ReceiveTwice(s: Store, id: nat, amount: int, note: string, now: string)
    requires HasProduct(s.products, id)
    ensures var once := Receive(s, id, amount, note, now);
      var twice := Receive(once, id, amount, note, now);
      && Find(twice.products, id).quantity == Find(s.products, id).quantity + 2 * amount
      && twice.history == s.history + [Entry(now, Find(s.products, id).name, Received, amount, note),
                                       Entry(now, Find(s.products, id).name, Received, amount, note)]
  {
  }
}
