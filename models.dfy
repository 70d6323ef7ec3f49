/**
 * The two stored entities of the dashboard, Category and Transaction, the
 * store that holds them, and the derived signed amount.
 *
 * Amounts are integer cents (a DecimalField with two decimal places), dates
 * are integer seconds, and a transaction refers to its category by the
 * category's primary key, which is its index in the store's category table.
 */
module Models {
  import Ordering

  datatype Option<T> = None | Some(value: T)

  /** The two choices of `transaction_type`. */
  datatype TransactionType = Income | Expense

  /** The string stored in the `transaction_type` column. */
  function TypeTag(kind: TransactionType): string {
    match kind
    case Income => "income"
    case Expense => "expense"
  }

  /** Reads a stored tag back; only the two choices are accepted. */
  function ParseType(tag: string): (r: Option<TransactionType>)
    ensures r.Some? <==> tag == "income" || tag == "expense"
    ensures r.Some? ==> TypeTag(r.value) == tag
  {
    if tag == "income" then Some(Income)
    else if tag == "expense" then Some(Expense)
    else None
  }

  lemma TypeTagRoundTrip(kind: TransactionType)
    ensures ParseType(TypeTag(kind)) == Some(kind)
    ensures TypeTag(kind) == "income" || TypeTag(kind) == "expense"
  {
  }

  /** `max_digits=10, decimal_places=2`: at most 10 digits, so |cents| < 10^10. */
  const AmountLimit: int := 10_000_000_000

  predicate AmountFits(cents: int) {
    -AmountLimit < cents < AmountLimit
  }

  datatype Category = Category(name: string, color: string, icon: string, isIncome: bool)

  datatype Transaction = Transaction(
    name: string,
    amount: int,
    category: nat,
    kind: TransactionType,
    description: Option<string>,
    date: int)

  function Abs(x: int): nat {
    if x < 0 then -x else x
  }

  /**
   * The amount with the polarity of its type: never positive for an expense,
   * never negative otherwise, and always of the stored amount's magnitude,
   * whatever the sign of the stored amount.
   */
  function SignedAmount(t: Transaction): (r: int)
    ensures Abs(r) == Abs(t.amount)
    ensures t.kind == Expense ==> r <= 0
    ensures t.kind != Expense ==> r >= 0
  {
    if t.kind == Expense then -(Abs(t.amount) as int) else Abs(t.amount)
  }

  /** The sign and magnitude laws of SignedAmount determine it completely. */
  lemma SignedAmountDeterminedBySignAndMagnitude(t: Transaction, r: int)
    requires Abs(r) == Abs(t.amount)
    requires t.kind == Expense ==> r <= 0
    requires t.kind != Expense ==> r >= 0
    ensures r == SignedAmount(t)
  {
  }

  /** Storing an amount with the opposite sign does not change the signed amount. */
  lemma SignedAmountIgnoresStoredSign(t: Transaction)
    ensures SignedAmount(t.(amount := -t.amount)) == SignedAmount(t)
  {
  }

  /** A signed amount fits the column whenever the stored amount does. */
  lemma SignedAmountFits(t: Transaction)
    requires AmountFits(t.amount)
    ensures AmountFits(SignedAmount(t))
  {
  }

  /** The two tables of the database. */
  datatype Db = Db(categories: seq<Category>, transactions: seq<Transaction>)

  /** `name` is declared unique. */
  ghost predicate UniqueNames(cats: seq<Category>) {
    forall i, j :: 0 <= i < j < |cats| ==> cats[i].name != cats[j].name
  }

  /** Every transaction's category exists (foreign-key integrity). */
  ghost predicate ReferencesValid(ts: seq<Transaction>, cats: seq<Category>) {
    forall i :: 0 <= i < |ts| ==> ts[i].category < |cats|
  }

  ghost predicate AmountsFit(ts: seq<Transaction>) {
    forall i :: 0 <= i < |ts| ==> AmountFits(ts[i].amount)
  }

  /** What the database's constraints guarantee of its contents. */
  ghost predicate WellFormed(db: Db) {
    && UniqueNames(db.categories)
    && ReferencesValid(db.transactions, db.categories)
    && AmountsFit(db.transactions)
  }

  function DateOf(t: Transaction): int {
    t.date
  }

  /** A listing in the default order `-date`: the store's rows, newest first. */
  ghost predicate IsListing(ts: seq<Transaction>, listing: seq<Transaction>) {
    multiset(listing) == multiset(ts) && Ordering.SortedDesc(listing, DateOf)
  }

  /**
   * The rows in default order. Rows with equal dates come in an order the
   * database leaves open; this one keeps insertion order among them.
   */
  function Listing(ts: seq<Transaction>): (r: seq<Transaction>)
    ensures IsListing(ts, r)
    ensures |r| == |ts|
  {
    Ordering.SortDesc(ts, DateOf)
  }

  /** The first row of every listing is the newest transaction in the store. */
  lemma {:induction false} ListingStartsWithNewest(ts: seq<Transaction>, listing: seq<Transaction>, i: nat)
    requires IsListing(ts, listing)
    requires i < |ts|
    ensures |listing| == |ts|
    ensures listing[0].date >= ts[i].date
  {
    assert |multiset(listing)| == |multiset(ts)|;
    assert ts[i] in multiset(listing);
    var k :| 0 <= k < |listing| && listing[k] == ts[i];
    if k > 0 {
      assert DateOf(listing[0]) >= DateOf(listing[k]);
    }
  }
}
