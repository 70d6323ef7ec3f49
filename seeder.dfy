/**
 * The sample-data command: it upserts a fixed catalogue of 9 categories,
 * keyed by name, and of 15 transactions, keyed by (name, amount, category,
 * type), into the store. Rows it finds are left alone; rows it creates get
 * their defaults. The random day offsets are a parameter.
 */
module Seeder {
  import opened Models

  const SecondsPerDay: int := 86400

  /** Transactions are dated `now - 30 days + randint(0, 30) days`. */
  const WindowDays: int := 30

  /** One entry of the transaction catalogue; its category is named, not referenced. */
  datatype TransactionSeed = TransactionSeed(name: string, amount: int, category: string, kind: TransactionType)

  /** `categories_data`: three income and six expense categories. */
  const CategoryCatalogue: seq<Category> := [
    Category("Salary", "#4CAF50", "\U{1F4B0}", true),
    Category("Freelance", "#2196F3", "\U{1F4BC}", true),
    Category("Investment", "#FF9800", "\U{1F4C8}", true),
    Category("Food & Dining", "#F44336", "\U{1F37D}\U{FE0F}", false),
    Category("Transportation", "#9C27B0", "\U{1F697}", false),
    Category("Entertainment", "#E91E63", "\U{1F3AC}", false),
    Category("Utilities", "#607D8B", "\U{26A1}", false),
    Category("Shopping", "#795548", "\U{1F6CD}\U{FE0F}", false),
    Category("Healthcare", "#3F51B5", "\U{1F3E5}", false)
  ]

  /** `transactions_data`: four income and eleven expense transactions, amounts in cents. */
  const TransactionCatalogue: seq<TransactionSeed> := [
    TransactionSeed("Monthly Salary", 350000, "Salary", Income),
    TransactionSeed("Freelance Project", 85000, "Freelance", Income),
    TransactionSeed("Stock Dividends", 12050, "Investment", Income),
    TransactionSeed("Bonus Payment", 50000, "Salary", Income),
    TransactionSeed("Grocery Shopping", 8550, "Food & Dining", Expense),
    TransactionSeed("Gas Station", 4500, "Transportation", Expense),
    TransactionSeed("Netflix Subscription", 1599, "Entertainment", Expense),
    TransactionSeed("Electric Bill", 12000, "Utilities", Expense),
    TransactionSeed("Coffee Shop", 450, "Food & Dining", Expense),
    TransactionSeed("Clothing Store", 8999, "Shopping", Expense),
    TransactionSeed("Doctor Visit", 15000, "Healthcare", Expense),
    TransactionSeed("Restaurant Dinner", 6500, "Food & Dining", Expense),
    TransactionSeed("Uber Ride", 1250, "Transportation", Expense),
    TransactionSeed("Movie Tickets", 2400, "Entertainment", Expense),
    TransactionSeed("Water Bill", 4500, "Utilities", Expense)
  ]

  // ---------------------------------------------------------------------
  // Categories

  /** The primary key of the first category with this name, if any. */
  function FindCategory(cats: seq<Category>, name: string): (r: Option<nat>)
    ensures r.Some? ==> r.value < |cats| && cats[r.value].name == name
    ensures r.Some? ==> forall j :: 0 <= j < r.value ==> cats[j].name != name
    ensures r.None? <==> forall j :: 0 <= j < |cats| ==> cats[j].name != name
  {
    if cats == [] then None
    else if cats[0].name == name then Some(0)
    else match FindCategory(cats[1..], name)
      case None => None
      case Some(k) => Some(k + 1)
  }

  /** Appending a row does not move the first match of a name already present. */
  lemma {:induction false} FindCategoryAppend(cats: seq<Category>, c: Category, name: string)
    requires FindCategory(cats, name).Some?
    ensures FindCategory(cats + [c], name) == FindCategory(cats, name)
  {
    var k := FindCategory(cats, name).value;
    var r := FindCategory(cats + [c], name);
    assert (cats + [c])[k] == cats[k];
    assert r.Some? && r.value <= k;
    assert forall j :: 0 <= j < k ==> (cats + [c])[j] == cats[j];
  }

  /**
   * `Category.objects.get_or_create(name=..., defaults=...)`: the table and
   * the primary key of the category with the seed's name, created from the
   * seed when the table has none.
   */
  function UpsertCategory(cats: seq<Category>, seed: Category): (r: (seq<Category>, nat))
    ensures FindCategory(r.0, seed.name) == Some(r.1)
    ensures FindCategory(cats, seed.name).Some? ==> r.0 == cats
    ensures FindCategory(cats, seed.name).None? ==> r.0 == cats + [seed]
  {
    match FindCategory(cats, seed.name)
    case Some(id) => (cats, id)
    case None =>
      assert (cats + [seed])[|cats|] == seed;
      (cats + [seed], |cats|)
  }

  /** get_or_create for one name leaves the row every other present name resolves to. */
  lemma {:induction false} UpsertKeepsFirstMatches(cats: seq<Category>, seed: Category)
    ensures forall n :: FindCategory(cats, n).Some? ==> FindCategory(UpsertCategory(cats, seed).0, n) == FindCategory(cats, n)
  {
    forall n | FindCategory(cats, n).Some?
      ensures FindCategory(UpsertCategory(cats, seed).0, n) == FindCategory(cats, n)
    {
      if FindCategory(cats, seed.name).None? {
        FindCategoryAppend(cats, seed, n);
      }
    }
  }

  /** The category loop: get_or_create for each catalogue entry in turn. */
  function SeedCategories(cats: seq<Category>, catalogue: seq<Category>): seq<Category>
    decreases |catalogue|
  {
    if catalogue == [] then cats
    else SeedCategories(UpsertCategory(cats, catalogue[0]).0, catalogue[1..])
  }

  /**
   * What the category loop guarantees: every catalogue name is present
   * afterwards, the rows that were there are untouched and keep their first
   * matches, and each new row is a catalogue entry whose name no earlier row had.
   */
  lemma {:induction false} SeedCategoriesSpec(cats: seq<Category>, catalogue: seq<Category>)
    ensures var r := SeedCategories(cats, catalogue);
      && |r| >= |cats| && r[..|cats|] == cats
      && (forall i :: 0 <= i < |catalogue| ==> FindCategory(r, catalogue[i].name).Some?)
      && (forall j :: |cats| <= j < |r| ==> r[j] in catalogue && FindCategory(r, r[j].name) == Some(j))
      && (forall n :: FindCategory(cats, n).Some? ==> FindCategory(r, n) == FindCategory(cats, n))
    decreases |catalogue|
  {
    if catalogue != [] {
      var next := UpsertCategory(cats, catalogue[0]).0;
      SeedCategoriesSpec(next, catalogue[1..]);
      SeedCategoriesStep(cats, catalogue, next, SeedCategories(next, catalogue[1..]));
    }
  }

  /** The inductive step of SeedCategories' contract, taken out of its body. */
  lemma {:induction false} SeedCategoriesStep(cats: seq<Category>, catalogue: seq<Category>, next: seq<Category>, r: seq<Category>)
    requires catalogue != [] && next == UpsertCategory(cats, catalogue[0]).0
    requires |r| >= |next| && r[..|next|] == next
    requires forall i :: 0 <= i < |catalogue[1..]| ==> FindCategory(r, catalogue[1..][i].name).Some?
    requires forall j :: |next| <= j < |r| ==> r[j] in catalogue[1..] && FindCategory(r, r[j].name) == Some(j)
    requires forall n :: FindCategory(next, n).Some? ==> FindCategory(r, n) == FindCategory(next, n)
    ensures |r| >= |cats| && r[..|cats|] == cats
    ensures forall i :: 0 <= i < |catalogue| ==> FindCategory(r, catalogue[i].name).Some?
    ensures forall j :: |cats| <= j < |r| ==> r[j] in catalogue && FindCategory(r, r[j].name) == Some(j)
    ensures forall n :: FindCategory(cats, n).Some? ==> FindCategory(r, n) == FindCategory(cats, n)
  {
    StepKeepsPrefix(cats, catalogue[0], next, r);
    StepKeepsFirstMatches(cats, catalogue[0], next, r);
    StepCoversCatalogue(cats, catalogue, next, r);
    StepNewRows(cats, catalogue, next, r);
  }

  lemma {:induction false} StepKeepsPrefix(cats: seq<Category>, seed: Category, next: seq<Category>, r: seq<Category>)
    requires next == UpsertCategory(cats, seed).0
    requires |r| >= |next| && r[..|next|] == next
    ensures |r| >= |cats| && r[..|cats|] == cats
  {
    assert |next| >= |cats| && next[..|cats|] == cats;
    assert r[..|next|][..|cats|] == r[..|cats|];
  }

  lemma {:induction false} StepKeepsFirstMatches(cats: seq<Category>, seed: Category, next: seq<Category>, r: seq<Category>)
    requires next == UpsertCategory(cats, seed).0
    requires forall n :: FindCategory(next, n).Some? ==> FindCategory(r, n) == FindCategory(next, n)
    ensures forall n :: FindCategory(cats, n).Some? ==> FindCategory(r, n) == FindCategory(cats, n)
  {
    UpsertKeepsFirstMatches(cats, seed);
  }

  lemma {:induction false} StepCoversCatalogue(cats: seq<Category>, catalogue: seq<Category>, next: seq<Category>, r: seq<Category>)
    requires catalogue != [] && next == UpsertCategory(cats, catalogue[0]).0
    requires forall i :: 0 <= i < |catalogue[1..]| ==> FindCategory(r, catalogue[1..][i].name).Some?
    requires forall n :: FindCategory(next, n).Some? ==> FindCategory(r, n) == FindCategory(next, n)
    ensures forall i :: 0 <= i < |catalogue| ==> FindCategory(r, catalogue[i].name).Some?
  {
    forall i | 0 <= i < |catalogue| ensures FindCategory(r, catalogue[i].name).Some? {
      if i > 0 {
        assert catalogue[i] == catalogue[1..][i - 1];
      }
    }
  }

  lemma {:induction false} StepNewRows(cats: seq<Category>, catalogue: seq<Category>, next: seq<Category>, r: seq<Category>)
    requires catalogue != [] && next == UpsertCategory(cats, catalogue[0]).0
    requires |r| >= |next| && r[..|next|] == next
    requires forall j :: |next| <= j < |r| ==> r[j] in catalogue[1..] && FindCategory(r, r[j].name) == Some(j)
    requires forall n :: FindCategory(next, n).Some? ==> FindCategory(r, n) == FindCategory(next, n)
    ensures forall j :: |cats| <= j < |r| ==> r[j] in catalogue && FindCategory(r, r[j].name) == Some(j)
  {
    forall j | |cats| <= j < |r| ensures r[j] in catalogue && FindCategory(r, r[j].name) == Some(j) {
      if j < |next| {
        NewRowOfStep(cats, catalogue[0], next, r, j);
      } else {
        assert r[j] in catalogue[1..];
      }
    }
  }

  lemma {:induction false} NewRowOfStep(cats: seq<Category>, seed: Category, next: seq<Category>, r: seq<Category>, j: nat)
    requires next == UpsertCategory(cats, seed).0
    requires |r| >= |next| && r[..|next|] == next
    requires |cats| <= j < |next|
    requires forall n :: FindCategory(next, n).Some? ==> FindCategory(r, n) == FindCategory(next, n)
    ensures r[j] == seed && FindCategory(r, seed.name) == Some(j)
  {
    assert next == cats + [seed] && j == |cats|;
    assert r[j] == r[..|next|][j] == seed;
  }

  /** A second pass over a catalogue whose names are all present changes nothing. */
  lemma {:induction false} SeedCategoriesWhenPresent(cats: seq<Category>, catalogue: seq<Category>)
    requires forall i :: 0 <= i < |catalogue| ==> FindCategory(cats, catalogue[i].name).Some?
    ensures SeedCategories(cats, catalogue) == cats
  {
    if catalogue != [] {
      assert forall i :: 0 <= i < |catalogue[1..]| ==> catalogue[1..][i] == catalogue[i + 1];
      SeedCategoriesWhenPresent(cats, catalogue[1..]);
    }
  }

  /** Seeding keeps category names unique. */
  lemma {:induction false} SeedCategoriesKeepsNamesUnique(cats: seq<Category>, catalogue: seq<Category>)
    requires UniqueNames(cats)
    ensures UniqueNames(SeedCategories(cats, catalogue))
  {
    var r := SeedCategories(cats, catalogue);
    SeedCategoriesSpec(cats, catalogue);
    forall i, j | 0 <= i < j < |r| ensures r[i].name != r[j].name {
      if j < |cats| {
        assert r[i] == cats[i] && r[j] == cats[j];
      } else {
        assert FindCategory(r, r[j].name) == Some(j);
      }
    }
  }

  // ---------------------------------------------------------------------
  // Transactions

  /** The natural key the transaction loop looks rows up by. */
  datatype Key = Key(name: string, amount: int, category: nat, kind: TransactionType)

  function KeyOf(t: Transaction): Key {
    Key(t.name, t.amount, t.category, t.kind)
  }

  /** The natural keys of a transaction table. */
  function KeysOf(ts: seq<Transaction>): set<Key> {
    set t | t in ts :: KeyOf(t)
  }

  /** Whether some row has this key (the lookup half of get_or_create). */
  function KeyPresent(ts: seq<Transaction>, k: Key): (r: bool)
    ensures r <==> k in KeysOf(ts)
  {
    if ts == [] then false
    else if KeyOf(ts[0]) == k then
      assert ts[0] in ts;
      true
    else
      assert ts == [ts[0]] + ts[1..];
      KeyPresent(ts[1..], k)
  }

  /** Rows present in a prefix keep their keys in the whole table. */
  lemma {:induction false} KeysOfPrefix(r: seq<Transaction>, p: seq<Transaction>)
    requires |r| >= |p| && r[..|p|] == p
    ensures KeysOf(p) <= KeysOf(r)
  {
    forall k | k in KeysOf(p) ensures k in KeysOf(r) {
      var t :| t in p && KeyOf(t) == k;
      var i :| 0 <= i < |p| && p[i] == t;
      assert r[i] == r[..|p|][i];
    }
  }

  /** `f'Sample {type} transaction'` */
  function SampleDescription(kind: TransactionType): string {
    "Sample " + TypeTag(kind) + " transaction"
  }

  /** The row get_or_create makes for a key: the key's fields plus the defaults. */
  function NewTransaction(k: Key, date: int): (t: Transaction)
    ensures KeyOf(t) == k
  {
    Transaction(k.name, k.amount, k.category, k.kind, Some(SampleDescription(k.kind)), date)
  }

  /** `Transaction.objects.get_or_create(<key>, defaults={date, description})` */
  function UpsertTransaction(ts: seq<Transaction>, k: Key, date: int): (r: seq<Transaction>)
    ensures k in KeysOf(r)
    ensures k in KeysOf(ts) ==> r == ts
    ensures k !in KeysOf(ts) ==> r == ts + [NewTransaction(k, date)]
  {
    if KeyPresent(ts, k) then ts
    else
      assert NewTransaction(k, date) in ts + [NewTransaction(k, date)];
      ts + [NewTransaction(k, date)]
  }

  /** Every catalogue entry's category resolves to a row of the table. */
  ghost predicate CategoriesResolve(cats: seq<Category>, items: seq<TransactionSeed>) {
    forall i :: 0 <= i < |items| ==> FindCategory(cats, items[i].category).Some?
  }

  lemma {:induction false} ResolveSuffix(cats: seq<Category>, items: seq<TransactionSeed>, k: nat)
    requires CategoriesResolve(cats, items) && k <= |items|
    ensures CategoriesResolve(cats, items[k..])
  {
    forall i | 0 <= i < |items[k..]| ensures FindCategory(cats, items[k..][i].category).Some? {
      assert items[k..][i] == items[k + i];
    }
  }

  /** The key a catalogue entry is looked up by, its category resolved by name. */
  function KeyFor(cats: seq<Category>, item: TransactionSeed): Key
    requires FindCategory(cats, item.category).Some?
  {
    Key(item.name, item.amount, FindCategory(cats, item.category).value, item.kind)
  }

  /** The rows the loop can create: one per catalogue entry, with that entry's date. */
  function Candidates(cats: seq<Category>, items: seq<TransactionSeed>, dates: seq<int>): set<Transaction>
    requires |dates| == |items| && CategoriesResolve(cats, items)
  {
    set i | 0 <= i < |items| :: NewTransaction(KeyFor(cats, items[i]), dates[i])
  }

  lemma {:induction false} CandidatesTail(cats: seq<Category>, items: seq<TransactionSeed>, dates: seq<int>)
    requires |dates| == |items| && items != [] && CategoriesResolve(cats, items)
    ensures CategoriesResolve(cats, items[1..])
    ensures NewTransaction(KeyFor(cats, items[0]), dates[0]) in Candidates(cats, items, dates)
    ensures Candidates(cats, items[1..], dates[1..]) <= Candidates(cats, items, dates)
  {
    ResolveSuffix(cats, items, 1);
    forall t | t in Candidates(cats, items[1..], dates[1..]) ensures t in Candidates(cats, items, dates) {
      var i :| 0 <= i < |items[1..]| && t == NewTransaction(KeyFor(cats, items[1..][i]), dates[1..][i]);
      assert items[1..][i] == items[i + 1] && dates[1..][i] == dates[i + 1];
    }
  }

  /**
   * The transaction loop: every catalogue key is present afterwards, the rows
   * that were there are untouched, and each new row carries a key no earlier
   * row had and is the row get_or_create makes for some catalogue entry.
   */
  function SeedTransactions(ts: seq<Transaction>, cats: seq<Category>, items: seq<TransactionSeed>, dates: seq<int>): (r: seq<Transaction>)
    requires |dates| == |items| && CategoriesResolve(cats, items)
    ensures |r| >= |ts| && r[..|ts|] == ts
    ensures forall i :: 0 <= i < |items| ==> KeyFor(cats, items[i]) in KeysOf(r)
    ensures forall j :: |ts| <= j < |r| ==> KeyOf(r[j]) !in KeysOf(r[..j]) && r[j] in Candidates(cats, items, dates)
    decreases |items|
  {
    if items == [] then ts
    else
      CandidatesTail(cats, items, dates);
      var next := UpsertTransaction(ts, KeyFor(cats, items[0]), dates[0]);
      var r := SeedTransactions(next, cats, items[1..], dates[1..]);
      StepKeepsRows(ts, KeyFor(cats, items[0]), dates[0], next, r);
      StepCoversItems(cats, items, dates, next, r);
      StepAddsCandidates(ts, cats, items, dates, next, r);
      r
  }

  lemma {:induction false} StepKeepsRows(ts: seq<Transaction>, k: Key, date: int, next: seq<Transaction>, r: seq<Transaction>)
    requires next == UpsertTransaction(ts, k, date)
    requires |r| >= |next| && r[..|next|] == next
    ensures |r| >= |ts| && r[..|ts|] == ts
    ensures k in KeysOf(r)
  {
    assert r[..|next|][..|ts|] == r[..|ts|];
    KeysOfPrefix(r, next);
  }

  lemma {:induction false} StepCoversItems(cats: seq<Category>, items: seq<TransactionSeed>, dates: seq<int>, next: seq<Transaction>, r: seq<Transaction>)
    requires |dates| == |items| && items != [] && CategoriesResolve(cats, items)
    requires KeyFor(cats, items[0]) in KeysOf(r)
    requires forall i :: 0 <= i < |items[1..]| ==> KeyFor(cats, items[1..][i]) in KeysOf(r)
    ensures forall i :: 0 <= i < |items| ==> KeyFor(cats, items[i]) in KeysOf(r)
  {
    forall i | 0 <= i < |items| ensures KeyFor(cats, items[i]) in KeysOf(r) {
      if i > 0 {
        assert items[i] == items[1..][i - 1];
      }
    }
  }

  lemma {:induction false} StepAddsCandidates(ts: seq<Transaction>, cats: seq<Category>, items: seq<TransactionSeed>, dates: seq<int>,
                                              next: seq<Transaction>, r: seq<Transaction>)
    requires |dates| == |items| && items != [] && CategoriesResolve(cats, items)
    requires CategoriesResolve(cats, items[1..])
    requires NewTransaction(KeyFor(cats, items[0]), dates[0]) in Candidates(cats, items, dates)
    requires Candidates(cats, items[1..], dates[1..]) <= Candidates(cats, items, dates)
    requires next == UpsertTransaction(ts, KeyFor(cats, items[0]), dates[0])
    requires |r| >= |next| && r[..|next|] == next
    requires forall j :: |next| <= j < |r| ==> KeyOf(r[j]) !in KeysOf(r[..j]) && r[j] in Candidates(cats, items[1..], dates[1..])
    ensures forall j :: |ts| <= j < |r| ==> KeyOf(r[j]) !in KeysOf(r[..j]) && r[j] in Candidates(cats, items, dates)
  {
    forall j | |ts| <= j < |r| ensures KeyOf(r[j]) !in KeysOf(r[..j]) && r[j] in Candidates(cats, items, dates) {
      if j < |next| {
        var t := NewTransaction(KeyFor(cats, items[0]), dates[0]);
        assert j == |ts| && next == ts + [t];
        assert r[j] == r[..|next|][j] == t;
        assert r[..j] == r[..|next|][..j] == ts;
      }
    }
  }

  /** A second pass over a catalogue whose keys are all present changes nothing. */
  lemma {:induction false} SeedTransactionsWhenPresent(ts: seq<Transaction>, cats: seq<Category>, items: seq<TransactionSeed>, dates: seq<int>)
    requires |dates| == |items| && CategoriesResolve(cats, items)
    requires forall i :: 0 <= i < |items| ==> KeyFor(cats, items[i]) in KeysOf(ts)
    ensures SeedTransactions(ts, cats, items, dates) == ts
  {
    if items != [] {
      CandidatesTail(cats, items, dates);
      assert forall i :: 0 <= i < |items[1..]| ==> items[1..][i] == items[i + 1];
      SeedTransactionsWhenPresent(ts, cats, items[1..], dates[1..]);
    }
  }

  // ---------------------------------------------------------------------
  // Both loops, for any catalogue

  /** The names a category table holds. */
  function NamesOf(cats: seq<Category>): set<string> {
    set c | c in cats :: c.name
  }

  /** A name is in the table's names exactly when some row carries it. */
  lemma {:induction false} NamesOfSpec(cats: seq<Category>)
    ensures forall j :: 0 <= j < |cats| ==> cats[j].name in NamesOf(cats)
    ensures forall n :: n in NamesOf(cats) ==> exists j :: 0 <= j < |cats| && cats[j].name == n
  {
    forall j | 0 <= j < |cats| ensures cats[j].name in NamesOf(cats) {
      assert cats[j] in cats;
    }
    forall n | n in NamesOf(cats) ensures exists j :: 0 <= j < |cats| && cats[j].name == n {
      var c :| c in cats && c.name == n;
      var j :| 0 <= j < |cats| && cats[j] == c;
    }
  }

  /** Every category a transaction entry names is an entry of the category catalogue. */
  ghost predicate Closed(catalogue: seq<Category>, items: seq<TransactionSeed>) {
    forall i :: 0 <= i < |items| ==> items[i].category in NamesOf(catalogue)
  }

  /** A catalogue is closed when each entry can point at a category with its category's name. */
  lemma {:induction false} ClosedByIndex(catalogue: seq<Category>, items: seq<TransactionSeed>, index: seq<nat>)
    requires |index| == |items|
    requires forall i :: 0 <= i < |items| ==> index[i] < |catalogue| && catalogue[index[i]].name == items[i].category
    ensures Closed(catalogue, items)
  {
    forall i | 0 <= i < |items|
      ensures items[i].category in NamesOf(catalogue)
    {
      assert catalogue[index[i]] in catalogue;
    }
  }

  /** After the category loop over a closed catalogue, every transaction entry's category resolves. */
  lemma {:induction false} ClosedResolves(cats: seq<Category>, catalogue: seq<Category>, items: seq<TransactionSeed>)
    requires Closed(catalogue, items)
    ensures CategoriesResolve(SeedCategories(cats, catalogue), items)
  {
    var r := SeedCategories(cats, catalogue);
    SeedCategoriesSpec(cats, catalogue);
    NamesOfSpec(catalogue);
    forall i | 0 <= i < |items| ensures FindCategory(r, items[i].category).Some? {
      assert items[i].category in NamesOf(catalogue);
      var j :| 0 <= j < |catalogue| && catalogue[j].name == items[i].category;
    }
  }

  /** The category loop, then the transaction loop against the categories it left. */
  function SeedWith(db: Db, catalogue: seq<Category>, items: seq<TransactionSeed>, dates: seq<int>): Db
    requires |dates| == |items| && Closed(catalogue, items)
  {
    var cats := SeedCategories(db.categories, catalogue);
    ClosedResolves(db.categories, catalogue, items);
    Db(cats, SeedTransactions(db.transactions, cats, items, dates))
  }

  lemma {:induction false} SeedWithIdempotent(db: Db, catalogue: seq<Category>, items: seq<TransactionSeed>, dates: seq<int>, dates': seq<int>)
    requires |dates| == |items| == |dates'| && Closed(catalogue, items)
    ensures SeedWith(SeedWith(db, catalogue, items, dates), catalogue, items, dates') == SeedWith(db, catalogue, items, dates)
  {
    var once := SeedWith(db, catalogue, items, dates);
    ClosedResolves(db.categories, catalogue, items);
    SeedCategoriesSpec(db.categories, catalogue);
    SeedCategoriesWhenPresent(once.categories, catalogue);
    SeedTransactionsWhenPresent(once.transactions, once.categories, items, dates');
  }

  /** What a created row is made of, stated without the lookup helpers. */
  ghost predicate FromEntry(t: Transaction, cats: seq<Category>, item: TransactionSeed, date: int) {
    && t.name == item.name
    && t.amount == item.amount
    && t.kind == item.kind
    && t.category < |cats|
    && cats[t.category].name == item.category
    && t.date == date
    && t.description == Some(SampleDescription(t.kind))
  }

  lemma {:induction false} CandidateFromEntry(t: Transaction, cats: seq<Category>, items: seq<TransactionSeed>, dates: seq<int>)
    requires |dates| == |items| && CategoriesResolve(cats, items)
    requires t in Candidates(cats, items, dates)
    ensures exists i :: 0 <= i < |items| && FromEntry(t, cats, items[i], dates[i])
  {
    var i :| 0 <= i < |items| && t == NewTransaction(KeyFor(cats, items[i]), dates[i]);
    assert FromEntry(t, cats, items[i], dates[i]);
  }

  lemma {:induction false} SeedWithCreatesOnlyNew(db: Db, catalogue: seq<Category>, items: seq<TransactionSeed>, dates: seq<int>)
    requires |dates| == |items| && Closed(catalogue, items)
    ensures var r := SeedWith(db, catalogue, items, dates);
      && |r.categories| >= |db.categories| && r.categories[..|db.categories|] == db.categories
      && |r.transactions| >= |db.transactions| && r.transactions[..|db.transactions|] == db.transactions
      && forall j :: |db.transactions| <= j < |r.transactions| ==>
           && KeyOf(r.transactions[j]) !in KeysOf(r.transactions[..j])
           && (exists i :: 0 <= i < |items| && FromEntry(r.transactions[j], r.categories, items[i], dates[i]))
  {
    ClosedResolves(db.categories, catalogue, items);
    SeedCategoriesSpec(db.categories, catalogue);
    var cats := SeedCategories(db.categories, catalogue);
    var ts := SeedTransactions(db.transactions, cats, items, dates);
    forall j | |db.transactions| <= j < |ts|
      ensures exists i :: 0 <= i < |items| && FromEntry(ts[j], cats, items[i], dates[i])
    {
      CandidateFromEntry(ts[j], cats, items, dates);
    }
  }

  lemma {:induction false} SeedWithKeepsWellFormed(db: Db, catalogue: seq<Category>, items: seq<TransactionSeed>, dates: seq<int>)
    requires |dates| == |items| && Closed(catalogue, items)
    requires forall i :: 0 <= i < |items| ==> AmountFits(items[i].amount)
    requires WellFormed(db)
    ensures WellFormed(SeedWith(db, catalogue, items, dates))
  {
    var r := SeedWith(db, catalogue, items, dates);
    SeedCategoriesKeepsNamesUnique(db.categories, catalogue);
    SeedWithCreatesOnlyNew(db, catalogue, items, dates);
    forall j | 0 <= j < |r.transactions|
      ensures r.transactions[j].category < |r.categories| && AmountFits(r.transactions[j].amount)
    {
      if j < |db.transactions| {
        assert r.transactions[j] == r.transactions[..|db.transactions|][j] == db.transactions[j];
      } else {
        var i :| 0 <= i < |items| && FromEntry(r.transactions[j], r.categories, items[i], dates[i]);
      }
    }
  }

  lemma {:induction false} SeedWithPopulates(db: Db, catalogue: seq<Category>, items: seq<TransactionSeed>, dates: seq<int>)
    requires |dates| == |items| && Closed(catalogue, items)
    ensures CategoriesResolve(SeedWith(db, catalogue, items, dates).categories, items)
    ensures var r := SeedWith(db, catalogue, items, dates);
      && (forall i :: 0 <= i < |catalogue| ==> catalogue[i].name in NamesOf(r.categories))
      && (forall i :: 0 <= i < |items| ==> KeyFor(r.categories, items[i]) in KeysOf(r.transactions))
  {
    var r := SeedWith(db, catalogue, items, dates);
    ClosedResolves(db.categories, catalogue, items);
    SeedCategoriesSpec(db.categories, catalogue);
    NamesOfSpec(r.categories);
  }

  /** With offsets of 0 to 30 days from `base`, every created row is dated within that window. */
  lemma {:induction false} SeedWithCreatesInWindow(db: Db, catalogue: seq<Category>, items: seq<TransactionSeed>, base: int, offsets: seq<int>)
    requires |offsets| == |items| && Closed(catalogue, items)
    requires forall i :: 0 <= i < |offsets| ==> 0 <= offsets[i] <= WindowDays
    ensures var r := SeedWith(db, catalogue, items, OffsetDates(base, offsets));
      forall j :: |db.transactions| <= j < |r.transactions| ==>
        && base <= r.transactions[j].date <= base + WindowDays * SecondsPerDay
        && (exists i :: 0 <= i < |items| && FromEntry(r.transactions[j], r.categories, items[i], OffsetDates(base, offsets)[i]))
  {
    var dates := OffsetDates(base, offsets);
    var r := SeedWith(db, catalogue, items, dates);
    SeedWithCreatesOnlyNew(db, catalogue, items, dates);
    forall j | |db.transactions| <= j < |r.transactions|
      ensures base <= r.transactions[j].date <= base + WindowDays * SecondsPerDay
      ensures exists i :: 0 <= i < |items| && FromEntry(r.transactions[j], r.categories, items[i], dates[i])
    {
      var i :| 0 <= i < |items| && FromEntry(r.transactions[j], r.categories, items[i], dates[i]);
    }
  }

  /** Every row of `after` beyond the rows of `before` is dated in [lo, hi]. */
  ghost predicate CreatedWithin(before: Db, after: Db, lo: int, hi: int) {
    forall j :: |before.transactions| <= j < |after.transactions| ==> lo <= after.transactions[j].date <= hi
  }

  lemma {:induction false} SeedWithDatesWithin(db: Db, catalogue: seq<Category>, items: seq<TransactionSeed>, base: int, offsets: seq<int>)
    requires |offsets| == |items| && Closed(catalogue, items)
    requires forall i :: 0 <= i < |offsets| ==> 0 <= offsets[i] <= WindowDays
    ensures CreatedWithin(db, SeedWith(db, catalogue, items, OffsetDates(base, offsets)), base, base + WindowDays * SecondsPerDay)
  {
    SeedWithCreatesInWindow(db, catalogue, items, base, offsets);
  }

  /** No two catalogue transactions share a name, so no two share a key. */
  ghost predicate DistinctEntryNames(items: seq<TransactionSeed>) {
    forall i, j :: 0 <= i < j < |items| ==> items[i].name != items[j].name
  }

  /**
   * A table holding none of the catalogue's names, seeded from a catalogue
   * of distinct names, gains the whole catalogue in order.
   */
  lemma {:induction false} SeedCategoriesFresh(cats: seq<Category>, catalogue: seq<Category>)
    requires UniqueNames(catalogue)
    requires forall i :: 0 <= i < |catalogue| ==> catalogue[i].name !in NamesOf(cats)
    ensures SeedCategories(cats, catalogue) == cats + catalogue
    decreases |catalogue|
  {
    if catalogue == [] {
      assert cats + catalogue == cats;
    } else {
      var c := catalogue[0];
      NamesOfSpec(cats);
      assert FindCategory(cats, c.name).None?;
      var next := cats + [c];
      assert UpsertCategory(cats, c).0 == next;
      NamesOfSnoc(cats, c);
      assert UniqueNames(catalogue[1..]) by {
        forall i, j | 0 <= i < j < |catalogue[1..]| ensures catalogue[1..][i].name != catalogue[1..][j].name {
          assert catalogue[1..][i] == catalogue[i + 1] && catalogue[1..][j] == catalogue[j + 1];
        }
      }
      forall i | 0 <= i < |catalogue[1..]| ensures catalogue[1..][i].name !in NamesOf(next) {
        assert catalogue[1..][i] == catalogue[i + 1];
      }
      SeedCategoriesFresh(next, catalogue[1..]);
      assert next + catalogue[1..] == cats + catalogue;
    }
  }

  /** Adding a row adds its key. */
  lemma {:induction false} KeysOfSnoc(ts: seq<Transaction>, t: Transaction)
    ensures KeysOf(ts + [t]) == KeysOf(ts) + {KeyOf(t)}
  {
    forall k | k in KeysOf(ts) ensures k in KeysOf(ts + [t]) {
      var u :| u in ts && KeyOf(u) == k;
      assert u in ts + [t];
    }
    assert t in ts + [t];
    forall k | k in KeysOf(ts + [t]) ensures k in KeysOf(ts) + {KeyOf(t)} {
      var u :| u in ts + [t] && KeyOf(u) == k;
      if u != t {
        assert u in ts;
      }
    }
  }

  /**
   * A table holding none of the catalogue's keys, seeded from entries with
   * distinct names, gains one row per entry.
   */
  lemma {:induction false} SeedTransactionsFresh(ts: seq<Transaction>, cats: seq<Category>, items: seq<TransactionSeed>, dates: seq<int>)
    requires |dates| == |items| && CategoriesResolve(cats, items)
    requires DistinctEntryNames(items)
    requires forall i :: 0 <= i < |items| ==> KeyFor(cats, items[i]) !in KeysOf(ts)
    ensures |SeedTransactions(ts, cats, items, dates)| == |ts| + |items|
    decreases |items|
  {
    if items != [] {
      ResolveSuffix(cats, items, 1);
      var k := KeyFor(cats, items[0]);
      var t := NewTransaction(k, dates[0]);
      var next := UpsertTransaction(ts, k, dates[0]);
      assert next == ts + [t];
      KeysOfSnoc(ts, t);
      assert DistinctEntryNames(items[1..]) by {
        forall i, j | 0 <= i < j < |items[1..]| ensures items[1..][i].name != items[1..][j].name {
          assert items[1..][i] == items[i + 1] && items[1..][j] == items[j + 1];
        }
      }
      forall i | 0 <= i < |items[1..]| ensures KeyFor(cats, items[1..][i]) !in KeysOf(next) {
        assert items[1..][i] == items[i + 1];
      }
      SeedTransactionsFresh(next, cats, items[1..], dates[1..]);
    }
  }

  /** Seeding an empty store creates exactly one row per catalogue entry. */
  lemma {:induction false} SeedWithFreshCounts(catalogue: seq<Category>, items: seq<TransactionSeed>, dates: seq<int>)
    requires |dates| == |items| && Closed(catalogue, items)
    requires UniqueNames(catalogue) && DistinctEntryNames(items)
    ensures SeedWith(Db([], []), catalogue, items, dates).categories == catalogue
    ensures |SeedWith(Db([], []), catalogue, items, dates).transactions| == |items|
  {
    var none: seq<Category> := [];
    assert NamesOf(none) == {};
    SeedCategoriesFresh(none, catalogue);
    assert none + catalogue == catalogue;
    ClosedResolves(none, catalogue, items);
    var empty: seq<Transaction> := [];
    assert KeysOf(empty) == {};
    SeedTransactionsFresh(empty, catalogue, items, dates);
  }

  // ---------------------------------------------------------------------
  // The command with its own catalogue

  /** For each catalogue transaction, the position of its category in the category catalogue. */
  const CategoryIndex: seq<nat> := [0, 1, 2, 0, 3, 4, 5, 6, 3, 7, 8, 3, 4, 5, 6]

  /** Every category the transaction catalogue names is in the category catalogue. */
  lemma CatalogueClosed()
    ensures Closed(CategoryCatalogue, TransactionCatalogue)
  {
    ClosedByIndex(CategoryCatalogue, TransactionCatalogue, CategoryIndex);
  }

  /** No two catalogue categories share a name, so the `categories` dict ends with 9 keys. */
  lemma CatalogueNamesDistinct()
    ensures UniqueNames(CategoryCatalogue)
  {
  }

  /** Every catalogue amount fits `max_digits=10, decimal_places=2`. */
  lemma CatalogueAmountsFit()
    ensures forall i :: 0 <= i < |TransactionCatalogue| ==> AmountFits(TransactionCatalogue[i].amount)
  {
  }

  /** Each entry dated `base` plus its offset in whole days. */
  function OffsetDates(base: int, offsets: seq<int>): (dates: seq<int>)
    ensures |dates| == |offsets|
    ensures forall i :: 0 <= i < |offsets| && 0 <= offsets[i] <= WindowDays ==>
      base <= dates[i] <= base + WindowDays * SecondsPerDay
  {
    seq(|offsets|, i requires 0 <= i < |offsets| => base + offsets[i] * SecondsPerDay)
  }

  /** `base_date` is 30 days before now. */
  function BaseDate(now: int): int {
    now - WindowDays * SecondsPerDay
  }

  /** `randint(0, 30)` was drawn once per catalogue transaction. */
  ghost predicate ValidOffsets(offsets: seq<int>) {
    |offsets| == |TransactionCatalogue| && forall i :: 0 <= i < |offsets| ==> 0 <= offsets[i] <= WindowDays
  }

  /** `handle`: both loops over the command's catalogues, with the day offsets drawn. */
  function Seed(db: Db, now: int, offsets: seq<int>): Db
    requires ValidOffsets(offsets)
  {
    CatalogueClosed();
    SeedWith(db, CategoryCatalogue, TransactionCatalogue, OffsetDates(BaseDate(now), offsets))
  }

  /** Running the command a second time, at any time and with any offsets, changes nothing. */
  lemma {:induction false} SeedIdempotent(db: Db, now: int, offsets: seq<int>, now': int, offsets': seq<int>)
    requires ValidOffsets(offsets) && ValidOffsets(offsets')
    ensures Seed(Seed(db, now, offsets), now', offsets') == Seed(db, now, offsets)
  {
    CatalogueClosed();
    SeedWithIdempotent(db, CategoryCatalogue, TransactionCatalogue, OffsetDates(BaseDate(now), offsets), OffsetDates(BaseDate(now'), offsets'));
  }

  /** After a run every catalogue category name is present. */
  lemma {:induction false} SeedAddsCategories(db: Db, now: int, offsets: seq<int>)
    requires ValidOffsets(offsets)
    ensures var r := Seed(db, now, offsets);
      forall i :: 0 <= i < |CategoryCatalogue| ==> CategoryCatalogue[i].name in NamesOf(r.categories)
  {
    CatalogueClosed();
    SeedWithPopulates(db, CategoryCatalogue, TransactionCatalogue, OffsetDates(BaseDate(now), offsets));
  }

  /** After a run every catalogue transaction's category resolves and its key is present. */
  lemma {:induction false} SeedAddsTransactions(db: Db, now: int, offsets: seq<int>)
    requires ValidOffsets(offsets)
    ensures CategoriesResolve(Seed(db, now, offsets).categories, TransactionCatalogue)
    ensures var r := Seed(db, now, offsets);
      forall i :: 0 <= i < |TransactionCatalogue| ==> KeyFor(r.categories, TransactionCatalogue[i]) in KeysOf(r.transactions)
  {
    CatalogueClosed();
    SeedWithPopulates(db, CategoryCatalogue, TransactionCatalogue, OffsetDates(BaseDate(now), offsets));
  }

  /** Every row a run creates is dated between 30 days before `now` and `now`, both included. */
  lemma {:induction false} SeedCreatesInWindow(db: Db, now: int, offsets: seq<int>)
    requires ValidOffsets(offsets)
    ensures CreatedWithin(db, Seed(db, now, offsets), now - WindowDays * SecondsPerDay, now)
  {
    CatalogueClosed();
    var base := BaseDate(now);
    assert base == now - WindowDays * SecondsPerDay && base + WindowDays * SecondsPerDay == now;
    SeedWithDatesWithin(db, CategoryCatalogue, TransactionCatalogue, base, offsets);
  }

  /** The catalogues hold 9 categories and 15 transactions. */
  lemma CatalogueSizes()
    ensures |CategoryCatalogue| == 9 && |TransactionCatalogue| == 15
  {
  }

  /** No two catalogue transactions share a name. */
  lemma CatalogueEntryNamesDistinct()
    ensures DistinctEntryNames(TransactionCatalogue)
  {
  }

  /**
   * Run on an empty store, the command creates the 9 catalogue categories, in
   * catalogue order, and 15 transactions: here its final message counts rows.
   */
  lemma {:induction false} SeedEmptyCounts(now: int, offsets: seq<int>)
    requires ValidOffsets(offsets)
    ensures Seed(Db([], []), now, offsets).categories == CategoryCatalogue
    ensures |Seed(Db([], []), now, offsets).categories| == 9
    ensures |Seed(Db([], []), now, offsets).transactions| == 15
  {
    CatalogueClosed();
    CatalogueNamesDistinct();
    CatalogueEntryNamesDistinct();
    CatalogueSizes();
    SeedWithFreshCounts(CategoryCatalogue, TransactionCatalogue, OffsetDates(BaseDate(now), offsets));
  }

  /** A run keeps the store well formed: unique names, valid references, amounts that fit. */
  lemma {:induction false} SeedKeepsWellFormed(db: Db, now: int, offsets: seq<int>)
    requires ValidOffsets(offsets) && WellFormed(db)
    ensures WellFormed(Seed(db, now, offsets))
  {
    CatalogueClosed();
    CatalogueAmountsFit();
    SeedWithKeepsWellFormed(db, CategoryCatalogue, TransactionCatalogue, OffsetDates(BaseDate(now), offsets));
  }

  // ---------------------------------------------------------------------
  // The store the command writes to

  class Store {
    var categories: seq<Category>
    var transactions: seq<Transaction>

    function State(): Db
      reads this
    {
      Db(categories, transactions)
    }

    constructor (db: Db)
      ensures State() == db
    {
      categories := db.categories;
      transactions := db.transactions;
    }

    /** `Category.objects.get_or_create`; `created` says whether a row was added. */
    method GetOrCreateCategory(seed: Category) returns (id: nat, created: bool)
      modifies this
      ensures (categories, id) == UpsertCategory(old(categories), seed)
      ensures created <==> FindCategory(old(categories), seed.name).None?
      ensures transactions == old(transactions)
    {
      var found := FindCategory(categories, seed.name);
      match found
      case Some(k) =>
        id, created := k, false;
      case None =>
        id, created := |categories|, true;
        categories := categories + [seed];
    }

    /** `Transaction.objects.get_or_create` on the natural key, with the defaults for a new row. */
    method GetOrCreateTransaction(k: Key, date: int) returns (created: bool)
      modifies this
      ensures transactions == UpsertTransaction(old(transactions), k, date)
      ensures created <==> k !in KeysOf(old(transactions))
      ensures categories == old(categories)
    {
      created := !KeyPresent(transactions, k);
      if created {
        transactions := transactions + [NewTransaction(k, date)];
      }
    }

    /**
     * The category loop. `ids` is the command's `categories` dict: each
     * catalogue name mapped to the primary key get_or_create returned.
     */
    method SeedCategoryTable(catalogue: seq<Category>) returns (ids: map<string, nat>)
      modifies this
      ensures categories == SeedCategories(old(categories), catalogue)
      ensures transactions == old(transactions)
      ensures ids.Keys == NamesOf(catalogue)
      ensures forall n :: n in ids ==> FindCategory(categories, n) == Some(ids[n])
      ensures UniqueNames(catalogue) ==> |ids| == |catalogue|
    {
      ids := map[];
      var i := 0;
      while i < |catalogue|
        invariant 0 <= i <= |catalogue|
        invariant transactions == old(transactions)
        invariant CategoryLoop(old(categories), catalogue, i, categories, ids)
      {
        ghost var before := categories;
        var id, created := GetOrCreateCategory(catalogue[i]);
        CategoryLoopStep(old(categories), catalogue, i, before, ids);
        ids := ids[catalogue[i].name := id];
        i := i + 1;
      }
      assert catalogue[i..] == [];
      assert catalogue[..i] == catalogue;
    }

    /** The transaction loop, each entry dated `base` plus its drawn offset in days. */
    method SeedTransactionTable(items: seq<TransactionSeed>, ids: map<string, nat>, base: int, offsets: seq<int>)
      requires |offsets| == |items|
      requires forall i :: 0 <= i < |items| ==>
        items[i].category in ids && FindCategory(categories, items[i].category) == Some(ids[items[i].category])
      modifies this
      ensures categories == old(categories)
      ensures CategoriesResolve(categories, items)
      ensures transactions == SeedTransactions(old(transactions), categories, items, OffsetDates(base, offsets))
    {
      var dates := OffsetDates(base, offsets);
      var k := 0;
      while k < |items|
        invariant 0 <= k <= |items|
        invariant categories == old(categories)
        invariant CategoriesResolve(categories, items[k..])
        invariant SeedTransactions(transactions, categories, items[k..], dates[k..])
               == SeedTransactions(old(transactions), categories, items, dates)
      {
        var item := items[k];
        var date := base + offsets[k] * SecondsPerDay;
        SeedTransactionsUnfold(transactions, categories, items, dates, k);
        var key := Key(item.name, item.amount, ids[item.category], item.kind);
        assert key == KeyFor(categories, items[k]) && date == dates[k];
        var created := GetOrCreateTransaction(key, date);
        k := k + 1;
      }
      assert items[k..] == [];
    }

    /**
     * Both loops over any closed catalogue. Returns the size of the
     * `categories` dict and the number of transaction entries.
     */
    method Run(catalogue: seq<Category>, items: seq<TransactionSeed>, base: int, offsets: seq<int>)
      returns (categoryCount: nat, transactionCount: nat)
      requires |offsets| == |items| && Closed(catalogue, items)
      modifies this
      ensures State() == SeedWith(old(State()), catalogue, items, OffsetDates(base, offsets))
      ensures UniqueNames(catalogue) ==> categoryCount == |catalogue|
      ensures transactionCount == |items|
    {
      var ids := SeedCategoryTable(catalogue);
      SeedTransactionTable(items, ids, base, offsets);
      categoryCount := |ids|;
      transactionCount := |items|;
    }

    /**
     * `Command.handle`. Returns the two counts its final message reports:
     * the size of the `categories` dict and of the transaction catalogue.
     */
    method Populate(now: int, offsets: seq<int>) returns (categoryCount: nat, transactionCount: nat)
      requires ValidOffsets(offsets)
      modifies this
      ensures State() == Seed(old(State()), now, offsets)
      ensures categoryCount == |CategoryCatalogue| && transactionCount == |TransactionCatalogue|
    {
      CatalogueClosed();
      CatalogueNamesDistinct();
      categoryCount, transactionCount := Run(CategoryCatalogue, TransactionCatalogue, BaseDate(now), offsets);
    }
  }

  /** Adding a row adds its name. */
  lemma {:induction false} NamesOfSnoc(cats: seq<Category>, c: Category)
    ensures NamesOf(cats + [c]) == NamesOf(cats) + {c.name}
  {
    forall n | n in NamesOf(cats) ensures n in NamesOf(cats + [c]) {
      var d :| d in cats && d.name == n;
      assert d in cats + [c];
    }
    assert c in cats + [c];
    forall n | n in NamesOf(cats + [c]) ensures n in NamesOf(cats) + {c.name} {
      var d :| d in cats + [c] && d.name == n;
      if d != c {
        assert d in cats;
      }
    }
  }

  /**
   * The category loop's invariant after `i` entries: finishing the loop from
   * here gives what the whole loop gives, the dict holds exactly the names
   * seen so far, each mapped to the row its name resolves to, and with
   * distinct catalogue names it has one key per entry seen.
   */
  ghost predicate CategoryLoop(start: seq<Category>, catalogue: seq<Category>, i: nat, cats: seq<Category>, ids: map<string, nat>)
    requires i <= |catalogue|
  {
    && SeedCategories(cats, catalogue[i..]) == SeedCategories(start, catalogue)
    && ids.Keys == NamesOf(catalogue[..i])
    && (forall n :: n in ids ==> FindCategory(cats, n) == Some(ids[n]))
    && (UniqueNames(catalogue) ==> |ids| == i)
  }

  lemma {:induction false} CategoryLoopStep(start: seq<Category>, catalogue: seq<Category>, i: nat, cats: seq<Category>, ids: map<string, nat>)
    requires i < |catalogue| && CategoryLoop(start, catalogue, i, cats, ids)
    ensures var (next, id) := UpsertCategory(cats, catalogue[i]);
      CategoryLoop(start, catalogue, i + 1, next, ids[catalogue[i].name := id])
  {
    SeedCategoriesUnfold(cats, catalogue, i);
    NamesOfPrefixStep(catalogue, i);
    UniqueNamesFresh(catalogue, i);
    IdsStep(cats, ids, catalogue[i]);
  }

  /** The `categories` dict stays in step with the table across one get_or_create. */
  lemma {:induction false} IdsStep(cats: seq<Category>, ids: map<string, nat>, seed: Category)
    requires forall n :: n in ids ==> FindCategory(cats, n) == Some(ids[n])
    ensures var (r, id) := UpsertCategory(cats, seed);
      forall n :: n in ids[seed.name := id] ==> FindCategory(r, n) == Some(ids[seed.name := id][n])
  {
    UpsertKeepsFirstMatches(cats, seed);
  }

  lemma {:induction false} NamesOfPrefixStep(catalogue: seq<Category>, i: nat)
    requires i < |catalogue|
    ensures NamesOf(catalogue[..i + 1]) == NamesOf(catalogue[..i]) + {catalogue[i].name}
  {
    assert catalogue[..i + 1] == catalogue[..i] + [catalogue[i]];
    NamesOfSnoc(catalogue[..i], catalogue[i]);
  }

  /** With distinct names, the i-th name is not among the earlier ones. */
  lemma {:induction false} UniqueNamesFresh(catalogue: seq<Category>, i: nat)
    requires i < |catalogue|
    ensures UniqueNames(catalogue) ==> catalogue[i].name !in NamesOf(catalogue[..i])
  {
    NamesOfSpec(catalogue[..i]);
    forall n | n in NamesOf(catalogue[..i]) ensures exists j :: 0 <= j < i && catalogue[j].name == n {
      var j :| 0 <= j < |catalogue[..i]| && catalogue[..i][j].name == n;
      assert catalogue[j] == catalogue[..i][j];
    }
  }

  /** One turn of the category loop. */
  lemma {:induction false} SeedCategoriesUnfold(cats: seq<Category>, catalogue: seq<Category>, i: nat)
    requires i < |catalogue|
    ensures SeedCategories(cats, catalogue[i..]) == SeedCategories(UpsertCategory(cats, catalogue[i]).0, catalogue[i + 1..])
  {
    assert catalogue[i..][1..] == catalogue[i + 1..];
  }

  /** One turn of the transaction loop. */
  lemma {:induction false} SeedTransactionsUnfold(ts: seq<Transaction>, cats: seq<Category>, items: seq<TransactionSeed>, dates: seq<int>, k: nat)
    requires |dates| == |items| && k < |items| && CategoriesResolve(cats, items[k..])
    ensures FindCategory(cats, items[k].category).Some?
    ensures CategoriesResolve(cats, items[k + 1..])
    ensures SeedTransactions(ts, cats, items[k..], dates[k..])
         == SeedTransactions(UpsertTransaction(ts, KeyFor(cats, items[k]), dates[k]), cats, items[k + 1..], dates[k + 1..])
  {
    assert items[k..][0] == items[k];
    assert items[k..][1..] == items[k + 1..];
    assert dates[k..][1..] == dates[k + 1..];
    ResolveSuffix(cats, items[k..], 1);
  }
}
