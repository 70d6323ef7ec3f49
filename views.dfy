/**
 * The dashboard view: total income, total expenses and balance, the five
 * most recent transactions with their signed amounts, and the expense
 * breakdown by category that feeds the donut chart. Everything is read from
 * a Db value; nothing is written.
 */
module Views {
  import opened Models
  import Ordering

  // ---------------------------------------------------------------------
  // Totals

  /** The rows of one type, in store order. */
  function OfType(ts: seq<Transaction>, kind: TransactionType): (r: seq<Transaction>)
    ensures |r| <= |ts|
    ensures forall i :: 0 <= i < |r| ==> r[i].kind == kind
    ensures r == [] <==> forall i :: 0 <= i < |ts| ==> ts[i].kind != kind
  {
    if ts == [] then []
    else if ts[0].kind == kind then [ts[0]] + OfType(ts[1..], kind)
    else OfType(ts[1..], kind)
  }

  /** The filter keeps every row of the type, as often as it is stored, and nothing else. */
  lemma {:induction false} OfTypeSelects(ts: seq<Transaction>, kind: TransactionType)
    ensures forall t :: multiset(OfType(ts, kind))[t] == if t.kind == kind then multiset(ts)[t] else 0
  {
    if ts != [] {
      OfTypeSelects(ts[1..], kind);
      assert ts == [ts[0]] + ts[1..];
    }
  }

  function SumAmounts(ts: seq<Transaction>): int {
    if ts == [] then 0 else ts[0].amount + SumAmounts(ts[1..])
  }

  /**
   * `Sum('amount')` over the rows of one type. As in SQL, the sum of no rows
   * is NULL (None), not zero.
   */
  function AggregateSum(ts: seq<Transaction>, kind: TransactionType): (r: Option<int>)
    ensures r.None? <==> forall i :: 0 <= i < |ts| ==> ts[i].kind != kind
    ensures r.Some? ==> r.value == SumAmounts(OfType(ts, kind))
  {
    if ts == [] then None
    else
      var rest := AggregateSum(ts[1..], kind);
      if ts[0].kind != kind then rest
      else Some(ts[0].amount + match rest case None => 0 case Some(v) => v)
  }

  /** The aggregate with its `or Decimal('0.00')` default. */
  function Total(ts: seq<Transaction>, kind: TransactionType): (r: int)
    ensures r == SumAmounts(OfType(ts, kind))
    ensures (forall i :: 0 <= i < |ts| ==> ts[i].kind != kind) ==> r == 0
  {
    match AggregateSum(ts, kind)
    case None => 0
    case Some(v) => v
  }

  /** Each row's contribution to the balance: its amount, subtracted for an expense. */
  function NetFlow(ts: seq<Transaction>): int {
    if ts == [] then 0
    else (if ts[0].kind == Income then ts[0].amount else -ts[0].amount) + NetFlow(ts[1..])
  }

  function SumSigned(ts: seq<Transaction>): int {
    if ts == [] then 0 else SignedAmount(ts[0]) + SumSigned(ts[1..])
  }

  /** The balance is income minus expenses, row by row. */
  lemma {:induction false} BalanceIsNetFlow(ts: seq<Transaction>)
    ensures Total(ts, Income) - Total(ts, Expense) == NetFlow(ts)
  {
    if ts != [] {
      BalanceIsNetFlow(ts[1..]);
    }
  }

  /** With no negative amount stored, the balance is the sum of the signed amounts. */
  lemma {:induction false} BalanceIsSumOfSignedAmounts(ts: seq<Transaction>)
    requires forall i :: 0 <= i < |ts| ==> ts[i].amount >= 0
    ensures Total(ts, Income) - Total(ts, Expense) == SumSigned(ts)
  {
    BalanceIsNetFlow(ts);
    NetFlowIsSumSigned(ts);
  }

  lemma {:induction false} NetFlowIsSumSigned(ts: seq<Transaction>)
    requires forall i :: 0 <= i < |ts| ==> ts[i].amount >= 0
    ensures NetFlow(ts) == SumSigned(ts)
  {
    if ts != [] {
      NetFlowIsSumSigned(ts[1..]);
    }
  }

  /**
   * The totals add raw amounts while the signed amount takes magnitudes: one
   * expense stored as -1.00 raises the balance by 1.00 and is listed as -1.00.
   */
  lemma NegativeExpenseRaisesBalance()
    ensures var t := Transaction("Refund", -100, 0, Expense, None, 0);
      && Total([t], Income) - Total([t], Expense) == 100
      && SumSigned([t]) == -100
  {
    var t := Transaction("Refund", -100, 0, Expense, None, 0);
    assert OfType([t], Expense) == [t];
    assert OfType([t], Income) == [];
  }

  // ---------------------------------------------------------------------
  // Recent transactions

  const RecentCount: nat := 5

  function Min(a: int, b: int): int {
    if a < b then a else b
  }

  /** `Transaction.objects.all()[:5]`: the head of the default listing. */
  function Recent(listing: seq<Transaction>): (r: seq<Transaction>)
    ensures |r| == Min(RecentCount, |listing|)
    ensures r == listing[..|r|]
  {
    if |listing| <= RecentCount then listing else listing[..RecentCount]
  }

  /**
   * Taken from any listing in date-descending order, the recent rows are
   * rows of the store, newest first, and no row left out is newer than any
   * row taken.
   */
  lemma {:induction false} RecentAreNewest(ts: seq<Transaction>, listing: seq<Transaction>)
    requires IsListing(ts, listing)
    ensures var r := Recent(listing);
      && |r| == Min(RecentCount, |ts|)
      && multiset(r) <= multiset(ts)
      && Ordering.SortedDesc(r, DateOf)
      && forall t :: t in multiset(ts) - multiset(r) ==>
           forall i :: 0 <= i < |r| ==> r[i].date >= t.date
  {
    var r := Recent(listing);
    var rest := listing[|r|..];
    assert |multiset(listing)| == |multiset(ts)|;
    assert listing == r + rest;
    assert multiset(ts) == multiset(r) + multiset(rest);
    forall t | t in multiset(ts) - multiset(r)
      ensures forall i :: 0 <= i < |r| ==> r[i].date >= t.date
    {
      assert t in multiset(rest);
      var k :| 0 <= k < |rest| && rest[k] == t;
      assert listing[|r| + k] == t;
      forall i | 0 <= i < |r| ensures r[i].date >= t.date {
        assert listing[i] == r[i];
        assert DateOf(listing[i]) >= DateOf(listing[|r| + k]);
      }
    }
  }

  /** One row of `recent_transactions` (the date is not formatted as text here). */
  datatype RecentEntry = RecentEntry(
    name: string,
    amount: int,
    kind: TransactionType,
    date: int,
    category: string,
    icon: string)

  /** data[i] presents recent[i]: its signed amount, and its category's name and icon. */
  ghost predicate Presents(data: seq<RecentEntry>, recent: seq<Transaction>, cats: seq<Category>) {
    && |data| == |recent|
    && forall i :: 0 <= i < |data| ==>
         && recent[i].category < |cats|
         && data[i].name == recent[i].name
         && data[i].amount == SignedAmount(recent[i])
         && data[i].kind == recent[i].kind
         && data[i].date == recent[i].date
         && data[i].category == cats[recent[i].category].name
         && data[i].icon == cats[recent[i].category].icon
  }

  /** The loop that builds `recent_transactions_data`. */
  method BuildRecentData(recent: seq<Transaction>, cats: seq<Category>) returns (data: seq<RecentEntry>)
    requires ReferencesValid(recent, cats)
    ensures Presents(data, recent, cats)
  {
    data := [];
    var i := 0;
    while i < |recent|
      invariant 0 <= i <= |recent|
      invariant Presents(data, recent[..i], cats)
    {
      var t := recent[i];
      var c := cats[t.category];
      data := data + [RecentEntry(t.name, SignedAmount(t), t.kind, t.date, c.name, c.icon)];
      i := i + 1;
    }
    assert recent[..i] == recent;
  }

  // ---------------------------------------------------------------------
  // Expense breakdown by category

  /** One row of the grouped query: category name and colour, and the summed amount. */
  datatype GroupRow = GroupRow(name: string, color: string, total: int)

  function TotalOf(row: GroupRow): int {
    row.total
  }

  function SumTotals(rows: seq<GroupRow>): int {
    if rows == [] then 0 else rows[0].total + SumTotals(rows[1..])
  }

  /** t is an expense whose category has this name and colour. */
  predicate InGroup(t: Transaction, cats: seq<Category>, name: string, color: string) {
    t.kind == Expense && t.category < |cats|
    && cats[t.category].name == name && cats[t.category].color == color
  }

  ghost predicate HasExpense(ts: seq<Transaction>, cats: seq<Category>, name: string, color: string) {
    exists i :: 0 <= i < |ts| && InGroup(ts[i], cats, name, color)
  }

  /** The expense amounts of one (name, colour) group, summed. */
  function GroupSum(ts: seq<Transaction>, cats: seq<Category>, name: string, color: string): int {
    if ts == [] then 0
    else (if InGroup(ts[0], cats, name, color) then ts[0].amount else 0) + GroupSum(ts[1..], cats, name, color)
  }

  ghost predicate HasGroup(rows: seq<GroupRow>, name: string, color: string) {
    exists i :: 0 <= i < |rows| && rows[i].name == name && rows[i].color == color
  }

  /** No two rows of the grouped query share a (name, colour) key. */
  ghost predicate DistinctKeys(rows: seq<GroupRow>) {
    forall i, j :: 0 <= i < j < |rows| ==> rows[i].name != rows[j].name || rows[i].color != rows[j].color
  }

  function FindGroup(rows: seq<GroupRow>, name: string, color: string): (r: Option<nat>)
    ensures r.Some? ==> r.value < |rows| && rows[r.value].name == name && rows[r.value].color == color
    ensures r.None? ==> !HasGroup(rows, name, color)
  {
    if rows == [] then None
    else if rows[0].name == name && rows[0].color == color then Some(0)
    else match FindGroup(rows[1..], name, color)
      case None => None
      case Some(k) => Some(k + 1)
  }

  lemma {:induction false} SumTotalsAppend(rows: seq<GroupRow>, row: GroupRow)
    ensures SumTotals(rows + [row]) == SumTotals(rows) + row.total
  {
    if rows != [] {
      assert (rows + [row])[1..] == rows[1..] + [row];
      SumTotalsAppend(rows[1..], row);
    }
  }

  lemma {:induction false} SumTotalsUpdate(rows: seq<GroupRow>, k: nat, row: GroupRow)
    requires k < |rows|
    ensures SumTotals(rows[k := row]) == SumTotals(rows) - rows[k].total + row.total
  {
    if k > 0 {
      assert rows[k := row][1..] == rows[1..][k - 1 := row];
      SumTotalsUpdate(rows[1..], k - 1, row);
    }
  }

  lemma {:induction false} HasGroupUpdate(rows: seq<GroupRow>, k: nat, row: GroupRow)
    requires k < |rows| && row.name == rows[k].name && row.color == rows[k].color
    ensures forall n, c :: HasGroup(rows[k := row], n, c) <==> HasGroup(rows, n, c)
  {
    var r := rows[k := row];
    forall n, c ensures HasGroup(r, n, c) <==> HasGroup(rows, n, c) {
      if HasGroup(r, n, c) {
        var i :| 0 <= i < |r| && r[i].name == n && r[i].color == c;
        assert rows[i].name == n && rows[i].color == c;
      }
      if HasGroup(rows, n, c) {
        var i :| 0 <= i < |rows| && rows[i].name == n && rows[i].color == c;
        assert r[i].name == n && r[i].color == c;
      }
    }
  }

  lemma {:induction false} HasGroupAppend(rows: seq<GroupRow>, row: GroupRow)
    ensures forall n, c :: HasGroup(rows + [row], n, c) <==> HasGroup(rows, n, c) || (n == row.name && c == row.color)
  {
    var r := rows + [row];
    forall n, c ensures HasGroup(r, n, c) <==> HasGroup(rows, n, c) || (n == row.name && c == row.color) {
      if HasGroup(r, n, c) {
        var i :| 0 <= i < |r| && r[i].name == n && r[i].color == c;
        if i < |rows| {
          assert rows[i].name == n && rows[i].color == c;
        }
      }
      if HasGroup(rows, n, c) {
        var i :| 0 <= i < |rows| && rows[i].name == n && rows[i].color == c;
        assert r[i].name == n && r[i].color == c;
      }
      assert r[|rows|] == row;
    }
  }

  /** Adds one expense to its group's row, opening the row if the group has none yet. */
  function AddToGroup(rows: seq<GroupRow>, name: string, color: string, amount: int): (r: seq<GroupRow>)
    requires DistinctKeys(rows)
    ensures DistinctKeys(r)
    ensures SumTotals(r) == SumTotals(rows) + amount
    ensures forall n, c :: HasGroup(r, n, c) <==> HasGroup(rows, n, c) || (n == name && c == color)
    ensures |rows| <= |r| <= |rows| + 1
    ensures forall i :: 0 <= i < |rows| ==>
      && r[i].name == rows[i].name && r[i].color == rows[i].color
      && r[i].total == rows[i].total + (if rows[i].name == name && rows[i].color == color then amount else 0)
    ensures |r| == |rows| <==> HasGroup(rows, name, color)
    ensures |r| != |rows| ==> r == rows + [GroupRow(name, color, amount)]
  {
    match FindGroup(rows, name, color)
    case Some(k) =>
      var row := rows[k].(total := rows[k].total + amount);
      SumTotalsUpdate(rows, k, row);
      HasGroupUpdate(rows, k, row);
      rows[k := row]
    case None =>
      var row := GroupRow(name, color, amount);
      SumTotalsAppend(rows, row);
      HasGroupAppend(rows, row);
      rows + [row]
  }

  lemma {:induction false} GroupSumWithoutMembers(ts: seq<Transaction>, cats: seq<Category>, name: string, color: string)
    requires !HasExpense(ts, cats, name, color)
    ensures GroupSum(ts, cats, name, color) == 0
  {
    if ts != [] {
      assert !InGroup(ts[0], cats, name, color);
      forall i | 0 <= i < |ts[1..]| ensures !InGroup(ts[1..][i], cats, name, color) {
        assert ts[1..][i] == ts[i + 1];
      }
      GroupSumWithoutMembers(ts[1..], cats, name, color);
    }
  }

  lemma {:induction false} HasExpenseCons(ts: seq<Transaction>, cats: seq<Category>)
    requires ts != []
    ensures forall n, c :: HasExpense(ts, cats, n, c) <==> InGroup(ts[0], cats, n, c) || HasExpense(ts[1..], cats, n, c)
  {
    forall n, c ensures HasExpense(ts, cats, n, c) <==> InGroup(ts[0], cats, n, c) || HasExpense(ts[1..], cats, n, c) {
      if HasExpense(ts, cats, n, c) && !InGroup(ts[0], cats, n, c) {
        var i :| 0 <= i < |ts| && InGroup(ts[i], cats, n, c);
        assert ts[1..][i - 1] == ts[i];
      }
      if HasExpense(ts[1..], cats, n, c) {
        var i :| 0 <= i < |ts[1..]| && InGroup(ts[1..][i], cats, n, c);
        assert ts[i + 1] == ts[1..][i];
      }
    }
  }

  /** Adding the first row's expense to the groups of the others gives the groups' sums over all rows. */
  lemma {:induction false} AddExpenseKeepsGroupSums(ts: seq<Transaction>, cats: seq<Category>, rest: seq<GroupRow>)
    requires ts != [] && ts[0].kind == Expense && ts[0].category < |cats|
    requires DistinctKeys(rest)
    requires forall n, c :: HasGroup(rest, n, c) <==> HasExpense(ts[1..], cats, n, c)
    requires forall i :: 0 <= i < |rest| ==> rest[i].total == GroupSum(ts[1..], cats, rest[i].name, rest[i].color)
    ensures var r := AddToGroup(rest, cats[ts[0].category].name, cats[ts[0].category].color, ts[0].amount);
      forall i :: 0 <= i < |r| ==> r[i].total == GroupSum(ts, cats, r[i].name, r[i].color)
  {
    var t := ts[0];
    var name, color := cats[t.category].name, cats[t.category].color;
    match FindGroup(rest, name, color)
    case Some(k) =>
    case None =>
      GroupSumWithoutMembers(ts[1..], cats, name, color);
  }

  /**
   * `filter(transaction_type='expense').values('category__name', 'category__color')
   * .annotate(total=Sum('amount'))`: one row per (name, colour) of a category
   * that has an expense, holding that group's summed amount. The database
   * returns the groups in an order it leaves open; this is one.
   */
  function ExpenseGroups(ts: seq<Transaction>, cats: seq<Category>): (rows: seq<GroupRow>)
    requires ReferencesValid(ts, cats)
    ensures DistinctKeys(rows)
    ensures forall n, c :: HasGroup(rows, n, c) <==> HasExpense(ts, cats, n, c)
    ensures forall i :: 0 <= i < |rows| ==> rows[i].total == GroupSum(ts, cats, rows[i].name, rows[i].color)
  {
    if ts == [] then []
    else
      var rest := ExpenseGroups(ts[1..], cats);
      var t := ts[0];
      HasExpenseCons(ts, cats);
      if t.kind != Expense then rest
      else
        AddExpenseKeepsGroupSums(ts, cats, rest);
        AddToGroup(rest, cats[t.category].name, cats[t.category].color, t.amount)
  }

  /**
   * A result the database may return for the grouped query with
   * `order_by('-total')`: the grouped rows in any non-increasing order of
   * total. The order of groups with equal totals is left open.
   */
  ghost predicate IsBreakdown(ts: seq<Transaction>, cats: seq<Category>, rows: seq<GroupRow>) {
    && ReferencesValid(ts, cats)
    && multiset(rows) == multiset(ExpenseGroups(ts, cats))
    && Ordering.SortedDesc(rows, TotalOf)
  }

  /** The grouped rows `order_by('-total')`, with ties in insertion order. */
  function Breakdown(ts: seq<Transaction>, cats: seq<Category>): (rows: seq<GroupRow>)
    requires ReferencesValid(ts, cats)
    ensures IsBreakdown(ts, cats, rows)
  {
    Ordering.SortDesc(ExpenseGroups(ts, cats), TotalOf)
  }

  lemma {:induction false} SumTotalsSplit(a: seq<GroupRow>, b: seq<GroupRow>)
    ensures SumTotals(a + b) == SumTotals(a) + SumTotals(b)
  {
    if a != [] {
      assert (a + b)[0] == a[0];
      assert (a + b)[1..] == a[1..] + b;
      SumTotalsSplit(a[1..], b);
    } else {
      assert a + b == b;
    }
  }

  /** Taking out one row takes out its element. */
  lemma {:induction false} RemoveRowElement(b: seq<GroupRow>, k: nat)
    requires k < |b|
    ensures multiset(b[..k] + b[k + 1..]) == multiset(b) - multiset{b[k]}
  {
    assert b == b[..k] + [b[k]] + b[k + 1..];
  }

  /** Taking out one row takes out its total. */
  lemma {:induction false} RemoveRow(b: seq<GroupRow>, k: nat)
    requires k < |b|
    ensures SumTotals(b) == b[k].total + SumTotals(b[..k] + b[k + 1..])
  {
    var rest := [b[k]] + b[k + 1..];
    assert b == b[..k] + rest;
    SumTotalsSplit(b[..k], rest);
    assert rest[0] == b[k] && rest[1..] == b[k + 1..];
    SumTotalsSplit(b[..k], b[k + 1..]);
  }

  /** Reordering rows does not change the sum of their totals. */
  lemma {:induction false} SumTotalsPermutation(a: seq<GroupRow>, b: seq<GroupRow>)
    requires multiset(a) == multiset(b)
    ensures SumTotals(a) == SumTotals(b)
    decreases |a|
  {
    if a == [] {
      assert |multiset(b)| == 0;
    } else {
      assert a[0] in multiset(b);
      var k :| 0 <= k < |b| && b[k] == a[0];
      RemoveRowElement(b, k);
      RemoveRow(b, k);
      assert a == [a[0]] + a[1..];
      assert multiset(a[1..]) == multiset(a) - multiset{a[0]};
      SumTotalsPermutation(a[1..], b[..k] + b[k + 1..]);
    }
  }

  lemma {:induction false} GroupsPartitionExpenses(ts: seq<Transaction>, cats: seq<Category>)
    requires ReferencesValid(ts, cats)
    ensures SumTotals(ExpenseGroups(ts, cats)) == Total(ts, Expense)
  {
    if ts != [] {
      GroupsPartitionExpenses(ts[1..], cats);
    }
  }

  /** In every valid breakdown, the totals add up to the expense total. */
  lemma {:induction false} BreakdownPartitionsExpenses(ts: seq<Transaction>, cats: seq<Category>, rows: seq<GroupRow>)
    requires IsBreakdown(ts, cats, rows)
    ensures SumTotals(rows) == Total(ts, Expense)
  {
    GroupsPartitionExpenses(ts, cats);
    SumTotalsPermutation(rows, ExpenseGroups(ts, cats));
  }

  /** The expense amounts of the category with primary key id, summed. */
  function CategoryExpenseSum(ts: seq<Transaction>, id: nat): int {
    if ts == [] then 0
    else (if ts[0].kind == Expense && ts[0].category == id then ts[0].amount else 0) + CategoryExpenseSum(ts[1..], id)
  }

  lemma {:induction false} SameNameSameCategory(cats: seq<Category>, a: nat, b: nat)
    requires UniqueNames(cats) && a < |cats| && b < |cats|
    ensures cats[a].name == cats[b].name ==> a == b
  {
    if a < b {
      assert cats[a].name != cats[b].name;
    } else if b < a {
      assert cats[b].name != cats[a].name;
    }
  }

  /** With unique names, a (name, colour) group is exactly one category's expenses. */
  lemma {:induction false} GroupSumIsCategorySum(ts: seq<Transaction>, cats: seq<Category>, id: nat)
    requires UniqueNames(cats) && id < |cats|
    ensures GroupSum(ts, cats, cats[id].name, cats[id].color) == CategoryExpenseSum(ts, id)
  {
    if ts != [] {
      var c := ts[0].category;
      if c < |cats| {
        SameNameSameCategory(cats, c, id);
      }
      GroupSumIsCategorySum(ts[1..], cats, id);
    }
  }

  /** Under unique names, every grouped row is the row of one category. */
  lemma {:induction false} RowOfCategory(ts: seq<Transaction>, cats: seq<Category>, row: GroupRow)
    requires UniqueNames(cats) && ReferencesValid(ts, cats)
    requires row in ExpenseGroups(ts, cats)
    ensures exists id :: 0 <= id < |cats| && row == GroupRow(cats[id].name, cats[id].color, CategoryExpenseSum(ts, id))
  {
    var rows := ExpenseGroups(ts, cats);
    var i :| 0 <= i < |rows| && rows[i] == row;
    assert HasGroup(rows, row.name, row.color);
    var k :| 0 <= k < |ts| && InGroup(ts[k], cats, row.name, row.color);
    var id := ts[k].category;
    GroupSumIsCategorySum(ts, cats, id);
    assert row == GroupRow(cats[id].name, cats[id].color, CategoryExpenseSum(ts, id));
  }

  lemma {:induction false} DistinctRowsOccurOnce(rows: seq<GroupRow>, x: GroupRow)
    requires DistinctKeys(rows)
    ensures multiset(rows)[x] <= 1
  {
    if rows != [] {
      assert rows == [rows[0]] + rows[1..];
      assert rows[0] !in rows[1..] by {
        forall j | 0 <= j < |rows[1..]| ensures rows[1..][j] != rows[0] {
          assert rows[1..][j] == rows[j + 1];
        }
      }
      assert DistinctKeys(rows[1..]) by {
        forall i, j | 0 <= i < j < |rows[1..]|
          ensures rows[1..][i].name != rows[1..][j].name || rows[1..][i].color != rows[1..][j].color
        {
          assert rows[1..][i] == rows[i + 1] && rows[1..][j] == rows[j + 1];
        }
      }
      DistinctRowsOccurOnce(rows[1..], x);
    }
  }

  lemma {:induction false} RepeatedRowCountsTwice(s: seq<GroupRow>, i: nat, j: nat)
    requires i < j < |s|
    ensures s[i] == s[j] ==> multiset(s)[s[i]] >= 2
  {
    assert s == s[..i] + [s[i]] + s[i + 1..j] + [s[j]] + s[j + 1..];
  }

  /**
   * Under unique names each breakdown row is one category's row, and no two
   * rows name the same category.
   */
  lemma {:induction false} BreakdownRowsAreCategories(ts: seq<Transaction>, cats: seq<Category>, rows: seq<GroupRow>)
    requires UniqueNames(cats) && IsBreakdown(ts, cats, rows)
    ensures
      && (forall i :: 0 <= i < |rows| ==>
            exists id :: 0 <= id < |cats| && rows[i] == GroupRow(cats[id].name, cats[id].color, CategoryExpenseSum(ts, id)))
      && (forall i, j :: 0 <= i < j < |rows| ==> rows[i].name != rows[j].name)
  {
    var groups := ExpenseGroups(ts, cats);
    forall i | 0 <= i < |rows|
      ensures exists id :: 0 <= id < |cats| && rows[i] == GroupRow(cats[id].name, cats[id].color, CategoryExpenseSum(ts, id))
    {
      assert rows[i] in multiset(groups);
      RowOfCategory(ts, cats, rows[i]);
    }
    forall i, j | 0 <= i < j < |rows| ensures rows[i].name != rows[j].name {
      var a :| 0 <= a < |cats| && rows[i] == GroupRow(cats[a].name, cats[a].color, CategoryExpenseSum(ts, a));
      var b :| 0 <= b < |cats| && rows[j] == GroupRow(cats[b].name, cats[b].color, CategoryExpenseSum(ts, b));
      SameNameSameCategory(cats, a, b);
      RepeatedRowCountsTwice(rows, i, j);
      DistinctRowsOccurOnce(groups, rows[i]);
    }
  }

  // ---------------------------------------------------------------------
  // The `analytics_data` dictionary

  /** The value stored under a category name. */
  datatype Slice = Slice(amount: int, color: string)

  /**
   * A Python dict from category name to slice: the keys in insertion order
   * and the mapping itself.
   */
  datatype Analytics = Analytics(keys: seq<string>, entries: map<string, Slice>)

  /** Keys are listed once each, and exactly the mapped ones are listed. */
  ghost predicate DictInvariant(d: Analytics) {
    && (forall i, j :: 0 <= i < j < |d.keys| ==> d.keys[i] != d.keys[j])
    && (forall n :: n in d.entries <==> n in d.keys)
  }

  /** `d[name] = slice`: an existing key keeps its position, a new key goes last. */
  function Put(d: Analytics, name: string, slice: Slice): (r: Analytics)
    requires DictInvariant(d)
    ensures DictInvariant(r)
    ensures r.entries == d.entries[name := slice]
    ensures name in d.entries ==> r.keys == d.keys
    ensures name !in d.entries ==> r.keys == d.keys + [name]
  {
    if name in d.entries then d.(entries := d.entries[name := slice])
    else Analytics(d.keys + [name], d.entries[name := slice])
  }

  /** The dictionary after the loop has stored every row in order. */
  function AnalyticsFrom(rows: seq<GroupRow>): (d: Analytics)
    ensures DictInvariant(d)
    ensures forall n :: n in d.entries <==> exists i :: 0 <= i < |rows| && rows[i].name == n
  {
    if rows == [] then Analytics([], map[])
    else
      var last := rows[|rows| - 1];
      var d := AnalyticsFrom(rows[..|rows| - 1]);
      assert forall i :: 0 <= i < |rows| - 1 ==> rows[..|rows| - 1][i] == rows[i];
      Put(d, last.name, Slice(last.total, last.color))
  }

  /** With distinct names, the dictionary lists the rows' names in row order, each with its row's slice. */
  lemma {:induction false} AnalyticsOfDistinctRows(rows: seq<GroupRow>)
    requires forall i, j :: 0 <= i < j < |rows| ==> rows[i].name != rows[j].name
    ensures var d := AnalyticsFrom(rows);
      && |d.keys| == |rows|
      && forall i :: 0 <= i < |rows| ==> d.keys[i] == rows[i].name && d.entries[rows[i].name] == Slice(rows[i].total, rows[i].color)
  {
    if rows != [] {
      var init := rows[..|rows| - 1];
      var last := rows[|rows| - 1];
      assert forall i :: 0 <= i < |init| ==> init[i] == rows[i];
      AnalyticsOfDistinctRows(init);
      var d := AnalyticsFrom(init);
      assert last.name !in d.entries;
      var r := AnalyticsFrom(rows);
      assert r == Put(d, last.name, Slice(last.total, last.color));
      forall i | 0 <= i < |rows|
        ensures r.keys[i] == rows[i].name && r.entries[rows[i].name] == Slice(rows[i].total, rows[i].color)
      {
        if i < |init| {
          assert r.keys[i] == d.keys[i] && rows[i].name != last.name;
        }
      }
    }
  }

  /** The loop that builds `analytics_data`. */
  method BuildAnalytics(rows: seq<GroupRow>) returns (d: Analytics)
    ensures d == AnalyticsFrom(rows)
  {
    d := Analytics([], map[]);
    var i := 0;
    while i < |rows|
      invariant 0 <= i <= |rows|
      invariant d == AnalyticsFrom(rows[..i])
    {
      assert rows[..i + 1][..i] == rows[..i];
      d := Put(d, rows[i].name, Slice(rows[i].total, rows[i].color));
      i := i + 1;
    }
    assert rows[..i] == rows;
  }

  /** The amounts of the listed keys, summed. */
  function SliceSum(keys: seq<string>, entries: map<string, Slice>): int {
    if keys == [] then 0
    else (if keys[0] in entries then entries[keys[0]].amount else 0) + SliceSum(keys[1..], entries)
  }

  lemma {:induction false} SliceSumOfRows(keys: seq<string>, entries: map<string, Slice>, rows: seq<GroupRow>)
    requires |keys| == |rows|
    requires forall i :: 0 <= i < |rows| ==> keys[i] == rows[i].name && keys[i] in entries && entries[keys[i]].amount == rows[i].total
    ensures SliceSum(keys, entries) == SumTotals(rows)
  {
    if keys != [] {
      SliceSumOfRows(keys[1..], entries, rows[1..]);
    }
  }

  lemma {:induction false} KeyHasExpense(ts: seq<Transaction>, cats: seq<Category>, rows: seq<GroupRow>, n: string)
    requires IsBreakdown(ts, cats, rows)
    requires n in AnalyticsFrom(rows).entries
    ensures exists k :: 0 <= k < |ts| && ts[k].kind == Expense && cats[ts[k].category].name == n
  {
    var groups := ExpenseGroups(ts, cats);
    var i :| 0 <= i < |rows| && rows[i].name == n;
    assert rows[i] in multiset(groups);
    var g :| 0 <= g < |groups| && groups[g] == rows[i];
    assert HasGroup(groups, n, rows[i].color);
    var k :| 0 <= k < |ts| && InGroup(ts[k], cats, n, rows[i].color);
  }

  lemma {:induction false} ExpenseHasKey(ts: seq<Transaction>, cats: seq<Category>, rows: seq<GroupRow>, k: nat)
    requires IsBreakdown(ts, cats, rows)
    requires k < |ts| && ts[k].kind == Expense
    ensures cats[ts[k].category].name in AnalyticsFrom(rows).entries
  {
    var groups := ExpenseGroups(ts, cats);
    var n, color := cats[ts[k].category].name, cats[ts[k].category].color;
    assert InGroup(ts[k], cats, n, color);
    assert HasGroup(groups, n, color);
    var g :| 0 <= g < |groups| && groups[g].name == n && groups[g].color == color;
    assert groups[g] in multiset(rows);
    var i :| 0 <= i < |rows| && rows[i] == groups[g];
  }

  /** `analytics_data` has a key for exactly the categories that have an expense. */
  lemma {:induction false} BreakdownKeys(ts: seq<Transaction>, cats: seq<Category>, rows: seq<GroupRow>)
    requires IsBreakdown(ts, cats, rows)
    ensures var d := AnalyticsFrom(rows);
      forall n :: n in d.entries <==>
        exists k :: 0 <= k < |ts| && ts[k].kind == Expense && cats[ts[k].category].name == n
  {
    var d := AnalyticsFrom(rows);
    forall n ensures n in d.entries <==> exists k :: 0 <= k < |ts| && ts[k].kind == Expense && cats[ts[k].category].name == n {
      if n in d.entries {
        KeyHasExpense(ts, cats, rows, n);
      }
      if exists k :: 0 <= k < |ts| && ts[k].kind == Expense && cats[ts[k].category].name == n {
        var k :| 0 <= k < |ts| && ts[k].kind == Expense && cats[ts[k].category].name == n;
        ExpenseHasKey(ts, cats, rows, k);
      }
    }
  }

  /**
   * Under unique names, the dictionary lists the breakdown rows' names in
   * order, and a category's key holds the sum of its expenses and its colour.
   */
  lemma {:induction false} BreakdownValues(ts: seq<Transaction>, cats: seq<Category>, rows: seq<GroupRow>)
    requires UniqueNames(cats) && IsBreakdown(ts, cats, rows)
    ensures var d := AnalyticsFrom(rows);
      && |d.keys| == |rows|
      && (forall i :: 0 <= i < |rows| ==> d.keys[i] == rows[i].name && d.entries[rows[i].name] == Slice(rows[i].total, rows[i].color))
      && (forall id :: 0 <= id < |cats| && cats[id].name in d.entries ==>
            d.entries[cats[id].name] == Slice(CategoryExpenseSum(ts, id), cats[id].color))
  {
    var d := AnalyticsFrom(rows);
    BreakdownRowsAreCategories(ts, cats, rows);
    AnalyticsOfDistinctRows(rows);
    forall id | 0 <= id < |cats| && cats[id].name in d.entries
      ensures d.entries[cats[id].name] == Slice(CategoryExpenseSum(ts, id), cats[id].color)
    {
      var i :| 0 <= i < |rows| && rows[i].name == cats[id].name;
      var a :| 0 <= a < |cats| && rows[i] == GroupRow(cats[a].name, cats[a].color, CategoryExpenseSum(ts, a));
      SameNameSameCategory(cats, a, id);
    }
  }

  /**
   * Under unique names, the dictionary's keys come in non-increasing order of
   * amount, and the amounts add up to the expense total.
   */
  lemma {:induction false} BreakdownOrderAndSum(ts: seq<Transaction>, cats: seq<Category>, rows: seq<GroupRow>)
    requires UniqueNames(cats) && IsBreakdown(ts, cats, rows)
    ensures var d := AnalyticsFrom(rows);
      && (forall i, j :: 0 <= i < j < |d.keys| ==> d.entries[d.keys[i]].amount >= d.entries[d.keys[j]].amount)
      && SliceSum(d.keys, d.entries) == Total(ts, Expense)
  {
    var d := AnalyticsFrom(rows);
    BreakdownValues(ts, cats, rows);
    forall i, j | 0 <= i < j < |d.keys| ensures d.entries[d.keys[i]].amount >= d.entries[d.keys[j]].amount {
      assert TotalOf(rows[i]) >= TotalOf(rows[j]);
    }
    SliceSumOfRows(d.keys, d.entries, rows);
    BreakdownPartitionsExpenses(ts, cats, rows);
  }

  // ---------------------------------------------------------------------
  // The view

  /** The template context (`upcoming_payments` is fixed sample data and not modelled). */
  datatype Dashboard = Dashboard(
    balance: int,
    income: int,
    expenses: int,
    recent: seq<RecentEntry>,
    analytics: Analytics)

  /** `main_dashboard`: reads the store and builds the context; changes nothing. */
  method MainDashboard(db: Db) returns (ctx: Dashboard)
    requires ReferencesValid(db.transactions, db.categories)
    ensures ctx.income == SumAmounts(OfType(db.transactions, Income))
    ensures ctx.expenses == SumAmounts(OfType(db.transactions, Expense))
    ensures ctx.balance == ctx.income - ctx.expenses
    ensures |ctx.recent| == Min(RecentCount, |db.transactions|)
    ensures Presents(ctx.recent, Recent(Listing(db.transactions)), db.categories)
    ensures ctx.analytics == AnalyticsFrom(Breakdown(db.transactions, db.categories))
    ensures db.transactions == [] ==>
      ctx.income == 0 && ctx.expenses == 0 && ctx.balance == 0 && ctx.recent == [] && ctx.analytics.keys == []
  {
    var ts := db.transactions;
    var income := Total(ts, Income);
    var expenses := Total(ts, Expense);
    var balance := income - expenses;
    var recent := Recent(Listing(ts));
    assert ReferencesValid(recent, db.categories) by {
      forall i | 0 <= i < |recent| ensures recent[i].category < |db.categories| {
        assert recent[i] in multiset(ts);
      }
    }
    var recentData := BuildRecentData(recent, db.categories);
    var analytics := BuildAnalytics(Breakdown(ts, db.categories));
    ctx := Dashboard(balance, income, expenses, recentData, analytics);
  }
}
