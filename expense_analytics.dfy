/**
 * `ExpenseController::analytics`: the caller's expenses grouped by the name of
 * their category, each group with its total, its size and the caller's budget
 * on the group's category, plus four overall totals accumulated group by group.
 *
 * The grouping is Laravel's `groupBy('category.name')`: groups appear in the
 * order their first expense appears (`GroupByNewKey`, `GroupByExistingKey`), and
 * an expense keeps its place inside its group. Expenses whose category is null
 * form one group of their own (the null key).
 */
module ExpenseAnalytics {
  import opened Wrappers
  import opened Schema
  import opened Ledger

  /** The key an expense is grouped under: its category's name, or null. */
  function GroupKey(cats: seq<Category>, e: Expense): (k: Option<string>)
    ensures e.categoryId.None? ==> k.None?
    ensures e.categoryId.Some? ==> (k.None? <==> forall j :: 0 <= j < |cats| ==> cats[j].id != e.categoryId.value)
    ensures k.Some? ==> exists j :: 0 <= j < |cats| && cats[j].id == e.categoryId.value && cats[j].name == k.value
  {
    if e.categoryId.None? then None
    else
      match CategoryWithId(cats, e.categoryId.value)
      case Some(k) => Some(cats[k].name)
      case None => None
  }

  datatype Group = Group(key: Option<string>, members: seq<Expense>)

  /** `$expenses->sum('amount')`. */
  function SumAmounts(es: seq<Expense>): (total: Cents)
    ensures (forall i :: 0 <= i < |es| ==> es[i].amount >= 0) ==> total >= 0
  {
    if es == [] then 0 else SumAmounts(es[..|es| - 1]) + es[|es| - 1].amount
  }

  /** The expenses of `es` grouped under `key`, in their order in `es`. */
  function WithKey(cats: seq<Category>, es: seq<Expense>, key: Option<string>): seq<Expense> {
    if es == [] then []
    else WithKey(cats, es[..|es| - 1], key) + (if GroupKey(cats, es[|es| - 1]) == key then [es[|es| - 1]] else [])
  }

  /** One step of `groupBy`: append `e` to the group of `key`, or open a new group at the end. */
  function Insert(gs: seq<Group>, key: Option<string>, e: Expense): (r: seq<Group>)
    ensures r != [] && |gs| <= |r| <= |gs| + 1
  {
    if gs == [] then [Group(key, [e])]
    else if gs[0].key == key then [gs[0].(members := gs[0].members + [e])] + gs[1..]
    else [gs[0]] + Insert(gs[1..], key, e)
  }

  /** `groupBy('category.name')` over `es`. */
  function GroupBy(cats: seq<Category>, es: seq<Expense>): (gs: seq<Group>)
    ensures |gs| <= |es|
    ensures gs == [] <==> es == []
  {
    if es == [] then []
    else Insert(GroupBy(cats, es[..|es| - 1]), GroupKey(cats, es[|es| - 1]), es[|es| - 1])
  }

  /** The members of the first group with `key`, or none. */
  function MembersOf(gs: seq<Group>, key: Option<string>): seq<Expense> {
    if gs == [] then []
    else if gs[0].key == key then gs[0].members
    else MembersOf(gs[1..], key)
  }

  function SumGroups(gs: seq<Group>): Cents {
    if gs == [] then 0 else SumAmounts(gs[0].members) + SumGroups(gs[1..])
  }

  function CountGroups(gs: seq<Group>): nat {
    if gs == [] then 0 else |gs[0].members| + CountGroups(gs[1..])
  }

  predicate KeysDistinct(gs: seq<Group>) {
    forall i, j :: 0 <= i < j < |gs| ==> gs[i].key != gs[j].key
  }

  predicate NoEmptyGroup(gs: seq<Group>) {
    forall i :: 0 <= i < |gs| ==> gs[i].members != []
  }

  /** Inserting under a key no group has opens a new group after all the existing ones. */
  lemma {:induction false} InsertNewKey(gs: seq<Group>, k: Option<string>, e: Expense)
    requires forall i :: 0 <= i < |gs| ==> gs[i].key != k
    ensures Insert(gs, k, e) == gs + [Group(k, [e])]
  {
    if gs != [] {
      InsertNewKey(gs[1..], k, e);
      assert [gs[0]] + (gs[1..] + [Group(k, [e])]) == gs + [Group(k, [e])];
    }
  }

  /**
   * Groups appear in the order their first expense appears: an expense whose key no
   * earlier expense has opens a new group after all the earlier groups.
   */
  lemma {:induction false} GroupByNewKey(cats: seq<Category>, es: seq<Expense>, e: Expense)
    requires forall i :: 0 <= i < |GroupBy(cats, es)| ==> GroupBy(cats, es)[i].key != GroupKey(cats, e)
    ensures GroupBy(cats, es + [e]) == GroupBy(cats, es) + [Group(GroupKey(cats, e), [e])]
  {
    assert (es + [e])[..|es|] == es;
    InsertNewKey(GroupBy(cats, es), GroupKey(cats, e), e);
  }

  /** Inserting under a key some group already has opens no group and moves none. */
  lemma {:induction false} InsertExistingKey(gs: seq<Group>, k: Option<string>, e: Expense, j: nat)
    requires j < |gs| && gs[j].key == k
    ensures |Insert(gs, k, e)| == |gs|
    ensures forall i :: 0 <= i < |gs| ==> Insert(gs, k, e)[i].key == gs[i].key
  {
    if gs[0].key != k {
      InsertExistingKey(gs[1..], k, e, j - 1);
    }
  }

  /** An expense whose key an earlier expense has opens no group and leaves every group at its place. */
  lemma {:induction false} GroupByExistingKey(cats: seq<Category>, es: seq<Expense>, e: Expense, j: nat)
    requires j < |GroupBy(cats, es)| && GroupBy(cats, es)[j].key == GroupKey(cats, e)
    ensures |GroupBy(cats, es + [e])| == |GroupBy(cats, es)|
    ensures forall i :: 0 <= i < |GroupBy(cats, es)| ==> GroupBy(cats, es + [e])[i].key == GroupBy(cats, es)[i].key
  {
    assert (es + [e])[..|es|] == es;
    InsertExistingKey(GroupBy(cats, es), GroupKey(cats, e), e, j);
  }

  /** Inserting `e` under `k` adds `e` at the end of group `k` and changes no other group. */
  lemma {:induction false} InsertMembers(gs: seq<Group>, k: Option<string>, e: Expense, key: Option<string>)
    ensures MembersOf(Insert(gs, k, e), key) == MembersOf(gs, key) + (if key == k then [e] else [])
  {
    if gs == [] {
    } else if gs[0].key == k {
      assert Insert(gs, k, e)[1..] == gs[1..];
    } else {
      assert Insert(gs, k, e)[1..] == Insert(gs[1..], k, e);
      InsertMembers(gs[1..], k, e, key);
    }
  }

  /** Inserting keeps groups non-empty and opens no group under a key other than `k`. */
  lemma {:induction false} InsertKeys(gs: seq<Group>, k: Option<string>, e: Expense)
    requires NoEmptyGroup(gs)
    ensures NoEmptyGroup(Insert(gs, k, e))
    ensures forall j :: 0 <= j < |Insert(gs, k, e)| && Insert(gs, k, e)[j].key != k ==>
      exists i :: 0 <= i < |gs| && gs[i].key == Insert(gs, k, e)[j].key
  {
    var r := Insert(gs, k, e);
    if gs == [] {
    } else if gs[0].key == k {
      assert r[1..] == gs[1..];
      forall j | 0 <= j < |r| && r[j].key != k
        ensures exists i :: 0 <= i < |gs| && gs[i].key == r[j].key
      {
        assert r[j] == gs[j];
      }
    } else {
      var tail := gs[1..];
      var rest := Insert(tail, k, e);
      InsertKeys(tail, k, e);
      assert r[1..] == rest;
      forall j | 0 <= j < |r| && r[j].key != k
        ensures exists i :: 0 <= i < |gs| && gs[i].key == r[j].key
      {
        if j > 0 {
          assert r[j] == rest[j - 1];
          var i :| 0 <= i < |tail| && tail[i].key == rest[j - 1].key;
          assert gs[i + 1] == tail[i];
        } else {
          assert gs[0].key == r[j].key;
        }
      }
    }
  }

  /** Inserting keeps the group keys distinct. */
  lemma {:induction false} InsertDistinct(gs: seq<Group>, k: Option<string>, e: Expense)
    requires KeysDistinct(gs) && NoEmptyGroup(gs)
    ensures KeysDistinct(Insert(gs, k, e))
  {
    var r := Insert(gs, k, e);
    if gs != [] && gs[0].key == k {
      assert r[1..] == gs[1..];
    } else if gs != [] {
      var tail := gs[1..];
      var rest := Insert(tail, k, e);
      InsertDistinct(tail, k, e);
      InsertKeys(tail, k, e);
      assert r[1..] == rest;
      forall j | 0 <= j < |rest| ensures rest[j].key != gs[0].key {
        if rest[j].key != k {
          var i :| 0 <= i < |tail| && tail[i].key == rest[j].key;
          assert tail[i] == gs[i + 1];
        }
      }
    }
  }

  /** Inserting adds `e` exactly once to the sum and to the count. */
  lemma {:induction false} InsertTotals(gs: seq<Group>, k: Option<string>, e: Expense)
    ensures SumGroups(Insert(gs, k, e)) == SumGroups(gs) + e.amount
    ensures CountGroups(Insert(gs, k, e)) == CountGroups(gs) + 1
  {
    var r := Insert(gs, k, e);
    if gs == [] {
      assert [e][..0] == [];
      assert SumAmounts([e]) == e.amount;
      assert r[1..] == [];
    } else if gs[0].key == k {
      var m := gs[0].members;
      assert (m + [e])[..|m|] == m;
      assert r[1..] == gs[1..];
    } else {
      InsertTotals(gs[1..], k, e);
      assert r[1..] == Insert(gs[1..], k, e);
    }
  }

  /** Group `key` of `GroupBy(es)` holds exactly the expenses of `es` with that key, in order. */
  lemma {:induction false} GroupByMembers(cats: seq<Category>, es: seq<Expense>, key: Option<string>)
    ensures MembersOf(GroupBy(cats, es), key) == WithKey(cats, es, key)
  {
    if es != [] {
      var init, last := es[..|es| - 1], es[|es| - 1];
      GroupByMembers(cats, init, key);
      InsertMembers(GroupBy(cats, init), GroupKey(cats, last), last, key);
    }
  }

  /** The groups have distinct keys, none is empty, and together they hold every expense once. */
  lemma {:induction false} GroupByShape(cats: seq<Category>, es: seq<Expense>)
    ensures KeysDistinct(GroupBy(cats, es)) && NoEmptyGroup(GroupBy(cats, es))
    ensures SumGroups(GroupBy(cats, es)) == SumAmounts(es)
    ensures CountGroups(GroupBy(cats, es)) == |es|
  {
    if es != [] {
      var init, last := es[..|es| - 1], es[|es| - 1];
      GroupByShape(cats, init);
      InsertKeys(GroupBy(cats, init), GroupKey(cats, last), last);
      InsertDistinct(GroupBy(cats, init), GroupKey(cats, last), last);
      InsertTotals(GroupBy(cats, init), GroupKey(cats, last), last);
    }
  }

  /** With distinct keys, the first group with a key is that group itself. */
  lemma {:induction false} MembersOfGroup(gs: seq<Group>, i: nat)
    requires KeysDistinct(gs) && i < |gs|
    ensures MembersOf(gs, gs[i].key) == gs[i].members
  {
    if i > 0 {
      var tail := gs[1..];
      assert KeysDistinct(tail);
      assert tail[i - 1] == gs[i];
      MembersOfGroup(tail, i - 1);
    }
  }

  /** A key with members has a group. */
  lemma {:induction false} MembersOfFound(gs: seq<Group>, key: Option<string>)
    requires MembersOf(gs, key) != []
    ensures exists i :: 0 <= i < |gs| && gs[i].key == key
  {
    if gs[0].key != key {
      MembersOfFound(gs[1..], key);
      var i :| 0 <= i < |gs[1..]| && gs[1..][i].key == key;
      assert gs[i + 1].key == key;
    }
  }

  /** Every expense is in the selection of its own key. */
  lemma {:induction false} InOwnGroup(cats: seq<Category>, es: seq<Expense>, e: Expense)
    requires e in es
    ensures e in WithKey(cats, es, GroupKey(cats, e))
  {
    var init, last := es[..|es| - 1], es[|es| - 1];
    assert es == init + [last];
    if e != last {
      InOwnGroup(cats, init, e);
    }
  }

  /**
   * `groupBy` as a whole: distinct keys, no empty group, each group exactly the
   * expenses with its key, a group for every expense, and nothing lost from the sum.
   */
  lemma {:induction false} GroupByCovers(cats: seq<Category>, es: seq<Expense>)
    ensures KeysDistinct(GroupBy(cats, es)) && NoEmptyGroup(GroupBy(cats, es))
    ensures forall k :: 0 <= k < |GroupBy(cats, es)| ==> GroupBy(cats, es)[k].members == WithKey(cats, es, GroupBy(cats, es)[k].key)
    ensures forall e :: e in es ==> exists k :: 0 <= k < |GroupBy(cats, es)| && GroupBy(cats, es)[k].key == GroupKey(cats, e)
    ensures SumGroups(GroupBy(cats, es)) == SumAmounts(es)
  {
    var groups := GroupBy(cats, es);
    GroupByShape(cats, es);
    forall k | 0 <= k < |groups|
      ensures groups[k].members == WithKey(cats, es, groups[k].key)
    {
      MembersOfGroup(groups, k);
      GroupByMembers(cats, es, groups[k].key);
    }
    forall e | e in es
      ensures exists k :: 0 <= k < |groups| && groups[k].key == GroupKey(cats, e)
    {
      InOwnGroup(cats, es, e);
      GroupByMembers(cats, es, GroupKey(cats, e));
      MembersOfFound(groups, GroupKey(cats, e));
    }
  }

  /** One entry of the report's `data`. A budget column is null when the caller has no budget for the group. */
  datatype GroupRow = GroupRow(
    category: Option<string>,
    totalAmount: Cents,
    expenseCount: nat,
    remainingBudget: Option<Cents>,
    spentBudget: Option<Cents>,
    budgetAmount: Option<Cents>,
    expenses: seq<Expense>)

  datatype Report = Report(
    rows: seq<GroupRow>,
    overallTotalExpense: Cents,
    overallTotalBudget: Cents,
    overallRemainingBudget: Cents,
    overallSpentBudget: Cents)

  /**
   * The caller's budget looked up with the category id of the group's FIRST expense;
   * for the null group that id is null and the lookup matches a budget whose category is null.
   */
  function GroupBudget(budgets: seq<Budget>, userId: nat, members: seq<Expense>): (b: Option<Budget>)
    ensures b.Some? ==> members != [] && b.value in budgets
    ensures b.Some? ==> b.value.userId == userId && b.value.categoryId == members[0].categoryId
    ensures b.None? && members != [] ==>
      forall x :: x in budgets ==> !(x.userId == userId && x.categoryId == members[0].categoryId)
  {
    if members == [] then None
    else
      match UserBudgetFor(budgets, userId, members[0].categoryId)
      case Some(k) => Some(budgets[k])
      case None => None
  }

  /** The row built for one group. */
  function RowOf(budgets: seq<Budget>, userId: nat, g: Group): (row: GroupRow)
    ensures row.category == g.key && row.expenses == g.members && row.expenseCount == |row.expenses|
    ensures row.budgetAmount.Some? == row.remainingBudget.Some? == row.spentBudget.Some?
    ensures row.budgetAmount.Some? <==> GroupBudget(budgets, userId, g.members).Some?
    ensures AllBalanced(budgets) && row.budgetAmount.Some? ==>
      row.remainingBudget.value == row.budgetAmount.value - row.spentBudget.value
  {
    var b := GroupBudget(budgets, userId, g.members);
    GroupRow(g.key, SumAmounts(g.members), |g.members|,
      if b.Some? then Some(b.value.remaining) else None,
      if b.Some? then Some(b.value.spent) else None,
      if b.Some? then Some(b.value.amount) else None,
      g.members)
  }

  /** Every expense selected under `key` comes from `es` and has that key. */
  lemma {:induction false} WithKeyMembers(cats: seq<Category>, es: seq<Expense>, key: Option<string>, e: Expense)
    requires e in WithKey(cats, es, key)
    ensures e in es && GroupKey(cats, e) == key
  {
    var init, last := es[..|es| - 1], es[|es| - 1];
    assert es == init + [last];
    if e in WithKey(cats, init, key) {
      WithKeyMembers(cats, init, key, e);
    }
  }

  /** An expense whose category is set is grouped under the name of that category, which its owner owns. */
  lemma {:induction false} KeyOfCategorised(cats: seq<Category>, next: nat, expenses: seq<Expense>, e: Expense)
    requires CategoryKeys(cats, next) && ExpenseRefsOwned(cats, expenses)
    requires e in expenses && e.categoryId.Some?
    ensures CategoryWithId(cats, e.categoryId.value).Some?
    ensures var k := CategoryWithId(cats, e.categoryId.value).value;
      cats[k].userId == e.userId && GroupKey(cats, e) == Some(cats[k].name)
  {
    var i :| 0 <= i < |expenses| && expenses[i] == e;
    var k :| 0 <= k < |cats| && cats[k].id == e.categoryId.value && cats[k].userId == e.userId;
    var r := CategoryWithId(cats, e.categoryId.value);
    assert r.Some?;
    assert r.value == k;
  }

  /**
   * In a ledger that keeps its integrity, two expenses of one user with the same
   * group key have the same category: grouping by name is grouping by category.
   */
  lemma {:induction false} SameKeySameCategory(cats: seq<Category>, next: nat, expenses: seq<Expense>, e1: Expense, e2: Expense)
    requires CategoryKeys(cats, next) && NamesUniquePerUser(cats) && ExpenseRefsOwned(cats, expenses)
    requires e1 in expenses && e2 in expenses && e1.userId == e2.userId
    requires GroupKey(cats, e1) == GroupKey(cats, e2)
    ensures e1.categoryId == e2.categoryId
  {
    if e1.categoryId.Some? {
      KeyOfCategorised(cats, next, expenses, e1);
    }
    if e2.categoryId.Some? {
      KeyOfCategorised(cats, next, expenses, e2);
    }
    if e1.categoryId.Some? && e2.categoryId.Some? {
      var k1 := CategoryWithId(cats, e1.categoryId.value).value;
      var k2 := CategoryWithId(cats, e2.categoryId.value).value;
      assert k1 == k2;
    }
  }

  /**
   * The budget a row reports is looked up through the group's first expense only; in a
   * ledger that keeps its integrity it is the caller's budget on the category of
   * every expense of the group.
   */
  lemma {:induction false} RowBudgetOfEveryMember(
    cats: seq<Category>, next: nat, budgets: seq<Budget>, expenses: seq<Expense>, userId: nat, key: Option<string>, e: Expense)
    requires CategoryKeys(cats, next) && NamesUniquePerUser(cats) && ExpenseRefsOwned(cats, expenses)
    requires e in WithKey(cats, OwnedBy(expenses, userId), key)
    ensures GroupBudget(budgets, userId, WithKey(cats, OwnedBy(expenses, userId), key)) == GroupBudget(budgets, userId, [e])
  {
    var members := WithKey(cats, OwnedBy(expenses, userId), key);
    var first := members[0];
    WithKeyMembers(cats, OwnedBy(expenses, userId), key, first);
    WithKeyMembers(cats, OwnedBy(expenses, userId), key, e);
    SameKeySameCategory(cats, next, expenses, first, e);
  }

  /** A numeric column of the report's rows; a null budget figure counts as 0. */
  datatype Column = TotalAmount | BudgetAmount | RemainingBudget | SpentBudget

  function Cell(r: GroupRow, c: Column): int {
    match c
    case TotalAmount => r.totalAmount
    case BudgetAmount => r.budgetAmount.GetOr(0)
    case RemainingBudget => r.remainingBudget.GetOr(0)
    case SpentBudget => r.spentBudget.GetOr(0)
  }

  /** The sum of column `c` over `rows`. */
  function ColumnSum(rows: seq<GroupRow>, c: Column): int {
    if rows == [] then 0 else ColumnSum(rows[..|rows| - 1], c) + Cell(rows[|rows| - 1], c)
  }

  lemma {:induction false} ColumnSumSnoc(rows: seq<GroupRow>, row: GroupRow, c: Column)
    ensures ColumnSum(rows + [row], c) == ColumnSum(rows, c) + Cell(row, c)
  {
    assert (rows + [row])[..|rows|] == rows;
  }

  /** One row per group, in group order. */
  function RowsOf(budgets: seq<Budget>, userId: nat, gs: seq<Group>): (rows: seq<GroupRow>)
    ensures |rows| == |gs|
  {
    if gs == [] then [] else RowsOf(budgets, userId, gs[..|gs| - 1]) + [RowOf(budgets, userId, gs[|gs| - 1])]
  }

  /** Row `i` is the row of group `i`. */
  lemma {:induction false} RowsOfIndex(budgets: seq<Budget>, userId: nat, gs: seq<Group>)
    ensures forall i :: 0 <= i < |gs| ==> RowsOf(budgets, userId, gs)[i] == RowOf(budgets, userId, gs[i])
  {
    if gs != [] {
      var init := gs[..|gs| - 1];
      RowsOfIndex(budgets, userId, init);
      assert forall i :: 0 <= i < |init| ==> gs[i] == init[i];
    }
  }

  /** Row `i` has the key and the members of group `i`. */
  lemma {:induction false} RowsOfKeys(budgets: seq<Budget>, userId: nat, gs: seq<Group>)
    ensures forall i :: 0 <= i < |gs| ==>
      RowsOf(budgets, userId, gs)[i].category == gs[i].key && RowsOf(budgets, userId, gs)[i].expenses == gs[i].members
  {
    RowsOfIndex(budgets, userId, gs);
  }

  /** One more group adds its row at the end. */
  lemma {:induction false} RowsOfSnoc(budgets: seq<Budget>, userId: nat, gs: seq<Group>, i: nat)
    requires i < |gs|
    ensures RowsOf(budgets, userId, gs[..i + 1]) == RowsOf(budgets, userId, gs[..i]) + [RowOf(budgets, userId, gs[i])]
  {
    assert gs[..i + 1][..i] == gs[..i];
  }

  /** The rows of the report: one per group of the caller's expenses. */
  function ReportRows(cats: seq<Category>, budgets: seq<Budget>, expenses: seq<Expense>, userId: nat): seq<GroupRow> {
    RowsOf(budgets, userId, GroupBy(cats, OwnedBy(expenses, userId)))
  }

  lemma {:induction false} SumGroupsSnoc(gs: seq<Group>, g: Group)
    ensures SumGroups(gs + [g]) == SumGroups(gs) + SumAmounts(g.members)
  {
    if gs != [] {
      assert (gs + [g])[1..] == gs[1..] + [g];
      SumGroupsSnoc(gs[1..], g);
    }
  }

  /** The row totals add up to the sum over all groups. */
  lemma {:induction false} RowTotalsSum(budgets: seq<Budget>, userId: nat, gs: seq<Group>)
    ensures ColumnSum(RowsOf(budgets, userId, gs), TotalAmount) == SumGroups(gs)
  {
    if gs != [] {
      var init, last := gs[..|gs| - 1], gs[|gs| - 1];
      RowTotalsSum(budgets, userId, init);
      SumGroupsSnoc(init, last);
      assert gs == init + [last];
      var rows := RowsOf(budgets, userId, gs);
      assert rows[..|rows| - 1] == RowsOf(budgets, userId, init);
    }
  }

  /**
   * How the report's rows partition the caller's expenses: one row per category name
   * (or the null group), holding exactly the caller's expenses with that name and
   * never an empty one, and a row for every expense of the caller.
   */
  lemma {:induction false} ReportRowsGroups(cats: seq<Category>, budgets: seq<Budget>, expenses: seq<Expense>, userId: nat)
    ensures var rows, owned := ReportRows(cats, budgets, expenses, userId), OwnedBy(expenses, userId);
      forall i :: 0 <= i < |rows| ==> rows[i].expenses != [] && rows[i].expenses == WithKey(cats, owned, rows[i].category)
    ensures var rows := ReportRows(cats, budgets, expenses, userId);
      forall i, j :: 0 <= i < j < |rows| ==> rows[i].category != rows[j].category
    ensures var rows := ReportRows(cats, budgets, expenses, userId);
      forall e :: e in OwnedBy(expenses, userId) ==> exists i :: 0 <= i < |rows| && rows[i].category == GroupKey(cats, e)
  {
    var owned := OwnedBy(expenses, userId);
    var groups := GroupBy(cats, owned);
    var rows := ReportRows(cats, budgets, expenses, userId);
    GroupByCovers(cats, owned);
    RowsOfKeys(budgets, userId, groups);
    forall e | e in owned
      ensures exists i :: 0 <= i < |rows| && rows[i].category == GroupKey(cats, e)
    {
      var k :| 0 <= k < |groups| && groups[k].key == GroupKey(cats, e);
      assert rows[k].category == GroupKey(cats, e);
    }
  }

  /** Each row carries its total, its size and the figures of the budget looked up for it, or null when none is found. */
  lemma {:induction false} ReportRowsFigures(cats: seq<Category>, budgets: seq<Budget>, expenses: seq<Expense>, userId: nat)
    ensures var rows := ReportRows(cats, budgets, expenses, userId);
      forall i :: 0 <= i < |rows| ==>
        var b := GroupBudget(budgets, userId, rows[i].expenses);
        && rows[i].totalAmount == SumAmounts(rows[i].expenses)
        && rows[i].expenseCount == |rows[i].expenses|
        && rows[i].budgetAmount == (if b.Some? then Some(b.value.amount) else None)
        && rows[i].remainingBudget == (if b.Some? then Some(b.value.remaining) else None)
        && rows[i].spentBudget == (if b.Some? then Some(b.value.spent) else None)
  {
    RowsOfIndex(budgets, userId, GroupBy(cats, OwnedBy(expenses, userId)));
  }

  /**
   * The body of `analytics`' `map`: build one row per group and add each group's
   * figures to the four overall totals, a missing budget counting as 0.
   */
  method Summarize(budgets: seq<Budget>, userId: nat, groups: seq<Group>) returns (report: Report)
    ensures report.rows == RowsOf(budgets, userId, groups)
    ensures report.overallTotalExpense == ColumnSum(report.rows, TotalAmount)
    ensures report.overallTotalBudget == ColumnSum(report.rows, BudgetAmount)
    ensures report.overallRemainingBudget == ColumnSum(report.rows, RemainingBudget)
    ensures report.overallSpentBudget == ColumnSum(report.rows, SpentBudget)
  {
    var rows: seq<GroupRow> := [];
    var totalExpense, totalBudget, totalRemaining, totalSpent := 0, 0, 0, 0;
    var i := 0;
    while i < |groups|
      invariant 0 <= i <= |groups|
      invariant rows == RowsOf(budgets, userId, groups[..i])
      invariant totalExpense == ColumnSum(rows, TotalAmount)
      invariant totalBudget == ColumnSum(rows, BudgetAmount)
      invariant totalRemaining == ColumnSum(rows, RemainingBudget)
      invariant totalSpent == ColumnSum(rows, SpentBudget)
    {
      var g := groups[i];
      var total := SumAmounts(g.members);
      var budget := GroupBudget(budgets, userId, g.members);
      totalExpense := totalExpense + total;
      totalBudget := totalBudget + (if budget.Some? then budget.value.amount else 0);
      totalRemaining := totalRemaining + (if budget.Some? then budget.value.remaining else 0);
      totalSpent := totalSpent + (if budget.Some? then budget.value.spent else 0);
      var row := RowOf(budgets, userId, g);
      assert Cell(row, TotalAmount) == total;
      assert Cell(row, BudgetAmount) == (if budget.Some? then budget.value.amount else 0);
      assert Cell(row, RemainingBudget) == (if budget.Some? then budget.value.remaining else 0);
      assert Cell(row, SpentBudget) == (if budget.Some? then budget.value.spent else 0);
      ColumnSumSnoc(rows, row, TotalAmount);
      ColumnSumSnoc(rows, row, BudgetAmount);
      ColumnSumSnoc(rows, row, RemainingBudget);
      ColumnSumSnoc(rows, row, SpentBudget);
      RowsOfSnoc(budgets, userId, groups, i);
      rows := rows + [row];
      i := i + 1;
    }
    assert groups[..i] == groups;
    report := Report(rows, totalExpense, totalBudget, totalRemaining, totalSpent);
  }

  /** `analytics`: group the caller's expenses by category name and summarize the groups. */
  method Analytics(cats: seq<Category>, budgets: seq<Budget>, expenses: seq<Expense>, userId: nat)
    returns (report: Report)
    ensures report.rows == ReportRows(cats, budgets, expenses, userId)
    ensures report.overallTotalExpense == SumAmounts(OwnedBy(expenses, userId))
    ensures report.overallTotalExpense == ColumnSum(report.rows, TotalAmount)
    ensures report.overallTotalBudget == ColumnSum(report.rows, BudgetAmount)
    ensures report.overallRemainingBudget == ColumnSum(report.rows, RemainingBudget)
    ensures report.overallSpentBudget == ColumnSum(report.rows, SpentBudget)
  {
    var owned := OwnedBy(expenses, userId);
    var groups := GroupBy(cats, owned);
    report := Summarize(budgets, userId, groups);
    RowTotalsSum(budgets, userId, groups);
    GroupByShape(cats, owned);
  }
}
