/**
 * `ExpenseController` without its analytics (module `ExpenseAnalytics`):
 * record an expense against the caller's budget, show, update and delete one
 * of the caller's expenses, and list them ten to a page.
 *
 * The authenticated user is the parameter `userId`; the request body is a
 * value whose absent fields are `None`.
 */
module ExpenseController {
  import opened Wrappers
  import opened Schema
  import opened Ledger

  /** The body of `POST /expenses`. */
  datatype ExpenseRequest = ExpenseRequest(
    category: Option<string>,
    amount: Option<Cents>,
    expenseDate: Option<Date>,
    description: Option<string>)

  /**
   * `'category' => 'required|string|max:255'`, `'amount' => 'required|numeric|min:0'`,
   * `'expense_date' => 'required|date'`; `description` is nullable.
   */
  predicate ValidExpenseRequest(r: ExpenseRequest) {
    && r.category.Some? && 0 < |r.category.value| <= 255
    && r.amount.Some? && 0 <= r.amount.value
    && r.expenseDate.Some?
  }

  /**
   * The body of `POST /expenses/{id}`, as `$request->only([...])` sees it: a field is
   * `Some` when the request carries it. A supplied `description` may be null.
   */
  datatype ExpensePatch = ExpensePatch(
    category: Option<string>,
    amount: Option<Cents>,
    expenseDate: Option<Date>,
    description: Option<Option<string>>)

  predicate EmptyPatch(p: ExpensePatch) {
    p.category.None? && p.amount.None? && p.expenseDate.None? && p.description.None?
  }

  /**
   * `$expense->update($data)`: mass assignment keeps only the fillable columns, and
   * `category` is not one of them, so the expense keeps its id, owner and category.
   */
  function ApplyPatch(e: Expense, p: ExpensePatch): (r: Expense)
    ensures r.id == e.id && r.userId == e.userId && r.categoryId == e.categoryId
    ensures p.amount.Some? ==> r.amount == p.amount.value
    ensures p.amount.None? ==> r.amount == e.amount
    ensures p.expenseDate.Some? ==> r.expenseDate == p.expenseDate.value
    ensures p.expenseDate.None? ==> r.expenseDate == e.expenseDate
    ensures p.description.Some? ==> r.description == p.description.value
    ensures p.description.None? ==> r.description == e.description
  {
    e.(amount := p.amount.GetOr(e.amount),
       expenseDate := p.expenseDate.GetOr(e.expenseDate),
       description := p.description.GetOr(e.description))
  }

  /** Supplying `category` in an update changes nothing, and applying an update twice is applying it once. */
  lemma PatchIgnoresCategory(e: Expense, p: ExpensePatch, name: string)
    ensures ApplyPatch(e, p.(category := Some(name))) == ApplyPatch(e, p.(category := None))
    ensures ApplyPatch(ApplyPatch(e, p), p) == ApplyPatch(e, p)
  {
  }

  /** An expense with its category eager-loaded (`with('category')`); null once the category is gone. */
  datatype ExpenseView = ExpenseView(expense: Expense, category: Option<Category>)

  function View(cats: seq<Category>, e: Expense): (v: ExpenseView)
    ensures v.expense == e
    ensures v.category.Some? ==> v.category.value in cats && e.categoryId == Some(v.category.value.id)
    ensures v.category.None? ==> e.categoryId.None? || forall c :: c in cats ==> c.id != e.categoryId.value
  {
    if e.categoryId.None? then ExpenseView(e, None)
    else
      match CategoryWithId(cats, e.categoryId.value)
      case Some(k) => ExpenseView(e, Some(cats[k]))
      case None => ExpenseView(e, None)
  }

  /**
   * `$user->categories()->firstOrCreate(['name' => ...])`: the caller's category of
   * that name, created for the caller when there is none. A created category has no
   * budget yet.
   */
  method FirstOrCreateOwnCategory(db: Database, userId: nat, name: string) returns (category: Category)
    requires db.Valid()
    modifies db`categories, db`nextCategoryId
    ensures db.Valid()
    ensures var found := UserCategoryNamed(old(db.categories), userId, name);
      && category == (if found.Some? then old(db.categories)[found.value] else Category(old(db.nextCategoryId), userId, name))
      && db.categories == (if found.Some? then old(db.categories) else old(db.categories) + [category])
      && db.nextCategoryId == (if found.Some? then old(db.nextCategoryId) else old(db.nextCategoryId) + 1)
    ensures category.userId == userId && category.name == name
    ensures OwnsCategory(db.categories, userId, category.id)
    ensures UserCategoryNamed(old(db.categories), userId, name).None? ==>
      UserBudgetFor(db.budgets, userId, Some(category.id)).None?
  {
    var found := UserCategoryNamed(db.categories, userId, name);
    if found.Some? {
      category := db.categories[found.value];
      assert db.categories[found.value] == category;
    } else {
      FreshCategoryUnbudgeted(db.categories, db.budgets, db.nextCategoryId, userId);
      category := db.InsertCategory(userId, name);
      assert db.categories[|db.categories| - 1] == category;
    }
  }

  /**
   * `store`: validate (422); resolve the category among the CALLER's categories,
   * creating it if needed; when the caller has a budget on it, refuse an amount above
   * `remaining` (400) and otherwise book the amount on the budget; then insert the
   * expense (201).
   */
  method Store(db: Database, userId: nat, request: ExpenseRequest) returns (response: Response<Expense>)
    requires db.Valid()
    modifies db
    ensures db.Valid()
    ensures db.nextBudgetId == old(db.nextBudgetId)
    ensures !ValidExpenseRequest(request) ==> response == Response(Unprocessable, None) && unchanged(db)
    ensures ValidExpenseRequest(request) ==>
      var name, amount := request.category.value, request.amount.value;
      var found := UserCategoryNamed(old(db.categories), userId, name);
      var category := if found.Some? then old(db.categories)[found.value] else Category(old(db.nextCategoryId), userId, name);
      var guard := UserBudgetFor(old(db.budgets), userId, Some(category.id));
      if guard.Some? && amount > old(db.budgets)[guard.value].remaining then
        response == Response(BadRequest, None) && unchanged(db)
      else
        var expense := Expense(old(db.nextExpenseId), userId, Some(category.id), amount, request.expenseDate.value, request.description);
        && db.categories == (if found.Some? then old(db.categories) else old(db.categories) + [category])
        && db.nextCategoryId == (if found.Some? then old(db.nextCategoryId) else old(db.nextCategoryId) + 1)
        && db.budgets == (if guard.Some? then old(db.budgets)[guard.value := Charge(old(db.budgets)[guard.value], amount)] else old(db.budgets))
        && db.expenses == old(db.expenses) + [expense]
        && db.nextExpenseId == old(db.nextExpenseId) + 1
        && response == Response(Created, Some(expense))
  {
    if !ValidExpenseRequest(request) {
      return Response(Unprocessable, None);
    }
    var name, amount := request.category.value, request.amount.value;
    var category := FirstOrCreateOwnCategory(db, userId, name);
    var budget := UserBudgetFor(db.budgets, userId, Some(category.id));
    if budget.Some? {
      if amount > db.budgets[budget.value].remaining {
        // a budget was found, so the category already existed and nothing was written
        assert UserCategoryNamed(old(db.categories), userId, name).Some?;
        return Response(BadRequest, None);
      }
      db.SaveBudget(budget.value, Charge(db.budgets[budget.value], amount));
    }
    var expense := db.InsertExpense(userId, category.id, amount, request.expenseDate.value, request.description);
    response := Response(Created, Some(expense));
  }

  /** `show`: the caller's expense `id` with its category, or 404; other users' expenses are never reached. */
  function Show(cats: seq<Category>, expenses: seq<Expense>, userId: nat, id: int): (r: Response<ExpenseView>)
    ensures r.status == Ok || r.status == NotFound
    ensures r.status == NotFound <==> forall e :: e in expenses ==> !(e.id == id && e.userId == userId)
    ensures r.status == Ok ==>
      && r.body.Some?
      && r.body.value.expense in expenses
      && r.body.value.expense.id == id && r.body.value.expense.userId == userId
      && r.body.value == View(cats, r.body.value.expense)
  {
    match UserExpenseWithId(expenses, userId, id)
    case Some(i) => Response(Ok, Some(View(cats, expenses[i])))
    case None => Response(NotFound, None)
  }

  /**
   * `update`: the caller's expense `id` or 404; a request with none of `category`,
   * `amount`, `expense_date`, `description` is refused (422); otherwise the supplied
   * fillable columns are written. No budget is touched.
   */
  method Update(db: Database, userId: nat, id: int, patch: ExpensePatch) returns (response: Response<Expense>)
    requires db.Valid()
    modifies db
    ensures db.Valid()
    ensures db.categories == old(db.categories) && db.budgets == old(db.budgets)
    ensures db.nextCategoryId == old(db.nextCategoryId) && db.nextBudgetId == old(db.nextBudgetId)
    ensures db.nextExpenseId == old(db.nextExpenseId)
    ensures UserExpenseWithId(old(db.expenses), userId, id).None? ==>
      response == Response(NotFound, None) && unchanged(db)
    ensures UserExpenseWithId(old(db.expenses), userId, id).Some? && EmptyPatch(patch) ==>
      response == Response(Unprocessable, None) && unchanged(db)
    ensures UserExpenseWithId(old(db.expenses), userId, id).Some? && !EmptyPatch(patch) ==>
      var i := UserExpenseWithId(old(db.expenses), userId, id).value;
      var updated := ApplyPatch(old(db.expenses)[i], patch);
      db.expenses == old(db.expenses)[i := updated] && response == Response(Ok, Some(updated))
  {
    var found := UserExpenseWithId(db.expenses, userId, id);
    if found.None? {
      return Response(NotFound, None);
    }
    if EmptyPatch(patch) {
      return Response(Unprocessable, None);
    }
    var updated := ApplyPatch(db.expenses[found.value], patch);
    db.SaveExpense(found.value, updated);
    response := Response(Ok, Some(updated));
  }

  /** `destroy`: the caller's expense `id` is deleted (200) or 404. No budget is touched. */
  method Destroy(db: Database, userId: nat, id: int) returns (response: Response<()>)
    requires db.Valid()
    modifies db
    ensures db.Valid()
    ensures db.categories == old(db.categories) && db.budgets == old(db.budgets)
    ensures db.nextCategoryId == old(db.nextCategoryId) && db.nextBudgetId == old(db.nextBudgetId)
    ensures db.nextExpenseId == old(db.nextExpenseId)
    ensures UserExpenseWithId(old(db.expenses), userId, id).None? ==>
      response == Response(NotFound, None) && unchanged(db)
    ensures UserExpenseWithId(old(db.expenses), userId, id).Some? ==>
      && db.expenses == RemoveAt(old(db.expenses), UserExpenseWithId(old(db.expenses), userId, id).value)
      && response == Response(Ok, Some(()))
  {
    var found := UserExpenseWithId(db.expenses, userId, id);
    if found.None? {
      return Response(NotFound, None);
    }
    db.DeleteExpense(found.value);
    response := Response(Ok, Some(()));
  }

  /** `paginate(10)`. */
  const PageSize: nat := 10

  /** The page the paginator serves: the `page` query parameter when it is a positive integer, else 1. */
  function CurrentPage(page: Option<int>): (p: nat)
    ensures 1 <= p
    ensures page.Some? && 1 <= page.value ==> p == page.value
    ensures !(page.Some? && 1 <= page.value) ==> p == 1
  {
    if page.Some? && 1 <= page.value then page.value else 1
  }

  /** Page `p` (from 1) of `s`: at most `PageSize` consecutive items, starting at item `(p - 1) * PageSize`. */
  function PageOf<T>(s: seq<T>, p: nat): (r: seq<T>)
    requires 1 <= p
    ensures |r| <= PageSize
    ensures forall k :: 0 <= k < |r| ==> (p - 1) * PageSize + k < |s| && r[k] == s[(p - 1) * PageSize + k]
    ensures r == [] <==> |s| <= (p - 1) * PageSize
    ensures p * PageSize <= |s| ==> |r| == PageSize
  {
    var lo := (p - 1) * PageSize;
    if |s| <= lo then [] else s[lo .. if lo + PageSize < |s| then lo + PageSize else |s|]
  }

  /** Every item lies on exactly one page: item `k` is entry `k % PageSize` of page `k / PageSize + 1`. */
  lemma {:induction false} ItemOnItsPage<T>(s: seq<T>, k: nat)
    requires k < |s|
    ensures var page := PageOf(s, k / PageSize + 1);
      k % PageSize < |page| && page[k % PageSize] == s[k]
  {
    var p := k / PageSize + 1;
    assert (p - 1) * PageSize + k % PageSize == k;
  }

  /**
   * `index`: page `page` of the caller's expenses with their categories; 404 when that
   * page is empty (in particular when the caller has no expense at all).
   */
  function Index(cats: seq<Category>, expenses: seq<Expense>, userId: nat, page: Option<int>): (r: Response<seq<ExpenseView>>)
    ensures r.status == Ok || r.status == NotFound
    ensures r.status == NotFound <==> |OwnedBy(expenses, userId)| <= (CurrentPage(page) - 1) * PageSize
    ensures r.status == Ok ==>
      var items := PageOf(OwnedBy(expenses, userId), CurrentPage(page));
      && r.body.Some? && |r.body.value| == |items| <= PageSize
      && forall k :: 0 <= k < |items| ==> r.body.value[k] == View(cats, items[k])
    ensures r.status == Ok ==>
      forall v :: v in r.body.value ==> v.expense in expenses && v.expense.userId == userId
  {
    var items := PageOf(OwnedBy(expenses, userId), CurrentPage(page));
    if items == [] then Response(NotFound, None)
    else Response(Ok, Some(seq(|items|, k requires 0 <= k < |items| => View(cats, items[k]))))
  }
}
