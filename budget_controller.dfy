/**
 * `BudgetController`: list the caller's categories with their budgets, set a
 * budget for a category (creating or updating it), and delete a budget
 * together with its category when nothing of the caller still uses it.
 *
 * The authenticated user is the parameter `userId`; the request body is a
 * value whose absent fields are `None`.
 */
module BudgetController {
  import opened Wrappers
  import opened Schema
  import opened Ledger

  /** The body of `POST /budgets`: the category name and the budget amount in cents. */
  datatype BudgetRequest = BudgetRequest(name: Option<string>, amount: Option<Cents>)

  /** `'name' => 'required|string|max:255'` and `'amount' => 'required|numeric|min:0'`. */
  predicate ValidBudgetRequest(r: BudgetRequest) {
    && r.name.Some? && 0 < |r.name.value| <= 255
    && r.amount.Some? && 0 <= r.amount.value
  }

  /** One entry of `GET /budgets`: a category of the caller and the caller's budget for it, if any. */
  datatype CategoryWithBudget = CategoryWithBudget(category: Category, budget: Option<Budget>)

  /** The caller's budget on category `id` (the `budget` relation restricted to the caller). */
  function BudgetOf(budgets: seq<Budget>, user: nat, id: nat): (r: Option<Budget>)
    ensures r.Some? ==> r.value in budgets && r.value.userId == user && r.value.categoryId == Some(id)
    ensures r.None? ==> forall b :: b in budgets ==> !(b.userId == user && b.categoryId == Some(id))
  {
    match UserBudgetFor(budgets, user, Some(id))
    case Some(k) => Some(budgets[k])
    case None => None
  }

  /** `index`: every category the caller owns, in table order, each with the caller's budget on it. */
  function Index(cats: seq<Category>, budgets: seq<Budget>, user: nat): (r: seq<CategoryWithBudget>)
    ensures forall i :: 0 <= i < |r| ==> r[i].category in cats && r[i].category.userId == user
    ensures forall c :: c in cats && c.userId == user ==> exists i :: 0 <= i < |r| && r[i].category == c
    ensures forall i :: 0 <= i < |r| ==> r[i].budget == BudgetOf(budgets, user, r[i].category.id)
  {
    if cats == [] then []
    else
      var init, last := cats[..|cats| - 1], cats[|cats| - 1];
      assert cats == init + [last];
      var prefix := Index(init, budgets, user);
      var r := prefix + (if last.userId == user then [CategoryWithBudget(last, BudgetOf(budgets, user, last.id))] else []);
      assert forall c :: c in cats && c.userId == user ==> exists i :: 0 <= i < |r| && r[i].category == c by {
        forall c | c in cats && c.userId == user
          ensures exists i :: 0 <= i < |r| && r[i].category == c
        {
          if c in init {
            var i :| 0 <= i < |prefix| && prefix[i].category == c;
            assert r[i] == prefix[i];
          } else {
            assert r[|prefix|].category == c;
          }
        }
      }
      r
  }

  /** The categories of the entries of `GET /budgets`, in order. */
  function Categories(entries: seq<CategoryWithBudget>): seq<Category> {
    if entries == [] then [] else Categories(entries[..|entries| - 1]) + [entries[|entries| - 1].category]
  }

  lemma {:induction false} CategoriesSnoc(entries: seq<CategoryWithBudget>, entry: CategoryWithBudget)
    ensures Categories(entries + [entry]) == Categories(entries) + [entry.category]
  {
    assert (entries + [entry])[..|entries|] == entries;
  }

  /** One more table row adds it to the listed categories exactly when the caller owns it. */
  lemma {:induction false} CountsSnoc(listed: seq<Category>, next: seq<Category>, init: seq<Category>, last: Category, user: nat)
    requires forall c :: multiset(listed)[c] == (if c.userId == user then multiset(init)[c] else 0)
    requires next == if last.userId == user then listed + [last] else listed
    ensures forall c :: multiset(next)[c] == (if c.userId == user then multiset(init + [last])[c] else 0)
  {
    assert multiset(init + [last]) == multiset(init) + multiset{last};
  }

  /** Each of the caller's categories is listed as often as it occurs in the table, and no other category is. */
  lemma {:induction false} IndexCounts(cats: seq<Category>, budgets: seq<Budget>, user: nat)
    ensures forall c :: multiset(Categories(Index(cats, budgets, user)))[c] == (if c.userId == user then multiset(cats)[c] else 0)
  {
    if cats != [] {
      var init, last := cats[..|cats| - 1], cats[|cats| - 1];
      assert cats == init + [last];
      IndexCounts(init, budgets, user);
      var prefix := Index(init, budgets, user);
      var listed := Categories(Index(cats, budgets, user));
      if last.userId == user {
        var entry := CategoryWithBudget(last, BudgetOf(budgets, user, last.id));
        assert Index(cats, budgets, user) == prefix + [entry];
        CategoriesSnoc(prefix, entry);
      } else {
        assert Index(cats, budgets, user) == prefix;
      }
      CountsSnoc(Categories(prefix), listed, init, last, user);
    }
  }

  /** The listing keeps table order: the entries for two stretches of the table are those of the first followed by those of the second. */
  lemma {:induction false} IndexAppend(a: seq<Category>, b: seq<Category>, budgets: seq<Budget>, user: nat)
    ensures Index(a + b, budgets, user) == Index(a, budgets, user) + Index(b, budgets, user)
  {
    if b == [] {
      assert a + b == a;
    } else {
      var init, last := b[..|b| - 1], b[|b| - 1];
      var kept := if last.userId == user then [CategoryWithBudget(last, BudgetOf(budgets, user, last.id))] else [];
      var ab := a + b;
      assert ab[..|ab| - 1] == a + init;
      assert ab[|ab| - 1] == last;
      assert Index(ab, budgets, user) == Index(a + init, budgets, user) + kept;
      IndexAppend(a, init, budgets, user);
      var x, y := Index(a, budgets, user), Index(init, budgets, user);
      assert Index(b, budgets, user) == y + kept;
      ConcatAssoc(x, y, kept);
    }
  }

  /**
   * `store`: validate, find the category by name among ALL users' categories (creating
   * one owned by the caller only when no category has that name), then update the
   * caller's budget on it (200) or create one (201).
   */
  method Store(db: Database, userId: nat, request: BudgetRequest) returns (response: Response<Budget>)
    requires db.Valid()
    modifies db
    ensures db.Valid()
    ensures db.expenses == old(db.expenses) && db.nextExpenseId == old(db.nextExpenseId)
    ensures !ValidBudgetRequest(request) ==> response == Response(Unprocessable, None) && unchanged(db)
    ensures ValidBudgetRequest(request) ==>
      var name, amount := request.name.value, request.amount.value;
      var found := CategoryNamed(old(db.categories), name);
      var category := if found.Some? then old(db.categories)[found.value] else Category(old(db.nextCategoryId), userId, name);
      && db.categories == (if found.Some? then old(db.categories) else old(db.categories) + [category])
      && db.nextCategoryId == (if found.Some? then old(db.nextCategoryId) else old(db.nextCategoryId) + 1)
      && var existing := UserBudgetFor(old(db.budgets), userId, Some(category.id));
         if existing.Some? then
           && db.budgets == old(db.budgets)[existing.value := Reprice(old(db.budgets)[existing.value], amount)]
           && db.nextBudgetId == old(db.nextBudgetId)
           && response == Response(Ok, Some(db.budgets[existing.value]))
         else
           var created := Budget(old(db.nextBudgetId), userId, Some(category.id), amount, 0, amount);
           && db.budgets == old(db.budgets) + [created]
           && db.nextBudgetId == old(db.nextBudgetId) + 1
           && response == Response(Created, Some(created))
  {
    if !ValidBudgetRequest(request) {
      return Response(Unprocessable, None);
    }
    var name, amount := request.name.value, request.amount.value;
    var category: Category;
    var found := CategoryNamed(db.categories, name);
    if found.Some? {
      category := db.categories[found.value];
    } else {
      category := db.InsertCategory(userId, name);
    }
    assert HasCategory(db.categories, category.id) by {
      if found.Some? {
        assert db.categories[found.value] == category;
      } else {
        assert db.categories[|db.categories| - 1] == category;
      }
    }
    var existing := UserBudgetFor(db.budgets, userId, Some(category.id));
    if existing.Some? {
      var budget := Reprice(db.budgets[existing.value], amount);
      db.SaveBudget(existing.value, budget);
      response := Response(Ok, Some(budget));
    } else {
      var budget := db.InsertBudget(userId, category.id, amount, 0, amount);
      response := Response(Created, Some(budget));
    }
  }

  /**
   * Once a budget on category `c` is deleted, the caller has no budget left on `c`:
   * the check for "other budgets" in `destroy` never finds one.
   */
  lemma {:induction false} NoSiblingBudget(budgets: seq<Budget>, i: nat)
    requires OneBudgetPerCategory(budgets)
    requires i < |budgets| && budgets[i].categoryId.Some?
    ensures UserBudgetFor(RemoveAt(budgets, i), budgets[i].userId, budgets[i].categoryId).None?
  {
    var rest := RemoveAt(budgets, i);
    forall j | 0 <= j < |rest|
      ensures !(rest[j].userId == budgets[i].userId && rest[j].categoryId == budgets[i].categoryId)
    {
      if j < i {
        assert rest[j] == budgets[j];
      } else {
        assert rest[j] == budgets[j + 1];
      }
    }
  }

  /**
   * `destroy`: a missing `budget_id`, or one that names no budget at all, fails
   * validation (422); a budget of another user makes `firstOrFail` throw, which the
   * general handler turns into 500. Otherwise the budget is deleted, and when the
   * caller has no other budget on its category, the category is deleted if the
   * caller owns it; the store then sets every reference to it to null.
   */
  method Destroy(db: Database, userId: nat, budgetId: Option<int>) returns (response: Response<()>)
    requires db.Valid()
    modifies db
    ensures db.Valid()
    ensures db.nextCategoryId == old(db.nextCategoryId) && db.nextBudgetId == old(db.nextBudgetId)
    ensures db.nextExpenseId == old(db.nextExpenseId)
    ensures (budgetId.None? || BudgetWithId(old(db.budgets), budgetId.value).None?) ==>
      response == Response(Unprocessable, None) && unchanged(db)
    ensures (budgetId.Some? && BudgetWithId(old(db.budgets), budgetId.value).Some?
             && UserBudgetWithId(old(db.budgets), userId, budgetId.value).None?) ==>
      response == Response(ServerError, None) && unchanged(db)
    ensures budgetId.Some? && UserBudgetWithId(old(db.budgets), userId, budgetId.value).Some? ==>
      var i := UserBudgetWithId(old(db.budgets), userId, budgetId.value).value;
      var categoryId := old(db.budgets)[i].categoryId;
      var rest := RemoveAt(old(db.budgets), i);
      var doomed :=
        if categoryId.Some? && UserBudgetFor(rest, userId, categoryId).None?
        then UserCategoryWithId(old(db.categories), userId, categoryId.value)
        else None;
      && response == Response(Ok, Some(()))
      && (doomed.None? ==>
            db.categories == old(db.categories) && db.budgets == rest && db.expenses == old(db.expenses))
      && (doomed.Some? ==>
            && db.categories == RemoveAt(old(db.categories), doomed.value)
            && db.budgets == ClearBudgetCategory(rest, categoryId.value)
            && db.expenses == ClearExpenseCategory(old(db.expenses), categoryId.value))
      // the category goes exactly when the budget had one and the caller owns it
      && (doomed.Some? <==> categoryId.Some? && OwnsCategory(old(db.categories), userId, categoryId.value))
  {
    if budgetId.None? || BudgetWithId(db.budgets, budgetId.value).None? {
      return Response(Unprocessable, None);
    }
    var found := UserBudgetWithId(db.budgets, userId, budgetId.value);
    if found.None? {
      return Response(ServerError, None);
    }
    var i := found.value;
    var categoryId := db.budgets[i].categoryId;
    ghost var cats := db.categories;
    ghost var budgets := db.budgets;
    db.DeleteBudget(i);
    var otherBudgets := UserBudgetFor(db.budgets, userId, categoryId).Some?;
    if categoryId.Some? {
      NoSiblingBudget(budgets, i);
      var owned := UserCategoryWithId(db.categories, userId, categoryId.value);
      if !otherBudgets && owned.Some? {
        db.DeleteCategory(owned.value);
      }
      if OwnsCategory(cats, userId, categoryId.value) {
        var k :| 0 <= k < |cats| && cats[k].id == categoryId.value && cats[k].userId == userId;
        assert owned.Some?;
      }
    }
    response := Response(Ok, Some(()));
  }
}
