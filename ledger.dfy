/**
 * The relational store behind the controllers: the three tables, their
 * auto-increment counters, the integrity the schema and the two controllers
 * keep between them, and the row-level writes (`create`, `save`, `delete`)
 * the controllers perform. Deleting a category applies the foreign keys'
 * `onDelete('set null')` to the budgets and expenses that pointed at it.
 */
module Ledger {
  import opened Wrappers
  import opened Schema

  /** Category ids increase along the table and lie below the next id the table will hand out. */
  ghost predicate CategoryKeys(cats: seq<Category>, next: nat) {
    && (forall i, j :: 0 <= i < j < |cats| ==> cats[i].id < cats[j].id)
    && (forall i :: 0 <= i < |cats| ==> cats[i].id < next)
  }

  ghost predicate BudgetKeys(budgets: seq<Budget>, next: nat) {
    && (forall i, j :: 0 <= i < j < |budgets| ==> budgets[i].id < budgets[j].id)
    && (forall i :: 0 <= i < |budgets| ==> budgets[i].id < next)
  }

  ghost predicate ExpenseKeys(expenses: seq<Expense>, next: nat) {
    && (forall i, j :: 0 <= i < j < |expenses| ==> expenses[i].id < expenses[j].id)
    && (forall i :: 0 <= i < |expenses| ==> expenses[i].id < next)
  }

  /** No user owns two categories of the same name. */
  ghost predicate NamesUniquePerUser(cats: seq<Category>) {
    forall i, j :: 0 <= i < j < |cats| && cats[i].userId == cats[j].userId ==> cats[i].name != cats[j].name
  }

  /** `remaining == amount - spent` on every budget row. */
  ghost predicate AllBalanced(budgets: seq<Budget>) {
    forall i :: 0 <= i < |budgets| ==> Balanced(budgets[i])
  }

  /** No user has two budgets for the same (non-null) category. */
  ghost predicate OneBudgetPerCategory(budgets: seq<Budget>) {
    forall i, j ::
      0 <= i < j < |budgets| && budgets[i].userId == budgets[j].userId && budgets[i].categoryId.Some? ==>
        budgets[i].categoryId != budgets[j].categoryId
  }

  ghost predicate HasCategory(cats: seq<Category>, id: nat) {
    exists k :: 0 <= k < |cats| && cats[k].id == id
  }

  ghost predicate OwnsCategory(cats: seq<Category>, user: nat, id: nat) {
    exists k :: 0 <= k < |cats| && cats[k].id == id && cats[k].userId == user
  }

  /** Every non-null `budgets.category_id` names an existing category (whoever owns it). */
  ghost predicate BudgetRefsExist(cats: seq<Category>, budgets: seq<Budget>) {
    forall i :: 0 <= i < |budgets| && budgets[i].categoryId.Some? ==> HasCategory(cats, budgets[i].categoryId.value)
  }

  /** Every non-null `expenses.category_id` names a category owned by the expense's owner. */
  ghost predicate ExpenseRefsOwned(cats: seq<Category>, expenses: seq<Expense>) {
    forall i :: 0 <= i < |expenses| && expenses[i].categoryId.Some? ==>
      OwnsCategory(cats, expenses[i].userId, expenses[i].categoryId.value)
  }

  /** The budgets after the category `id` is deleted: `category_id` set to null where it was `id`. */
  function ClearBudgetCategory(budgets: seq<Budget>, id: nat): (r: seq<Budget>)
    ensures |r| == |budgets|
    ensures forall j :: 0 <= j < |r| ==> r[j].categoryId != Some(id)
    ensures forall j :: 0 <= j < |r| ==> r[j] == budgets[j] || (budgets[j].categoryId == Some(id) && r[j] == budgets[j].(categoryId := None))
  {
    seq(|budgets|, j requires 0 <= j < |budgets| =>
      if budgets[j].categoryId == Some(id) then budgets[j].(categoryId := None) else budgets[j])
  }

  /** The expenses after the category `id` is deleted: `category_id` set to null where it was `id`. */
  function ClearExpenseCategory(expenses: seq<Expense>, id: nat): (r: seq<Expense>)
    ensures |r| == |expenses|
    ensures forall j :: 0 <= j < |r| ==> r[j].categoryId != Some(id)
    ensures forall j :: 0 <= j < |r| ==> r[j] == expenses[j] || (expenses[j].categoryId == Some(id) && r[j] == expenses[j].(categoryId := None))
  {
    seq(|expenses|, j requires 0 <= j < |expenses| =>
      if expenses[j].categoryId == Some(id) then expenses[j].(categoryId := None) else expenses[j])
  }

  /** Once category row `i` is gone and the budgets' references to it are null, every remaining reference still names a category. */
  lemma {:induction false} ClearKeepsBudgetRefs(cats: seq<Category>, budgets: seq<Budget>, i: nat)
    requires i < |cats| && BudgetRefsExist(cats, budgets)
    ensures BudgetRefsExist(RemoveAt(cats, i), ClearBudgetCategory(budgets, cats[i].id))
  {
    var rest, cleared := RemoveAt(cats, i), ClearBudgetCategory(budgets, cats[i].id);
    forall j | 0 <= j < |cleared| && cleared[j].categoryId.Some?
      ensures HasCategory(rest, cleared[j].categoryId.value)
    {
      assert cleared[j] == budgets[j];
      var k :| 0 <= k < |cats| && cats[k].id == budgets[j].categoryId.value;
      if k < i {
        assert rest[k] == cats[k];
      } else {
        assert rest[k - 1] == cats[k];
      }
    }
  }

  /** Once category row `i` is gone and the expenses' references to it are null, every remaining reference still names a category of the expense's owner. */
  lemma {:induction false} ClearKeepsExpenseRefs(cats: seq<Category>, expenses: seq<Expense>, i: nat)
    requires i < |cats| && ExpenseRefsOwned(cats, expenses)
    ensures ExpenseRefsOwned(RemoveAt(cats, i), ClearExpenseCategory(expenses, cats[i].id))
  {
    var rest, cleared := RemoveAt(cats, i), ClearExpenseCategory(expenses, cats[i].id);
    forall j | 0 <= j < |cleared| && cleared[j].categoryId.Some?
      ensures OwnsCategory(rest, cleared[j].userId, cleared[j].categoryId.value)
    {
      assert cleared[j] == expenses[j];
      var k :| 0 <= k < |cats| && cats[k].id == expenses[j].categoryId.value && cats[k].userId == expenses[j].userId;
      if k < i {
        assert rest[k] == cats[k];
      } else {
        assert rest[k - 1] == cats[k];
      }
    }
  }

  /** No budget refers to the id the categories table hands out next. */
  lemma {:induction false} FreshCategoryUnbudgeted(cats: seq<Category>, budgets: seq<Budget>, next: nat, user: nat)
    requires CategoryKeys(cats, next) && BudgetRefsExist(cats, budgets)
    ensures UserBudgetFor(budgets, user, Some(next)).None?
  {
    forall j | 0 <= j < |budgets| && budgets[j].categoryId.Some?
      ensures budgets[j].categoryId != Some(next)
    {
      var k :| 0 <= k < |cats| && cats[k].id == budgets[j].categoryId.value;
    }
  }

  class Database {
    var categories: seq<Category>
    var budgets: seq<Budget>
    var expenses: seq<Expense>
    var nextCategoryId: nat
    var nextBudgetId: nat
    var nextExpenseId: nat

    ghost predicate Valid()
      reads this
    {
      && CategoryKeys(categories, nextCategoryId)
      && BudgetKeys(budgets, nextBudgetId)
      && ExpenseKeys(expenses, nextExpenseId)
      && NamesUniquePerUser(categories)
      && AllBalanced(budgets)
      && OneBudgetPerCategory(budgets)
      && BudgetRefsExist(categories, budgets)
      && ExpenseRefsOwned(categories, expenses)
    }

    /** An empty ledger; auto-increment ids start at 1. */
    constructor ()
      ensures Valid()
      ensures categories == [] && budgets == [] && expenses == []
      ensures nextCategoryId == 1 && nextBudgetId == 1 && nextExpenseId == 1
    {
      categories, budgets, expenses := [], [], [];
      nextCategoryId, nextBudgetId, nextExpenseId := 1, 1, 1;
    }

    /** `Category::create`: a new row with the next id. */
    method InsertCategory(userId: nat, name: string) returns (c: Category)
      requires Valid()
      requires forall k :: 0 <= k < |categories| ==> !(categories[k].userId == userId && categories[k].name == name)
      modifies this`categories, this`nextCategoryId
      ensures Valid()
      ensures c == Category(old(nextCategoryId), userId, name)
      ensures categories == old(categories) + [c] && nextCategoryId == old(nextCategoryId) + 1
    {
      c := Category(nextCategoryId, userId, name);
      categories := categories + [c];
      nextCategoryId := nextCategoryId + 1;
      forall i | 0 <= i < |budgets| && budgets[i].categoryId.Some?
        ensures HasCategory(categories, budgets[i].categoryId.value)
      {
        var k :| 0 <= k < |old(categories)| && old(categories)[k].id == budgets[i].categoryId.value;
        assert categories[k] == old(categories)[k];
      }
      forall i | 0 <= i < |expenses| && expenses[i].categoryId.Some?
        ensures OwnsCategory(categories, expenses[i].userId, expenses[i].categoryId.value)
      {
        var k :| 0 <= k < |old(categories)| && old(categories)[k].id == expenses[i].categoryId.value
          && old(categories)[k].userId == expenses[i].userId;
        assert categories[k] == old(categories)[k];
      }
    }

    /** `$budget->save()` after its money columns were changed. */
    method SaveBudget(i: nat, b: Budget)
      requires Valid()
      requires i < |budgets|
      requires b.id == budgets[i].id && b.userId == budgets[i].userId && b.categoryId == budgets[i].categoryId
      requires Balanced(b)
      modifies this`budgets
      ensures Valid()
      ensures budgets == old(budgets)[i := b]
    {
      budgets := budgets[i := b];
    }

    /** `Budget::create` with the given columns and the next id. */
    method InsertBudget(userId: nat, categoryId: nat, amount: Cents, spent: Cents, remaining: Cents) returns (b: Budget)
      requires Valid()
      requires HasCategory(categories, categoryId)
      requires UserBudgetFor(budgets, userId, Some(categoryId)).None?
      requires remaining == amount - spent
      modifies this`budgets, this`nextBudgetId
      ensures Valid()
      ensures b == Budget(old(nextBudgetId), userId, Some(categoryId), amount, spent, remaining)
      ensures budgets == old(budgets) + [b] && nextBudgetId == old(nextBudgetId) + 1
    {
      b := Budget(nextBudgetId, userId, Some(categoryId), amount, spent, remaining);
      budgets := budgets + [b];
      nextBudgetId := nextBudgetId + 1;
    }

    /** `$budget->delete()`. */
    method DeleteBudget(i: nat)
      requires Valid()
      requires i < |budgets|
      modifies this`budgets
      ensures Valid()
      ensures budgets == RemoveAt(old(budgets), i)
    {
      budgets := RemoveAt(budgets, i);
    }

    /** Deleting a category row; the foreign keys set every reference to it to null. */
    method DeleteCategory(i: nat)
      requires Valid()
      requires i < |categories|
      modifies this`categories, this`budgets, this`expenses
      ensures Valid()
      ensures categories == RemoveAt(old(categories), i)
      ensures budgets == ClearBudgetCategory(old(budgets), old(categories)[i].id)
      ensures expenses == ClearExpenseCategory(old(expenses), old(categories)[i].id)
    {
      var id := categories[i].id;
      ghost var cats := categories;
      categories := RemoveAt(categories, i);
      budgets := ClearBudgetCategory(budgets, id);
      expenses := ClearExpenseCategory(expenses, id);
      ClearKeepsBudgetRefs(cats, old(budgets), i);
      ClearKeepsExpenseRefs(cats, old(expenses), i);
    }

    /** `$user->expenses()->create`: a new row with the next id. */
    method InsertExpense(userId: nat, categoryId: nat, amount: Cents, expenseDate: Date, description: Option<string>)
      returns (e: Expense)
      requires Valid()
      requires OwnsCategory(categories, userId, categoryId)
      modifies this`expenses, this`nextExpenseId
      ensures Valid()
      ensures e == Expense(old(nextExpenseId), userId, Some(categoryId), amount, expenseDate, description)
      ensures expenses == old(expenses) + [e] && nextExpenseId == old(nextExpenseId) + 1
    {
      e := Expense(nextExpenseId, userId, Some(categoryId), amount, expenseDate, description);
      expenses := expenses + [e];
      nextExpenseId := nextExpenseId + 1;
    }

    /** `$expense->update(...)`: the row rewritten in place; its key, owner and category stay. */
    method SaveExpense(i: nat, e: Expense)
      requires Valid()
      requires i < |expenses|
      requires e.id == expenses[i].id && e.userId == expenses[i].userId && e.categoryId == expenses[i].categoryId
      modifies this`expenses
      ensures Valid()
      ensures expenses == old(expenses)[i := e]
    {
      expenses := expenses[i := e];
    }

    /** `$expense->delete()`. */
    method DeleteExpense(i: nat)
      requires Valid()
      requires i < |expenses|
      modifies this`expenses
      ensures Valid()
      ensures expenses == RemoveAt(old(expenses), i)
    {
      expenses := RemoveAt(expenses, i);
    }
  }
}
