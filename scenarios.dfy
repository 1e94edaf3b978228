/**
 * Clients of the controllers: one step of the ledger's life per method, each
 * using only the controllers' contracts, the way the API's users see them.
 * The assertions before each call name the row each lookup finds.
 */
module Scenarios {
  import opened Wrappers
  import opened Schema
  import opened Ledger
  import BudgetController
  import ExpenseController

  /** A first budget of 100.00 on "Food" creates the category and a budget with nothing spent. */
  method OpenFoodBudget() {
    var db := new Database();
    var alice := 7;
    assert CategoryNamed([], "Food") == None;
    assert UserBudgetFor([], alice, Some(1)) == None;
    var r := BudgetController.Store(db, alice, BudgetController.BudgetRequest(Some("Food"), Some(10000)));
    assert r.status.Code() == 201;
    assert db.categories == [Category(1, alice, "Food")];
    assert db.budgets == [Budget(1, alice, Some(1), 10000, 0, 10000)];
  }

  /** An expense of 40.00 on "Food" leaves 60.00 of the budget. */
  method SpendOnFood(db: Database, alice: nat)
    requires db.Valid()
    requires db.categories == [Category(1, alice, "Food")]
    requires db.budgets == [Budget(1, alice, Some(1), 10000, 0, 10000)]
    modifies db
  {
    assert UserCategoryNamed(db.categories, alice, "Food") == Some(0);
    assert UserBudgetFor(db.budgets, alice, Some(1)) == Some(0);
    var r := ExpenseController.Store(db, alice, ExpenseController.ExpenseRequest(Some("Food"), Some(4000), Some("2024-11-06"), None));
    assert r.status == Created;
    assert db.budgets == [Budget(1, alice, Some(1), 10000, 4000, 6000)];
    assert |db.expenses| == |old(db.expenses)| + 1;
  }

  /** With 60.00 left, an expense of 70.00 is refused and nothing changes; one of exactly 60.00 would pass. */
  method OverspendOnFood(db: Database, alice: nat)
    requires db.Valid()
    requires db.categories == [Category(1, alice, "Food")]
    requires db.budgets == [Budget(1, alice, Some(1), 10000, 4000, 6000)]
    modifies db
  {
    assert UserCategoryNamed(db.categories, alice, "Food") == Some(0);
    assert UserBudgetFor(db.budgets, alice, Some(1)) == Some(0);
    var r := ExpenseController.Store(db, alice, ExpenseController.ExpenseRequest(Some("Food"), Some(7000), Some("2024-11-07"), None));
    assert r.status.Code() == 400;
    assert db.budgets == old(db.budgets) && db.expenses == old(db.expenses);
    var s := ExpenseController.Store(db, alice, ExpenseController.ExpenseRequest(Some("Food"), Some(6000), Some("2024-11-07"), None));
    assert s.status == Created;
    assert db.budgets == [Budget(1, alice, Some(1), 10000, 10000, 0)];
  }

  /** "Transport" has no budget: any amount is accepted and no budget changes. */
  method TransportUnbudgeted(db: Database, alice: nat)
    requires db.Valid()
    requires db.categories == [Category(1, alice, "Food")]
    requires db.nextCategoryId == 2
    modifies db
  {
    assert UserCategoryNamed(db.categories, alice, "Transport") == None;
    assert forall j :: 0 <= j < |db.budgets| ==> db.budgets[j].categoryId != Some(2);
    var r := ExpenseController.Store(db, alice, ExpenseController.ExpenseRequest(Some("Transport"), Some(1000000), Some("2024-11-07"), None));
    assert r.status == Created;
    assert db.categories == [Category(1, alice, "Food"), Category(2, alice, "Transport")];
    assert db.budgets == old(db.budgets);
  }

  /** Lowering a budget below what was already spent leaves `remaining` negative. */
  method RepriceBelowSpent(db: Database, bob: nat)
    requires db.Valid()
    requires db.categories == [Category(1, bob, "Rent")]
    requires db.budgets == [Budget(1, bob, Some(1), 50000, 45000, 5000)]
    modifies db
  {
    assert CategoryNamed(db.categories, "Rent") == Some(0);
    assert UserBudgetFor(db.budgets, bob, Some(1)) == Some(0);
    var r := BudgetController.Store(db, bob, BudgetController.BudgetRequest(Some("Rent"), Some(40000)));
    assert r.status == Ok;
    assert db.budgets == [Budget(1, bob, Some(1), 40000, 45000, -5000)];
  }

  /** Deleting an expense does not give its amount back to the budget. */
  method DeleteDoesNotRefund(db: Database, bob: nat)
    requires db.Valid()
    requires db.expenses == [Expense(1, bob, Some(1), 45000, "2024-11-01", Some("November"))]
    modifies db
  {
    assert UserExpenseWithId(db.expenses, bob, 1) == Some(0);
    var r := ExpenseController.Destroy(db, bob, 1);
    assert r.status.Code() == 200 && db.expenses == [];
    assert db.budgets == old(db.budgets);
  }

  /** Deleting the last budget on "Rent" deletes the category; its expenses lose their category. */
  method DeleteLastBudget(db: Database, bob: nat)
    requires db.Valid()
    requires db.categories == [Category(1, bob, "Rent")]
    requires db.budgets == [Budget(1, bob, Some(1), 40000, 45000, -5000)]
    requires db.expenses == [Expense(1, bob, Some(1), 45000, "2024-11-01", None)]
    modifies db
  {
    assert BudgetWithId(db.budgets, 1) == Some(0);
    assert UserBudgetWithId(db.budgets, bob, 1) == Some(0);
    assert UserCategoryWithId(db.categories, bob, 1) == Some(0);
    assert RemoveAt(db.budgets, 0) == [] && RemoveAt(db.categories, 0) == [];
    assert UserBudgetFor([], bob, Some(1)) == None;
    assert ClearExpenseCategory(db.expenses, 1) == [Expense(1, bob, None, 45000, "2024-11-01", None)];
    var r := BudgetController.Destroy(db, bob, Some(1));
    assert r.status == Ok;
    assert db.categories == [] && db.budgets == [];
    assert db.expenses == [Expense(1, bob, None, 45000, "2024-11-01", None)];
  }

  /** Another user's budget cannot be deleted: the request fails with 500 and nothing changes. */
  method DeleteForeignBudget(db: Database, bob: nat, eve: nat)
    requires db.Valid() && eve != bob
    requires db.budgets == [Budget(1, bob, Some(1), 40000, 0, 40000)]
    modifies db
  {
    assert BudgetWithId(db.budgets, 1) == Some(0);
    assert UserBudgetWithId(db.budgets, eve, 1) == None;
    var r := BudgetController.Destroy(db, eve, Some(1));
    assert r.status.Code() == 500;
    assert db.budgets == old(db.budgets);
  }
}
