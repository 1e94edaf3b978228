/**
 * The rows of the ledger (the `categories`, `budgets` and `expenses` tables),
 * the HTTP statuses the controllers answer with, and the queries the
 * controllers run against the tables.
 *
 * Amounts are the `decimal(10,2)` columns counted in whole cents, so every
 * sum and difference is exact. Row ids are the tables' auto-increment keys.
 * A table is a sequence of rows in id order, which is also the order in
 * which an unordered query returns them; `first()` is the first match.
 */
module Schema {
  import opened Wrappers

  /** An amount of money in cents. */
  type Cents = int

  /** `expense_date`: kept as the text the client sent; its format is not modelled. */
  type Date = string

  datatype Category = Category(id: nat, userId: nat, name: string)

  /** `category_id` is a nullable foreign key that the store sets to null when the category is deleted. */
  datatype Budget = Budget(id: nat, userId: nat, categoryId: Option<nat>, amount: Cents, spent: Cents, remaining: Cents)

  datatype Expense = Expense(id: nat, userId: nat, categoryId: Option<nat>, amount: Cents, expenseDate: Date, description: Option<string>)

  datatype Status = Ok | Created | BadRequest | NotFound | Unprocessable | ServerError {
    function Code(): int {
      match this
      case Ok => 200
      case Created => 201
      case BadRequest => 400
      case NotFound => 404
      case Unprocessable => 422
      case ServerError => 500
    }
  }

  /** A JSON response: its status and, on success, the row or rows it carries. */
  datatype Response<+T> = Response(status: Status, body: Option<T>)

  /** The relation the budget ledger keeps on every budget row. */
  predicate Balanced(b: Budget) {
    b.remaining == b.amount - b.spent
  }

  /** The budget after an expense of `amount` is booked against it: `spent += amount`, then `remaining = amount - spent`. */
  function Charge(b: Budget, amount: Cents): (r: Budget)
    ensures Balanced(r)
    ensures r.(spent := b.spent, remaining := b.remaining) == b
    ensures r.spent - b.spent == amount
    ensures Balanced(b) ==> r.remaining == b.remaining - amount
    ensures Balanced(b) && amount <= b.remaining ==> 0 <= r.remaining
  {
    var spent := b.spent + amount;
    b.(spent := spent, remaining := b.amount - spent)
  }

  /** The budget after its owner sets a new limit: `amount` replaced, `spent` kept, `remaining` recomputed. */
  function Reprice(b: Budget, newAmount: Cents): (r: Budget)
    ensures Balanced(r)
    ensures r.(amount := b.amount, remaining := b.remaining) == b
    ensures r.amount == newAmount
    ensures r.remaining < 0 <==> b.spent > newAmount
  {
    b.(amount := newAmount, remaining := newAmount - b.spent)
  }

  /** The index of the first element satisfying `p`, if any. */
  function FindFirst<T>(s: seq<T>, p: T -> bool): (r: Option<nat>)
    ensures r.Some? ==> r.value < |s| && p(s[r.value])
    ensures r.Some? ==> forall j :: 0 <= j < r.value ==> !p(s[j])
    ensures r.None? ==> forall j :: 0 <= j < |s| ==> !p(s[j])
  {
    if s == [] then None
    else if p(s[0]) then Some(0)
    else
      match FindFirst(s[1..], p)
      case None => None
      case Some(k) => Some(k + 1)
  }

  /** `Category::firstOrCreate(['name' => ...])` looks the name up across every user's categories. */
  function CategoryNamed(cats: seq<Category>, name: string): (r: Option<nat>)
    ensures r.Some? ==> r.value < |cats| && cats[r.value].name == name
    ensures r.Some? ==> forall j :: 0 <= j < r.value ==> cats[j].name != name
    ensures r.None? ==> forall j :: 0 <= j < |cats| ==> cats[j].name != name
  {
    FindFirst(cats, (c: Category) => c.name == name)
  }

  /** `$user->categories()->firstOrCreate(['name' => ...])` looks the name up among the user's own categories. */
  function UserCategoryNamed(cats: seq<Category>, user: nat, name: string): (r: Option<nat>)
    ensures r.Some? ==> r.value < |cats| && cats[r.value].userId == user && cats[r.value].name == name
    ensures r.None? ==> forall j :: 0 <= j < |cats| ==> !(cats[j].userId == user && cats[j].name == name)
  {
    FindFirst(cats, (c: Category) => c.userId == user && c.name == name)
  }

  /** The category row with primary key `id` (a `belongsTo` join). */
  function CategoryWithId(cats: seq<Category>, id: nat): (r: Option<nat>)
    ensures r.Some? ==> r.value < |cats| && cats[r.value].id == id
    ensures r.None? ==> forall j :: 0 <= j < |cats| ==> cats[j].id != id
  {
    FindFirst(cats, (c: Category) => c.id == id)
  }

  /** `Category::where('id', id)->where('user_id', user)`: the category row `id`, only if the user owns it. */
  function UserCategoryWithId(cats: seq<Category>, user: nat, id: nat): (r: Option<nat>)
    ensures r.Some? ==> r.value < |cats| && cats[r.value].id == id && cats[r.value].userId == user
    ensures r.None? ==> forall j :: 0 <= j < |cats| ==> !(cats[j].id == id && cats[j].userId == user)
  {
    FindFirst(cats, (c: Category) => c.id == id && c.userId == user)
  }

  /**
   * `Budget::where('user_id', user)->where('category_id', categoryId)->first()`.
   * A null `categoryId` becomes `whereNull`, so it matches the user's budgets whose
   * category was deleted.
   */
  function UserBudgetFor(budgets: seq<Budget>, user: nat, categoryId: Option<nat>): (r: Option<nat>)
    ensures r.Some? ==> r.value < |budgets| && budgets[r.value].userId == user && budgets[r.value].categoryId == categoryId
    ensures r.Some? ==> forall j :: 0 <= j < r.value ==> !(budgets[j].userId == user && budgets[j].categoryId == categoryId)
    ensures r.None? ==> forall j :: 0 <= j < |budgets| ==> !(budgets[j].userId == user && budgets[j].categoryId == categoryId)
  {
    FindFirst(budgets, (b: Budget) => b.userId == user && b.categoryId == categoryId)
  }

  /** The budget row with primary key `id`, whoever owns it (the `exists:budgets,id` rule). */
  function BudgetWithId(budgets: seq<Budget>, id: int): (r: Option<nat>)
    ensures r.Some? ==> r.value < |budgets| && budgets[r.value].id == id
    ensures r.None? ==> forall j :: 0 <= j < |budgets| ==> budgets[j].id != id
  {
    FindFirst(budgets, (b: Budget) => b.id == id)
  }

  /** `Budget::where('id', id)->where('user_id', user)->first()`. */
  function UserBudgetWithId(budgets: seq<Budget>, user: nat, id: int): (r: Option<nat>)
    ensures r.Some? ==> r.value < |budgets| && budgets[r.value].id == id && budgets[r.value].userId == user
    ensures r.None? ==> forall j :: 0 <= j < |budgets| ==> !(budgets[j].id == id && budgets[j].userId == user)
  {
    FindFirst(budgets, (b: Budget) => b.id == id && b.userId == user)
  }

  /** `Auth::user()->expenses()->find(id)`: the expense with that id, only if the user owns it. */
  function UserExpenseWithId(expenses: seq<Expense>, user: nat, id: int): (r: Option<nat>)
    ensures r.Some? ==> r.value < |expenses| && expenses[r.value].id == id && expenses[r.value].userId == user
    ensures r.None? ==> forall j :: 0 <= j < |expenses| ==> !(expenses[j].id == id && expenses[j].userId == user)
  {
    FindFirst(expenses, (e: Expense) => e.id == id && e.userId == user)
  }

  /** `Expense::where('user_id', user)->get()`: the user's expenses, in table order. */
  function OwnedBy(expenses: seq<Expense>, user: nat): (r: seq<Expense>)
    ensures |r| <= |expenses|
    ensures forall e :: e in r ==> e in expenses && e.userId == user
    ensures forall e :: e in expenses && e.userId == user ==> e in r
  {
    if expenses == [] then []
    else
      var init, last := expenses[..|expenses| - 1], expenses[|expenses| - 1];
      assert expenses == init + [last];
      OwnedBy(init, user) + (if last.userId == user then [last] else [])
  }

  /** Each of the user's rows appears in the result exactly as often as in the table, and no other row appears. */
  lemma {:induction false} OwnedByCounts(expenses: seq<Expense>, user: nat)
    ensures forall e :: multiset(OwnedBy(expenses, user))[e] == (if e.userId == user then multiset(expenses)[e] else 0)
  {
    if expenses != [] {
      var init, last := expenses[..|expenses| - 1], expenses[|expenses| - 1];
      assert expenses == init + [last];
      OwnedByCounts(init, user);
    }
  }

  /**
   * The filter keeps table order: the user's rows of two consecutive stretches of the
   * table are those of the first stretch followed by those of the second.
   */
  lemma {:induction false} OwnedByAppend(a: seq<Expense>, b: seq<Expense>, user: nat)
    ensures OwnedBy(a + b, user) == OwnedBy(a, user) + OwnedBy(b, user)
  {
    if b == [] {
      assert a + b == a;
    } else {
      var init, last := b[..|b| - 1], b[|b| - 1];
      var kept := if last.userId == user then [last] else [];
      var ab := a + b;
      assert ab[..|ab| - 1] == a + init;
      assert ab[|ab| - 1] == last;
      var left := OwnedBy(a + init, user);
      assert OwnedBy(ab, user) == left + kept;
      OwnedByAppend(a, init, user);
      var x, y := OwnedBy(a, user), OwnedBy(init, user);
      assert left == x + y;
      assert OwnedBy(b, user) == y + kept;
      ConcatAssoc(x, y, kept);
    }
  }

  /**
   * Associativity of concatenation, stated apart so that the order lemmas can use it
   * without the filters' contracts in scope: asserted inline there, it costs those
   * proofs several times as much.
   */
  lemma ConcatAssoc<T>(x: seq<T>, y: seq<T>, z: seq<T>)
    ensures (x + y) + z == x + (y + z)
  {
  }

  /** The table without its `i`-th row (a `delete()` of that row). */
  function RemoveAt<T>(s: seq<T>, i: nat): (r: seq<T>)
    requires i < |s|
    ensures |r| == |s| - 1
    ensures forall j :: 0 <= j < i ==> r[j] == s[j]
    ensures forall j :: i <= j < |r| ==> r[j] == s[j + 1]
  {
    s[..i] + s[i + 1..]
  }
}
