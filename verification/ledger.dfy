/** The four record shapes of the budget ledger, the ledger state that holds
    them, the ownership chain every handler checks, and the cascading deletes
    the foreign keys declare. */
module Ledger {
  import opened Wrappers
  import opened Tables
  import opened Decimals

  /** The key of a `CustomUser`. */
  type UserId = nat

  /** A calendar date as a day number. */
  type Date = nat

  /** An income entry. `user` is nullable; `amount` is required. */
  datatype Income = Income(
    user: Option<UserId>,
    amount: Cents,
    source: string,
    dateReceived: Date,
    description: Option<string>)

  /** A budget drawn from one income entry. `totalExpenses` is required and is
      a copy of the income amount taken when the budget is created. */
  datatype Budget = Budget(
    name: string,
    income: Id,
    totalExpenses: Cents,
    startDate: Date,
    endDate: Date,
    description: Option<string>)

  /** A spending category of a budget. `amount` is nullable. */
  datatype Category = Category(
    budget: Id,
    name: string,
    description: Option<string>,
    amount: Option<Cents>,
    isDelete: bool)

  /** A savings goal. `user` and `targetAmount` are nullable; `amountSaved` is required. */
  datatype Savings = Savings(
    user: Option<UserId>,
    goalName: string,
    targetAmount: Option<Cents>,
    amountSaved: Cents,
    description: Option<string>)

  /** Why a request was refused. */
  datatype Failure =
    | InvalidAmount      // the amount is not a number
    | AmountOutOfRange   // the income amount lies outside 1000 .. 1 000 000 000
    | InvalidField       // a field the record serializer rejects
    | NotFound           // no row with the requested key
    | Forbidden          // the caller does not own the row
    | AlreadyBudgeted    // the income entry already has a budget
    | MissingInput       // budget or description missing from the request
    | UnparsableReply    // no `name: amount` line in the oracle's reply
    | OracleUnsettled    // the replies ran out before their total reached the budget
    | InvalidTarget      // the target amount is not a number
    | TargetBelowSaved   // the target amount is below the amount already saved
    | ServerError        // an exception the handler does not catch

  /** A monetary field of a request body: missing, JSON null, text that is not
      a number, or an amount. */
  datatype AmountField = Absent | Null | Malformed | Given(cents: Cents)

  datatype Ledger = Ledger(
    incomes: Store<Income>,
    budgets: Store<Budget>,
    categories: Store<Category>,
    savings: Store<Savings>)

  /** What a request handler returns: the new ledger, or the failure that left
      the ledger as it was. */
  type Outcome = Result<Ledger, Failure>

  /** A new category row: `isDelete` starts out false. */
  function NewCategory(budget: Id, name: string, description: Option<string>, amount: Option<Cents>): (c: Category)
    ensures !c.isDelete
    ensures c.budget == budget && c.name == name && c.amount == amount && c.description == description
  {
    Category(budget, name, description, amount, false)
  }

  /** Every foreign key points at an existing row. */
  predicate Linked(l: Ledger) {
    && (forall b :: b in l.budgets.rows ==> l.budgets.rows[b].income in l.incomes.rows)
    && (forall c :: c in l.categories.rows ==> l.categories.rows[c].budget in l.budgets.rows)
  }

  /** No two budgets share an income entry. The column is a plain foreign key;
      only the budget-creation handler keeps this true. */
  predicate OneBudgetPerIncome(l: Ledger) {
    forall b1, b2 :: b1 in l.budgets.rows && b2 in l.budgets.rows && b1 != b2 ==>
      l.budgets.rows[b1].income != l.budgets.rows[b2].income
  }

  predicate Consistent(l: Ledger) {
    Linked(l) && OneBudgetPerIncome(l)
  }

  /** `income.user == request.user`; an income without a user belongs to nobody. */
  predicate OwnsIncome(l: Ledger, caller: UserId, income: Id) {
    income in l.incomes.rows && l.incomes.rows[income].user == Some(caller)
  }

  /** `budget.income.user == request.user`. */
  predicate OwnsBudget(l: Ledger, caller: UserId, budget: Id) {
    budget in l.budgets.rows && OwnsIncome(l, caller, l.budgets.rows[budget].income)
  }

  /** `Budget.objects.filter(income=i).exists()`. */
  predicate HasBudget(l: Ledger, income: Id) {
    exists b :: b in l.budgets.rows && l.budgets.rows[b].income == income
  }

  /** Deleting a set of income entries, with `on_delete=CASCADE` carried to the
      budgets that reference them and on to those budgets' categories. */
  function DropIncomes(l: Ledger, gone: set<Id>): (r: Ledger)
    ensures forall i :: i in r.incomes.rows <==> i in l.incomes.rows && i !in gone
    ensures forall b :: b in r.budgets.rows <==> b in l.budgets.rows && l.budgets.rows[b].income !in gone
    ensures forall c :: c in r.categories.rows <==>
      (c in l.categories.rows && !(l.categories.rows[c].budget in l.budgets.rows &&
                                   l.budgets.rows[l.categories.rows[c].budget].income in gone))
    ensures forall i :: i in r.incomes.rows ==> r.incomes.rows[i] == l.incomes.rows[i]
    ensures forall b :: b in r.budgets.rows ==> r.budgets.rows[b] == l.budgets.rows[b]
    ensures forall c :: c in r.categories.rows ==> r.categories.rows[c] == l.categories.rows[c]
    ensures r.savings == l.savings
    ensures Consistent(l) ==> Consistent(r)
  {
    var budgets := Keep(l.budgets, (b: Budget) => b.income !in gone);
    var categories := Keep(l.categories, (c: Category) =>
      !(c.budget in l.budgets.rows && l.budgets.rows[c.budget].income in gone));
    Ledger(Table(l.incomes.rows - gone, l.incomes.next), budgets, categories, l.savings)
  }

  /** `income.delete()`: the income entry, its budgets and their categories go. */
  function DeleteIncomeCascade(l: Ledger, income: Id): (r: Ledger)
    ensures forall i :: i in r.incomes.rows <==> i in l.incomes.rows && i != income
    ensures forall b :: b in r.budgets.rows <==> b in l.budgets.rows && l.budgets.rows[b].income != income
    ensures forall c :: c in r.categories.rows <==>
      (c in l.categories.rows && !(l.categories.rows[c].budget in l.budgets.rows &&
                                   l.budgets.rows[l.categories.rows[c].budget].income == income))
    ensures forall i :: i in r.incomes.rows ==> r.incomes.rows[i] == l.incomes.rows[i]
    ensures forall b :: b in r.budgets.rows ==> r.budgets.rows[b] == l.budgets.rows[b]
    ensures forall c :: c in r.categories.rows ==> r.categories.rows[c] == l.categories.rows[c]
    ensures r.savings == l.savings
    ensures Consistent(l) ==> Consistent(r)
  {
    DropIncomes(l, {income})
  }

  /** `budget.delete()`: the budget and its categories go; nothing else changes. */
  function DeleteBudgetCascade(l: Ledger, budget: Id): (r: Ledger)
    ensures forall b :: b in r.budgets.rows <==> b in l.budgets.rows && b != budget
    ensures forall c :: c in r.categories.rows <==> c in l.categories.rows && l.categories.rows[c].budget != budget
    ensures forall b :: b in r.budgets.rows ==> r.budgets.rows[b] == l.budgets.rows[b]
    ensures forall c :: c in r.categories.rows ==> r.categories.rows[c] == l.categories.rows[c]
    ensures r.incomes == l.incomes && r.savings == l.savings
    ensures Consistent(l) ==> Consistent(r)
  {
    l.(budgets := Remove(l.budgets, budget),
       categories := Keep(l.categories, (c: Category) => c.budget != budget))
  }

  /** Deleting a user: their income entries (with everything hanging off them)
      and their savings goals go. */
  function DeleteUserCascade(l: Ledger, user: UserId): (r: Ledger)
    ensures forall i :: i in r.incomes.rows <==> i in l.incomes.rows && l.incomes.rows[i].user != Some(user)
    ensures forall s :: s in r.savings.rows <==> s in l.savings.rows && l.savings.rows[s].user != Some(user)
    ensures forall b :: b in r.budgets.rows <==> b in l.budgets.rows && !OwnsBudget(l, user, b)
    ensures forall c :: c in r.categories.rows <==>
      c in l.categories.rows && !OwnsBudget(l, user, l.categories.rows[c].budget)
    ensures forall i :: i in r.incomes.rows ==> r.incomes.rows[i] == l.incomes.rows[i]
    ensures forall b :: b in r.budgets.rows ==> r.budgets.rows[b] == l.budgets.rows[b]
    ensures forall c :: c in r.categories.rows ==> r.categories.rows[c] == l.categories.rows[c]
    ensures forall s :: s in r.savings.rows ==> r.savings.rows[s] == l.savings.rows[s]
    ensures Consistent(l) ==> Consistent(r)
  {
    var gone := set i | i in l.incomes.rows && l.incomes.rows[i].user == Some(user);
    var dropped := DropIncomes(l, gone);
    dropped.(savings := Keep(l.savings, (s: Savings) => s.user != Some(user)))
  }
}
