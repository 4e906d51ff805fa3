/** The budget handlers: `BudgetCreateView.post`, `BudgetUpdateView.put` and
    `BudgetDeleteView.delete`. */
module Budgets {
  import opened Wrappers
  import opened Tables
  import opened Ledger
  import Strs = Text

  /** The body of a budget-creation request. `start_date` and `total_expenses`
      are not part of it: the handler overwrites both. */
  datatype BudgetForm = BudgetForm(
    income: Option<Id>,
    name: Option<string>,
    endDate: Option<Date>,
    description: Option<string>)

  /** A value in a request body whose keys are not known in advance. */
  datatype FieldValue = Text(text: string) | Day(day: Date) | Number(number: int) | Null

  /** The only keys a budget update may carry; every other key is dropped. */
  const BudgetEditable: set<string> := {"name", "end_date", "description"}

  /** `BudgetCreateView.post`: the income entry must exist, must not already
      have a budget (checked before ownership), and must be the caller's; the
      serializer then wants a name that is not blank and an end date. The
      new budget starts today and copies the income amount into
      `totalExpenses`. */
  function CreateBudget(l: Ledger, caller: UserId, today: Date, form: BudgetForm): (r: Outcome)
    ensures form.income.None? || form.income.value !in l.incomes.rows ==> r == Err(NotFound)
    ensures form.income.Some? && form.income.value in l.incomes.rows && HasBudget(l, form.income.value) ==>
      r == Err(AlreadyBudgeted)
    ensures r.Ok? <==>
      (form.income.Some? && OwnsIncome(l, caller, form.income.value) && !HasBudget(l, form.income.value) &&
       form.name.Some? && Strs.Filled(form.name.value) && form.endDate.Some?)
    ensures r.Ok? ==>
      var id := l.budgets.next;
      && id !in l.budgets.rows
      && r.value.budgets.rows.Keys == l.budgets.rows.Keys + {id}
      && r.value.budgets.rows[id].income == form.income.value
      && r.value.budgets.rows[id].totalExpenses == l.incomes.rows[form.income.value].amount
      && r.value.budgets.rows[id].startDate == today
      && r.value.budgets.rows[id].name == form.name.value
      && r.value.budgets.rows[id].endDate == form.endDate.value
      && r.value.budgets.rows[id].description == form.description
      && (forall b :: b in l.budgets.rows ==> r.value.budgets.rows[b] == l.budgets.rows[b])
      && r.value.incomes == l.incomes && r.value.categories == l.categories && r.value.savings == l.savings
    ensures r.Ok? && Consistent(l) ==> Consistent(r.value)
  {
    if form.income.None? || form.income.value !in l.incomes.rows then Err(NotFound)
    else
      var income := form.income.value;
      if HasBudget(l, income) then Err(AlreadyBudgeted)
      else if !OwnsIncome(l, caller, income) then Err(Forbidden)
      else if form.name.None? || !Strs.Filled(form.name.value) || form.endDate.None? then Err(InvalidField)
      else
        var budget := Budget(form.name.value, income, l.incomes.rows[income].amount,
                             today, form.endDate.value, form.description);
        Ok(l.(budgets := Insert(l.budgets, budget).0))
  }

  /** A second budget for the same income entry is always refused, whoever
      asks and whatever the request carries. */
  lemma {:induction false} CreateBudgetOnce(l: Ledger, caller: UserId, today: Date, form: BudgetForm,
                                           caller2: UserId, today2: Date, form2: BudgetForm)
    requires CreateBudget(l, caller, today, form).Ok?
    requires form2.income == form.income
    ensures CreateBudget(CreateBudget(l, caller, today, form).value, caller2, today2, form2) == Err(AlreadyBudgeted)
  {
    var l2 := CreateBudget(l, caller, today, form).value;
    var id := l.budgets.next;
    assert l2.budgets.rows[id].income == form.income.value;
    assert HasBudget(l2, form.income.value);
  }

  /** The submitted keys that survive the whitelist. */
  function Whitelist(data: map<string, FieldValue>): (kept: map<string, FieldValue>)
    ensures kept.Keys == data.Keys * BudgetEditable
    ensures forall k :: k in kept ==> kept[k] == data[k]
  {
    map k | k in data && k in BudgetEditable :: data[k]
  }

  /** What the serializer accepts in a partial update: a name that is text
      and not blank, an end date that is a date, a description that is text
      or null. */
  predicate EditAccepted(data: map<string, FieldValue>) {
    && ("name" in data ==> data["name"].Text? && Strs.Filled(data["name"].text))
    && ("end_date" in data ==> data["end_date"].Day?)
    && ("description" in data ==> data["description"].Text? || data["description"].Null?)
  }

  /** The serializer's partial update of a budget from whitelisted keys: each
      submitted field takes the submitted value, every other field keeps its
      own. */
  function EditBudget(b: Budget, data: map<string, FieldValue>): (r: Result<Budget, Failure>)
    ensures r.Ok? <==> EditAccepted(data)
    ensures r.Err? ==> r.error == InvalidField
    ensures r.Ok? ==> r.value.income == b.income && r.value.totalExpenses == b.totalExpenses &&
                      r.value.startDate == b.startDate
    ensures r.Ok? ==> if "name" in data then data["name"] == Text(r.value.name) else r.value.name == b.name
    ensures r.Ok? ==> if "end_date" in data then data["end_date"] == Day(r.value.endDate) else r.value.endDate == b.endDate
    ensures r.Ok? ==> if "description" in data
                      then data["description"] == (if r.value.description.Some? then Text(r.value.description.value) else FieldValue.Null)
                      else r.value.description == b.description
  {
    var name :- if "name" !in data then Ok(b.name)
                else if data["name"].Text? && Strs.Filled(data["name"].text) then Ok(data["name"].text)
                else Err(InvalidField);
    var endDate :- if "end_date" !in data then Ok(b.endDate)
                   else if data["end_date"].Day? then Ok(data["end_date"].day) else Err(InvalidField);
    var description :- if "description" !in data then Ok(b.description)
                       else if data["description"].Text? then Ok(Some(data["description"].text))
                       else if data["description"].Null? then Ok(None)
                       else Err(InvalidField);
    Ok(b.(name := name, endDate := endDate, description := description))
  }

  /** `BudgetUpdateView.put`: the caller must own the budget's income entry;
      keys outside `name`, `end_date`, `description` are dropped, so the
      budget's income and `totalExpenses` never change. */
  function UpdateBudget(l: Ledger, caller: UserId, id: Id, data: map<string, FieldValue>): (r: Outcome)
    ensures id !in l.budgets.rows ==> r == Err(NotFound)
    ensures id in l.budgets.rows && !OwnsBudget(l, caller, id) ==> r == Err(Forbidden)
    ensures r.Ok? <==> OwnsBudget(l, caller, id) && EditAccepted(Whitelist(data))
    ensures r.Ok? ==> (id in l.budgets.rows && id in r.value.budgets.rows &&
      r.value.budgets.rows[id] == EditBudget(l.budgets.rows[id], Whitelist(data)).value)
    ensures r.Ok? ==>
      && r.value.budgets.rows.Keys == l.budgets.rows.Keys
      && r.value.budgets.rows[id].income == l.budgets.rows[id].income
      && r.value.budgets.rows[id].totalExpenses == l.budgets.rows[id].totalExpenses
      && (forall b :: b in l.budgets.rows && b != id ==> r.value.budgets.rows[b] == l.budgets.rows[b])
      && r.value.incomes == l.incomes && r.value.categories == l.categories && r.value.savings == l.savings
    ensures r.Ok? && Consistent(l) ==> Consistent(r.value)
  {
    if id !in l.budgets.rows then Err(NotFound)
    else if !OwnsBudget(l, caller, id) then Err(Forbidden)
    else
      var edited :- EditBudget(l.budgets.rows[id], Whitelist(data));
      Ok(l.(budgets := Put(l.budgets, id, edited)))
  }

  /** Renaming an owned budget, whatever else the request carries, changes
      its name and nothing else in the ledger. */
  lemma UpdateBudgetRename(l: Ledger, caller: UserId, id: Id, x: string, extra: map<string, FieldValue>)
    requires OwnsBudget(l, caller, id) && Strs.Filled(x) && extra.Keys !! BudgetEditable
    ensures UpdateBudget(l, caller, id, map["name" := Text(x)] + extra) ==
      Ok(l.(budgets := Put(l.budgets, id, l.budgets.rows[id].(name := x))))
  {
    UpdateBudgetIgnoresOtherKeys(l, caller, id, map["name" := Text(x)], extra);
    assert Whitelist(map["name" := Text(x)]) == map["name" := Text(x)];
  }

  /** Keys outside the whitelist make no difference to the outcome. */
  lemma UpdateBudgetIgnoresOtherKeys(l: Ledger, caller: UserId, id: Id, data: map<string, FieldValue>,
                                     extra: map<string, FieldValue>)
    requires extra.Keys !! BudgetEditable
    ensures UpdateBudget(l, caller, id, data + extra) == UpdateBudget(l, caller, id, data)
  {
    assert Whitelist(data + extra) == Whitelist(data);
  }

  /** `BudgetDeleteView.delete`: the caller's budget goes with its categories. */
  function DeleteBudget(l: Ledger, caller: UserId, id: Id): (r: Outcome)
    ensures id !in l.budgets.rows ==> r == Err(NotFound)
    ensures r.Ok? <==> OwnsBudget(l, caller, id)
    ensures r.Ok? ==>
      && (forall b :: b in r.value.budgets.rows <==> b in l.budgets.rows && b != id)
      && (forall c :: c in r.value.categories.rows <==>
            c in l.categories.rows && l.categories.rows[c].budget != id)
      && (forall b :: b in r.value.budgets.rows ==> r.value.budgets.rows[b] == l.budgets.rows[b])
      && (forall c :: c in r.value.categories.rows ==> r.value.categories.rows[c] == l.categories.rows[c])
      && r.value.incomes == l.incomes && r.value.savings == l.savings
    ensures r.Ok? && Consistent(l) ==> Consistent(r.value)
  {
    if id !in l.budgets.rows then Err(NotFound)
    else if !OwnsBudget(l, caller, id) then Err(Forbidden)
    else Ok(DeleteBudgetCascade(l, id))
  }
}
