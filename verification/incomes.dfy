/** The income handlers: `IncomeCreateView.post`, `UserIncomeUpdateView.put`,
    `UserIncomeDeleteView.delete` and the `UserIncomeListView` filter. */
module Incomes {
  import opened Wrappers
  import opened Text
  import opened Decimals
  import opened Tables
  import opened Ledger

  /** 1000.00, the least income the handlers accept. */
  const MinIncome: Cents := 100_000

  /** 1 000 000 000.00, the largest income the handlers' range check admits. */
  const MaxIncome: Cents := 100_000_000_000

  /** The body of an income-creation request. */
  datatype IncomeForm = IncomeForm(
    amount: AmountField,
    source: Option<string>,       // None: missing
    dateReceived: Option<Date>,   // None: missing or empty
    description: Option<string>)

  /** The body of a partial income update: `None` leaves a field as it is.
      The serializer writes every field it is sent, `user` included. */
  datatype IncomePatch = IncomePatch(
    user: Option<Option<UserId>>,
    amount: AmountField,
    source: Option<string>,
    dateReceived: Option<Date>,
    description: Option<Option<string>>)

  /** The range check both income handlers run on a submitted amount. A missing
      or null amount skips the check. */
  function CheckRange(amount: AmountField): (r: Result<(), Failure>)
    ensures r.Err? <==> amount.Malformed? || (amount.Given? && !(MinIncome <= amount.cents <= MaxIncome))
    ensures r.Err? && amount.Given? ==> r.error == AmountOutOfRange
  {
    match amount
    case Malformed => Err(InvalidAmount)
    case Given(c) => if MinIncome <= c <= MaxIncome then Ok(()) else Err(AmountOutOfRange)
    case _ => Ok(())
  }

  /** `IncomeCreateView.post`: range check, then the record's own validation
      (a required amount that fits its column, a source that is not blank);
      the entry belongs to the caller and is dated today unless a date was
      given. */
  function CreateIncome(l: Ledger, caller: UserId, today: Date, form: IncomeForm): (r: Outcome)
    ensures r.Ok? <==>
      && form.amount.Given? && MinIncome <= form.amount.cents <= MaxIncome && Fits(form.amount.cents)
      && form.source.Some? && Filled(form.source.value)
    ensures (form.amount.Given? && MinIncome <= form.amount.cents <= MaxIncome &&
             (form.source.None? || !Filled(form.source.value))) ==> r == Err(InvalidField)
    ensures form.amount.Given? && !(MinIncome <= form.amount.cents <= MaxIncome) ==> r == Err(AmountOutOfRange)
    ensures r.Ok? ==>
      var id := l.incomes.next;
      && id !in l.incomes.rows
      && r.value.incomes.rows.Keys == l.incomes.rows.Keys + {id}
      && r.value.incomes.rows[id].user == Some(caller)
      && r.value.incomes.rows[id].amount == form.amount.cents
      && r.value.incomes.rows[id].source == form.source.value
      && r.value.incomes.rows[id].dateReceived == form.dateReceived.GetOr(today)
      && r.value.incomes.rows[id].description == form.description
      && (forall i :: i in l.incomes.rows ==> r.value.incomes.rows[i] == l.incomes.rows[i])
      && r.value.budgets == l.budgets && r.value.categories == l.categories && r.value.savings == l.savings
  {
    var date := if form.dateReceived.Some? then form.dateReceived.value else today;
    var _ :- CheckRange(form.amount);
    if !form.amount.Given? || !Fits(form.amount.cents) || form.source.None? || !Filled(form.source.value)
    then Err(InvalidField)
    else
      var entry := Income(Some(caller), form.amount.cents, form.source.value, date, form.description);
      Ok(l.(incomes := Insert(l.incomes, entry).0))
  }

  /** An income accepted at creation lies between 1000.00 and 99 999 999.99:
      the column's precision, not the handler's upper bound of one billion,
      is what limits it. */
  lemma CreateIncomeAcceptedAmounts(l: Ledger, caller: UserId, today: Date, form: IncomeForm)
    ensures CreateIncome(l, caller, today, form).Ok? <==>
      form.amount.Given? && MinIncome <= form.amount.cents <= MaxStoredCents &&
      form.source.Some? && Filled(form.source.value)
  {
  }

  /** `UserIncomeUpdateView.put`, with the owner-only lookup its `get_object`
      helper was meant to perform: partial update of the caller's entry, with
      the same range check on a submitted amount. The body is handed to the
      serializer as it came, so it may also give the entry another owner. */
  function UpdateIncome(l: Ledger, caller: UserId, id: Id, patch: IncomePatch): (r: Outcome)
    ensures id !in l.incomes.rows ==> r == Err(NotFound)
    ensures id in l.incomes.rows && !OwnsIncome(l, caller, id) ==> r == Err(Forbidden)
    ensures r.Ok? <==>
      (OwnsIncome(l, caller, id) && CheckRange(patch.amount).Ok? &&
       !patch.amount.Null? && (patch.amount.Given? ==> Fits(patch.amount.cents)) &&
       (patch.source.Some? ==> Filled(patch.source.value)))
    ensures r.Ok? ==> id in l.incomes.rows && r.value.incomes.rows.Keys == l.incomes.rows.Keys
    ensures r.Ok? ==>
      var e := l.incomes.rows[id];
      var f := r.value.incomes.rows[id];
      && (forall i :: i in l.incomes.rows && i != id ==> r.value.incomes.rows[i] == l.incomes.rows[i])
      && f.user == patch.user.GetOr(e.user)
      && f.amount == (if patch.amount.Given? then patch.amount.cents else e.amount)
      && f.source == patch.source.GetOr(e.source)
      && f.dateReceived == patch.dateReceived.GetOr(e.dateReceived)
      && f.description == patch.description.GetOr(e.description)
      && r.value.budgets == l.budgets && r.value.categories == l.categories && r.value.savings == l.savings
  {
    if id !in l.incomes.rows then Err(NotFound)
    else if !OwnsIncome(l, caller, id) then Err(Forbidden)
    else
      var _ :- CheckRange(patch.amount);
      if patch.amount.Null? || (patch.amount.Given? && !Fits(patch.amount.cents)) ||
         (patch.source.Some? && !Filled(patch.source.value))
      then Err(InvalidField)
      else
        var entry := l.incomes.rows[id];
        var amount := if patch.amount.Given? then patch.amount.cents else entry.amount;
        Ok(l.(incomes := Put(l.incomes, id, Patched(entry, patch).(amount := amount))))
  }

  /** The fields of an income entry other than its amount, after a partial update. */
  function Patched(e: Income, patch: IncomePatch): Income
  {
    e.(user := patch.user.GetOr(e.user),
       source := patch.source.GetOr(e.source),
       dateReceived := patch.dateReceived.GetOr(e.dateReceived),
       description := patch.description.GetOr(e.description))
  }

  /** Editing an income never touches a budget: `totalExpenses` keeps the
      amount copied when the budget was made. */
  lemma UpdateIncomeKeepsBudgetTotals(l: Ledger, caller: UserId, id: Id, patch: IncomePatch, b: Id)
    requires UpdateIncome(l, caller, id, patch).Ok? && b in l.budgets.rows
    ensures var r := UpdateIncome(l, caller, id, patch).value;
      b in r.budgets.rows && r.budgets.rows[b].totalExpenses == l.budgets.rows[b].totalExpenses
  {
  }

  /** `UserIncomeDeleteView.delete`: the caller's entry is deleted with its
      budgets and their categories. */
  function DeleteIncome(l: Ledger, caller: UserId, id: Id): (r: Outcome)
    ensures id !in l.incomes.rows ==> r == Err(NotFound)
    ensures r.Ok? <==> OwnsIncome(l, caller, id)
    ensures r.Ok? ==>
      && id !in r.value.incomes.rows
      && (forall i :: i in r.value.incomes.rows <==> i in l.incomes.rows && i != id)
      && (forall b :: b in r.value.budgets.rows <==> b in l.budgets.rows && l.budgets.rows[b].income != id)
      && (forall c :: c in r.value.categories.rows <==>
            (c in l.categories.rows && !(l.categories.rows[c].budget in l.budgets.rows &&
                                         l.budgets.rows[l.categories.rows[c].budget].income == id)))
      && (forall i :: i in r.value.incomes.rows ==> r.value.incomes.rows[i] == l.incomes.rows[i])
      && (forall b :: b in r.value.budgets.rows ==> r.value.budgets.rows[b] == l.budgets.rows[b])
      && (forall c :: c in r.value.categories.rows ==> r.value.categories.rows[c] == l.categories.rows[c])
      && r.value.savings == l.savings
    ensures r.Ok? && Consistent(l) ==> Consistent(r.value)
  {
    if id !in l.incomes.rows then Err(NotFound)
    else if !OwnsIncome(l, caller, id) then Err(Forbidden)
    else Ok(DeleteIncomeCascade(l, id))
  }

  /** The `name` query of the income list: a case-insensitive match on the
      source or the description; an empty or missing query matches everything. */
  predicate IncomeMatches(e: Income, query: Option<string>) {
    || query.None? || query.value == ""
    || ContainsIgnoreCase(e.source, query.value)
    || (e.description.Some? && ContainsIgnoreCase(e.description.value, query.value))
  }

  /** `UserIncomeListView.get_queryset`: exactly the caller's entries that match
      the query, in key order. */
  function ListIncomes(l: Ledger, caller: UserId, query: Option<string>): (ids: seq<Id>)
    ensures forall id :: id in ids <==>
      id in l.incomes.rows && l.incomes.rows[id].user == Some(caller) && IncomeMatches(l.incomes.rows[id], query)
    ensures Increasing(ids)
  {
    Select(l.incomes, (e: Income) => e.user == Some(caller) && IncomeMatches(e, query))
  }
}
