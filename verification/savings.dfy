/** The savings-goal handlers: `SavingsUpdateView.put`,
    `SavingsDeleteView.delete` and `UserSavingsListView.get_queryset`.
    A goal is tied to categories only by name: a category of one of the
    caller's budgets whose name is the goal's name. */
module SavingsGoals {
  import opened Wrappers
  import opened Text
  import opened Tables
  import opened Decimals
  import opened Ledger

  /** `goal_name.endswith('Savings') or goal_name.endswith('savings')`. */
  predicate HasSavingsSuffix(name: string) {
    EndsWith(name, "Savings") || EndsWith(name, "savings")
  }

  /** A goal name as the update handler stores it: unchanged when it already
      ends in `Savings` or `savings`, else with ` Savings` appended. */
  function NormaliseGoal(name: string): (g: string)
    ensures HasSavingsSuffix(g)
    ensures g == name || g == name + " Savings"
    ensures HasSavingsSuffix(name) <==> g == name
  {
    if HasSavingsSuffix(name) then name
    else
      var g := name + " Savings";
      assert g[|g| - 7..] == "Savings";
      g
  }

  /** Normalising twice is normalising once. */
  lemma NormaliseGoalIdempotent(name: string)
    ensures NormaliseGoal(NormaliseGoal(name)) == NormaliseGoal(name)
  {
  }

  /** The body of a savings update. For the text fields, `None` leaves the
      field as it is and `Some(None)` is JSON null. */
  datatype SavingsEdit = SavingsEdit(goalName: Option<Option<string>>, target: AmountField,
                                     description: Option<Option<string>>)

  /** The target the update would store: the submitted one, or the goal's own
      when none is submitted. Text that is not a number is refused. */
  function NewTarget(g: Savings, target: AmountField): (r: Result<Option<Cents>, Failure>)
    ensures r.Err? <==> target.Malformed?
    ensures r.Err? ==> r.error == InvalidTarget
    ensures target.Absent? ==> r == Ok(g.targetAmount)
    ensures target.Null? ==> r == Ok(None)
    ensures target.Given? ==> r == Ok(Some(target.cents))
  {
    match target
    case Absent => Ok(g.targetAmount)
    case Null => Ok(None)
    case Malformed => Err(InvalidTarget)
    case Given(c) => Ok(Some(c))
  }

  /** The category of one of the caller's budgets with this name and the
      lowest key: `Category.objects.filter(...).first()`. */
  function LinkedCategory(l: Ledger, caller: UserId, name: string): (r: Option<Id>)
    ensures r.Some? ==> (r.value in l.categories.rows &&
      OwnsBudget(l, caller, l.categories.rows[r.value].budget) && l.categories.rows[r.value].name == name)
    ensures r.Some? ==> forall k :: k in l.categories.rows && k < r.value ==>
      !(OwnsBudget(l, caller, l.categories.rows[k].budget) && l.categories.rows[k].name == name)
    ensures r.None? ==> forall k :: k in l.categories.rows ==>
      !(OwnsBudget(l, caller, l.categories.rows[k].budget) && l.categories.rows[k].name == name)
  {
    First(l.categories, (c: Category) => OwnsBudget(l, caller, c.budget) && c.name == name)
  }

  /** `SavingsUpdateView.put`. The goal must exist and be the caller's. A
      null or non-text goal name makes the suffix check raise. The name is
      normalised; the target (submitted or kept) must not be below the
      amount saved. The first of the caller's categories named like the goal
      before the update is renamed with it. */
  function UpdateSavings(l: Ledger, caller: UserId, id: Id, edit: SavingsEdit): (r: Outcome)
    ensures id !in l.savings.rows ==> r == Err(NotFound)
    ensures id in l.savings.rows && l.savings.rows[id].user != Some(caller) ==> r == Err(Forbidden)
    ensures id in l.savings.rows && l.savings.rows[id].user == Some(caller) ==>
      var g := l.savings.rows[id];
      var target := NewTarget(g, edit.target);
      && (edit.goalName == Some(None) ==> r == Err(ServerError))
      && (edit.goalName != Some(None) && target.Err? ==> r == Err(InvalidTarget))
      && (edit.goalName != Some(None) && target.Ok? && target.value.Some? && target.value.value < g.amountSaved ==>
            r == Err(TargetBelowSaved))
      && (edit.goalName != Some(None) && target.Ok? && (target.value.Some? ==> g.amountSaved <= target.value.value) ==>
            r.Ok?)
    ensures r.Ok? ==> id in l.savings.rows && l.savings.rows[id].user == Some(caller) && edit.goalName != Some(None)
    ensures r.Ok? ==> r.value.savings.rows.Keys == l.savings.rows.Keys && r.value.categories.rows.Keys == l.categories.rows.Keys
    ensures r.Ok? ==>
      var g := l.savings.rows[id];
      var h := r.value.savings.rows[id];
      && HasSavingsSuffix(h.goalName)
      && h.goalName == NormaliseGoal(if edit.goalName.Some? then edit.goalName.value.GetOr("") else g.goalName)
      && h.user == g.user && h.amountSaved == g.amountSaved
      && NewTarget(g, edit.target) == Ok(h.targetAmount)
      && (h.targetAmount.Some? ==> g.amountSaved <= h.targetAmount.value)
      && h.description == edit.description.GetOr(g.description)
      && (forall s :: s in l.savings.rows && s != id ==> r.value.savings.rows[s] == l.savings.rows[s])
      && r.value.incomes == l.incomes && r.value.budgets == l.budgets
    ensures r.Ok? ==>
      var g := l.savings.rows[id];
      var m := LinkedCategory(l, caller, g.goalName);
      && (forall k :: k in l.categories.rows && Some(k) != m ==> r.value.categories.rows[k] == l.categories.rows[k])
      && (m.Some? ==> r.value.categories.rows[m.value] == l.categories.rows[m.value].(name := r.value.savings.rows[id].goalName))
  {
    if id !in l.savings.rows then Err(NotFound)
    else
      var g := l.savings.rows[id];
      if g.user != Some(caller) then Err(Forbidden)
      else if edit.goalName == Some(None) then Err(ServerError)
      else
        var goal := NormaliseGoal(if edit.goalName.Some? then edit.goalName.value.value else g.goalName);
        var target :- NewTarget(g, edit.target);
        if target.Some? && target.value < g.amountSaved then Err(TargetBelowSaved)
        else
          var cats := match LinkedCategory(l, caller, g.goalName)
            case None => l.categories
            case Some(m) => Put(l.categories, m, l.categories.rows[m].(name := goal));
          var h := g.(goalName := goal, targetAmount := target, description := edit.description.GetOr(g.description));
          Ok(l.(categories := cats, savings := Put(l.savings, id, h)))
  }

  /** `UserSavingsListView.get_queryset`: exactly the caller's goals whose
      name contains the query, ignoring case (every goal of the caller when
      the query is missing or empty), in key order. */
  function ListSavings(l: Ledger, caller: UserId, query: Option<string>): (ids: seq<Id>)
    ensures forall id :: id in ids <==>
      id in l.savings.rows && l.savings.rows[id].user == Some(caller) &&
      (query.None? || query.value == "" || ContainsIgnoreCase(l.savings.rows[id].goalName, query.value))
    ensures Increasing(ids)
  {
    Select(l.savings, (g: Savings) =>
      g.user == Some(caller) && (query.None? || query.value == "" || ContainsIgnoreCase(g.goalName, query.value)))
  }

  /** The name of the catch-all category of a budget. */
  const ExtraName: string := "Extra"

  /** The catch-all category `get_or_create` makes for a budget. */
  function ExtraRow(budget: Id): (c: Category)
    ensures c.budget == budget && c.name == ExtraName && c.amount == Some(0) && !c.isDelete
  {
    NewCategory(budget, ExtraName, Some("Extra funds"), Some(0))
  }

  /** `Category.objects.get_or_create(budget=budget, name='Extra', ...)`:
      the budget's catch-all category, created when it has none. Two or more
      make the lookup raise. */
  function GetOrCreateExtra(cats: Store<Category>, budget: Id): (r: Result<(Store<Category>, Id), Failure>)
    ensures r.Err? <==> exists x, y :: (x in cats.rows && y in cats.rows && x != y &&
                                        cats.rows[x].budget == budget && cats.rows[x].name == ExtraName &&
                                        cats.rows[y].budget == budget && cats.rows[y].name == ExtraName)
    ensures r.Err? ==> r.error == ServerError
    ensures r.Ok? ==>
      var (t, e) := r.value;
      && e in t.rows && t.rows[e].budget == budget && t.rows[e].name == ExtraName
      && (e in cats.rows ==> t == cats)
      && (e !in cats.rows ==> t == Insert(cats, ExtraRow(budget)).0 && e == cats.next)
      && (e !in cats.rows ==> forall x :: x in cats.rows ==> !(cats.rows[x].budget == budget && cats.rows[x].name == ExtraName))
  {
    var extras := Select(cats, (e: Category) => e.budget == budget && e.name == ExtraName);
    if |extras| >= 2 then
      assert extras[0] in extras && extras[1] in extras;
      Err(ServerError)
    else if |extras| == 1 then
      assert forall x :: x in extras ==> x == extras[0];
      Ok((cats, extras[0]))
    else
      var (t, e) := Insert(cats, ExtraRow(budget));
      Ok((t, e))
  }

  /** One turn of the deletion loop: the category `k`, as it was when the
      matching categories were loaded (`c`), hands its amount to its budget's
      catch-all category and is deleted. Adding a null amount, on either side,
      raises. Only the catch-all row's amount changes, a catch-all row is
      added when the budget had none, and `k` goes. */
  function Transfer(cats: Store<Category>, c: Category, k: Id): (r: Result<Store<Category>, Failure>)
    ensures r.Err? ==> r.error == ServerError
    ensures r.Ok? ==> k !in r.value.rows && cats.next <= r.value.next
    ensures r.Ok? ==> forall x :: x in cats.rows && x != k ==> x in r.value.rows
    ensures r.Ok? ==> forall x :: x in r.value.rows ==>
      || (x in cats.rows && x != k && r.value.rows[x] == cats.rows[x])
      || (x in cats.rows && x != k && cats.rows[x].budget == c.budget && cats.rows[x].name == ExtraName &&
          r.value.rows[x] == cats.rows[x].(amount := r.value.rows[x].amount))
      || (x == cats.next && r.value.rows[x].budget == c.budget && r.value.rows[x].name == ExtraName)
    ensures c.amount.None? ==> r.Err?
  {
    var got :- GetOrCreateExtra(cats, c.budget);
    if got.0.rows[got.1].amount.None? || c.amount.None? then Err(ServerError)
    else Ok(Move(got.0, got.1, c, k))
  }

  /** `extra_category.amount += category.amount`, saved, then
      `category.delete()`. */
  function Move(t: Store<Category>, e: Id, c: Category, k: Id): (u: Store<Category>)
    requires e in t.rows && t.rows[e].amount.Some? && c.amount.Some?
    ensures u.rows.Keys == t.rows.Keys - {k} && u.next == t.next
    ensures k != e ==> u.rows[e] == t.rows[e].(amount := Some(t.rows[e].amount.value + c.amount.value))
    ensures forall x :: x in u.rows && x != e ==> u.rows[x] == t.rows[x]
  {
    Remove(Put(t, e, t.rows[e].(amount := Some(t.rows[e].amount.value + c.amount.value))), k)
  }

  /** The deletion loop over `ids`, in order; `snap` holds the categories as
      the query loaded them. */
  function TransferAll(cats: Store<Category>, snap: map<Id, Category>, ids: seq<Id>): (r: Result<Store<Category>, Failure>)
    requires forall i :: 0 <= i < |ids| ==> ids[i] in snap
    ensures r.Err? ==> r.error == ServerError
    decreases |ids|
  {
    if |ids| == 0 then Ok(cats)
    else
      var t :- TransferAll(cats, snap, ids[..|ids| - 1]);
      Transfer(t, snap[ids[|ids| - 1]], ids[|ids| - 1])
  }

  /** `Category.objects.filter(name=goal_name, budget__income__user=request.user)`. */
  function Matching(l: Ledger, caller: UserId, goal: string): (ids: seq<Id>)
    ensures forall k :: k in ids <==>
      k in l.categories.rows && l.categories.rows[k].name == goal && OwnsBudget(l, caller, l.categories.rows[k].budget)
    ensures Increasing(ids)
  {
    Select(l.categories, (c: Category) => c.name == goal && OwnsBudget(l, caller, c.budget))
  }

  /** `SavingsDeleteView.delete`: the goal must exist and be the caller's.
      Every category of the caller's budgets named like the goal hands its
      amount to its budget's catch-all category and is deleted; then the goal
      is deleted. */
  function DeleteSavings(l: Ledger, caller: UserId, id: Id): (r: Outcome)
    ensures id !in l.savings.rows ==> r == Err(NotFound)
    ensures id in l.savings.rows && l.savings.rows[id].user != Some(caller) ==> r == Err(Forbidden)
    ensures r.Err? && id in l.savings.rows && l.savings.rows[id].user == Some(caller) ==> r.error == ServerError
    ensures r.Ok? ==> id in l.savings.rows && l.savings.rows[id].user == Some(caller)
    ensures r.Ok? ==> r.value.savings.rows.Keys == l.savings.rows.Keys - {id}
    ensures r.Ok? ==> forall s :: s in r.value.savings.rows ==> r.value.savings.rows[s] == l.savings.rows[s]
    ensures r.Ok? ==> r.value.incomes == l.incomes && r.value.budgets == l.budgets
  {
    if id !in l.savings.rows then Err(NotFound)
    else if l.savings.rows[id].user != Some(caller) then Err(Forbidden)
    else
      var ids := Matching(l, caller, l.savings.rows[id].goalName);
      var cats :- TransferAll(l.categories, l.categories.rows, ids);
      Ok(l.(categories := cats, savings := Remove(l.savings, id)))
  }
}
