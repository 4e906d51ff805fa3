/** `CategoryUpdateView.put`: the owner of a category's budget renames it or
    changes its description; nothing else about the category can change. */
module Categories {
  import opened Wrappers
  import opened Tables
  import opened Ledger

  /** The body of a category update. For each field, `None` leaves it as it
      is and `Some(None)` is JSON null. */
  datatype CategoryEdit = CategoryEdit(name: Option<Option<string>>, description: Option<Option<string>>)

  /** The category after the edit: the submitted name and description, or
      the old ones for fields left out. A null name cannot be stored (the
      column is not nullable) and makes the save raise. */
  function EditCategory(c: Category, edit: CategoryEdit): (r: Result<Category, Failure>)
    ensures r.Err? <==> edit.name == Some(None)
    ensures r.Err? ==> r.error == ServerError
    ensures r.Ok? ==> edit.name == Some(Some(r.value.name)) || (edit.name.None? && r.value.name == c.name)
    ensures r.Ok? ==> r.value.description == edit.description.GetOr(c.description)
    ensures r.Ok? ==> r.value.budget == c.budget && r.value.amount == c.amount && r.value.isDelete == c.isDelete
  {
    match edit.name
    case Some(None) => Err(ServerError)
    case Some(Some(name)) => Ok(c.(name := name, description := edit.description.GetOr(c.description)))
    case None => Ok(c.(description := edit.description.GetOr(c.description)))
  }

  /** `CategoryUpdateView.put`: the category must exist and its budget's
      income entry must be the caller's. Only the category's own row
      changes, and only its name and description. */
  function UpdateCategory(l: Ledger, caller: UserId, id: Id, edit: CategoryEdit): (r: Outcome)
    ensures id !in l.categories.rows ==> r == Err(NotFound)
    ensures id in l.categories.rows && !OwnsBudget(l, caller, l.categories.rows[id].budget) ==> r == Err(Forbidden)
    ensures r.Ok? <==>
      id in l.categories.rows && OwnsBudget(l, caller, l.categories.rows[id].budget) && edit.name != Some(None)
    ensures r.Ok? ==> r.value.categories.rows.Keys == l.categories.rows.Keys
    ensures r.Ok? ==> (id in l.categories.rows &&
      r.value.categories.rows[id] == EditCategory(l.categories.rows[id], edit).value)
    ensures r.Ok? ==>
      var c := l.categories.rows[id];
      var d := r.value.categories.rows[id];
      && d == c.(name := d.name, description := d.description)
      && (forall k :: k in l.categories.rows && k != id ==> r.value.categories.rows[k] == l.categories.rows[k])
      && r.value.incomes == l.incomes && r.value.budgets == l.budgets && r.value.savings == l.savings
    ensures r.Ok? && Consistent(l) ==> Consistent(r.value)
  {
    if id !in l.categories.rows then Err(NotFound)
    else if !OwnsBudget(l, caller, l.categories.rows[id].budget) then Err(Forbidden)
    else
      var edited :- EditCategory(l.categories.rows[id], edit);
      Ok(l.(categories := Put(l.categories, id, edited)))
  }

  /** Submitting the category's current name and description changes
      nothing. */
  lemma UpdateCategorySame(l: Ledger, caller: UserId, id: Id)
    requires id in l.categories.rows && OwnsBudget(l, caller, l.categories.rows[id].budget)
    ensures var c := l.categories.rows[id];
      UpdateCategory(l, caller, id, CategoryEdit(Some(Some(c.name)), Some(c.description))) == Ok(l)
  {
    var c := l.categories.rows[id];
    var r := UpdateCategory(l, caller, id, CategoryEdit(Some(Some(c.name)), Some(c.description)));
    assert r.value.categories.rows == l.categories.rows;
  }
}
