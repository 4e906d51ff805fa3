/** `CategoryCreateView.post` after the oracle has settled: the parsed pairs
    are classified against the budget's existing categories, deletions run
    first (each one debiting the caller's like-named savings goal), then the
    updated and new categories are saved, and finally every pair that names
    a savings goal is mirrored into the caller's savings rows.

    The handler works on in-memory copies of the budget's categories, loaded
    once, so a category named by several lines accumulates every change made
    to its copy, and a copy saved after it was deleted comes back under a new
    key. The model keeps those copies and their current keys explicitly. */
module Reconcile {
  import opened Wrappers
  import opened Text
  import opened Decimals
  import opened Tables
  import opened Ledger
  import opened OracleText

  /** What `generate_description` returns when the oracle's reply is empty or
      has no usable text. */
  const NoDescription: string := "No description available."

  /** `generate_description(name)`, given the oracle's reply `describe(name)`
      (a reply of the wrong shape counts as empty): the reply stripped, or the
      fallback text when nothing is left. The reconciliation below takes the
      resulting `string -> string` as its `generate` parameter. */
  function Describe(describe: string -> string, name: string): (d: string)
    ensures |d| > 0 && Stripped(d)
    ensures d == NoDescription || d == Strip(describe(name))
  {
    var text := Strip(describe(name));
    if text == "" then NoDescription else text
  }

  /** The fallback is used only when the stripped reply is empty. */
  lemma DescribeKeepsReply(describe: string -> string, name: string)
    requires Strip(describe(name)) != ""
    ensures Describe(describe, name) == Strip(describe(name))
  {
  }

  /** `generate_description` as the handler calls it, for the oracle's
      replies `describe`: never empty. */
  function Generator(describe: string -> string): (generate: string -> string)
    ensures forall name :: generate(name) == Describe(describe, name) && generate(name) != ""
  {
    (name: string) => Describe(describe, name)
  }

  /** The suffix that asks for a category to be deleted. */
  const DeleteMark: string := "DELETE"

  predicate IsDeleteLine(name: string) {
    EndsWith(name, DeleteMark)
  }

  /** The category name a line refers to: a deletion line has every `DELETE`
      removed and is stripped again; any other name is taken as it is. */
  function Target(name: string): string {
    if IsDeleteLine(name) then Strip(RemoveAll(name, DeleteMark)) else name
  }

  /** The pairs after classification has rewritten the deletion lines'
      names: what `handle_savings` receives. */
  function Rewritten(pairs: seq<CategoryLine>): (r: seq<CategoryLine>)
    ensures |r| == |pairs|
  {
    seq(|pairs|, i requires 0 <= i < |pairs| => CategoryLine(Target(pairs[i].name), pairs[i].amount))
  }

  /** `next(cat for cat in existing_categories if cat.name == name)`: the
      budget's category with exactly this name and the lowest key. */
  function Match(l: Ledger, budget: Id, name: string): (r: Option<Id>)
    ensures r.Some? ==> (r.value in l.categories.rows &&
      l.categories.rows[r.value].budget == budget && l.categories.rows[r.value].name == name)
    ensures r.Some? ==> forall k :: k in l.categories.rows && k < r.value ==>
      !(l.categories.rows[k].budget == budget && l.categories.rows[k].name == name)
    ensures r.None? ==> forall k :: k in l.categories.rows ==>
      !(l.categories.rows[k].budget == budget && l.categories.rows[k].name == name)
  {
    First(l.categories, (c: Category) => c.budget == budget && c.name == name)
  }

  /** The line refers to the category with key `k`. */
  predicate Refers(l: Ledger, budget: Id, p: CategoryLine, k: Id) {
    Match(l, budget, Target(p.name)) == Some(k)
  }

  /** The budget's categories as the handler loads them. */
  function Snapshot(l: Ledger, budget: Id): (copies: map<Id, Category>)
    ensures forall k :: k in copies <==> k in l.categories.rows && l.categories.rows[k].budget == budget
    ensures forall k :: k in copies ==> copies[k] == l.categories.rows[k]
  {
    map k | k in l.categories.rows && l.categories.rows[k].budget == budget :: l.categories.rows[k]
  }

  /** `not description`: missing or empty. */
  predicate Blank(d: Option<string>) {
    d.None? || d.value == ""
  }

  /** One entry of `updated_categories`: a copy of an existing category, by
      its original key, or a new category. */
  datatype Upsert = Existing(key: Id) | Fresh(row: Category)

  /** The outcome of classification: the edited copies, the keys marked for
      deletion and the saves to make, each in line order. */
  datatype Plan = Plan(copies: map<Id, Category>, marked: seq<Id>, updated: seq<Upsert>)

  /** The category a line naming no existing category creates. */
  function NewRow(budget: Id, generate: string -> string, p: CategoryLine): (c: Category)
    ensures c.budget == budget && !c.isDelete
  {
    NewCategory(budget, p.name, Some(generate(p.name)), Some(p.amount))
  }

  /** A deletion line that refers to the category with key `k`. */
  predicate Deletes(l: Ledger, budget: Id, p: CategoryLine, k: Id) {
    IsDeleteLine(p.name) && Refers(l, budget, p, k)
  }

  /** Any other line that refers to the category with key `k`. */
  predicate Updates(l: Ledger, budget: Id, p: CategoryLine, k: Id) {
    !IsDeleteLine(p.name) && Refers(l, budget, p, k)
  }

  /** A line that is not a deletion and names no category of the budget. */
  predicate Creates(l: Ledger, budget: Id, p: CategoryLine) {
    !IsDeleteLine(p.name) && Match(l, budget, p.name).None?
  }

  /** What one line asks of the classification loop: mark a category for
      deletion, amend a category's copy (with the description to use if its
      own is blank), create a category, or nothing (a deletion line that
      names no category). */
  datatype Effect = Mark(key: Id) | Amend(key: Id, amount: Cents, text: string) | Create(row: Category) | Skip

  /** The effect amends the copy with key `k`. */
  predicate Amends(e: Effect, k: Id) {
    e.Amend? && e.key == k
  }

  /** The effect of one line. */
  function EffectOf(l: Ledger, budget: Id, generate: string -> string, p: CategoryLine): (e: Effect)
    ensures e.Mark? ==> Deletes(l, budget, p, e.key)
    ensures e.Amend? ==> Updates(l, budget, p, e.key) && e.amount == p.amount && e.text == generate(p.name)
    ensures e.Create? ==> Creates(l, budget, p) && e.row == NewRow(budget, generate, p)
    ensures e.Skip? ==> IsDeleteLine(p.name) && Match(l, budget, Target(p.name)).None?
  {
    var k := Match(l, budget, Target(p.name));
    if IsDeleteLine(p.name) then
      if k.Some? then Mark(k.value) else Skip
    else if k.Some? then Amend(k.value, p.amount, generate(p.name))
    else Create(NewRow(budget, generate, p))
  }

  /** The effects of all lines, in line order. */
  function Effects(l: Ledger, budget: Id, generate: string -> string, pairs: seq<CategoryLine>): (es: seq<Effect>)
    ensures |es| == |pairs|
    ensures forall i :: 0 <= i < |pairs| ==> es[i] == EffectOf(l, budget, generate, pairs[i])
  {
    seq(|pairs|, i requires 0 <= i < |pairs| => EffectOf(l, budget, generate, pairs[i]))
  }

  /** Every key an effect names has a copy. */
  predicate Covered(copies: map<Id, Category>, es: seq<Effect>) {
    forall i :: 0 <= i < |es| ==> (es[i].Mark? || es[i].Amend?) ==> es[i].key in copies
  }

  /** Every key the plan queues has a copy. */
  predicate Keyed(plan: Plan) {
    && (forall i :: 0 <= i < |plan.marked| ==> plan.marked[i] in plan.copies)
    && (forall i :: 0 <= i < |plan.updated| ==> plan.updated[i].Existing? ==> plan.updated[i].key in plan.copies)
  }

  /** One effect applied to the plan. A mark flags the copy and queues its
      deletion; an amendment sets the copy's amount, fills a blank
      description, and queues a save of the copy; a creation queues the new
      category. */
  function Apply(plan: Plan, e: Effect): (r: Plan)
    requires Keyed(plan) && ((e.Mark? || e.Amend?) ==> e.key in plan.copies)
    ensures r.copies.Keys == plan.copies.Keys && Keyed(r)
  {
    match e
    case Mark(k) =>
      plan.(copies := plan.copies[k := plan.copies[k].(isDelete := true)], marked := plan.marked + [k])
    case Amend(k, amount, text) =>
      var c := plan.copies[k];
      var d := if Blank(c.description) then Some(text) else c.description;
      plan.(copies := plan.copies[k := c.(amount := Some(amount), description := d)],
            updated := plan.updated + [Existing(k)])
    case Create(row) => plan.(updated := plan.updated + [Fresh(row)])
    case Skip => plan
  }

  /** The classification loop: the effects applied in line order to copies
      of the budget's categories. */
  function Fold(copies: map<Id, Category>, es: seq<Effect>): (plan: Plan)
    requires Covered(copies, es)
    ensures plan.copies.Keys == copies.Keys && Keyed(plan)
    decreases |es|
  {
    if |es| == 0 then Plan(copies, [], [])
    else Apply(Fold(copies, es[..|es| - 1]), es[|es| - 1])
  }

  /** The effects of a line name only the budget's own categories. */
  lemma EffectsCovered(l: Ledger, budget: Id, generate: string -> string, pairs: seq<CategoryLine>)
    ensures Covered(Snapshot(l, budget), Effects(l, budget, generate, pairs))
  {
  }

  /** Classification of the settled pairs against the budget's categories. */
  function Classify(l: Ledger, budget: Id, generate: string -> string, pairs: seq<CategoryLine>): (plan: Plan)
    ensures plan.copies.Keys == Snapshot(l, budget).Keys && Keyed(plan)
  {
    EffectsCovered(l, budget, generate, pairs);
    Fold(Snapshot(l, budget), Effects(l, budget, generate, pairs))
  }

  /** The tables while the handler writes, and the current key of every copy
      (`None` once the copy's row has been deleted). */
  datatype Work = Work(cats: Store<Category>, savings: Store<Savings>, pk: map<Id, Option<Id>>)

  /** `category.save()` on the copy with original key `k`: an update under its
      current key, or an insert under a new key after it was deleted. */
  function SaveCopy(w: Work, k: Id, row: Category): (r: Work)
    requires k in w.pk
    ensures r.pk.Keys == w.pk.Keys && r.pk[k].Some? && r.savings == w.savings
    ensures r.cats.rows.Keys == w.cats.rows.Keys + {r.pk[k].value} && r.cats.rows[r.pk[k].value] == row
    ensures forall x :: x in w.cats.rows && x != r.pk[k].value ==> r.cats.rows[x] == w.cats.rows[x]
    ensures forall j :: j in w.pk && j != k ==> r.pk[j] == w.pk[j]
    ensures w.pk[k].Some? ==> r.pk[k] == w.pk[k]
    ensures w.pk[k].None? ==> r.pk[k] == Some(w.cats.next) && r.cats.next == w.cats.next + 1
    ensures w.pk[k].Some? && w.pk[k].value < w.cats.next ==> r.cats.next == w.cats.next
  {
    match w.pk[k]
    case Some(p) => w.(cats := Put(w.cats, p, row))
    case None =>
      var (t, j) := Insert(w.cats, row);
      w.(cats := t, pk := w.pk[k := Some(j)])
  }

  /** The caller's first savings goal named exactly `name`. */
  function Goal(savings: Store<Savings>, caller: UserId, name: string): (r: Option<Id>)
    ensures r.Some? ==> (r.value in savings.rows &&
      savings.rows[r.value].user == Some(caller) && savings.rows[r.value].goalName == name)
    ensures r.Some? ==> forall s :: s in savings.rows && s < r.value ==>
      !(savings.rows[s].user == Some(caller) && savings.rows[s].goalName == name)
    ensures r.None? ==> forall s :: s in savings.rows ==>
      !(savings.rows[s].user == Some(caller) && savings.rows[s].goalName == name)
  {
    First(savings, (g: Savings) => g.user == Some(caller) && g.goalName == name)
  }

  /** `handle_savings_deletion`: the caller's goal named like the category
      loses the category's amount, with no floor at zero. A null amount makes
      the subtraction raise. */
  function Debit(savings: Store<Savings>, caller: UserId, c: Category): (r: Result<Store<Savings>, Failure>)
    ensures r.Err? <==> Goal(savings, caller, c.name).Some? && c.amount.None?
    ensures r.Err? ==> r.error == ServerError
    ensures r.Ok? ==> r.value.rows.Keys == savings.rows.Keys && r.value.next == savings.next
    ensures r.Ok? ==> forall s :: s in savings.rows ==>
      r.value.rows[s] == if Goal(savings, caller, c.name) == Some(s)
                         then savings.rows[s].(amountSaved := savings.rows[s].amountSaved - c.amount.value)
                         else savings.rows[s]
  {
    match Goal(savings, caller, c.name)
    case None => Ok(savings)
    case Some(s) =>
      if c.amount.None? then Err(ServerError)
      else Ok(Put(savings, s, savings.rows[s].(amountSaved := savings.rows[s].amountSaved - c.amount.value)))
  }

  /** One turn of the deletion loop: save the copy, debit the savings goal,
      delete the row. */
  function PurgeOne(w: Work, caller: UserId, copies: map<Id, Category>, k: Id): (r: Result<Work, Failure>)
    requires k in w.pk && k in copies
    ensures r.Ok? ==> r.value.pk.Keys == w.pk.Keys && r.value.pk[k].None?
    ensures r.Ok? ==> forall j :: j in w.pk && j != k ==> r.value.pk[j] == w.pk[j]
    ensures r.Ok? ==> r.value.cats.rows.Keys == w.cats.rows.Keys - (if w.pk[k].Some? then {w.pk[k].value} else {})
    ensures r.Ok? ==> forall x :: x in r.value.cats.rows ==> r.value.cats.rows[x] == w.cats.rows[x]
    ensures r.Ok? ==> w.cats.next <= r.value.cats.next
    ensures r.Err? <==> Debit(w.savings, caller, copies[k]).Err?
    ensures r.Err? ==> r.error == ServerError
    ensures r.Ok? ==> r.value.savings == Debit(w.savings, caller, copies[k]).value
  {
    var saved := SaveCopy(w, k, copies[k]);
    var savings :- Debit(saved.savings, caller, copies[k]);
    Ok(Work(Remove(saved.cats, saved.pk[k].value), savings, saved.pk[k := None]))
  }

  /** The deletion loop over the marked keys, in order. */
  function Purge(w: Work, caller: UserId, copies: map<Id, Category>, marked: seq<Id>): (r: Result<Work, Failure>)
    requires w.pk.Keys == copies.Keys
    requires forall i :: 0 <= i < |marked| ==> marked[i] in copies
    ensures r.Ok? ==> r.value.pk.Keys == w.pk.Keys
    decreases |marked|
  {
    if |marked| == 0 then Ok(w)
    else
      var before :- Purge(w, caller, copies, marked[..|marked| - 1]);
      PurgeOne(before, caller, copies, marked[|marked| - 1])
  }

  /** The save loop over `updated_categories`, in order: each copy is saved
      (again), each new category inserted. */
  function Upserts(w: Work, copies: map<Id, Category>, updated: seq<Upsert>): (r: Work)
    requires w.pk.Keys == copies.Keys
    requires forall i :: 0 <= i < |updated| ==> updated[i].Existing? ==> updated[i].key in copies
    ensures r.pk.Keys == w.pk.Keys && r.savings == w.savings
    decreases |updated|
  {
    if |updated| == 0 then w
    else
      var before := Upserts(w, copies, updated[..|updated| - 1]);
      match updated[|updated| - 1]
      case Existing(k) => SaveCopy(before, k, copies[k])
      case Fresh(row) => before.(cats := Insert(before.cats, row).0)
  }

  /** `'savings' in name.lower()`. */
  predicate NamesSavings(name: string) {
    ContainsIgnoreCase(name, "savings")
  }

  /** `handle_savings`: every pair naming a savings goal sets the amount
      saved (and a fresh description) on the caller's goal of that exact name,
      or creates such a goal with a target of zero. The goals are looked up
      in `start`, the caller's goals as loaded once at the first lookup, so a
      goal created by an earlier pair is not found again. */
  function SyncSavings(start: Store<Savings>, savings: Store<Savings>, caller: UserId,
                       generate: string -> string, pairs: seq<CategoryLine>): (r: Store<Savings>)
    requires start.rows.Keys <= savings.rows.Keys && start.next <= savings.next
    ensures savings.rows.Keys <= r.rows.Keys && savings.next <= r.next
    decreases |pairs|
  {
    if |pairs| == 0 then savings
    else
      var before := SyncSavings(start, savings, caller, generate, pairs[..|pairs| - 1]);
      var p := pairs[|pairs| - 1];
      if !NamesSavings(p.name) then before
      else
        var text := Some(generate(p.name));
        match Goal(start, caller, p.name)
        case Some(g) =>
          Put(before, g, before.rows[g].(amountSaved := p.amount, description := text))
        case None =>
          Insert(before, Savings(Some(caller), p.name, Some(0), p.amount, text)).0
  }

  /** Every copy under its original key. */
  function OriginalKeys(copies: map<Id, Category>): (pk: map<Id, Option<Id>>)
    ensures pk.Keys == copies.Keys
    ensures forall k :: k in pk ==> pk[k] == Some(k)
  {
    map k | k in copies :: Some(k)
  }

  /** The write phase of the handler for settled pairs. */
  function Reconciled(l: Ledger, caller: UserId, budget: Id, generate: string -> string,
                      pairs: seq<CategoryLine>): (r: Outcome)
  {
    var plan := Classify(l, budget, generate, pairs);
    var purged :- Purge(Work(l.categories, l.savings, OriginalKeys(plan.copies)), caller, plan.copies, plan.marked);
    var saved := Upserts(purged, plan.copies, plan.updated);
    var savings := SyncSavings(saved.savings, saved.savings, caller, generate, Rewritten(pairs));
    Ok(l.(categories := saved.cats, savings := savings))
  }

  /** The body of a category request: the budget key and the description of
      the change wanted. */
  datatype CategoryRequest = CategoryRequest(budget: Option<Id>, description: Option<string>)

  /** Both fields of the request are present and truthy: a key of 0 and an
      empty description count as missing. */
  predicate Complete(req: CategoryRequest) {
    req.budget.Some? && req.budget.value != 0 && req.description.Some? && req.description.value != ""
  }

  /** `CategoryCreateView.post`. Both fields are required; the budget must
      exist and belong to the caller; the oracle's replies must settle on
      pairs. */
  function CreateCategories(l: Ledger, caller: UserId, req: CategoryRequest, replies: seq<string>,
                            describe: string -> string): (r: Outcome)
    ensures !Complete(req) ==> r == Err(MissingInput)
    ensures Complete(req) && req.budget.value !in l.budgets.rows ==> r == Err(NotFound)
    ensures Complete(req) && req.budget.value in l.budgets.rows && !OwnsBudget(l, caller, req.budget.value) ==>
      r == Err(Forbidden)
    ensures r.Ok? ==> req.budget.Some? && OwnsBudget(l, caller, req.budget.value)
    ensures r.Ok? ==> r.value.incomes == l.incomes && r.value.budgets == l.budgets
  {
    if !Complete(req) then Err(MissingInput)
    else
      var budget := req.budget.value;
      if budget !in l.budgets.rows then Err(NotFound)
      else if !OwnsBudget(l, caller, budget) then Err(Forbidden)
      else
        var pairs :- Settle(replies, l.budgets.rows[budget].totalExpenses);
        Reconciled(l, caller, budget, Generator(describe), pairs)
  }
}
