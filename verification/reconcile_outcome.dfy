/** What `CategoryCreateView.post` does to the ledger once the oracle has
    settled on its pairs, stated line by line: which categories are deleted,
    updated, created or left alone, when the handler raises, and what becomes
    of the caller's savings goals. */
module ReconcileOutcome {
  import opened Wrappers
  import opened Tables
  import opened Ledger
  import opened OracleText
  import opened Reconcile
  import opened ReconcileFacts
  import opened ReconcileSaves
  import opened ReconcileMirror

  /** Some deletion line refers to the category with key `k`. */
  ghost predicate DeletedBy(l: Ledger, budget: Id, pairs: seq<CategoryLine>, k: Id) {
    exists i :: 0 <= i < |pairs| && Deletes(l, budget, pairs[i], k)
  }

  /** Some other line refers to the category with key `k`. */
  ghost predicate UpdatedBy(l: Ledger, budget: Id, pairs: seq<CategoryLine>, k: Id) {
    exists i :: 0 <= i < |pairs| && Updates(l, budget, pairs[i], k)
  }

  /** The line sets the amount saved of the caller's goal with key `s`: its
      name, once a deletion line's name is rewritten, names savings and is
      the name of that goal (the first of the caller's goals with it). */
  predicate SetsGoal(l: Ledger, caller: UserId, p: CategoryLine, s: Id) {
    NamesSavings(Target(p.name)) && Goal(l.savings, caller, Target(p.name)) == Some(s)
  }

  /** The line creates a savings goal: its rewritten name names savings and
      is the name of none of the caller's goals. */
  predicate OpensGoal(l: Ledger, caller: UserId, p: CategoryLine) {
    NamesSavings(Target(p.name)) && Goal(l.savings, caller, Target(p.name)).None?
  }

  /** The three phases of the handler, as the invariants about them state:
      `w` is the work state after the deletions and saves, and `out` the
      ledger once the savings lines are mirrored. */
  ghost predicate Phases(l: Ledger, caller: UserId, budget: Id, generate: string -> string,
                         pairs: seq<CategoryLine>, w: Work, out: Ledger)
  {
    var plan := Classify(l, budget, generate, pairs);
    && Saved(l.categories, budget, plan.copies, plan.marked, plan.updated, w)
    && PurgedSavings(l.savings, caller, plan.copies, plan.marked, w.savings)
    && out == l.(categories := w.cats, savings := SyncSavings(w.savings, w.savings, caller, generate, Rewritten(pairs)))
  }

  /** One line's effect, read back as what the line asks for. */
  lemma EffectMeaning(l: Ledger, budget: Id, generate: string -> string, p: CategoryLine, k: Id)
    ensures EffectOf(l, budget, generate, p) == Mark(k) <==> Deletes(l, budget, p, k)
    ensures Amends(EffectOf(l, budget, generate, p), k) <==> Updates(l, budget, p, k)
  {
  }

  /** A key is marked for deletion exactly when a deletion line refers to it. */
  lemma PlanMarked(l: Ledger, budget: Id, generate: string -> string, pairs: seq<CategoryLine>, k: Id)
    ensures k in Classify(l, budget, generate, pairs).marked <==> DeletedBy(l, budget, pairs, k)
  {
    var es := Effects(l, budget, generate, pairs);
    EffectsCovered(l, budget, generate, pairs);
    FoldMarked(Snapshot(l, budget), es, k);
    if Mark(k) in es {
      var i :| 0 <= i < |es| && es[i] == Mark(k);
      EffectMeaning(l, budget, generate, pairs[i], k);
    }
    if DeletedBy(l, budget, pairs, k) {
      var i :| 0 <= i < |pairs| && Deletes(l, budget, pairs[i], k);
      EffectMeaning(l, budget, generate, pairs[i], k);
      assert es[i] == Mark(k);
    }
  }

  /** A copy is queued for saving exactly when another line refers to it. */
  lemma PlanUpdated(l: Ledger, budget: Id, generate: string -> string, pairs: seq<CategoryLine>, k: Id)
    ensures Existing(k) in Classify(l, budget, generate, pairs).updated <==> UpdatedBy(l, budget, pairs, k)
  {
    var es := Effects(l, budget, generate, pairs);
    EffectsCovered(l, budget, generate, pairs);
    FoldExisting(Snapshot(l, budget), es, k);
    if exists i :: 0 <= i < |es| && Amends(es[i], k) {
      var i :| 0 <= i < |es| && Amends(es[i], k);
      EffectMeaning(l, budget, generate, pairs[i], k);
    }
    if UpdatedBy(l, budget, pairs, k) {
      var i :| 0 <= i < |pairs| && Updates(l, budget, pairs[i], k);
      EffectMeaning(l, budget, generate, pairs[i], k);
      assert Amends(es[i], k);
    }
  }

  /** Every copy belongs to the budget, and so does every new category. */
  lemma PlanBudget(l: Ledger, budget: Id, generate: string -> string, pairs: seq<CategoryLine>)
    ensures var plan := Classify(l, budget, generate, pairs);
      && (forall k :: k in plan.copies ==> plan.copies[k].budget == budget)
      && (forall i :: 0 <= i < |plan.updated| ==> plan.updated[i].Fresh? ==> plan.updated[i].row.budget == budget)
  {
    var copies := Snapshot(l, budget);
    var es := Effects(l, budget, generate, pairs);
    var plan := Classify(l, budget, generate, pairs);
    EffectsCovered(l, budget, generate, pairs);
    forall k | k in plan.copies ensures plan.copies[k].budget == budget {
      FoldCopy(copies, es, k);
    }
    forall i | 0 <= i < |plan.updated| && plan.updated[i].Fresh? ensures plan.updated[i].row.budget == budget {
      FoldFresh(copies, es, plan.updated[i].row);
    }
  }

  /** The handler raises exactly when the deletion loop does, and otherwise
      passes through the three phases. */
  lemma ReconciledPhases(l: Ledger, caller: UserId, budget: Id, generate: string -> string, pairs: seq<CategoryLine>)
    ensures var r := Reconciled(l, caller, budget, generate, pairs);
      var plan := Classify(l, budget, generate, pairs);
      && (r.Err? <==> AnyNullDebit(l.savings, caller, plan.copies, plan.marked))
      && (r.Err? ==> r.error == ServerError)
      && (r.Ok? ==> exists w :: Phases(l, caller, budget, generate, pairs, w, r.value))
  {
    var plan := Classify(l, budget, generate, pairs);
    var w0 := Work(l.categories, l.savings, OriginalKeys(plan.copies));
    PurgeFails(l.categories, l.savings, caller, plan.copies, plan.marked);
    PurgeState(l.categories, l.savings, caller, plan.copies, plan.marked);
    var purged := Purge(w0, caller, plan.copies, plan.marked);
    if purged.Ok? {
      SavedStart(l.categories, budget, plan.copies, plan.marked, purged.value);
      PlanBudget(l, budget, generate, pairs);
      UpsertsSaved(l.categories, budget, plan.copies, plan.marked, plan.updated, purged.value);
      var w := Upserts(purged.value, plan.copies, plan.updated);
      assert Phases(l, caller, budget, generate, pairs, w, Reconciled(l, caller, budget, generate, pairs).value);
    }
  }

  /** Classification keeps a copy's budget and name, and flags it exactly
      when a deletion line refers to it (or it was flagged already). */
  lemma PlanCopyFixed(l: Ledger, budget: Id, generate: string -> string, pairs: seq<CategoryLine>, k: Id)
    requires k in Snapshot(l, budget)
    ensures var c := Classify(l, budget, generate, pairs).copies[k];
      && c.budget == l.categories.rows[k].budget && c.name == l.categories.rows[k].name
      && (c.isDelete <==> l.categories.rows[k].isDelete || DeletedBy(l, budget, pairs, k))
  {
    var es := Effects(l, budget, generate, pairs);
    EffectsCovered(l, budget, generate, pairs);
    FoldCopy(Snapshot(l, budget), es, k);
    FoldMarked(Snapshot(l, budget), es, k);
    PlanMarked(l, budget, generate, pairs, k);
  }

  /** A copy no line updates keeps its amount and description; an updated
      copy has an amount. */
  lemma PlanCopyAmount(l: Ledger, budget: Id, generate: string -> string, pairs: seq<CategoryLine>, k: Id)
    requires k in Snapshot(l, budget)
    ensures var c := Classify(l, budget, generate, pairs).copies[k];
      && (!UpdatedBy(l, budget, pairs, k) ==>
            c.amount == l.categories.rows[k].amount && c.description == l.categories.rows[k].description)
      && (UpdatedBy(l, budget, pairs, k) ==> c.amount.Some?)
  {
    var es := Effects(l, budget, generate, pairs);
    EffectsCovered(l, budget, generate, pairs);
    if UpdatedBy(l, budget, pairs, k) {
      var i :| 0 <= i < |pairs| && Updates(l, budget, pairs[i], k);
      EffectMeaning(l, budget, generate, pairs[i], k);
      FoldAmendedAmount(Snapshot(l, budget), es, k, i);
    } else {
      forall i | 0 <= i < |es| ensures !Amends(es[i], k) {
        EffectMeaning(l, budget, generate, pairs[i], k);
      }
      FoldUnamended(Snapshot(l, budget), es, k);
    }
  }

  /** An updated copy carries the amount of the last line that updates it,
      and, when its own description was blank, the description generated
      for the first such line. */
  lemma PlanCopyAmended(l: Ledger, budget: Id, generate: string -> string, pairs: seq<CategoryLine>,
                        k: Id, first: nat, last: nat)
    requires forall n :: generate(n) != ""
    requires first <= last < |pairs|
    requires Updates(l, budget, pairs[first], k) && Updates(l, budget, pairs[last], k)
    requires forall j :: 0 <= j < first ==> !Updates(l, budget, pairs[j], k)
    requires forall j :: last < j < |pairs| ==> !Updates(l, budget, pairs[j], k)
    ensures k in Snapshot(l, budget)
    ensures var c := Classify(l, budget, generate, pairs).copies[k];
      var d := l.categories.rows[k].description;
      && c.amount == Some(pairs[last].amount)
      && c.description == (if Blank(d) then Some(generate(pairs[first].name)) else d)
  {
    var es := Effects(l, budget, generate, pairs);
    EffectsCovered(l, budget, generate, pairs);
    forall j | last < j < |es| ensures !Amends(es[j], k) {
      EffectMeaning(l, budget, generate, pairs[j], k);
    }
    forall j | 0 <= j < first ensures !Amends(es[j], k) {
      EffectMeaning(l, budget, generate, pairs[j], k);
    }
    EffectMeaning(l, budget, generate, pairs[first], k);
    EffectMeaning(l, budget, generate, pairs[last], k);
    FoldLastAmount(Snapshot(l, budget), es, k, last);
    FoldDescription(Snapshot(l, budget), es, k, first);
  }

  /** A category no line refers to is left as it was; in particular every
      category of another budget. */
  lemma ReconciledUntouched(l: Ledger, caller: UserId, budget: Id, generate: string -> string,
                            pairs: seq<CategoryLine>, x: Id)
    requires x in l.categories.rows
    requires l.categories.rows[x].budget != budget || forall i :: 0 <= i < |pairs| ==> !Refers(l, budget, pairs[i], x)
    ensures var r := Reconciled(l, caller, budget, generate, pairs);
      r.Ok? ==> x in r.value.categories.rows && r.value.categories.rows[x] == l.categories.rows[x]
  {
    ReconciledPhases(l, caller, budget, generate, pairs);
    var r := Reconciled(l, caller, budget, generate, pairs);
    if r.Ok? {
      var w :| Phases(l, caller, budget, generate, pairs, w, r.value);
      PlanMarked(l, budget, generate, pairs, x);
      PlanUpdated(l, budget, generate, pairs, x);
    }
  }

  /** A category some deletion line refers to is gone. */
  lemma ReconciledDeletes(l: Ledger, caller: UserId, budget: Id, generate: string -> string,
                          pairs: seq<CategoryLine>, x: Id)
    requires DeletedBy(l, budget, pairs, x)
    ensures var r := Reconciled(l, caller, budget, generate, pairs);
      r.Ok? ==> x !in r.value.categories.rows
  {
    ReconciledPhases(l, caller, budget, generate, pairs);
    var r := Reconciled(l, caller, budget, generate, pairs);
    if r.Ok? {
      var w :| Phases(l, caller, budget, generate, pairs, w, r.value);
      PlanMarked(l, budget, generate, pairs, x);
    }
  }

  /** Every row under a key the table had not handed out before belongs to
      the budget. */
  lemma ReconciledNewRows(l: Ledger, caller: UserId, budget: Id, generate: string -> string, pairs: seq<CategoryLine>)
    ensures var r := Reconciled(l, caller, budget, generate, pairs);
      r.Ok? ==> forall x :: x in r.value.categories.rows && x !in l.categories.rows ==>
        l.categories.next <= x && r.value.categories.rows[x].budget == budget
  {
    ReconciledPhases(l, caller, budget, generate, pairs);
    var r := Reconciled(l, caller, budget, generate, pairs);
    if r.Ok? {
      var w :| Phases(l, caller, budget, generate, pairs, w, r.value);
    }
  }

  /** A category that lines update and no line deletes stays under its key
      with the amount of the last updating line; a blank description is
      filled from the first updating line. */
  lemma ReconciledUpdates(l: Ledger, caller: UserId, budget: Id, generate: string -> string,
                          pairs: seq<CategoryLine>, x: Id, first: nat, last: nat)
    requires forall n :: generate(n) != ""
    requires first <= last < |pairs|
    requires Updates(l, budget, pairs[first], x) && Updates(l, budget, pairs[last], x)
    requires forall j :: 0 <= j < first ==> !Updates(l, budget, pairs[j], x)
    requires forall j :: last < j < |pairs| ==> !Updates(l, budget, pairs[j], x)
    requires !DeletedBy(l, budget, pairs, x)
    ensures var r := Reconciled(l, caller, budget, generate, pairs);
      var c0 := l.categories.rows[x];
      r.Ok? ==> (x in r.value.categories.rows &&
        r.value.categories.rows[x] == c0.(amount := Some(pairs[last].amount),
          description := if Blank(c0.description) then Some(generate(pairs[first].name)) else c0.description))
  {
    ReconciledPhases(l, caller, budget, generate, pairs);
    var r := Reconciled(l, caller, budget, generate, pairs);
    PlanCopyAmended(l, budget, generate, pairs, x, first, last);
    if r.Ok? {
      var w :| Phases(l, caller, budget, generate, pairs, w, r.value);
      PlanMarked(l, budget, generate, pairs, x);
      PlanUpdated(l, budget, generate, pairs, x);
      PlanCopyFixed(l, budget, generate, pairs, x);
    }
  }

  /** A category that a deletion line and another line both refer to loses
      its row, and its copy, flagged as deleted and carrying the updates,
      comes back under a new key. */
  lemma ReconciledRevives(l: Ledger, caller: UserId, budget: Id, generate: string -> string,
                          pairs: seq<CategoryLine>, x: Id, first: nat, last: nat)
    requires forall n :: generate(n) != ""
    requires first <= last < |pairs|
    requires Updates(l, budget, pairs[first], x) && Updates(l, budget, pairs[last], x)
    requires forall j :: 0 <= j < first ==> !Updates(l, budget, pairs[j], x)
    requires forall j :: last < j < |pairs| ==> !Updates(l, budget, pairs[j], x)
    requires DeletedBy(l, budget, pairs, x)
    ensures var r := Reconciled(l, caller, budget, generate, pairs);
      var c0 := l.categories.rows[x];
      r.Ok? ==> (x !in r.value.categories.rows &&
        exists y :: (l.categories.next <= y && y in r.value.categories.rows &&
          r.value.categories.rows[y] == c0.(amount := Some(pairs[last].amount), isDelete := true,
            description := if Blank(c0.description) then Some(generate(pairs[first].name)) else c0.description)))
  {
    ReconciledPhases(l, caller, budget, generate, pairs);
    var r := Reconciled(l, caller, budget, generate, pairs);
    PlanCopyAmended(l, budget, generate, pairs, x, first, last);
    if r.Ok? {
      var w :| Phases(l, caller, budget, generate, pairs, w, r.value);
      PlanMarked(l, budget, generate, pairs, x);
      PlanUpdated(l, budget, generate, pairs, x);
      PlanCopyFixed(l, budget, generate, pairs, x);
      var y := w.pk[x].value;
      assert l.categories.next <= y && y in r.value.categories.rows;
    }
  }

  /** A line that names no category of the budget queues a new category. */
  lemma PlanCreates(l: Ledger, budget: Id, generate: string -> string, pairs: seq<CategoryLine>, i: nat)
    requires i < |pairs| && Creates(l, budget, pairs[i])
    ensures Fresh(NewRow(budget, generate, pairs[i])) in Classify(l, budget, generate, pairs).updated
  {
    var es := Effects(l, budget, generate, pairs);
    EffectsCovered(l, budget, generate, pairs);
    assert es[i] == Create(NewRow(budget, generate, pairs[i]));
    FoldFresh(Snapshot(l, budget), es, NewRow(budget, generate, pairs[i]));
  }

  /** A line that names no category of the budget creates one, under a new
      key. */
  lemma ReconciledCreates(l: Ledger, caller: UserId, budget: Id, generate: string -> string,
                          pairs: seq<CategoryLine>, i: nat)
    requires i < |pairs| && Creates(l, budget, pairs[i])
    ensures var r := Reconciled(l, caller, budget, generate, pairs);
      r.Ok? ==> exists y :: (l.categories.next <= y && y in r.value.categories.rows &&
        r.value.categories.rows[y] == NewRow(budget, generate, pairs[i]))
  {
    ReconciledPhases(l, caller, budget, generate, pairs);
    var r := Reconciled(l, caller, budget, generate, pairs);
    if r.Ok? {
      var w :| Phases(l, caller, budget, generate, pairs, w, r.value);
      var row := NewRow(budget, generate, pairs[i]);
      PlanCreates(l, budget, generate, pairs, i);
      var plan := Classify(l, budget, generate, pairs);
      var j :| 0 <= j < |plan.updated| && plan.updated[j] == Fresh(row);
      assert plan.updated[j].Fresh?;
    }
  }

  /** The category with key `k` makes the deletion loop raise: a deletion
      line refers to it, no other line gives it an amount, its own amount is
      null, and its name is the name of one of the caller's goals. */
  ghost predicate RaisesOnDebit(l: Ledger, caller: UserId, budget: Id, pairs: seq<CategoryLine>, k: Id) {
    && k in l.categories.rows
    && DeletedBy(l, budget, pairs, k) && !UpdatedBy(l, budget, pairs, k)
    && l.categories.rows[k].amount.None?
    && Goal(l.savings, caller, l.categories.rows[k].name).Some?
  }

  /** A marked copy whose debit raises is a category that raises on debit,
      and the other way round. */
  lemma RaisesOnDebitMeans(l: Ledger, caller: UserId, budget: Id, generate: string -> string,
                           pairs: seq<CategoryLine>, k: Id)
    ensures var plan := Classify(l, budget, generate, pairs);
      (k in plan.marked && NullDebit(l.savings, caller, plan.copies[k])) <==> RaisesOnDebit(l, caller, budget, pairs, k)
  {
    var plan := Classify(l, budget, generate, pairs);
    PlanMarked(l, budget, generate, pairs, k);
    if k in plan.marked || RaisesOnDebit(l, caller, budget, pairs, k) {
      var i :| 0 <= i < |pairs| && Deletes(l, budget, pairs[i], k);
      assert k in Snapshot(l, budget);
      PlanCopyFixed(l, budget, generate, pairs, k);
      PlanCopyAmount(l, budget, generate, pairs, k);
    }
  }

  /** Some marked copy's debit raises exactly when some category raises
      on debit. */
  lemma PlanRaises(l: Ledger, caller: UserId, budget: Id, generate: string -> string, pairs: seq<CategoryLine>)
    ensures var plan := Classify(l, budget, generate, pairs);
      AnyNullDebit(l.savings, caller, plan.copies, plan.marked) <==> exists k :: RaisesOnDebit(l, caller, budget, pairs, k)
  {
    var plan := Classify(l, budget, generate, pairs);
    if AnyNullDebit(l.savings, caller, plan.copies, plan.marked) {
      var m :| 0 <= m < |plan.marked| && NullDebit(l.savings, caller, plan.copies[plan.marked[m]]);
      RaisesOnDebitMeans(l, caller, budget, generate, pairs, plan.marked[m]);
    }
    if exists k :: RaisesOnDebit(l, caller, budget, pairs, k) {
      var k :| RaisesOnDebit(l, caller, budget, pairs, k);
      RaisesOnDebitMeans(l, caller, budget, generate, pairs, k);
      var m :| 0 <= m < |plan.marked| && plan.marked[m] == k;
      assert NullDebit(l.savings, caller, plan.copies[plan.marked[m]]);
    }
  }

  /** The write phase fails, with a server error, exactly when some
      category makes the debit of its savings goal raise. */
  lemma ReconciledFails(l: Ledger, caller: UserId, budget: Id, generate: string -> string, pairs: seq<CategoryLine>)
    ensures var r := Reconciled(l, caller, budget, generate, pairs);
      && (r.Err? <==> exists k :: RaisesOnDebit(l, caller, budget, pairs, k))
      && (r.Err? ==> r.error == ServerError)
  {
    ReconciledPhases(l, caller, budget, generate, pairs);
    PlanRaises(l, caller, budget, generate, pairs);
  }

  /** The write phase keeps every category pointing at an existing budget,
      when it writes to an existing budget. */
  lemma ReconciledConsistent(l: Ledger, caller: UserId, budget: Id, generate: string -> string, pairs: seq<CategoryLine>)
    requires Consistent(l) && budget in l.budgets.rows
    ensures var r := Reconciled(l, caller, budget, generate, pairs);
      r.Ok? ==> Consistent(r.value)
  {
    ReconciledPhases(l, caller, budget, generate, pairs);
    var r := Reconciled(l, caller, budget, generate, pairs);
    if r.Ok? {
      var w :| Phases(l, caller, budget, generate, pairs, w, r.value);
      PlanBudget(l, budget, generate, pairs);
    }
  }

  /** The savings phases alone: `start` is the savings table after the
      deletion loop and `out` the table once the savings lines are mirrored. */
  ghost predicate SavingsPhases(l: Ledger, caller: UserId, budget: Id, generate: string -> string,
                                pairs: seq<CategoryLine>, start: Store<Savings>, out: Store<Savings>)
  {
    var plan := Classify(l, budget, generate, pairs);
    && PurgedSavings(l.savings, caller, plan.copies, plan.marked, start)
    && out == SyncSavings(start, start, caller, generate, Rewritten(pairs))
  }

  lemma ReconciledSavings(l: Ledger, caller: UserId, budget: Id, generate: string -> string, pairs: seq<CategoryLine>)
    ensures var r := Reconciled(l, caller, budget, generate, pairs);
      r.Ok? ==> exists start :: SavingsPhases(l, caller, budget, generate, pairs, start, r.value.savings)
  {
    ReconciledPhases(l, caller, budget, generate, pairs);
    var r := Reconciled(l, caller, budget, generate, pairs);
    if r.Ok? {
      var w :| Phases(l, caller, budget, generate, pairs, w, r.value);
      assert SavingsPhases(l, caller, budget, generate, pairs, w.savings, r.value.savings);
    }
  }

  /** After the deletion loop, each line mirrors the same goal it would have
      mirrored before: the debits change amounts, not owners or names. */
  lemma MirrorsMeans(l: Ledger, caller: UserId, start: Store<Savings>, pairs: seq<CategoryLine>, j: nat, s: Id)
    requires j < |pairs| && start.rows.Keys == l.savings.rows.Keys
    requires forall g :: g in start.rows ==>
      start.rows[g].user == l.savings.rows[g].user && start.rows[g].goalName == l.savings.rows[g].goalName
    ensures Mirrors(start, caller, Rewritten(pairs)[j], s) <==> SetsGoal(l, caller, pairs[j], s)
    ensures Opens(start, caller, Rewritten(pairs)[j]) <==> OpensGoal(l, caller, pairs[j])
  {
    GoalStable(l.savings, start, caller, Target(pairs[j].name));
  }

  /** A goal that some line sets ends with the amount of the last such line
      and that line's description; nothing else about it changes, whatever
      the deletions debited. A deletion line whose name, once rewritten,
      names a goal is such a line. */
  lemma ReconciledSetsGoal(l: Ledger, caller: UserId, budget: Id, generate: string -> string,
                           pairs: seq<CategoryLine>, s: Id, i: nat)
    requires i < |pairs| && SetsGoal(l, caller, pairs[i], s)
    requires forall j :: i < j < |pairs| ==> !SetsGoal(l, caller, pairs[j], s)
    ensures var r := Reconciled(l, caller, budget, generate, pairs);
      r.Ok? ==> (s in r.value.savings.rows &&
        r.value.savings.rows[s] == l.savings.rows[s].(amountSaved := pairs[i].amount,
                                                      description := Some(generate(Target(pairs[i].name)))))
  {
    ReconciledSavings(l, caller, budget, generate, pairs);
    var r := Reconciled(l, caller, budget, generate, pairs);
    if r.Ok? {
      var start :| SavingsPhases(l, caller, budget, generate, pairs, start, r.value.savings);
      var rw := Rewritten(pairs);
      forall j | 0 <= j < |pairs| ensures Mirrors(start, caller, rw[j], s) <==> SetsGoal(l, caller, pairs[j], s) {
        MirrorsMeans(l, caller, start, pairs, j, s);
      }
      SyncLast(start, start, caller, generate, rw, s, i);
    }
  }

  /** Mirroring leaves alone a goal no line sets. */
  lemma MirrorKeeps(l: Ledger, caller: UserId, start: Store<Savings>, generate: string -> string,
                    pairs: seq<CategoryLine>, s: Id)
    requires s in start.rows && start.rows.Keys == l.savings.rows.Keys
    requires forall g :: g in start.rows ==>
      start.rows[g].user == l.savings.rows[g].user && start.rows[g].goalName == l.savings.rows[g].goalName
    requires forall j :: 0 <= j < |pairs| ==> !SetsGoal(l, caller, pairs[j], s)
    ensures var r := SyncSavings(start, start, caller, generate, Rewritten(pairs));
      s in r.rows && r.rows[s] == start.rows[s]
  {
    var rw := Rewritten(pairs);
    forall j | 0 <= j < |rw| ensures !Mirrors(start, caller, rw[j], s) {
      MirrorsMeans(l, caller, start, pairs, j, s);
    }
    SyncUntouched(start, start, caller, generate, rw, s);
  }

  /** A goal no line sets loses what the deletions debit from it, with no
      floor at zero, and keeps everything else. */
  lemma ReconciledDebitsGoal(l: Ledger, caller: UserId, budget: Id, generate: string -> string,
                             pairs: seq<CategoryLine>, s: Id)
    requires s in l.savings.rows
    requires forall j :: 0 <= j < |pairs| ==> !SetsGoal(l, caller, pairs[j], s)
    ensures var r := Reconciled(l, caller, budget, generate, pairs);
      var plan := Classify(l, budget, generate, pairs);
      var g := l.savings.rows[s];
      r.Ok? ==> (s in r.value.savings.rows &&
        r.value.savings.rows[s] == g.(amountSaved := g.amountSaved - Debits(l.savings, caller, plan.copies, plan.marked, s)))
  {
    ReconciledSavings(l, caller, budget, generate, pairs);
    var r := Reconciled(l, caller, budget, generate, pairs);
    if r.Ok? {
      var start :| SavingsPhases(l, caller, budget, generate, pairs, start, r.value.savings);
      MirrorKeeps(l, caller, start, generate, pairs, s);
    }
  }

  /** A line whose rewritten name names savings but none of the caller's
      goals creates a goal under a new key, with a target of zero. */
  lemma ReconciledOpensGoal(l: Ledger, caller: UserId, budget: Id, generate: string -> string,
                            pairs: seq<CategoryLine>, i: nat)
    requires i < |pairs| && OpensGoal(l, caller, pairs[i])
    ensures var r := Reconciled(l, caller, budget, generate, pairs);
      r.Ok? ==> exists y :: (l.savings.next <= y && y in r.value.savings.rows &&
        r.value.savings.rows[y] == Savings(Some(caller), Target(pairs[i].name), Some(0), pairs[i].amount,
                                           Some(generate(Target(pairs[i].name)))))
  {
    ReconciledSavings(l, caller, budget, generate, pairs);
    var r := Reconciled(l, caller, budget, generate, pairs);
    if r.Ok? {
      var start :| SavingsPhases(l, caller, budget, generate, pairs, start, r.value.savings);
      MirrorsMeans(l, caller, start, pairs, i, 0);
      SyncOpens(start, start, caller, generate, Rewritten(pairs), i);
      var k := OpenKey(start, start, caller, Rewritten(pairs), i);
      assert l.savings.next <= k && k in r.value.savings.rows;
    }
  }

  /** A request for an owned budget writes the pairs of the first reply
      that is parsable and reaches the budget's total. */
  lemma CreateCategoriesSettles(l: Ledger, caller: UserId, req: CategoryRequest, replies: seq<string>,
                                describe: string -> string, i: nat)
    requires Complete(req) && OwnsBudget(l, caller, req.budget.value)
    requires l.budgets.rows[req.budget.value].totalExpenses >= 0
    requires SettlesAt(Rounds(replies), l.budgets.rows[req.budget.value].totalExpenses, i)
    ensures CreateCategories(l, caller, req, replies, describe) ==
      Reconciled(l, caller, req.budget.value, Generator(describe), Rounds(replies)[i])
  {
    RetryTakesFirst(Rounds(replies), l.budgets.rows[req.budget.value].totalExpenses, i);
  }

  /** A request for an owned budget fails with `UnparsableReply` when a reply
      without pairs comes before any reply that reaches the budget's total,
      and nothing is written. */
  lemma CreateCategoriesUnparsable(l: Ledger, caller: UserId, req: CategoryRequest, replies: seq<string>,
                                   describe: string -> string, i: nat)
    requires Complete(req) && OwnsBudget(l, caller, req.budget.value)
    requires l.budgets.rows[req.budget.value].totalExpenses >= 0
    requires i < |replies| && ParseReply(replies[i]) == []
    requires forall j :: 0 <= j < i ==>
      ParseReply(replies[j]) != [] && Total(ParseReply(replies[j])) < l.budgets.rows[req.budget.value].totalExpenses
    ensures CreateCategories(l, caller, req, replies, describe) == Err(UnparsableReply)
  {
    RetryUnparsable(Rounds(replies), l.budgets.rows[req.budget.value].totalExpenses, i);
  }

  /** A request for an owned budget whose replies all fall short of the
      budget's total never settles, and nothing is written. */
  lemma CreateCategoriesUnsettled(l: Ledger, caller: UserId, req: CategoryRequest, replies: seq<string>,
                                  describe: string -> string)
    requires Complete(req) && OwnsBudget(l, caller, req.budget.value)
    requires l.budgets.rows[req.budget.value].totalExpenses >= 0
    requires forall j :: 0 <= j < |replies| ==>
      ParseReply(replies[j]) != [] && Total(ParseReply(replies[j])) < l.budgets.rows[req.budget.value].totalExpenses
    ensures CreateCategories(l, caller, req, replies, describe) == Err(OracleUnsettled)
  {
    RetryExhausted(Rounds(replies), l.budgets.rows[req.budget.value].totalExpenses);
  }

  /** Creating categories keeps the ledger consistent. */
  lemma CreateCategoriesConsistent(l: Ledger, caller: UserId, req: CategoryRequest, replies: seq<string>,
                                   describe: string -> string)
    requires Consistent(l)
    ensures var r := CreateCategories(l, caller, req, replies, describe);
      r.Ok? ==> Consistent(r.value)
  {
    var r := CreateCategories(l, caller, req, replies, describe);
    if r.Ok? {
      var budget := req.budget.value;
      var pairs := Settle(replies, l.budgets.rows[budget].totalExpenses).value;
      ReconciledConsistent(l, caller, budget, Generator(describe), pairs);
    }
  }
}
