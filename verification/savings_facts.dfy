/** What the savings-goal handlers promise: an update can be repeated
    without further effect, and deleting a goal moves its categories' money
    to the catch-all category of their budgets without changing any budget's
    total, or raises when a null amount is to be moved. */
module SavingsFacts {
  import opened Wrappers
  import opened Tables
  import opened Ledger
  import opened SavingsGoals

  /** Writing a row back unchanged leaves the table as it is. */
  lemma PutUnchanged<R>(t: Store<R>, id: Id)
    requires id in t.rows
    ensures Put(t, id, t.rows[id]) == t
  {
    assert Put(t, id, t.rows[id]).rows == t.rows;
  }

  /** Sending the same update twice leaves the ledger as the first one did:
      the name is already normalised, the target already checked, and the
      linked category already carries the new name. */
  lemma UpdateSavingsIdempotent(l: Ledger, caller: UserId, id: Id, edit: SavingsEdit)
    requires UpdateSavings(l, caller, id, edit).Ok?
    ensures var l1 := UpdateSavings(l, caller, id, edit).value;
      UpdateSavings(l1, caller, id, edit) == Ok(l1)
  {
    var l1 := UpdateSavings(l, caller, id, edit).value;
    var h := l1.savings.rows[id];
    var goal := NormaliseGoal(if edit.goalName.Some? then edit.goalName.value.value else h.goalName);
    assert goal == h.goalName;
    var target := NewTarget(h, edit.target);
    assert target == Ok(h.targetAmount);
    var m := LinkedCategory(l1, caller, h.goalName);
    if m.Some? {
      var row := l1.categories.rows[m.value];
      assert row.(name := goal) == row;
      PutUnchanged(l1.categories, m.value);
    }
    assert h.(goalName := goal, targetAmount := h.targetAmount, description := edit.description.GetOr(h.description)) == h;
    PutUnchanged(l1.savings, id);
  }

  /** A category's contribution to the total of budget `b`: its amount when
      it belongs to `b`, a null amount counting as zero. */
  function InBudget(b: Id): (val: Category -> int)
    ensures forall c :: val(c) == (if c.budget == b then c.amount.GetOr(0) else 0)
  {
    (c: Category) => if c.budget == b then c.amount.GetOr(0) else 0
  }

  /** Moving the amount of category `k` onto the catch-all row `e` of the
      same budget and deleting `k` keeps every budget's total. */
  lemma MoveKeepsTotal(t: Store<Category>, e: Id, c: Category, k: Id, b: Id)
    requires e in t.rows && k in t.rows && e != k && t.rows[k] == c
    requires t.rows[e].budget == c.budget && t.rows[e].amount.Some? && c.amount.Some?
    ensures Sum(Move(t, e, c, k), InBudget(b)) == Sum(t, InBudget(b))
  {
    var moved := t.rows[e].(amount := Some(t.rows[e].amount.value + c.amount.value));
    SumPut(t, e, moved, InBudget(b));
    SumRemove(Put(t, e, moved), k, InBudget(b));
  }

  /** Finding or creating the catch-all row keeps every budget's total: a
      new one holds zero. */
  lemma ExtraKeepsTotal(t: Store<Category>, budget: Id, b: Id)
    requires GetOrCreateExtra(t, budget).Ok?
    ensures Sum(GetOrCreateExtra(t, budget).value.0, InBudget(b)) == Sum(t, InBudget(b))
  {
    if GetOrCreateExtra(t, budget).value.1 !in t.rows {
      SumInsert(t, ExtraRow(budget), InBudget(b));
    }
  }

  /** One transfer leaves the total of every budget as it was: what the
      catch-all category gains, the deleted category took with it. */
  lemma TransferKeepsTotal(t: Store<Category>, c: Category, k: Id, b: Id)
    requires k in t.rows && t.rows[k] == c && c.name != ExtraName
    requires Transfer(t, c, k).Ok?
    ensures Sum(Transfer(t, c, k).value, InBudget(b)) == Sum(t, InBudget(b))
  {
    var got := GetOrCreateExtra(t, c.budget).value;
    ExtraKeepsTotal(t, c.budget, b);
    MoveKeepsTotal(got.0, got.1, c, k, b);
  }

  /** The category table while the deletion loop runs, against the table `C`
      the query loaded: the categories handled so far (`done`) are gone; any
      other category is as it was, except that a catch-all category may hold
      a new amount; every other row is a catch-all category added by the
      loop. */
  ghost predicate Swept(C: Store<Category>, done: seq<Id>, t: Store<Category>) {
    && C.next <= t.next
    && (forall x :: x in C.rows && x !in done && C.rows[x].name != ExtraName ==>
          x in t.rows && t.rows[x] == C.rows[x])
    && (forall x :: x in C.rows && x !in done && C.rows[x].name == ExtraName ==>
          x in t.rows && t.rows[x] == C.rows[x].(amount := t.rows[x].amount))
    && (forall x :: x in t.rows ==>
          (x in C.rows && x !in done) || (C.next <= x && t.rows[x].name == ExtraName))
  }

  /** One transfer keeps `Swept`; `u` is the table it leaves, described by
      what `Transfer` promises. */
  lemma TransferSwept(C: Store<Category>, done: seq<Id>, k: Id, t: Store<Category>, u: Store<Category>)
    requires k in C.rows && Swept(C, done, t)
    requires k !in u.rows && t.next <= u.next
    requires forall x :: x in t.rows && x != k ==> x in u.rows
    requires forall x :: x in u.rows ==>
      || (x in t.rows && x != k && u.rows[x] == t.rows[x])
      || (x in t.rows && x != k && t.rows[x].name == ExtraName && u.rows[x] == t.rows[x].(amount := u.rows[x].amount))
      || (x == t.next && u.rows[x].name == ExtraName)
    ensures Swept(C, done + [k], u)
  {
    forall x ensures x in done + [k] <==> x in done || x == k {
      assert (done + [k])[|done|] == k;
      assert x in done ==> exists i :: 0 <= i < |done| && done[i] == x && (done + [k])[i] == x;
    }
  }

  /** The loop over `ids` keeps `Swept`. */
  lemma {:induction false} TransferAllSwept(C: Store<Category>, ids: seq<Id>)
    requires forall i :: 0 <= i < |ids| ==> ids[i] in C.rows
    requires TransferAll(C, C.rows, ids).Ok?
    ensures Swept(C, ids, TransferAll(C, C.rows, ids).value)
    decreases |ids|
  {
    if |ids| > 0 {
      var pre := ids[..|ids| - 1];
      var k := ids[|ids| - 1];
      SplitLast(ids);
      TransferAllSwept(C, pre);
      var t := TransferAll(C, C.rows, pre).value;
      TransferSwept(C, pre, k, t, Transfer(t, C.rows[k], k).value);
    }
  }

  /** While no handled category is a catch-all one, the loop keeps the total
      of every budget. */
  lemma {:induction false} TransferAllKeepsTotal(C: Store<Category>, ids: seq<Id>, b: Id)
    requires forall i :: 0 <= i < |ids| ==> ids[i] in C.rows && C.rows[ids[i]].name != ExtraName
    requires Increasing(ids)
    requires TransferAll(C, C.rows, ids).Ok?
    ensures Sum(TransferAll(C, C.rows, ids).value, InBudget(b)) == Sum(C, InBudget(b))
    decreases |ids|
  {
    if |ids| > 0 {
      var pre := ids[..|ids| - 1];
      var k := ids[|ids| - 1];
      TransferAllKeepsTotal(C, pre, b);
      TransferAllSwept(C, pre);
      var t := TransferAll(C, C.rows, pre).value;
      assert k !in pre by {
        forall i | 0 <= i < |pre| ensures pre[i] != k {
          assert pre[i] == ids[i] < ids[|ids| - 1];
        }
      }
      TransferKeepsTotal(t, C.rows[k], k, b);
    }
  }

  /** Deleting a goal not named `Extra` leaves the total amount of every
      budget's categories as it was. */
  lemma DeleteSavingsKeepsTotals(l: Ledger, caller: UserId, id: Id, b: Id)
    requires DeleteSavings(l, caller, id).Ok?
    requires l.savings.rows[id].goalName != ExtraName
    ensures Sum(DeleteSavings(l, caller, id).value.categories, InBudget(b)) == Sum(l.categories, InBudget(b))
  {
    var ids := Matching(l, caller, l.savings.rows[id].goalName);
    assert forall i :: 0 <= i < |ids| ==> ids[i] in ids;
    TransferAllKeepsTotal(l.categories, ids, b);
  }

  /** After a goal is deleted, none of the caller's categories carries its
      name (unless the goal is named `Extra`); the categories that were not
      linked to it, in the caller's budgets or anyone else's, are as they
      were, except that a catch-all category may
      hold a new amount; every new row is a catch-all category. */
  lemma DeleteSavingsSweeps(l: Ledger, caller: UserId, id: Id)
    requires DeleteSavings(l, caller, id).Ok?
    ensures var goal := l.savings.rows[id].goalName;
      var r := DeleteSavings(l, caller, id).value;
      && (forall x :: (x in l.categories.rows && l.categories.rows[x].name == goal &&
                       OwnsBudget(l, caller, l.categories.rows[x].budget)) ==> x !in r.categories.rows)
      && (forall x :: (x in l.categories.rows &&
                       !(l.categories.rows[x].name == goal && OwnsBudget(l, caller, l.categories.rows[x].budget)) &&
                       l.categories.rows[x].name != ExtraName) ==>
            x in r.categories.rows && r.categories.rows[x] == l.categories.rows[x])
      && (forall x :: (x in l.categories.rows &&
                       !(l.categories.rows[x].name == goal && OwnsBudget(l, caller, l.categories.rows[x].budget)) &&
                       l.categories.rows[x].name == ExtraName) ==>
            x in r.categories.rows && r.categories.rows[x] == l.categories.rows[x].(amount := r.categories.rows[x].amount))
      && (forall x :: x in r.categories.rows && x !in l.categories.rows ==>
            l.categories.next <= x && r.categories.rows[x].name == ExtraName)
      && (goal != ExtraName ==> forall x :: x in r.categories.rows ==>
            !(r.categories.rows[x].name == goal && OwnsBudget(r, caller, r.categories.rows[x].budget)))
  {
    var goal := l.savings.rows[id].goalName;
    var ids := Matching(l, caller, goal);
    assert forall i :: 0 <= i < |ids| ==> ids[i] in ids;
    TransferAllSwept(l.categories, ids);
  }

  /** The loop leaves alone every budget none of the handled categories
      belongs to: its categories keep their rows, and it gains none. */
  lemma {:induction false} TransferAllSparesBudget(C: Store<Category>, ids: seq<Id>, b: Id)
    requires forall i :: 0 <= i < |ids| ==> ids[i] in C.rows && C.rows[ids[i]].budget != b
    requires TransferAll(C, C.rows, ids).Ok?
    ensures var t := TransferAll(C, C.rows, ids).value;
      && (forall x :: x in C.rows && C.rows[x].budget == b ==> x in t.rows && t.rows[x] == C.rows[x])
      && (forall x :: x in t.rows && t.rows[x].budget == b ==> x in C.rows)
    decreases |ids|
  {
    if |ids| > 0 {
      var pre := ids[..|ids| - 1];
      SplitLast(ids);
      TransferAllSparesBudget(C, pre, b);
    }
  }

  /** Deleting a goal leaves alone every budget in which no category was
      linked to it: another user's budget, or one of the caller's without a
      category of the goal's name. In particular its catch-all category keeps
      its amount. */
  lemma DeleteSavingsSparesBudget(l: Ledger, caller: UserId, id: Id, b: Id)
    requires DeleteSavings(l, caller, id).Ok?
    requires !OwnsBudget(l, caller, b) ||
      forall x :: x in l.categories.rows && l.categories.rows[x].budget == b ==>
        l.categories.rows[x].name != l.savings.rows[id].goalName
    ensures var r := DeleteSavings(l, caller, id).value;
      && (forall x :: x in l.categories.rows && l.categories.rows[x].budget == b ==>
            x in r.categories.rows && r.categories.rows[x] == l.categories.rows[x])
      && (forall x :: x in r.categories.rows && r.categories.rows[x].budget == b ==> x in l.categories.rows)
  {
    var ids := Matching(l, caller, l.savings.rows[id].goalName);
    assert forall i :: 0 <= i < |ids| ==> ids[i] in ids;
    TransferAllSparesBudget(l.categories, ids, b);
  }

  /** Every category of `t` belongs to one of the budgets `B`. */
  ghost predicate InBudgets(t: Store<Category>, B: set<Id>) {
    forall x :: x in t.rows ==> t.rows[x].budget in B
  }

  /** The deletion loop only adds catch-all rows for the budgets of the
      categories it moves, so no category ends up under a budget outside `B`. */
  lemma {:induction false} TransferAllInBudgets(cats: Store<Category>, snap: map<Id, Category>, ids: seq<Id>,
                                                B: set<Id>)
    requires forall i :: 0 <= i < |ids| ==> ids[i] in snap && snap[ids[i]].budget in B
    requires InBudgets(cats, B) && TransferAll(cats, snap, ids).Ok?
    ensures InBudgets(TransferAll(cats, snap, ids).value, B)
    decreases |ids|
  {
    if |ids| > 0 {
      var pre := ids[..|ids| - 1];
      var k := ids[|ids| - 1];
      TransferAllInBudgets(cats, snap, pre, B);
      var t := TransferAll(cats, snap, pre).value;
      var u := Transfer(t, snap[k], k).value;
      forall x | x in u.rows ensures u.rows[x].budget in B {
      }
    }
  }

  /** Deleting a goal keeps the ledger consistent: every category, including
      a catch-all category the loop creates, belongs to an existing budget. */
  lemma DeleteSavingsConsistent(l: Ledger, caller: UserId, id: Id)
    requires Consistent(l) && DeleteSavings(l, caller, id).Ok?
    ensures Consistent(DeleteSavings(l, caller, id).value)
  {
    var ids := Matching(l, caller, l.savings.rows[id].goalName);
    assert forall i :: 0 <= i < |ids| ==> ids[i] in ids;
    TransferAllInBudgets(l.categories, l.categories.rows, ids, l.budgets.rows.Keys);
  }

  /** A null amount on any category to be moved makes the loop raise. */
  lemma {:induction false} TransferAllNull(cats: Store<Category>, snap: map<Id, Category>, ids: seq<Id>, i: nat)
    requires forall j :: 0 <= j < |ids| ==> ids[j] in snap
    requires i < |ids| && snap[ids[i]].amount.None?
    ensures TransferAll(cats, snap, ids).Err?
    decreases |ids|
  {
    if i < |ids| - 1 {
      TransferAllNull(cats, snap, ids[..|ids| - 1], i);
    }
  }

  /** Deleting a goal raises when one of the caller's categories named like
      it has a null amount. */
  lemma DeleteSavingsNullAmount(l: Ledger, caller: UserId, id: Id, k: Id)
    requires id in l.savings.rows && l.savings.rows[id].user == Some(caller)
    requires k in l.categories.rows && l.categories.rows[k].name == l.savings.rows[id].goalName
    requires OwnsBudget(l, caller, l.categories.rows[k].budget) && l.categories.rows[k].amount.None?
    ensures DeleteSavings(l, caller, id) == Err(ServerError)
  {
    var ids := Matching(l, caller, l.savings.rows[id].goalName);
    assert k in ids;
    var i :| 0 <= i < |ids| && ids[i] == k;
    TransferAllNull(l.categories, l.categories.rows, ids, i);
  }

  /** Every budget has at most one catch-all category, and none has a null
      amount: then the `get_or_create` lookups and the additions cannot
      raise. */
  predicate ExtrasSound(t: Store<Category>) {
    && (forall x :: x in t.rows && t.rows[x].name == ExtraName ==> t.rows[x].amount.Some?)
    && (forall x, y :: (x in t.rows && y in t.rows && t.rows[x].name == ExtraName && t.rows[y].name == ExtraName &&
                        t.rows[x].budget == t.rows[y].budget) ==> x == y)
  }

  lemma TransferSound(t: Store<Category>, c: Category, k: Id)
    requires ExtrasSound(t) && c.amount.Some?
    ensures Transfer(t, c, k).Ok? && ExtrasSound(Transfer(t, c, k).value)
  {
    ExtraSound(t, c.budget);
    var got := GetOrCreateExtra(t, c.budget).value;
    MoveSound(got.0, got.1, c, k);
  }

  /** With at most one catch-all row per budget, `get_or_create` finds or
      adds one, and there is still at most one. */
  lemma ExtraSound(t: Store<Category>, budget: Id)
    requires ExtrasSound(t)
    ensures GetOrCreateExtra(t, budget).Ok?
    ensures var got := GetOrCreateExtra(t, budget).value;
      ExtrasSound(got.0) && got.0.rows[got.1].amount.Some?
  {
    var got := GetOrCreateExtra(t, budget).value;
    assert got.1 !in t.rows ==> forall x :: x in t.rows && t.rows[x].name == ExtraName ==> t.rows[x].budget != budget;
  }

  /** Moving an amount onto a catch-all row keeps it non-null. */
  lemma MoveSound(t: Store<Category>, e: Id, c: Category, k: Id)
    requires ExtrasSound(t) && e in t.rows && t.rows[e].name == ExtraName
    requires t.rows[e].amount.Some? && c.amount.Some?
    ensures ExtrasSound(Move(t, e, c, k))
  {
  }

  lemma {:induction false} TransferAllSound(cats: Store<Category>, snap: map<Id, Category>, ids: seq<Id>)
    requires forall i :: 0 <= i < |ids| ==> ids[i] in snap && snap[ids[i]].amount.Some?
    requires ExtrasSound(cats)
    ensures TransferAll(cats, snap, ids).Ok? && ExtrasSound(TransferAll(cats, snap, ids).value)
    decreases |ids|
  {
    if |ids| > 0 {
      var pre := ids[..|ids| - 1];
      TransferAllSound(cats, snap, pre);
      TransferSound(TransferAll(cats, snap, pre).value, snap[ids[|ids| - 1]], ids[|ids| - 1]);
    }
  }

  /** When every budget has at most one catch-all category and none with a
      null amount, deleting one of the caller's goals succeeds exactly when
      none of the caller's categories named like it has a null amount. */
  lemma DeleteSavingsSucceeds(l: Ledger, caller: UserId, id: Id)
    requires id in l.savings.rows && l.savings.rows[id].user == Some(caller)
    requires ExtrasSound(l.categories)
    ensures DeleteSavings(l, caller, id).Ok? <==>
      forall k :: (k in l.categories.rows && l.categories.rows[k].name == l.savings.rows[id].goalName &&
                   OwnsBudget(l, caller, l.categories.rows[k].budget)) ==> l.categories.rows[k].amount.Some?
  {
    var goal := l.savings.rows[id].goalName;
    var ids := Matching(l, caller, goal);
    if forall k :: (k in l.categories.rows && l.categories.rows[k].name == goal &&
                    OwnsBudget(l, caller, l.categories.rows[k].budget)) ==> l.categories.rows[k].amount.Some? {
      assert forall i :: 0 <= i < |ids| ==> ids[i] in ids;
      TransferAllSound(l.categories, l.categories.rows, ids);
    } else {
      var k :| k in l.categories.rows && l.categories.rows[k].name == goal &&
        OwnsBudget(l, caller, l.categories.rows[k].budget) && l.categories.rows[k].amount.None?;
      DeleteSavingsNullAmount(l, caller, id, k);
    }
  }

  /** One user's ledger: one income entry, one budget drawn from it, the
      budget's catch-all category holding 5.00, and a goal named `Extra`. */
  function ExtraGoalLedger(): Ledger {
    Ledger(
      Table(map[0 := Income(Some(1), 100000, "Salary", 0, None)], 1),
      Table(map[0 := Budget("May", 0, 100000, 0, 30, None)], 1),
      Table(map[0 := Category(0, ExtraName, Some("Extra funds"), Some(500), false)], 1),
      Table(map[0 := Savings(Some(1), ExtraName, None, 0, None)], 1))
  }

  /** Deleting that goal deletes the catch-all category with it. */
  lemma ExtraGoalDeleted()
    ensures DeleteSavings(ExtraGoalLedger(), 1, 0) ==
      Ok(ExtraGoalLedger().(categories := Table(map[], 1), savings := Table(map[], 1)))
  {
    var l := ExtraGoalLedger();
    var ids := Matching(l, 1, ExtraName);
    assert 0 in ids;
    if |ids| > 1 {
      assert false;
    }
    assert ids[0] in ids;
    assert ids == [0];
    var cats := l.categories;
    var got := GetOrCreateExtra(cats, 0).value;
    assert got.1 == 0 && got.0 == cats;
    assert ids[..0] == [];
    var u := Move(cats, 0, cats.rows[0], 0);
    assert u.rows == map[];
    assert TransferAll(cats, cats.rows, ids) == Transfer(cats, cats.rows[0], 0) == Ok(u);
    assert Remove(l.savings, 0).rows == map[];
  }

  /** A goal named `Extra` is linked to the catch-all category itself: its
      amount is added to itself and the row is then deleted, so the budget's
      total drops from 5.00 to nothing. */
  lemma DeleteExtraGoalLosesAmount()
    ensures Sum(ExtraGoalLedger().categories, InBudget(0)) == 500
    ensures DeleteSavings(ExtraGoalLedger(), 1, 0).Ok?
    ensures Sum(DeleteSavings(ExtraGoalLedger(), 1, 0).value.categories, InBudget(0)) == 0
  {
    ExtraGoalDeleted();
    var cats := ExtraGoalLedger().categories;
    var u: Store<Category> := Table(map[], 1);
    assert SumFrom(cats, InBudget(0), 1) == 0 && SumFrom(u, InBudget(0), 1) == 0;
    assert RowValue(cats, InBudget(0), 0) == 500 && RowValue(u, InBudget(0), 0) == 0;
  }
}
