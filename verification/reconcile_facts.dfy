/** What the classification, deletion, save and savings loops of
    `CategoryCreateView.post` do to the ledger, proved phase by phase and then
    for the handler as a whole. */
module ReconcileFacts {
  import opened Wrappers
  import opened Text
  import opened Tables
  import opened Ledger
  import opened OracleText
  import opened Reconcile

  /** The effects before the last one are covered too, and the fold ends by
      applying the last one. */
  lemma FoldPrefix(copies: map<Id, Category>, es: seq<Effect>)
    requires Covered(copies, es) && |es| > 0
    ensures Covered(copies, es[..|es| - 1])
    ensures es == es[..|es| - 1] + [es[|es| - 1]]
    ensures Fold(copies, es) == Apply(Fold(copies, es[..|es| - 1]), es[|es| - 1])
  {
    var pre := es[..|es| - 1];
    SplitLast(es);
    forall i | 0 <= i < |pre| ensures (pre[i].Mark? || pre[i].Amend?) ==> pre[i].key in copies {
      assert pre[i] == es[i];
    }
  }

  /** A key is marked for deletion exactly when some line marks it. */
  lemma {:induction false} FoldMarked(copies: map<Id, Category>, es: seq<Effect>, k: Id)
    requires Covered(copies, es)
    ensures k in Fold(copies, es).marked <==> Mark(k) in es
    decreases |es|
  {
    if |es| > 0 {
      FoldPrefix(copies, es);
      FoldMarked(copies, es[..|es| - 1], k);
    }
  }

  /** The copy with key `k` is queued for saving exactly when some line amends it. */
  lemma {:induction false} FoldExisting(copies: map<Id, Category>, es: seq<Effect>, k: Id)
    requires Covered(copies, es)
    ensures Existing(k) in Fold(copies, es).updated <==> exists i :: 0 <= i < |es| && Amends(es[i], k)
    decreases |es|
  {
    if |es| > 0 {
      var pre := es[..|es| - 1];
      FoldPrefix(copies, es);
      FoldExisting(copies, pre, k);
      if exists i :: 0 <= i < |es| && Amends(es[i], k) {
        var i :| 0 <= i < |es| && Amends(es[i], k);
        if i < |pre| {
          assert Amends(pre[i], k);
        }
      }
    }
  }

  /** A new category is queued exactly when some line creates it. */
  lemma {:induction false} FoldFresh(copies: map<Id, Category>, es: seq<Effect>, row: Category)
    requires Covered(copies, es)
    ensures Fresh(row) in Fold(copies, es).updated <==> Create(row) in es
    decreases |es|
  {
    if |es| > 0 {
      FoldPrefix(copies, es);
      FoldFresh(copies, es[..|es| - 1], row);
    }
  }

  /** Classification never changes a copy's budget or name, and flags
      exactly the marked copies. */
  lemma {:induction false} FoldCopy(copies: map<Id, Category>, es: seq<Effect>, k: Id)
    requires Covered(copies, es) && k in copies
    ensures var c := Fold(copies, es).copies[k];
      && c.budget == copies[k].budget && c.name == copies[k].name
      && (c.isDelete <==> copies[k].isDelete || Mark(k) in es)
    decreases |es|
  {
    if |es| > 0 {
      FoldPrefix(copies, es);
      FoldCopy(copies, es[..|es| - 1], k);
    }
  }

  /** A copy no line amends keeps its amount and description. */
  lemma {:induction false} FoldUnamended(copies: map<Id, Category>, es: seq<Effect>, k: Id)
    requires Covered(copies, es) && k in copies
    requires forall i :: 0 <= i < |es| ==> !Amends(es[i], k)
    ensures Fold(copies, es).copies[k].amount == copies[k].amount
    ensures Fold(copies, es).copies[k].description == copies[k].description
    decreases |es|
  {
    if |es| > 0 {
      var pre := es[..|es| - 1];
      FoldPrefix(copies, es);
      forall i | 0 <= i < |pre| ensures !Amends(pre[i], k) {
        assert pre[i] == es[i];
      }
      FoldUnamended(copies, pre, k);
    }
  }

  /** An amended copy has an amount. */
  lemma {:induction false} FoldAmendedAmount(copies: map<Id, Category>, es: seq<Effect>, k: Id, i: nat)
    requires Covered(copies, es) && k in copies
    requires i < |es| && Amends(es[i], k)
    ensures Fold(copies, es).copies[k].amount.Some?
    decreases |es|
  {
    FoldPrefix(copies, es);
    if i < |es| - 1 {
      var pre := es[..|es| - 1];
      assert Amends(pre[i], k);
      FoldAmendedAmount(copies, pre, k, i);
    }
  }

  /** The amount of an amended copy is the one the last amending line gives. */
  lemma {:induction false} FoldLastAmount(copies: map<Id, Category>, es: seq<Effect>, k: Id, i: nat)
    requires Covered(copies, es) && k in copies
    requires i < |es| && Amends(es[i], k)
    requires forall j :: i < j < |es| ==> !Amends(es[j], k)
    ensures Fold(copies, es).copies[k].amount == Some(es[i].amount)
    decreases |es|
  {
    FoldPrefix(copies, es);
    if i < |es| - 1 {
      var pre := es[..|es| - 1];
      assert Amends(pre[i], k);
      FoldLastAmount(copies, pre, k, i);
    }
  }

  /** An amended copy's description: its own when that was not blank,
      otherwise the text of the first amending line, provided no amending
      line carries an empty text. */
  lemma {:induction false} FoldDescription(copies: map<Id, Category>, es: seq<Effect>, k: Id, i: nat)
    requires Covered(copies, es) && k in copies
    requires i < |es| && Amends(es[i], k)
    requires forall j :: 0 <= j < i ==> !Amends(es[j], k)
    requires forall j :: 0 <= j < |es| ==> es[j].Amend? ==> es[j].text != ""
    ensures Fold(copies, es).copies[k].description ==
      if Blank(copies[k].description) then Some(es[i].text) else copies[k].description
    decreases |es|
  {
    var pre := es[..|es| - 1];
    FoldPrefix(copies, es);
    if i == |es| - 1 {
      FoldUnamended(copies, pre, k);
    } else {
      assert Amends(pre[i], k);
      FoldDescription(copies, pre, k, i);
    }
  }

  /** The caller's first goal of a name depends only on which rows exist and
      on their owners and names. */
  lemma GoalStable(t: Store<Savings>, u: Store<Savings>, caller: UserId, name: string)
    requires t.rows.Keys == u.rows.Keys
    requires forall s :: s in t.rows ==> t.rows[s].user == u.rows[s].user && t.rows[s].goalName == u.rows[s].goalName
    ensures Goal(t, caller, name) == Goal(u, caller, name)
  {
  }

  /** What the deletion loop takes off the goal with key `s`: the amount of
      every marked copy whose name leads to that goal, once per mark. */
  function Debits(start: Store<Savings>, caller: UserId, copies: map<Id, Category>, marked: seq<Id>, s: Id): int
    requires forall i :: 0 <= i < |marked| ==> marked[i] in copies
    decreases |marked|
  {
    if |marked| == 0 then 0
    else
      var c := copies[marked[|marked| - 1]];
      Debits(start, caller, copies, marked[..|marked| - 1], s) +
        (if Goal(start, caller, c.name) == Some(s) then c.amount.GetOr(0) else 0)
  }

  /** A marked copy with a null amount whose name leads to one of the
      caller's goals: the subtraction in the deletion loop raises. */
  predicate NullDebit(start: Store<Savings>, caller: UserId, c: Category) {
    Goal(start, caller, c.name).Some? && c.amount.None?
  }

  /** The categories after the deletion loop: the marked rows are gone and
      every other row is untouched, and the marked copies have no key any more. */
  ghost predicate PurgedCats(cats: Store<Category>, copies: map<Id, Category>, marked: seq<Id>, w: Work) {
    && (forall x :: x in w.cats.rows <==> x in cats.rows && x !in marked)
    && (forall x :: x in w.cats.rows ==> w.cats.rows[x] == cats.rows[x])
    && cats.next <= w.cats.next
    && w.pk.Keys == copies.Keys
    && (forall k :: k in copies ==> w.pk[k] == if k in marked then None else Some(k))
  }

  /** The savings after the deletion loop: each goal has lost what the marked
      copies debit from it, and nothing else has changed. */
  ghost predicate PurgedSavings(start: Store<Savings>, caller: UserId, copies: map<Id, Category>,
                                marked: seq<Id>, savings: Store<Savings>)
    requires forall i :: 0 <= i < |marked| ==> marked[i] in copies
  {
    && savings.rows.Keys == start.rows.Keys && savings.next == start.next
    && (forall s :: s in start.rows ==>
          savings.rows[s] == start.rows[s].(amountSaved := start.rows[s].amountSaved - Debits(start, caller, copies, marked, s)))
  }

  /** One turn of the deletion loop, for the categories: any state that
      drops the copy's current row and clears its key extends `PurgedCats`. */
  lemma PurgeOneCats(cats: Store<Category>, copies: map<Id, Category>, pre: seq<Id>, k: Id, w: Work, r: Work)
    requires k in copies && PurgedCats(cats, copies, pre, w)
    requires r.pk.Keys == w.pk.Keys && r.pk[k].None?
    requires forall j :: j in w.pk && j != k ==> r.pk[j] == w.pk[j]
    requires r.cats.rows.Keys == w.cats.rows.Keys - (if w.pk[k].Some? then {w.pk[k].value} else {})
    requires forall x :: x in r.cats.rows ==> r.cats.rows[x] == w.cats.rows[x]
    requires w.cats.next <= r.cats.next
    ensures PurgedCats(cats, copies, pre + [k], r)
  {
    forall x ensures x in pre + [k] <==> x in pre || x == k {
    }
  }

  /** One turn of the deletion loop, for the savings: the debit of one more
      marked copy extends `PurgedSavings`. */
  lemma PurgeOneSavings(start: Store<Savings>, caller: UserId, copies: map<Id, Category>, pre: seq<Id>, k: Id,
                        savings: Store<Savings>)
    requires k in copies && forall i :: 0 <= i < |pre| ==> pre[i] in copies
    requires PurgedSavings(start, caller, copies, pre, savings)
    requires Debit(savings, caller, copies[k]).Ok?
    ensures PurgedSavings(start, caller, copies, pre + [k], Debit(savings, caller, copies[k]).value)
  {
    var marked := pre + [k];
    assert marked[..|marked| - 1] == pre;
    GoalStable(start, savings, caller, copies[k].name);
  }

  /** The deletion loop, from the copies under their original keys, ends in
      the `Purged` states when it does not raise. */
  lemma {:induction false} PurgeState(cats: Store<Category>, start: Store<Savings>, caller: UserId,
                                      copies: map<Id, Category>, marked: seq<Id>)
    requires copies.Keys <= cats.rows.Keys
    requires forall i :: 0 <= i < |marked| ==> marked[i] in copies
    ensures var r := Purge(Work(cats, start, OriginalKeys(copies)), caller, copies, marked);
      r.Ok? ==> PurgedCats(cats, copies, marked, r.value) && PurgedSavings(start, caller, copies, marked, r.value.savings)
    decreases |marked|
  {
    var w := Work(cats, start, OriginalKeys(copies));
    if |marked| > 0 {
      var pre := marked[..|marked| - 1];
      var k := marked[|marked| - 1];
      SplitLast(marked);
      PurgeState(cats, start, caller, copies, pre);
      var before := Purge(w, caller, copies, pre);
      if before.Ok? {
        var r := PurgeOne(before.value, caller, copies, k);
        assert Purge(w, caller, copies, marked) == r;
        if r.Ok? {
          PurgeOneCats(cats, copies, pre, k, before.value, r.value);
          PurgeOneSavings(start, caller, copies, pre, k, before.value.savings);
        }
      }
    }
  }

  /** The deletion loop leaves every goal's owner and name as they were. */
  lemma PurgeKeepsGoals(cats: Store<Category>, start: Store<Savings>, caller: UserId,
                        copies: map<Id, Category>, marked: seq<Id>)
    requires copies.Keys <= cats.rows.Keys
    requires forall i :: 0 <= i < |marked| ==> marked[i] in copies
    ensures var r := Purge(Work(cats, start, OriginalKeys(copies)), caller, copies, marked);
      r.Ok? ==> (r.value.savings.rows.Keys == start.rows.Keys &&
        forall s :: s in start.rows ==>
          r.value.savings.rows[s].user == start.rows[s].user && r.value.savings.rows[s].goalName == start.rows[s].goalName)
  {
    PurgeState(cats, start, caller, copies, marked);
  }

  /** Some marked copy makes the subtraction raise. */
  ghost predicate AnyNullDebit(start: Store<Savings>, caller: UserId, copies: map<Id, Category>, marked: seq<Id>)
    requires forall i :: 0 <= i < |marked| ==> marked[i] in copies
  {
    exists i :: 0 <= i < |marked| && NullDebit(start, caller, copies[marked[i]])
  }

  lemma AnyNullDebitStep(start: Store<Savings>, caller: UserId, copies: map<Id, Category>, marked: seq<Id>)
    requires |marked| > 0 && forall i :: 0 <= i < |marked| ==> marked[i] in copies
    ensures AnyNullDebit(start, caller, copies, marked) <==>
      AnyNullDebit(start, caller, copies, marked[..|marked| - 1]) || NullDebit(start, caller, copies[marked[|marked| - 1]])
  {
    var pre := marked[..|marked| - 1];
    if AnyNullDebit(start, caller, copies, marked) && !NullDebit(start, caller, copies[marked[|marked| - 1]]) {
      var i :| 0 <= i < |marked| && NullDebit(start, caller, copies[marked[i]]);
      assert pre[i] == marked[i];
    }
    if AnyNullDebit(start, caller, copies, pre) {
      var i :| 0 <= i < |pre| && NullDebit(start, caller, copies[pre[i]]);
      assert pre[i] == marked[i];
    }
  }

  /** The deletion loop raises exactly when some marked copy has a null
      amount and a name that leads to one of the caller's goals; nothing else
      in it can fail. */
  lemma {:induction false} PurgeFails(cats: Store<Category>, start: Store<Savings>, caller: UserId,
                                      copies: map<Id, Category>, marked: seq<Id>)
    requires copies.Keys <= cats.rows.Keys
    requires forall i :: 0 <= i < |marked| ==> marked[i] in copies
    ensures var r := Purge(Work(cats, start, OriginalKeys(copies)), caller, copies, marked);
      (r.Err? <==> AnyNullDebit(start, caller, copies, marked)) && (r.Err? ==> r.error == ServerError)
    decreases |marked|
  {
    var w := Work(cats, start, OriginalKeys(copies));
    if |marked| > 0 {
      var pre := marked[..|marked| - 1];
      var k := marked[|marked| - 1];
      PurgeFails(cats, start, caller, copies, pre);
      AnyNullDebitStep(start, caller, copies, marked);
      var before := Purge(w, caller, copies, pre);
      if before.Ok? {
        PurgeKeepsGoals(cats, start, caller, copies, pre);
        GoalStable(start, before.value.savings, caller, copies[k].name);
        var r := PurgeOne(before.value, caller, copies, k);
        assert Purge(w, caller, copies, marked) == r;
      } else {
        assert Purge(w, caller, copies, marked) == Err(before.error);
      }
    }
  }
}
