/** The save loop of `CategoryCreateView.post`: after the deletions, every
    amended copy is saved and every new category inserted. Its effect on the
    category table is stated as the invariant `Saved`, relative to the table
    as it was before the handler ran. */
module ReconcileSaves {
  import opened Wrappers
  import opened Tables
  import opened Ledger
  import opened Reconcile
  import opened ReconcileFacts

  /** The category table after the deletions and the saves in `done`,
      measured against the original table `C`:
      an original row survives exactly when it was not marked, and holds its
      copy when the copy was saved, else its old value; a marked copy that
      was saved lives on under a new key; every new key belongs to the
      budget; every new category has a row under a new key. */
  ghost predicate Saved(C: Store<Category>, budget: Id, copies: map<Id, Category>, marked: seq<Id>,
                        done: seq<Upsert>, w: Work)
  {
    && copies.Keys <= C.rows.Keys && w.pk.Keys == copies.Keys
    && C.next <= w.cats.next
    && (forall x :: x in C.rows ==> (x in w.cats.rows <==> x !in marked))
    && (forall x :: x in w.cats.rows && x < C.next ==>
          x in C.rows && w.cats.rows[x] == (if x in copies && Existing(x) in done then copies[x] else C.rows[x]))
    && (forall k :: k in copies && k !in marked ==> w.pk[k] == Some(k))
    && (forall k :: k in copies && k in marked && w.pk[k].Some? ==>
          C.next <= w.pk[k].value && w.pk[k].value in w.cats.rows && w.cats.rows[w.pk[k].value] == copies[k])
    && (forall k :: k in copies && Existing(k) in done ==> w.pk[k].Some?)
    && (forall x :: x in w.cats.rows && C.next <= x ==> w.cats.rows[x].budget == budget)
    && (forall i :: 0 <= i < |done| && done[i].Fresh? ==>
          exists x :: C.next <= x && x in w.cats.rows && w.cats.rows[x] == done[i].row)
  }

  /** Saving a copy that was not deleted writes it back under its own key. */
  lemma SaveKept(C: Store<Category>, budget: Id, copies: map<Id, Category>, marked: seq<Id>,
                 done: seq<Upsert>, k: Id, w: Work)
    requires k in copies && k !in marked
    requires Saved(C, budget, copies, marked, done, w)
    ensures Saved(C, budget, copies, marked, done + [Existing(k)], SaveCopy(w, k, copies[k]))
  {
    var r := SaveCopy(w, k, copies[k]);
    var now := done + [Existing(k)];
    assert k in C.rows && k < C.next;
    assert r.cats.rows == w.cats.rows[k := copies[k]] && r.cats.next == w.cats.next && r.pk == w.pk;
    forall x ensures Existing(x) in now <==> Existing(x) in done || x == k {
      assert now[|done|] == Existing(k);
    }
    forall i | 0 <= i < |now| && now[i].Fresh?
      ensures exists x :: C.next <= x && x in r.cats.rows && r.cats.rows[x] == now[i].row
    {
      assert i < |done| && now[i] == done[i];
      var x :| C.next <= x && x in w.cats.rows && w.cats.rows[x] == done[i].row;
      assert r.cats.rows[x] == w.cats.rows[x];
    }
  }

  /** Saving a deleted copy that was already saved again writes the same
      row over itself. */
  lemma SaveAgain(C: Store<Category>, budget: Id, copies: map<Id, Category>, marked: seq<Id>,
                  done: seq<Upsert>, k: Id, w: Work)
    requires k in copies && Saved(C, budget, copies, marked, done, w)
    requires k in marked && w.pk[k].Some?
    ensures Saved(C, budget, copies, marked, done + [Existing(k)], SaveCopy(w, k, copies[k]))
  {
    var r := SaveCopy(w, k, copies[k]);
    var now := done + [Existing(k)];
    assert r.cats.rows == w.cats.rows && r.cats.next == w.cats.next && r.pk == w.pk;
    forall x ensures Existing(x) in now <==> Existing(x) in done || x == k {
      assert now[|done|] == Existing(k);
    }
    forall i | 0 <= i < |now| && now[i].Fresh?
      ensures exists x :: C.next <= x && x in r.cats.rows && r.cats.rows[x] == now[i].row
    {
      assert i < |done| && now[i] == done[i];
    }
  }

  /** Saving a deleted copy for the first time inserts it under a new key. */
  lemma SaveRevived(C: Store<Category>, budget: Id, copies: map<Id, Category>, marked: seq<Id>,
                    done: seq<Upsert>, k: Id, w: Work)
    requires k in copies && Saved(C, budget, copies, marked, done, w)
    requires k in marked && w.pk[k].None? && copies[k].budget == budget
    ensures Saved(C, budget, copies, marked, done + [Existing(k)], SaveCopy(w, k, copies[k]))
  {
    var r := SaveCopy(w, k, copies[k]);
    var now := done + [Existing(k)];
    var n := w.cats.next;
    assert n !in w.cats.rows;
    assert r.cats.rows == w.cats.rows[n := copies[k]] && r.pk == w.pk[k := Some(n)];
    forall x ensures Existing(x) in now <==> Existing(x) in done || x == k {
      assert now[|done|] == Existing(k);
    }
    forall i | 0 <= i < |now| && now[i].Fresh?
      ensures exists x :: C.next <= x && x in r.cats.rows && r.cats.rows[x] == now[i].row
    {
      assert i < |done| && now[i] == done[i];
      var x :| C.next <= x && x in w.cats.rows && w.cats.rows[x] == done[i].row;
      assert r.cats.rows[x] == w.cats.rows[x];
    }
  }

  /** Inserting one more new category keeps `Saved`. */
  lemma SaveFresh(C: Store<Category>, budget: Id, copies: map<Id, Category>, marked: seq<Id>,
                  done: seq<Upsert>, row: Category, w: Work)
    requires row.budget == budget
    requires Saved(C, budget, copies, marked, done, w)
    ensures Saved(C, budget, copies, marked, done + [Fresh(row)], w.(cats := Insert(w.cats, row).0))
  {
    var r := w.(cats := Insert(w.cats, row).0);
    var now := done + [Fresh(row)];
    forall x ensures Existing(x) in now <==> Existing(x) in done {
      assert now[|done|] == Fresh(row);
    }
    forall i | 0 <= i < |now| && now[i].Fresh?
      ensures exists x :: C.next <= x && x in r.cats.rows && r.cats.rows[x] == now[i].row
    {
      if i == |done| {
        assert r.cats.rows[w.cats.next] == row;
      } else {
        assert now[i] == done[i];
        var x :| C.next <= x && x in w.cats.rows && w.cats.rows[x] == done[i].row;
        assert r.cats.rows[x] == w.cats.rows[x];
      }
    }
  }

  /** The whole save loop keeps `Saved`, from a state with nothing saved. */
  lemma {:induction false} UpsertsSaved(C: Store<Category>, budget: Id, copies: map<Id, Category>, marked: seq<Id>,
                                        updated: seq<Upsert>, w: Work)
    requires w.pk.Keys == copies.Keys
    requires forall k :: k in copies ==> copies[k].budget == budget
    requires forall i :: 0 <= i < |updated| ==> updated[i].Existing? ==> updated[i].key in copies
    requires forall i :: 0 <= i < |updated| ==> updated[i].Fresh? ==> updated[i].row.budget == budget
    requires Saved(C, budget, copies, marked, [], w)
    ensures Saved(C, budget, copies, marked, updated, Upserts(w, copies, updated))
    decreases |updated|
  {
    if |updated| > 0 {
      var pre := updated[..|updated| - 1];
      var u := updated[|updated| - 1];
      SplitLast(updated);
      UpsertsSaved(C, budget, copies, marked, pre, w);
      var before := Upserts(w, copies, pre);
      match u
      case Existing(k) =>
        assert Upserts(w, copies, updated) == SaveCopy(before, k, copies[k]);
        if k !in marked {
          SaveKept(C, budget, copies, marked, pre, k, before);
        } else if before.pk[k].Some? {
          SaveAgain(C, budget, copies, marked, pre, k, before);
        } else {
          SaveRevived(C, budget, copies, marked, pre, k, before);
        }
      case Fresh(row) =>
        assert Upserts(w, copies, updated) == before.(cats := Insert(before.cats, row).0);
        SaveFresh(C, budget, copies, marked, pre, row, before);
    }
  }

  /** The state the deletion loop leaves is where the save loop starts. */
  lemma SavedStart(C: Store<Category>, budget: Id, copies: map<Id, Category>, marked: seq<Id>, w: Work)
    requires copies.Keys <= C.rows.Keys
    requires PurgedCats(C, copies, marked, w)
    ensures Saved(C, budget, copies, marked, [], w)
  {
  }
}
