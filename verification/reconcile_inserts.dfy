/** The rows the save loop of `CategoryCreateView.post` inserts: every new
    category, and every deleted copy the first time it is saved again. They
    take consecutive keys from the table's counter, so each line that creates
    a category gets a row of its own, and no other row appears. */
module ReconcileInserts {
  import opened Wrappers
  import opened Tables
  import opened Ledger
  import opened OracleText
  import opened Reconcile
  import opened ReconcileFacts
  import opened ReconcileOutcome

  /** The rows the saves in `updated` insert, in order, when `pk` holds the
      current key of every copy as the save loop starts: a new category
      always, a copy without a row the first time it is saved. */
  function Inserted(pk: map<Id, Option<Id>>, copies: map<Id, Category>, updated: seq<Upsert>): seq<Category>
    decreases |updated|
  {
    if |updated| == 0 then []
    else
      var pre := updated[..|updated| - 1];
      var step := match updated[|updated| - 1]
        case Fresh(row) => [row]
        case Existing(k) =>
          if k in pk && k in copies && pk[k].None? && Existing(k) !in pre then [copies[k]] else [];
      Inserted(pk, copies, pre) + step
  }

  /** The key of the copy with original key `k` once the deletion loop is
      done: none if it was deleted, its own key otherwise. */
  function KeyAfter(k: Id, marked: seq<Id>): Option<Id> {
    if k in marked then None else Some(k)
  }

  /** The key of every copy once the deletion loop is done. */
  function PurgedKeys(copies: map<Id, Category>, marked: seq<Id>): (pk: map<Id, Option<Id>>)
    ensures pk.Keys == copies.Keys
    ensures forall k :: k in pk ==> (pk[k].None? <==> k in marked) && (pk[k].Some? ==> pk[k].value == k)
  {
    map k | k in copies :: KeyAfter(k, marked)
  }

  /** The rows a plan's saves insert. */
  function NewRows(plan: Plan): seq<Category> {
    Inserted(PurgedKeys(plan.copies, plan.marked), plan.copies, plan.updated)
  }

  /** The row under key `x`, if any. */
  function Lookup(rows: map<Id, Category>, x: Id): Option<Category> {
    if x in rows then Some(rows[x]) else None
  }

  /** The rows `ins` sit, in order, under the keys from `base` on. */
  ghost predicate Layout(rows: map<Id, Category>, base: Id, ins: seq<Category>) {
    forall n :: 0 <= n < |ins| ==> Lookup(rows, base + n) == Some(ins[n])
  }

  /** The layout read at one position. */
  lemma LayoutAt(rows: map<Id, Category>, base: Id, ins: seq<Category>, n: nat)
    requires Layout(rows, base, ins) && n < |ins|
    ensures Lookup(rows, base + n) == Some(ins[n])
  {
  }

  /** Writing a row below `base`, or writing over one of the rows `ins` with
      the same value, keeps the layout. */
  lemma LayoutPut(rows: map<Id, Category>, base: Id, ins: seq<Category>, v: Id, c: Category)
    requires Layout(rows, base, ins)
    requires v < base || (v - base < |ins| && ins[v - base] == c)
    ensures Layout(rows[v := c], base, ins)
  {
    forall n | 0 <= n < |ins| ensures Lookup(rows[v := c], base + n) == Some(ins[n]) {
      assert Lookup(rows, base + n) == Some(ins[n]);
    }
  }

  /** Adding a row under the next key extends the layout by that row. */
  lemma LayoutAppend(rows: map<Id, Category>, base: Id, ins: seq<Category>, c: Category)
    requires Layout(rows, base, ins)
    ensures Layout(rows[base + |ins| := c], base, ins + [c])
  {
    var ins2 := ins + [c];
    forall n | 0 <= n < |ins2| ensures Lookup(rows[base + |ins| := c], base + n) == Some(ins2[n]) {
      if n < |ins| {
        assert ins2[n] == ins[n];
        assert Lookup(rows, base + n) == Some(ins[n]);
      }
    }
  }

  /** The category table `cats` after inserting the rows `ins` into `start`:
      they sit, in order, under the keys from `start`'s counter on, which
      moves past them, and no key below that counter is new. */
  ghost predicate Placed(start: Store<Category>, ins: seq<Category>, cats: Store<Category>) {
    && cats.next == start.next + |ins|
    && Layout(cats.rows, start.next, ins)
    && (forall x :: x in cats.rows && x < start.next ==> x in start.rows)
  }

  /** The copies' keys `pk` after the saves in `done`, which inserted `ins`,
      against the keys `pk0` they started with: a copy keeps the key it had,
      and a copy without a row gets one at its first save, the key of an
      inserted row that holds the copy. */
  ghost predicate KeysAt(pk0: map<Id, Option<Id>>, base: Id, copies: map<Id, Category>,
                        done: seq<Upsert>, ins: seq<Category>, pk: map<Id, Option<Id>>) {
    && pk0.Keys == copies.Keys && pk.Keys == copies.Keys
    && (forall k :: k in copies && pk0[k].Some? ==> pk[k] == pk0[k])
    && (forall k :: k in copies && pk0[k].None? ==> (pk[k].None? <==> Existing(k) !in done))
    && (forall k :: k in copies && pk0[k].None? && pk[k].Some? ==>
          base <= pk[k].value < base + |ins| && ins[pk[k].value - base] == copies[k])
  }

  /** The save loop's work state `w` after the saves in `done`, against the
      state `w0` it started from. */
  ghost predicate Inserting(w0: Work, copies: map<Id, Category>, done: seq<Upsert>, w: Work) {
    var ins := Inserted(w0.pk, copies, done);
    Placed(w0.cats, ins, w.cats) && KeysAt(w0.pk, w0.cats.next, copies, done, ins, w.pk)
  }

  /** Where the save loop starts: every copy with a key has a row. */
  ghost predicate Startable(w0: Work, copies: map<Id, Category>) {
    && w0.pk.Keys == copies.Keys
    && (forall k :: k in copies && w0.pk[k].Some? ==> w0.pk[k].value in w0.cats.rows)
  }

  /** `Inserting`, given the rows the saves in `done` inserted. */
  lemma InsertingOf(w0: Work, copies: map<Id, Category>, done: seq<Upsert>, ins: seq<Category>, w: Work)
    requires Inserted(w0.pk, copies, done) == ins
    requires Placed(w0.cats, ins, w.cats) && KeysAt(w0.pk, w0.cats.next, copies, done, ins, w.pk)
    ensures Inserting(w0, copies, done, w)
  {
  }

  /** Membership in a sequence grown by one element. */
  lemma InSnoc(done: seq<Upsert>, u: Upsert, v: Upsert)
    ensures v in done + [u] <==> v in done || v == u
  {
    assert (done + [u])[|done|] == u;
    if v in done {
      var i :| 0 <= i < |done| && done[i] == v;
      assert (done + [u])[i] == v;
    }
  }

  /** Inserting one more row keeps `Placed`. */
  lemma PlacedAppend(start: Store<Category>, ins: seq<Category>, cats: Store<Category>, c: Category)
    requires Placed(start, ins, cats)
    ensures Placed(start, ins + [c], Insert(cats, c).0)
  {
    LayoutAppend(cats.rows, start.next, ins, c);
  }

  /** Writing a row over one below `start`'s counter, or over an inserted
      row with the same value, keeps `Placed`. */
  lemma PlacedPut(start: Store<Category>, ins: seq<Category>, cats: Store<Category>, v: Id, c: Category)
    requires Placed(start, ins, cats)
    requires v < start.next ==> v in start.rows
    requires v < start.next || (v - start.next < |ins| && ins[v - start.next] == c)
    ensures Placed(start, ins, Put(cats, v, c))
  {
    LayoutPut(cats.rows, start.next, ins, v, c);
  }

  /** A save that inserts nothing and moves no key keeps `KeysAt`, as long as
      the copy saved already has a key. */
  lemma KeysSame(pk0: map<Id, Option<Id>>, base: Id, copies: map<Id, Category>, done: seq<Upsert>,
                  u: Upsert, ins: seq<Category>, pk: map<Id, Option<Id>>)
    requires KeysAt(pk0, base, copies, done, ins, pk)
    requires u.Existing? ==> u.key in copies && pk[u.key].Some?
    ensures KeysAt(pk0, base, copies, done + [u], ins, pk)
  {
    forall j ensures Existing(j) in done + [u] <==> Existing(j) in done || Existing(j) == u {
      InSnoc(done, u, Existing(j));
    }
  }

  /** A new category, inserted as one more row, keeps `KeysAt`. */
  lemma KeysFresh(pk0: map<Id, Option<Id>>, base: Id, copies: map<Id, Category>, done: seq<Upsert>,
                   row: Category, ins: seq<Category>, pk: map<Id, Option<Id>>)
    requires KeysAt(pk0, base, copies, done, ins, pk)
    ensures KeysAt(pk0, base, copies, done + [Fresh(row)], ins + [row], pk)
  {
    KeysSame(pk0, base, copies, done, Fresh(row), ins, pk);
    forall j | j in copies && pk0[j].None? && pk[j].Some?
      ensures (ins + [row])[pk[j].value - base] == copies[j]
    {
      assert (ins + [row])[pk[j].value - base] == ins[pk[j].value - base];
    }
  }

  /** A copy without a key, inserted as one more row and given its key,
      keeps `KeysAt`. */
  lemma KeysRevived(pk0: map<Id, Option<Id>>, base: Id, copies: map<Id, Category>, done: seq<Upsert>,
                     k: Id, ins: seq<Category>, pk: map<Id, Option<Id>>)
    requires KeysAt(pk0, base, copies, done, ins, pk)
    requires k in copies && pk[k].None?
    ensures KeysAt(pk0, base, copies, done + [Existing(k)], ins + [copies[k]], pk[k := Some(base + |ins|)])
  {
    var ins2 := ins + [copies[k]];
    var pk2 := pk[k := Some(base + |ins|)];
    forall j ensures Existing(j) in done + [Existing(k)] <==> Existing(j) in done || j == k {
      InSnoc(done, Existing(k), Existing(j));
    }
    forall j | j in copies && pk0[j].None? && pk2[j].Some?
      ensures base <= pk2[j].value < base + |ins2| && ins2[pk2[j].value - base] == copies[j]
    {
      if j != k {
        assert ins2[pk[j].value - base] == ins[pk[j].value - base];
      }
    }
  }

  /** Saving a copy that already has a key keeps `Inserting`: the row is
      written over in place and nothing is inserted. */
  lemma SaveKeyedInserting(w0: Work, copies: map<Id, Category>, done: seq<Upsert>, k: Id, w: Work)
    requires Startable(w0, copies) && k in copies
    requires Inserting(w0, copies, done, w) && w.pk[k].Some?
    ensures Inserting(w0, copies, done + [Existing(k)], SaveCopy(w, k, copies[k]))
  {
    var now := done + [Existing(k)];
    assert now[..|now| - 1] == done;
    var ins := Inserted(w0.pk, copies, done);
    forall j ensures Existing(j) in now <==> Existing(j) in done || j == k {
      InSnoc(done, Existing(k), Existing(j));
    }
    assert Inserted(w0.pk, copies, now) == ins;
    var v := w.pk[k].value;
    if w0.pk[k].Some? {
      assert v in w0.cats.rows;
    }
    PlacedPut(w0.cats, ins, w.cats, v, copies[k]);
    KeysSame(w0.pk, w0.cats.next, copies, done, Existing(k), ins, w.pk);
  }

  /** Saving a deleted copy for the first time keeps `Inserting`: it is
      inserted again under the next key. */
  lemma SaveRevivedInserting(w0: Work, copies: map<Id, Category>, done: seq<Upsert>, k: Id, w: Work)
    requires k in copies
    requires Inserting(w0, copies, done, w) && w.pk[k].None?
    ensures Inserting(w0, copies, done + [Existing(k)], SaveCopy(w, k, copies[k]))
  {
    var now := done + [Existing(k)];
    var ins := Inserted(w0.pk, copies, done);
    var w2 := SaveCopy(w, k, copies[k]);
    assert Inserted(w0.pk, copies, now) == ins + [copies[k]] by {
      assert now[..|now| - 1] == done;
      assert w0.pk[k].None? && Existing(k) !in done;
    }
    assert w2.cats == Insert(w.cats, copies[k]).0 && w2.pk == w.pk[k := Some(w0.cats.next + |ins|)];
    PlacedAppend(w0.cats, ins, w.cats, copies[k]);
    KeysRevived(w0.pk, w0.cats.next, copies, done, k, ins, w.pk);
    InsertingOf(w0, copies, now, ins + [copies[k]], w2);
  }

  /** Inserting a new category keeps `Inserting`. */
  lemma FreshInserting(w0: Work, copies: map<Id, Category>, done: seq<Upsert>, row: Category, w: Work)
    requires Inserting(w0, copies, done, w)
    ensures Inserting(w0, copies, done + [Fresh(row)], w.(cats := Insert(w.cats, row).0))
  {
    var now := done + [Fresh(row)];
    assert now[..|now| - 1] == done;
    var ins := Inserted(w0.pk, copies, done);
    forall j ensures Existing(j) in now <==> Existing(j) in done {
      InSnoc(done, Fresh(row), Existing(j));
    }
    assert Inserted(w0.pk, copies, now) == ins + [row];
    PlacedAppend(w0.cats, ins, w.cats, row);
    KeysFresh(w0.pk, w0.cats.next, copies, done, row, ins, w.pk);
  }

  /** The whole save loop keeps `Inserting`. */
  lemma {:induction false} UpsertsInserting(w0: Work, copies: map<Id, Category>, updated: seq<Upsert>)
    requires Startable(w0, copies)
    requires forall i :: 0 <= i < |updated| ==> updated[i].Existing? ==> updated[i].key in copies
    ensures Inserting(w0, copies, updated, Upserts(w0, copies, updated))
    decreases |updated|
  {
    if |updated| == 0 {
      assert Inserted(w0.pk, copies, updated) == [];
    } else {
      var pre := updated[..|updated| - 1];
      SplitLast(updated);
      UpsertsInserting(w0, copies, pre);
      var before := Upserts(w0, copies, pre);
      match updated[|updated| - 1]
      case Existing(k) =>
        if before.pk[k].Some? {
          SaveKeyedInserting(w0, copies, pre, k, before);
        } else {
          SaveRevivedInserting(w0, copies, pre, k, before);
        }
      case Fresh(row) =>
        FreshInserting(w0, copies, pre, row, before);
    }
  }

  /** The rows inserted by a prefix of the saves come first among the rows
      inserted by all of them. */
  lemma {:induction false} InsertedPrefix(pk: map<Id, Option<Id>>, copies: map<Id, Category>,
                                          updated: seq<Upsert>, a: nat)
    requires a <= |updated|
    ensures Inserted(pk, copies, updated[..a]) <= Inserted(pk, copies, updated)
    decreases |updated|
  {
    if a < |updated| {
      var pre := updated[..|updated| - 1];
      assert pre[..a] == updated[..a];
      InsertedPrefix(pk, copies, pre, a);
    } else {
      assert updated[..a] == updated;
    }
  }

  /** A new category queued at position `j` is the inserted row that follows
      the rows inserted before it. */
  lemma InsertedFresh(pk: map<Id, Option<Id>>, copies: map<Id, Category>, updated: seq<Upsert>, j: nat)
    requires j < |updated| && updated[j].Fresh?
    ensures var n := |Inserted(pk, copies, updated[..j])|;
      n < |Inserted(pk, copies, updated)| && Inserted(pk, copies, updated)[n] == updated[j].row
  {
    var upto := updated[..j + 1];
    assert upto[..j] == updated[..j];
    InsertedPrefix(pk, copies, updated, j + 1);
  }

  /** Every inserted row comes from one save, the first of those after which
      it is inserted: a queued new category, or a copy that had no key when
      the loop started. */
  lemma {:induction false} InsertedAt(pk: map<Id, Option<Id>>, copies: map<Id, Category>,
                                      updated: seq<Upsert>, n: nat)
    requires n < |Inserted(pk, copies, updated)|
    ensures var c := Inserted(pk, copies, updated)[n];
      exists j :: 0 <= j < |updated| && |Inserted(pk, copies, updated[..j])| == n &&
        (|| updated[j] == Fresh(c)
         || (updated[j].Existing? && updated[j].key in copies && updated[j].key in pk &&
             pk[updated[j].key].None? && c == copies[updated[j].key]))
    decreases |updated|
  {
    var pre := updated[..|updated| - 1];
    SplitLast(updated);
    var c := Inserted(pk, copies, updated)[n];
    if n < |Inserted(pk, copies, pre)| {
      InsertedAt(pk, copies, pre, n);
      assert Inserted(pk, copies, pre)[n] == c;
      var j :| 0 <= j < |pre| && |Inserted(pk, copies, pre[..j])| == n &&
        (|| pre[j] == Fresh(c)
         || (pre[j].Existing? && pre[j].key in copies && pre[j].key in pk &&
             pre[j].key in pk && pk[pre[j].key].None? && c == copies[pre[j].key]));
      assert pre[..j] == updated[..j] && pre[j] == updated[j];
    } else {
      assert updated[..|updated| - 1] == pre;
    }
  }

  /** How many of the effects queue a save: an amendment or a creation. */
  function Queued(es: seq<Effect>): (n: nat)
    ensures n <= |es|
    decreases |es|
  {
    if |es| == 0 then 0
    else Queued(es[..|es| - 1]) + (if es[|es| - 1].Amend? || es[|es| - 1].Create? then 1 else 0)
  }

  /** The classification loop queues one save per amendment or creation. */
  lemma {:induction false} FoldQueued(copies: map<Id, Category>, es: seq<Effect>)
    requires Covered(copies, es)
    ensures |Fold(copies, es).updated| == Queued(es)
    decreases |es|
  {
    if |es| > 0 {
      var pre := es[..|es| - 1];
      FoldPrefix(copies, es);
      FoldQueued(copies, pre);
      var before := Fold(copies, pre);
      assert Queued(es) == Queued(pre) + (if es[|es| - 1].Amend? || es[|es| - 1].Create? then 1 else 0);
      match es[|es| - 1]
      case Mark(k) => assert Apply(before, Mark(k)).updated == before.updated;
      case Amend(k, a, t) => assert Apply(before, Amend(k, a, t)).updated == before.updated + [Existing(k)];
      case Create(row) => assert Apply(before, Create(row)).updated == before.updated + [Fresh(row)];
      case Skip => assert Apply(before, Skip).updated == before.updated;
    }
  }

  /** The saves queued for a prefix of the effects come first among those
      queued for all of them. */
  lemma {:induction false} FoldUpdatedPrefix(copies: map<Id, Category>, es: seq<Effect>, a: nat)
    requires Covered(copies, es) && a <= |es|
    ensures Covered(copies, es[..a])
    ensures Fold(copies, es[..a]).updated <= Fold(copies, es).updated
    decreases |es|
  {
    if a < |es| {
      var pre := es[..|es| - 1];
      FoldPrefix(copies, es);
      assert pre[..a] == es[..a];
      FoldUpdatedPrefix(copies, pre, a);
    } else {
      assert es[..a] == es;
    }
  }

  /** A creating effect at position `i` queues its new category right after
      the saves queued before it. */
  lemma FoldCreateAt(copies: map<Id, Category>, es: seq<Effect>, i: nat)
    requires Covered(copies, es) && i < |es| && es[i].Create?
    ensures Queued(es[..i]) < |Fold(copies, es).updated|
    ensures Fold(copies, es).updated[Queued(es[..i])] == Fresh(es[i].row)
  {
    var upto := es[..i + 1];
    FoldUpdatedPrefix(copies, es, i + 1);
    FoldPrefix(copies, upto);
    assert upto[..i] == es[..i];
    FoldQueued(copies, es[..i]);
  }

  /** Every queued new category comes from a creating effect, the one after
      whose predecessors it is queued. */
  lemma {:induction false} FoldFreshFrom(copies: map<Id, Category>, es: seq<Effect>, j: nat)
    requires Covered(copies, es)
    requires j < |Fold(copies, es).updated| && Fold(copies, es).updated[j].Fresh?
    ensures exists i :: 0 <= i < |es| && es[i] == Create(Fold(copies, es).updated[j].row) && Queued(es[..i]) == j
    decreases |es|
  {
    var pre := es[..|es| - 1];
    FoldPrefix(copies, es);
    FoldQueued(copies, pre);
    var row := Fold(copies, es).updated[j].row;
    if j < |Fold(copies, pre).updated| {
      assert Fold(copies, pre).updated[j] == Fresh(row);
      FoldFreshFrom(copies, pre, j);
      var i :| 0 <= i < |pre| && pre[i] == Create(row) && Queued(pre[..i]) == j;
      assert es[i] == pre[i] && es[..i] == pre[..i];
    }
  }

  /** Queued saves only accumulate along a sequence of effects. */
  lemma {:induction false} QueuedPrefix(es: seq<Effect>, a: nat, b: nat)
    requires a <= b <= |es|
    ensures Queued(es[..a]) <= Queued(es[..b])
    decreases b - a
  {
    if a < b {
      var upto := es[..b];
      assert upto[..b - 1] == es[..b - 1];
      QueuedPrefix(es, a, b - 1);
    }
  }

  /** The first `n` elements of `s`, or all of it when it is shorter. */
  function Take<T>(s: seq<T>, n: nat): (t: seq<T>)
    ensures t <= s && |t| == if n <= |s| then n else |s|
  {
    if n <= |s| then s[..n] else s
  }

  /** Where line `i`'s new category lands among the inserted rows: after the
      rows inserted by the saves queued before the line. */
  function CreatedOffset(l: Ledger, budget: Id, generate: string -> string, pairs: seq<CategoryLine>, i: nat): nat
    requires i < |pairs|
  {
    var plan := Classify(l, budget, generate, pairs);
    var es := Effects(l, budget, generate, pairs);
    |Inserted(PurgedKeys(plan.copies, plan.marked), plan.copies, Take(plan.updated, Queued(es[..i])))|
  }

  /** A line creating a category has its new category among the inserted
      rows, at `CreatedOffset`. */
  lemma CreatedAt(l: Ledger, budget: Id, generate: string -> string, pairs: seq<CategoryLine>, i: nat)
    requires i < |pairs| && Creates(l, budget, pairs[i])
    ensures var ins := NewRows(Classify(l, budget, generate, pairs));
      var n := CreatedOffset(l, budget, generate, pairs, i);
      n < |ins| && ins[n] == NewRow(budget, generate, pairs[i])
  {
    var copies := Snapshot(l, budget);
    var es := Effects(l, budget, generate, pairs);
    var plan := Classify(l, budget, generate, pairs);
    EffectsCovered(l, budget, generate, pairs);
    assert es[i] == Create(NewRow(budget, generate, pairs[i]));
    FoldCreateAt(copies, es, i);
    InsertedFresh(PurgedKeys(plan.copies, plan.marked), plan.copies, plan.updated, Queued(es[..i]));
  }

  /** A new category queued at position `a` is inserted before whatever
      the saves from `a + 1` on insert. */
  lemma InsertedApart(pk: map<Id, Option<Id>>, copies: map<Id, Category>, updated: seq<Upsert>, a: nat, b: nat)
    requires a < b <= |updated| && updated[a].Fresh?
    ensures |Inserted(pk, copies, updated[..a])| < |Inserted(pk, copies, updated[..b])|
  {
    var u := updated[..b];
    assert u[..a] == updated[..a] && u[a] == updated[a];
    InsertedFresh(pk, copies, u, a);
  }

  /** An effect that queues a save comes before every save queued after it. */
  lemma QueuedApart(es: seq<Effect>, i: nat, j: nat)
    requires i < j <= |es| && (es[i].Amend? || es[i].Create?)
    ensures Queued(es[..i]) < Queued(es[..j])
  {
    var upto := es[..i + 1];
    assert upto[..i] == es[..i];
    QueuedPrefix(es, i + 1, j);
  }

  /** Two lines creating categories land at two offsets, in line order, even
      when they are the same line. */
  lemma CreatedApart(l: Ledger, budget: Id, generate: string -> string, pairs: seq<CategoryLine>, i: nat, j: nat)
    requires i < j < |pairs| && Creates(l, budget, pairs[i]) && Creates(l, budget, pairs[j])
    ensures CreatedOffset(l, budget, generate, pairs, i) < CreatedOffset(l, budget, generate, pairs, j)
  {
    var copies := Snapshot(l, budget);
    var es := Effects(l, budget, generate, pairs);
    var plan := Classify(l, budget, generate, pairs);
    EffectsCovered(l, budget, generate, pairs);
    assert es[i].Create?;
    FoldCreateAt(copies, es, i);
    QueuedApart(es, i, j);
    FoldUpdatedPrefix(copies, es, j);
    FoldQueued(copies, es[..j]);
    InsertedApart(PurgedKeys(plan.copies, plan.marked), plan.copies, plan.updated, Queued(es[..i]), Queued(es[..j]));
  }

  /** Every inserted row is the new category of a line creating one, at that
      line's offset, or the copy of a category that one line deletes and
      another updates. */
  lemma NewRowFrom(l: Ledger, budget: Id, generate: string -> string, pairs: seq<CategoryLine>, n: nat)
    requires n < |NewRows(Classify(l, budget, generate, pairs))|
    ensures var plan := Classify(l, budget, generate, pairs);
      || (exists i :: 0 <= i < |pairs| && Creates(l, budget, pairs[i]) && CreatedOffset(l, budget, generate, pairs, i) == n)
      || (exists k :: k in plan.copies && DeletedBy(l, budget, pairs, k) && UpdatedBy(l, budget, pairs, k) &&
            NewRows(plan)[n] == plan.copies[k])
  {
    var plan := Classify(l, budget, generate, pairs);
    var pk := PurgedKeys(plan.copies, plan.marked);
    var c := NewRows(plan)[n];
    InsertedAt(pk, plan.copies, plan.updated, n);
    var j :| 0 <= j < |plan.updated| && |Inserted(pk, plan.copies, plan.updated[..j])| == n &&
      (|| plan.updated[j] == Fresh(c)
       || (plan.updated[j].Existing? && plan.updated[j].key in plan.copies && plan.updated[j].key in pk &&
           pk[plan.updated[j].key].None? && c == plan.copies[plan.updated[j].key]));
    if plan.updated[j] == Fresh(c) {
      FreshFromLine(l, budget, generate, pairs, j);
    } else {
      assert plan.updated[j] in plan.updated;
      RevivedFromLines(l, budget, generate, pairs, plan.updated[j].key);
    }
  }

  /** A new category queued at position `j` is a creating line's, and its
      offset counts the rows inserted before position `j`. */
  lemma FreshFromLine(l: Ledger, budget: Id, generate: string -> string, pairs: seq<CategoryLine>, j: nat)
    requires var plan := Classify(l, budget, generate, pairs);
      j < |plan.updated| && plan.updated[j].Fresh?
    ensures var plan := Classify(l, budget, generate, pairs);
      exists i :: 0 <= i < |pairs| && Creates(l, budget, pairs[i]) &&
        CreatedOffset(l, budget, generate, pairs, i) == |Inserted(PurgedKeys(plan.copies, plan.marked), plan.copies, plan.updated[..j])|
  {
    var es := Effects(l, budget, generate, pairs);
    var plan := Classify(l, budget, generate, pairs);
    EffectsCovered(l, budget, generate, pairs);
    FoldFreshFrom(Snapshot(l, budget), es, j);
    var i :| 0 <= i < |es| && es[i] == Create(plan.updated[j].row) && Queued(es[..i]) == j;
    assert Creates(l, budget, pairs[i]);
    assert Take(plan.updated, Queued(es[..i])) == plan.updated[..j];
  }

  /** A copy queued for saving that the deletion loop leaves without a key is
      one that one line deletes and another updates. */
  lemma RevivedFromLines(l: Ledger, budget: Id, generate: string -> string, pairs: seq<CategoryLine>, k: Id)
    requires var plan := Classify(l, budget, generate, pairs);
      && k in plan.copies && PurgedKeys(plan.copies, plan.marked)[k].None? && Existing(k) in plan.updated
    ensures DeletedBy(l, budget, pairs, k) && UpdatedBy(l, budget, pairs, k)
  {
    PlanMarked(l, budget, generate, pairs, k);
    PlanUpdated(l, budget, generate, pairs, k);
  }

  /** The deletion loop as the handler runs it. */
  function Purged(l: Ledger, caller: UserId, budget: Id, generate: string -> string,
                  pairs: seq<CategoryLine>): Result<Work, Failure>
  {
    var plan := Classify(l, budget, generate, pairs);
    Purge(Work(l.categories, l.savings, OriginalKeys(plan.copies)), caller, plan.copies, plan.marked)
  }

  /** The key the handler's inserts start from: the category counter once
      the deletion loop is done. */
  function InsertBase(l: Ledger, caller: UserId, budget: Id, generate: string -> string,
                      pairs: seq<CategoryLine>): Id
  {
    match Purged(l, caller, budget, generate, pairs)
    case Ok(p) => p.cats.next
    case Err(_) => l.categories.next
  }

  /** A state the deletion loop ends in has the copies' keys `PurgedKeys`,
      can start the save loop, has no new key and has not moved the counter
      back. */
  lemma PurgedCatsStart(cats: Store<Category>, copies: map<Id, Category>, marked: seq<Id>, w: Work)
    requires copies.Keys <= cats.rows.Keys && PurgedCats(cats, copies, marked, w)
    ensures w.pk == PurgedKeys(copies, marked) && Startable(w, copies)
    ensures forall x :: x in w.cats.rows ==> x in cats.rows
    ensures cats.next <= w.cats.next
  {
    assert w.pk == PurgedKeys(copies, marked);
  }

  /** After the handler's deletion loop, the copies' keys are `PurgedKeys`,
      the save loop can start, no key is new and the counter has not moved
      back. */
  lemma PurgedStart(l: Ledger, caller: UserId, budget: Id, generate: string -> string, pairs: seq<CategoryLine>)
    ensures var plan := Classify(l, budget, generate, pairs);
      var r := Purged(l, caller, budget, generate, pairs);
      r.Ok? ==> && r.value.pk == PurgedKeys(plan.copies, plan.marked) && Startable(r.value, plan.copies)
                && (forall x :: x in r.value.cats.rows ==> x in l.categories.rows)
                && l.categories.next <= r.value.cats.next
  {
    var plan := Classify(l, budget, generate, pairs);
    PurgeState(l.categories, l.savings, caller, plan.copies, plan.marked);
    var r := Purged(l, caller, budget, generate, pairs);
    if r.Ok? {
      PurgedCatsStart(l.categories, plan.copies, plan.marked, r.value);
    }
  }

  /** The handler's categories are those the save loop leaves, from the
      state the deletion loop ends in. */
  lemma ReconciledCats(l: Ledger, caller: UserId, budget: Id, generate: string -> string, pairs: seq<CategoryLine>)
    ensures var plan := Classify(l, budget, generate, pairs);
      var r := Reconciled(l, caller, budget, generate, pairs);
      var p := Purged(l, caller, budget, generate, pairs);
      && (r.Ok? <==> p.Ok?)
      && (r.Ok? ==> r.value.categories == Upserts(p.value, plan.copies, plan.updated).cats)
  {
  }

  /** The rows the handler inserts sit, in order, under consecutive keys from
      `InsertBase`, at or past the table's counter, on; the counter ends just
      past them, and no other key is new. */
  lemma ReconciledInserts(l: Ledger, caller: UserId, budget: Id, generate: string -> string, pairs: seq<CategoryLine>)
    ensures var r := Reconciled(l, caller, budget, generate, pairs);
      var ins := NewRows(Classify(l, budget, generate, pairs));
      var base := InsertBase(l, caller, budget, generate, pairs);
      r.Ok? ==> && l.categories.next <= base && r.value.categories.next == base + |ins|
                && Layout(r.value.categories.rows, base, ins)
                && (forall x :: x in r.value.categories.rows && x !in l.categories.rows ==> base <= x < base + |ins|)
  {
    var plan := Classify(l, budget, generate, pairs);
    var ins := NewRows(plan);
    PurgedStart(l, caller, budget, generate, pairs);
    ReconciledCats(l, caller, budget, generate, pairs);
    var purged := Purged(l, caller, budget, generate, pairs);
    if purged.Ok? {
      var p := purged.value;
      UpsertsInserting(p, plan.copies, plan.updated);
      var w := Upserts(p, plan.copies, plan.updated);
    }
  }

  /** The table `rows` holds, under the key at each creating line's offset
      from `base`, that line's new category. */
  ghost predicate CreatedIn(l: Ledger, budget: Id, generate: string -> string, pairs: seq<CategoryLine>,
                            base: Id, rows: map<Id, Category>)
  {
    forall i {:trigger CreatedOffset(l, budget, generate, pairs, i)} :: 0 <= i < |pairs| && Creates(l, budget, pairs[i]) ==>
      Lookup(rows, base + CreatedOffset(l, budget, generate, pairs, i)) == Some(NewRow(budget, generate, pairs[i]))
  }

  /** Every key the table `rows` holds that the ledger `l` does not is a
      creating line's key, at its offset from `base`, or holds a copy of a
      category that one line deletes and another updates. */
  ghost predicate NewKeysFrom(l: Ledger, budget: Id, generate: string -> string, pairs: seq<CategoryLine>,
                              base: Id, rows: map<Id, Category>)
  {
    forall x :: x in rows && x !in l.categories.rows ==>
      || (exists i :: (0 <= i < |pairs| && Creates(l, budget, pairs[i]) &&
            x == base + CreatedOffset(l, budget, generate, pairs, i)))
      || (exists k :: (k in Snapshot(l, budget) && DeletedBy(l, budget, pairs, k) && UpdatedBy(l, budget, pairs, k) &&
            rows[x] == Classify(l, budget, generate, pairs).copies[k]))
  }

  /** In any table holding the inserted rows laid out from `base`, a
      creating line's new category sits at its offset from `base`. */
  lemma LaidOutCreatedAt(l: Ledger, budget: Id, generate: string -> string, pairs: seq<CategoryLine>,
                         base: Id, rows: map<Id, Category>, i: nat)
    requires Layout(rows, base, NewRows(Classify(l, budget, generate, pairs)))
    requires i < |pairs| && Creates(l, budget, pairs[i])
    ensures Lookup(rows, base + CreatedOffset(l, budget, generate, pairs, i)) == Some(NewRow(budget, generate, pairs[i]))
  {
    var ins := NewRows(Classify(l, budget, generate, pairs));
    CreatedAt(l, budget, generate, pairs, i);
    LayoutAt(rows, base, ins, CreatedOffset(l, budget, generate, pairs, i));
  }

  /** Any table holding the inserted rows laid out from `base` satisfies
      `CreatedIn`. */
  lemma LaidOutCreated(l: Ledger, budget: Id, generate: string -> string, pairs: seq<CategoryLine>,
                       base: Id, rows: map<Id, Category>)
    requires Layout(rows, base, NewRows(Classify(l, budget, generate, pairs)))
    ensures CreatedIn(l, budget, generate, pairs, base, rows)
  {
    forall i | 0 <= i < |pairs| && Creates(l, budget, pairs[i])
      ensures Lookup(rows, base + CreatedOffset(l, budget, generate, pairs, i)) == Some(NewRow(budget, generate, pairs[i]))
    {
      LaidOutCreatedAt(l, budget, generate, pairs, base, rows, i);
    }
  }

  /** In any table holding the inserted rows laid out from `base`, the row
      under a new key `x` past `base` is a creating line's, at its offset, or
      a copy of a category that one line deletes and another updates. */
  lemma LaidOutFromAt(l: Ledger, budget: Id, generate: string -> string, pairs: seq<CategoryLine>,
                      base: Id, rows: map<Id, Category>, x: Id)
    requires Layout(rows, base, NewRows(Classify(l, budget, generate, pairs)))
    requires x in rows && base <= x < base + |NewRows(Classify(l, budget, generate, pairs))|
    ensures || (exists i :: (0 <= i < |pairs| && Creates(l, budget, pairs[i]) &&
                  x == base + CreatedOffset(l, budget, generate, pairs, i)))
            || (exists k :: (k in Snapshot(l, budget) && DeletedBy(l, budget, pairs, k) && UpdatedBy(l, budget, pairs, k) &&
                  rows[x] == Classify(l, budget, generate, pairs).copies[k]))
  {
    var plan := Classify(l, budget, generate, pairs);
    var ins := NewRows(plan);
    var n := x - base;
    LayoutAt(rows, base, ins, n);
    assert rows[x] == ins[n];
    NewRowFrom(l, budget, generate, pairs, n);
    if !exists i :: 0 <= i < |pairs| && Creates(l, budget, pairs[i]) && CreatedOffset(l, budget, generate, pairs, i) == n {
      var k :| k in plan.copies && DeletedBy(l, budget, pairs, k) && UpdatedBy(l, budget, pairs, k) && ins[n] == plan.copies[k];
      assert k in Snapshot(l, budget);
    }
  }

  /** Any table holding the inserted rows laid out from `base`, with no
      other new key, satisfies `NewKeysFrom`. */
  lemma LaidOutFrom(l: Ledger, budget: Id, generate: string -> string, pairs: seq<CategoryLine>,
                    base: Id, rows: map<Id, Category>)
    requires Layout(rows, base, NewRows(Classify(l, budget, generate, pairs)))
    requires forall x :: x in rows && x !in l.categories.rows ==>
      base <= x < base + |NewRows(Classify(l, budget, generate, pairs))|
    ensures NewKeysFrom(l, budget, generate, pairs, base, rows)
  {
    forall x | x in rows && x !in l.categories.rows
      ensures || (exists i :: (0 <= i < |pairs| && Creates(l, budget, pairs[i]) &&
                    x == base + CreatedOffset(l, budget, generate, pairs, i)))
              || (exists k :: (k in Snapshot(l, budget) && DeletedBy(l, budget, pairs, k) && UpdatedBy(l, budget, pairs, k) &&
                    rows[x] == Classify(l, budget, generate, pairs).copies[k]))
    {
      LaidOutFromAt(l, budget, generate, pairs, base, rows, x);
    }
  }

  /** Each line creating a category gets a row of its own, under the key at
      its offset from `InsertBase`; every other new key holds the copy of a
      category that one line deletes and another updates. */
  lemma ReconciledCreatedKeys(l: Ledger, caller: UserId, budget: Id, generate: string -> string,
                              pairs: seq<CategoryLine>)
    ensures var r := Reconciled(l, caller, budget, generate, pairs);
      var base := InsertBase(l, caller, budget, generate, pairs);
      r.Ok? ==> && l.categories.next <= base
                && CreatedIn(l, budget, generate, pairs, base, r.value.categories.rows)
                && NewKeysFrom(l, budget, generate, pairs, base, r.value.categories.rows)
  {
    var r := Reconciled(l, caller, budget, generate, pairs);
    ReconciledInserts(l, caller, budget, generate, pairs);
    if r.Ok? {
      var base := InsertBase(l, caller, budget, generate, pairs);
      LaidOutCreated(l, budget, generate, pairs, base, r.value.categories.rows);
      LaidOutFrom(l, budget, generate, pairs, base, r.value.categories.rows);
    }
  }

  /** `CreatedIn` read at one creating line. */
  lemma CreatedInAt(l: Ledger, budget: Id, generate: string -> string, pairs: seq<CategoryLine>,
                    base: Id, rows: map<Id, Category>, i: nat)
    requires i < |pairs| && Creates(l, budget, pairs[i])
    requires CreatedIn(l, budget, generate, pairs, base, rows)
    ensures Lookup(rows, base + CreatedOffset(l, budget, generate, pairs, i)) == Some(NewRow(budget, generate, pairs[i]))
  {
  }

  /** In a table satisfying `CreatedIn`, two creating lines have their
      new categories under two keys from `base` on, in line order. */
  lemma KeysApart(l: Ledger, budget: Id, generate: string -> string, pairs: seq<CategoryLine>,
                  base: Id, rows: map<Id, Category>, i: nat, j: nat)
    requires i < j < |pairs| && Creates(l, budget, pairs[i]) && Creates(l, budget, pairs[j])
    requires CreatedIn(l, budget, generate, pairs, base, rows)
    ensures exists y, z :: (base <= y < z
      && y in rows && rows[y] == NewRow(budget, generate, pairs[i])
      && z in rows && rows[z] == NewRow(budget, generate, pairs[j]))
  {
    CreatedApart(l, budget, generate, pairs, i, j);
    CreatedInAt(l, budget, generate, pairs, base, rows, i);
    CreatedInAt(l, budget, generate, pairs, base, rows, j);
  }

  /** Two lines creating categories, even two equal lines, give two rows
      under two new keys. */
  lemma ReconciledCreatesApart(l: Ledger, caller: UserId, budget: Id, generate: string -> string,
                               pairs: seq<CategoryLine>, i: nat, j: nat)
    requires i < j < |pairs| && Creates(l, budget, pairs[i]) && Creates(l, budget, pairs[j])
    ensures var r := Reconciled(l, caller, budget, generate, pairs);
      r.Ok? ==> exists y, z :: (l.categories.next <= y < z
        && y in r.value.categories.rows && r.value.categories.rows[y] == NewRow(budget, generate, pairs[i])
        && z in r.value.categories.rows && r.value.categories.rows[z] == NewRow(budget, generate, pairs[j]))
  {
    var r := Reconciled(l, caller, budget, generate, pairs);
    ReconciledCreatedKeys(l, caller, budget, generate, pairs);
    if r.Ok? {
      KeysApart(l, budget, generate, pairs, InsertBase(l, caller, budget, generate, pairs), r.value.categories.rows, i, j);
    }
  }
}
