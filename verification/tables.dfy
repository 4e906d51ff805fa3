/** A database table as an immutable value: rows keyed by primary key plus the
    auto-increment counter. "The first row that matches", which the handlers
    get from `.first()`, `next(...)` over an unordered queryset and
    `get_or_create`, is modelled as the matching row with the lowest key. */
module Tables {
  import opened Wrappers

  /** A primary key. */
  type Id = nat

  datatype Table<R> = Table(rows: map<Id, R>, next: Id)

  /** Every key was handed out by the counter. */
  predicate Valid<R>(t: Table<R>) {
    forall id :: id in t.rows ==> id < t.next
  }

  type Store<R> = t: Table<R> | Valid(t) witness Table(map[], 0)

  function Empty<R>(): Store<R> {
    Table(map[], 0)
  }

  /** `Model.objects.create(...)`: stores `r` under a key never used before. */
  function Insert<R>(t: Store<R>, r: R): (res: (Store<R>, Id))
    ensures res.1 !in t.rows && res.1 >= t.next
    ensures res.1 in res.0.rows && res.0.rows[res.1] == r
    ensures res.0.rows.Keys == t.rows.Keys + {res.1}
    ensures forall id :: id in t.rows ==> res.0.rows[id] == t.rows[id]
    ensures res.0.next == t.next + 1
  {
    (Table(t.rows[t.next := r], t.next + 1), t.next)
  }

  /** `instance.save()` with its key set: the row with key `id` becomes `r`,
      inserted under that key if it is missing. */
  function Put<R>(t: Store<R>, id: Id, r: R): (u: Store<R>)
    ensures id in u.rows && u.rows[id] == r
    ensures u.rows.Keys == t.rows.Keys + {id}
    ensures forall k :: k in t.rows && k != id ==> u.rows[k] == t.rows[k]
    ensures id < t.next ==> u.next == t.next
    ensures t.next <= u.next
  {
    Table(t.rows[id := r], if id < t.next then t.next else id + 1)
  }

  /** `instance.delete()`: the row with key `id`, if any, is gone. */
  function Remove<R>(t: Store<R>, id: Id): (u: Store<R>)
    ensures u.rows.Keys == t.rows.Keys - {id}
    ensures forall k :: k in u.rows ==> u.rows[k] == t.rows[k]
    ensures u.next == t.next
  {
    Table(t.rows - {id}, t.next)
  }

  /** A non-empty sequence is its prefix followed by its last element. */
  lemma SplitLast<T>(s: seq<T>)
    requires |s| > 0
    ensures s == s[..|s| - 1] + [s[|s| - 1]]
  {
    var pre, last := s[..|s| - 1], [s[|s| - 1]];
    assert |pre + last| == |s|;
    forall i | 0 <= i < |s| ensures (pre + last)[i] == s[i] {
      if i < |pre| {
        assert (pre + last)[i] == pre[i];
      }
    }
  }

  /** Keys in strictly increasing order. */
  predicate Increasing(ids: seq<Id>) {
    forall i, j :: 0 <= i < j < |ids| ==> ids[i] < ids[j]
  }

  /** `Model.objects.filter(p)` in key order: the keys of the rows satisfying `p`. */
  function Select<R>(t: Store<R>, p: R -> bool): (ids: seq<Id>)
    ensures forall id :: id in ids <==> id in t.rows && p(t.rows[id])
    ensures Increasing(ids)
  {
    SelectFrom(t, p, 0)
  }

  function SelectFrom<R>(t: Store<R>, p: R -> bool, lo: nat): (ids: seq<Id>)
    ensures forall id :: id in ids <==> lo <= id && id in t.rows && p(t.rows[id])
    ensures Increasing(ids)
    ensures forall i :: 0 <= i < |ids| ==> lo <= ids[i]
    decreases t.next - lo
  {
    if lo >= t.next then []
    else
      var rest := SelectFrom(t, p, lo + 1);
      if lo in t.rows && p(t.rows[lo]) then [lo] + rest else rest
  }

  /** `.filter(p).first()`: the lowest key whose row satisfies `p`. */
  function First<R>(t: Store<R>, p: R -> bool): (r: Option<Id>)
    ensures r.Some? ==> r.value in t.rows && p(t.rows[r.value])
    ensures r.Some? ==> forall id :: id in t.rows && id < r.value ==> !p(t.rows[id])
    ensures r.None? ==> forall id :: id in t.rows ==> !p(t.rows[id])
  {
    var ids := Select(t, p);
    if |ids| == 0 then None
    else
      assert forall id :: id in t.rows && p(t.rows[id]) ==> ids[0] <= id by {
        forall id | id in t.rows && p(t.rows[id]) ensures ids[0] <= id {
          var i :| 0 <= i < |ids| && ids[i] == id;
        }
      }
      Some(ids[0])
  }

  /** The rows that satisfy `p`, all else removed: the rows a queryset would return. */
  function Keep<R>(t: Store<R>, p: R -> bool): (u: Store<R>)
    ensures forall id :: id in u.rows <==> id in t.rows && p(t.rows[id])
    ensures forall id :: id in u.rows ==> u.rows[id] == t.rows[id]
    ensures u.next == t.next
  {
    Table(map id | id in t.rows && p(t.rows[id]) :: t.rows[id], t.next)
  }

  /** The contribution of the row with key `id` to a column total. */
  function RowValue<R>(t: Store<R>, val: R -> int, id: Id): int {
    if id in t.rows then val(t.rows[id]) else 0
  }

  /** `sum(val(row) for row in table)` over the keys from `lo` upwards. */
  function SumFrom<R>(t: Store<R>, val: R -> int, lo: nat): int
    decreases t.next - lo
  {
    if lo >= t.next then 0 else RowValue(t, val, lo) + SumFrom(t, val, lo + 1)
  }

  function Sum<R>(t: Store<R>, val: R -> int): int {
    SumFrom(t, val, 0)
  }

  /** Changing one row's contribution changes the total by exactly the difference. */
  lemma {:induction false} SumPointChange<R>(t: Store<R>, u: Store<R>, val: R -> int, k: Id, lo: nat)
    requires t.next == u.next && k < t.next
    requires forall id :: id != k ==> RowValue(t, val, id) == RowValue(u, val, id)
    ensures SumFrom(u, val, lo) == SumFrom(t, val, lo) + (if lo <= k then RowValue(u, val, k) - RowValue(t, val, k) else 0)
    decreases t.next - lo
  {
    if lo < t.next {
      SumPointChange(t, u, val, k, lo + 1);
    }
  }

  /** Appending a row adds its contribution to the total. */
  lemma {:induction false} SumAppend<R>(t: Store<R>, u: Store<R>, val: R -> int, lo: nat)
    requires u.next == t.next + 1 && lo <= t.next
    requires forall id: Id :: id < t.next ==> RowValue(t, val, id) == RowValue(u, val, id)
    ensures SumFrom(u, val, lo) == SumFrom(t, val, lo) + RowValue(u, val, t.next)
    decreases t.next - lo
  {
    if lo < t.next {
      SumAppend(t, u, val, lo + 1);
    }
  }

  /** The total after `Put` on an existing row. */
  lemma SumPut<R>(t: Store<R>, id: Id, r: R, val: R -> int)
    requires id in t.rows
    ensures Sum(Put(t, id, r), val) == Sum(t, val) - val(t.rows[id]) + val(r)
  {
    SumPointChange(t, Put(t, id, r), val, id, 0);
  }

  /** The total after `Remove`. */
  lemma SumRemove<R>(t: Store<R>, id: Id, val: R -> int)
    requires id in t.rows
    ensures Sum(Remove(t, id), val) == Sum(t, val) - val(t.rows[id])
  {
    SumPointChange(t, Remove(t, id), val, id, 0);
  }

  /** The total after `Insert`. */
  lemma SumInsert<R>(t: Store<R>, r: R, val: R -> int)
    ensures Sum(Insert(t, r).0, val) == Sum(t, val) + val(r)
  {
    SumAppend(t, Insert(t, r).0, val, 0);
  }
}
