/** `handle_savings`, the last phase of `CategoryCreateView.post`: what the
    mirroring of savings lines does to the caller's savings goals. */
module ReconcileMirror {
  import opened Wrappers
  import opened Tables
  import opened Ledger
  import opened OracleText
  import opened Reconcile

  /** The line sets the amount saved of the goal with key `s`: it names
      savings and the caller's goals, as first loaded, lead from its name to
      `s`. */
  predicate Mirrors(start: Store<Savings>, caller: UserId, p: CategoryLine, s: Id) {
    NamesSavings(p.name) && Goal(start, caller, p.name) == Some(s)
  }

  /** The line creates a goal: it names savings and no goal of the caller
      had its name when the goals were loaded. */
  predicate Opens(start: Store<Savings>, caller: UserId, p: CategoryLine) {
    NamesSavings(p.name) && Goal(start, caller, p.name).None?
  }

  /** The goal a line creates. */
  function Opened(caller: UserId, generate: string -> string, p: CategoryLine): (g: Savings)
    ensures g.user == Some(caller) && g.goalName == p.name && g.amountSaved == p.amount
  {
    Savings(Some(caller), p.name, Some(0), p.amount, Some(generate(p.name)))
  }

  /** How many of the lines create a goal. */
  function OpenCount(start: Store<Savings>, caller: UserId, pairs: seq<CategoryLine>): (n: nat)
    ensures n <= |pairs|
    decreases |pairs|
  {
    if |pairs| == 0 then 0
    else OpenCount(start, caller, pairs[..|pairs| - 1]) +
         (if Opens(start, caller, pairs[|pairs| - 1]) then 1 else 0)
  }

  /** The key under which the goal created by line `i` is stored: one past
      the goals created by the lines before it. */
  function OpenKey(savings: Store<Savings>, start: Store<Savings>, caller: UserId,
                   pairs: seq<CategoryLine>, i: nat): (k: Id)
    requires i <= |pairs|
    ensures savings.next <= k
  {
    savings.next + OpenCount(start, caller, pairs[..i])
  }

  /** Lines before an opening line open fewer goals than the lines up to a
      later one. */
  lemma {:induction false} OpenCountGrows(start: Store<Savings>, caller: UserId, pairs: seq<CategoryLine>,
                                          i: nat, j: nat)
    requires i < j <= |pairs| && Opens(start, caller, pairs[i])
    ensures OpenCount(start, caller, pairs[..i]) < OpenCount(start, caller, pairs[..j])
    decreases j
  {
    if j == i + 1 {
      assert pairs[..j][..i] == pairs[..i];
      assert pairs[..j][i] == pairs[i];
    } else {
      OpenCountGrows(start, caller, pairs, i, j - 1);
      assert pairs[..j][..j - 1] == pairs[..j - 1];
    }
  }

  /** Each created goal takes the next key of the counter, and nothing else
      moves it. */
  lemma {:induction false} SyncNext(start: Store<Savings>, savings: Store<Savings>, caller: UserId,
                                    generate: string -> string, pairs: seq<CategoryLine>)
    requires start.rows.Keys <= savings.rows.Keys && start.next <= savings.next
    ensures SyncSavings(start, savings, caller, generate, pairs).next == savings.next + OpenCount(start, caller, pairs)
    decreases |pairs|
  {
    if |pairs| > 0 {
      var pre := pairs[..|pairs| - 1];
      SyncNext(start, savings, caller, generate, pre);
      var p := pairs[|pairs| - 1];
      if NamesSavings(p.name) && Goal(start, caller, p.name).Some? {
        assert Goal(start, caller, p.name).value in start.rows;
      }
    }
  }

  /** The mirroring ends by handling the last line. */
  lemma SyncPrefix(start: Store<Savings>, savings: Store<Savings>, caller: UserId,
                   generate: string -> string, pairs: seq<CategoryLine>)
    requires start.rows.Keys <= savings.rows.Keys && start.next <= savings.next && |pairs| > 0
    ensures var before := SyncSavings(start, savings, caller, generate, pairs[..|pairs| - 1]);
      var p := pairs[|pairs| - 1];
      var r := SyncSavings(start, savings, caller, generate, pairs);
      && (!NamesSavings(p.name) ==> r == before)
      && (forall s :: Mirrors(start, caller, p, s) ==>
            r == Put(before, s, before.rows[s].(amountSaved := p.amount, description := Some(generate(p.name)))))
      && (Opens(start, caller, p) ==> r == Insert(before, Opened(caller, generate, p)).0)
  {
  }

  /** A goal no line mirrors keeps its row. */
  lemma {:induction false} SyncUntouched(start: Store<Savings>, savings: Store<Savings>, caller: UserId,
                                         generate: string -> string, pairs: seq<CategoryLine>, s: Id)
    requires start.rows.Keys <= savings.rows.Keys && start.next <= savings.next
    requires s in savings.rows
    requires forall i :: 0 <= i < |pairs| ==> !Mirrors(start, caller, pairs[i], s)
    ensures var r := SyncSavings(start, savings, caller, generate, pairs);
      s in r.rows && r.rows[s] == savings.rows[s]
    decreases |pairs|
  {
    if |pairs| > 0 {
      var pre := pairs[..|pairs| - 1];
      forall i | 0 <= i < |pre| ensures !Mirrors(start, caller, pre[i], s) {
        assert pre[i] == pairs[i];
      }
      SyncUntouched(start, savings, caller, generate, pre, s);
      SyncPrefix(start, savings, caller, generate, pairs);
    }
  }

  /** A goal some line mirrors ends with the amount of the last such line,
      and that line's fresh description; its other fields are kept. */
  lemma {:induction false} SyncLast(start: Store<Savings>, savings: Store<Savings>, caller: UserId,
                                    generate: string -> string, pairs: seq<CategoryLine>, s: Id, i: nat)
    requires start.rows.Keys <= savings.rows.Keys && start.next <= savings.next
    requires i < |pairs| && Mirrors(start, caller, pairs[i], s)
    requires forall j :: i < j < |pairs| ==> !Mirrors(start, caller, pairs[j], s)
    ensures var r := SyncSavings(start, savings, caller, generate, pairs);
      s in r.rows &&
      r.rows[s] == savings.rows[s].(amountSaved := pairs[i].amount, description := Some(generate(pairs[i].name)))
    decreases |pairs|
  {
    var pre := pairs[..|pairs| - 1];
    SyncPrefix(start, savings, caller, generate, pairs);
    if i == |pairs| - 1 {
      assert s in start.rows;
      SyncFields(start, savings, caller, generate, pre, s);
    } else {
      forall j | i < j < |pre| ensures !Mirrors(start, caller, pre[j], s) {
        assert pre[j] == pairs[j];
      }
      assert pre[i] == pairs[i];
      SyncLast(start, savings, caller, generate, pre, s, i);
    }
  }

  /** Mirroring changes only the amount saved and the description of a goal
      that was loaded. */
  lemma {:induction false} SyncFields(start: Store<Savings>, savings: Store<Savings>, caller: UserId,
                                      generate: string -> string, pairs: seq<CategoryLine>, s: Id)
    requires start.rows.Keys <= savings.rows.Keys && start.next <= savings.next
    requires s in savings.rows
    ensures var r := SyncSavings(start, savings, caller, generate, pairs);
      s in r.rows &&
      r.rows[s] == savings.rows[s].(amountSaved := r.rows[s].amountSaved, description := r.rows[s].description)
    decreases |pairs|
  {
    if |pairs| > 0 {
      SyncFields(start, savings, caller, generate, pairs[..|pairs| - 1], s);
      SyncPrefix(start, savings, caller, generate, pairs);
    }
  }

  /** Handling the last line keeps every row that was not loaded at the
      start: the line either updates a loaded goal or adds a new key. */
  lemma SyncLastKeeps(start: Store<Savings>, savings: Store<Savings>, caller: UserId,
                      generate: string -> string, pairs: seq<CategoryLine>, k: Id)
    requires start.rows.Keys <= savings.rows.Keys && start.next <= savings.next && |pairs| > 0
    requires k in SyncSavings(start, savings, caller, generate, pairs[..|pairs| - 1]).rows && k !in start.rows
    ensures var before := SyncSavings(start, savings, caller, generate, pairs[..|pairs| - 1]);
      var r := SyncSavings(start, savings, caller, generate, pairs);
      k in r.rows && r.rows[k] == before.rows[k]
  {
    var p := pairs[|pairs| - 1];
    if NamesSavings(p.name) && Goal(start, caller, p.name).Some? {
      assert Goal(start, caller, p.name).value in start.rows;
    }
  }

  /** Every line that creates a goal leaves it under its own key, counted
      from the first key not used before. */
  lemma {:induction false} SyncOpens(start: Store<Savings>, savings: Store<Savings>, caller: UserId,
                                     generate: string -> string, pairs: seq<CategoryLine>, i: nat)
    requires start.rows.Keys <= savings.rows.Keys && start.next <= savings.next
    requires i < |pairs| && Opens(start, caller, pairs[i])
    ensures var r := SyncSavings(start, savings, caller, generate, pairs);
      var k := OpenKey(savings, start, caller, pairs, i);
      k in r.rows && r.rows[k] == Opened(caller, generate, pairs[i])
    decreases |pairs|
  {
    var pre := pairs[..|pairs| - 1];
    var k := OpenKey(savings, start, caller, pairs, i);
    if i == |pairs| - 1 {
      SyncNext(start, savings, caller, generate, pre);
      SyncPrefix(start, savings, caller, generate, pairs);
      assert pairs[..i] == pre;
    } else {
      assert pre[i] == pairs[i];
      assert pre[..i] == pairs[..i];
      SyncOpens(start, savings, caller, generate, pre, i);
      SyncLastKeeps(start, savings, caller, generate, pairs, k);
    }
  }

  /** Two lines that create goals create two: the earlier one's key is the
      lower, even when the lines are identical. */
  lemma SyncOpensApart(start: Store<Savings>, savings: Store<Savings>, caller: UserId,
                       pairs: seq<CategoryLine>, i: nat, j: nat)
    requires i < j < |pairs| && Opens(start, caller, pairs[i]) && Opens(start, caller, pairs[j])
    ensures OpenKey(savings, start, caller, pairs, i) < OpenKey(savings, start, caller, pairs, j)
  {
    OpenCountGrows(start, caller, pairs, i, j);
  }
}
