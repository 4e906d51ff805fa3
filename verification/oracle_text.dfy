/** The text exchanged with the category oracle in `CategoryCreateView.post`:
    the listing of existing categories put into the prompt, the line parser
    that reads `name: amount` pairs back out of a reply, and the retry loop
    that asks again until the parsed amounts reach the budget's total. */
module OracleText {
  import opened Wrappers
  import opened Text
  import opened Decimals
  import opened Ledger

  /** One `name: amount` pair read from a reply. */
  datatype CategoryLine = CategoryLine(name: string, amount: Cents)

  /** A name as the parser hands it on: stripped, and free of colons and line breaks. */
  predicate CleanName(name: string) {
    Stripped(name) && ':' !in name && '\n' !in name
  }

  /** One line of a reply. It counts only if it has exactly one colon (a
      second colon makes the two-way unpacking raise `ValueError`) and the
      text after the colon, stripped of whitespace and then of `$`, is a
      decimal; the name is the stripped text before the colon. */
  function ParseLine(line: string): (r: Option<CategoryLine>)
  {
    var parts := Split(line, ':');
    if |parts| != 2 then None
    else
      match ParseCents(StripDollar(Strip(parts[1])))
      case None => None
      case Some(c) => Some(CategoryLine(Strip(parts[0]), c))
  }

  /** A parsed line had exactly one colon; its name is stripped and, coming
      from a single line, free of colons and line breaks. */
  lemma ParseLineShape(line: string)
    requires ParseLine(line).Some?
    ensures Count(line, ':') == 1
    ensures '\n' !in line ==> CleanName(ParseLine(line).value.name)
  {
    var parts := Split(line, ':');
    var name := ParseLine(line).value.name;
    assert name == Strip(parts[0]);
    SplitPiecesFree(line, ':');
    assert ':' !in parts[0];
    if '\n' !in line {
      JoinSplit(line, ':');
      assert line == parts[0] + [':'] + parts[1];
      assert '\n' !in parts[0];
    }
  }

  /** What the parser makes of each line, in line order. */
  function LineResults(lines: seq<string>): (r: seq<Option<CategoryLine>>)
    ensures |r| == |lines|
  {
    seq(|lines|, i requires 0 <= i < |lines| => ParseLine(lines[i]))
  }

  /** The pairs of the lines that parse, in line order. */
  function ParseLines(lines: seq<string>): (r: seq<CategoryLine>)
    ensures |r| <= |lines|
  {
    Somes(LineResults(lines))
  }

  /** `response_text.strip().split('\n')`, then every line through the parser. */
  function ParseReply(text: string): seq<CategoryLine> {
    ParseLines(Split(Strip(text), '\n'))
  }

  /** Every name the parser produces from separate lines is clean. */
  lemma ParseLinesClean(lines: seq<string>)
    requires forall i :: 0 <= i < |lines| ==> '\n' !in lines[i]
    ensures forall p :: p in ParseLines(lines) ==> CleanName(p.name)
  {
    var xs := LineResults(lines);
    forall p | p in ParseLines(lines) ensures CleanName(p.name) {
      SomesMember(xs, p);
      var i :| 0 <= i < |xs| && xs[i] == Some(p);
      ParseLineShape(lines[i]);
    }
  }

  /** Every name read from a reply is clean. */
  lemma ParseReplyClean(text: string)
    ensures forall p :: p in ParseReply(text) ==> CleanName(p.name)
  {
    SplitPiecesFree(Strip(text), '\n');
    ParseLinesClean(Split(Strip(text), '\n'));
  }

  /** Parsing respects line order: the pairs of two runs of lines are the
      pairs of the first run followed by those of the second. */
  lemma ParseLinesAppend(a: seq<string>, b: seq<string>)
    ensures ParseLines(a + b) == ParseLines(a) + ParseLines(b)
  {
    forall i | 0 <= i < |a + b| ensures LineResults(a + b)[i] == (LineResults(a) + LineResults(b))[i] {
      if i < |a| {
        assert (a + b)[i] == a[i];
      } else {
        assert (a + b)[i] == b[i - |a|];
      }
    }
    assert LineResults(a + b) == LineResults(a) + LineResults(b);
    SomesAppend(LineResults(a), LineResults(b));
  }

  /** Negative amounts are not refused. */
  lemma NegativeAmountAccepted(name: string, c: Cents)
    requires CleanName(name) && c < 0
    ensures ParseLine(name + ": " + FormatCents(c)) == Some(CategoryLine(name, c))
  {
    RenderedLineParses(name, c);
  }

  /** The sum of the parsed amounts. */
  function Total(lines: seq<CategoryLine>): Cents
    decreases |lines|
  {
    if |lines| == 0 then 0 else lines[0].amount + Total(lines[1..])
  }

  /** `f"{cat.amount}"`: a stored amount, or `None` for a null one. */
  function AmountText(amount: Option<Cents>): string {
    match amount
    case None => "None"
    case Some(c) => FormatCents(c)
  }

  /** `f"{cat.name}: {cat.amount}"`. */
  function ListingLine(c: Category): string {
    c.name + ": " + AmountText(c.amount)
  }

  /** The lines of the listing, one per category. */
  function ListingLines(cats: seq<Category>): (lines: seq<string>)
    ensures |lines| == |cats|
  {
    seq(|cats|, i requires 0 <= i < |cats| => ListingLine(cats[i]))
  }

  /** The existing categories as the prompt lists them, one per line. */
  function Listing(cats: seq<Category>): string {
    Join(ListingLines(cats), '\n')
  }

  /** The pairs a listing stands for. */
  function ListedPairs(cats: seq<Category>): (r: seq<CategoryLine>)
    requires forall i :: 0 <= i < |cats| ==> cats[i].amount.Some?
    ensures |r| == |cats|
  {
    seq(|cats|, i requires 0 <= i < |cats| => CategoryLine(cats[i].name, cats[i].amount.value))
  }

  /** A rendered amount, after the space that follows the colon, strips back to itself. */
  lemma SpaceThenAmount(f: string)
    requires |f| > 0 && (f[0] == '-' || IsDigit(f[0])) && IsDigit(f[|f| - 1])
    ensures Strip(" " + f) == f
    ensures StripDollar(f) == f
  {
    StripAfterSpace(f);
    TrimNoop(f, IsDollar);
  }

  /** A line with one colon splits into the text before it and the text after it. */
  lemma SplitListingLine(name: string, f: string)
    requires ':' !in name && ':' !in f
    ensures Split(name + ": " + f, ':') == [name, " " + f]
  {
    assert ':' !in " " + f;
    SplitJoin([name, " " + f], ':');
    assert Join([name, " " + f], ':') == name + ": " + f;
  }

  /** A line whose two pieces read as a name and an amount parses into them. */
  lemma LineFromPieces(line: string, name: string, rest: string, c: Cents)
    requires Split(line, ':') == [name, rest]
    requires ParseCents(StripDollar(Strip(rest))) == Some(c)
    ensures ParseLine(line) == Some(CategoryLine(Strip(name), c))
  {
  }

  /** A listed line parses back into the name and amount it was made from. */
  lemma RenderedLineParses(name: string, c: Cents)
    requires CleanName(name)
    ensures ParseLine(name + ": " + FormatCents(c)) == Some(CategoryLine(name, c))
  {
    var f := FormatCents(c);
    SplitListingLine(name, f);
    SpaceThenAmount(f);
    FormatParseRoundTrip(c);
    TrimNoop(name, IsSpace);
    LineFromPieces(name + ": " + f, name, " " + f, c);
  }

  /** Lines rendered from categories with amounts parse back into their pairs. */
  lemma ListingLinesParse(cats: seq<Category>, lines: seq<string>)
    requires |lines| == |cats|
    requires forall i :: 0 <= i < |cats| ==> cats[i].amount.Some? && CleanName(cats[i].name)
    requires forall i :: 0 <= i < |cats| ==> lines[i] == ListingLine(cats[i])
    ensures ParseLines(lines) == ListedPairs(cats)
  {
    var xs := LineResults(lines);
    forall i | 0 <= i < |xs| ensures xs[i] == Some(ListedPairs(cats)[i]) {
      RenderedLineParses(cats[i].name, cats[i].amount.value);
    }
    SomesAll(xs);
  }

  /** An empty reply holds no pairs. */
  lemma EmptyReply()
    ensures ParseReply("") == []
  {
    assert Strip("") == "";
    assert Split("", '\n') == [""];
    assert ParseLine("") == None by {
      assert Split("", ':') == [""];
    }
    assert LineResults([""]) == [None];
  }

  /** A listed line stays on its line, and has no whitespace at either end. */
  lemma ListingLineShape(c: Category)
    requires CleanName(c.name)
    ensures '\n' !in ListingLine(c)
    ensures Stripped(ListingLine(c))
  {
    var f := AmountText(c.amount);
    assert ListingLine(c) == c.name + ": " + f;
    assert |f| > 0 && !IsSpace(f[|f| - 1]) && '\n' !in f;
    if |c.name| > 0 {
      assert ListingLine(c)[0] == c.name[0];
    } else {
      assert ListingLine(c)[0] == ':';
    }
  }

  /** A listing has no whitespace at either end. */
  lemma ListingStripped(cats: seq<Category>)
    requires |cats| > 0
    requires forall i :: 0 <= i < |cats| ==> CleanName(cats[i].name)
    ensures Stripped(Listing(cats))
  {
    var lines := ListingLines(cats);
    ListingLineShape(cats[0]);
    ListingLineShape(cats[|cats| - 1]);
    JoinFirst(lines, '\n');
    JoinLast(lines, '\n');
  }

  /** No listed line contains a line break. */
  lemma ListingLinesFree(cats: seq<Category>)
    requires forall i :: 0 <= i < |cats| ==> CleanName(cats[i].name)
    ensures forall i :: 0 <= i < |cats| ==> '\n' !in ListingLines(cats)[i]
  {
    forall i | 0 <= i < |cats| ensures '\n' !in ListingLines(cats)[i] {
      ListingLineShape(cats[i]);
    }
  }

  /** A non-empty listing strips to itself and splits back into its lines. */
  lemma ListingSplits(cats: seq<Category>)
    requires |cats| > 0
    requires forall i :: 0 <= i < |cats| ==> CleanName(cats[i].name)
    ensures Split(Strip(Listing(cats)), '\n') == ListingLines(cats)
  {
    ListingLinesFree(cats);
    ListingStripped(cats);
    SplitStrippedJoin(ListingLines(cats), '\n');
  }

  /** A reply that repeats the prompt's listing of existing categories unchanged
      parses back into exactly those categories' names and amounts, in order. */
  lemma ListingRoundTrip(cats: seq<Category>)
    requires forall i :: 0 <= i < |cats| ==> cats[i].amount.Some? && CleanName(cats[i].name)
    ensures ParseReply(Listing(cats)) == ListedPairs(cats)
  {
    if |cats| == 0 {
      assert Listing(cats) == "";
      EmptyReply();
    } else {
      ListingSplits(cats);
      ListingLinesParse(cats, ListingLines(cats));
    }
  }

  /** The pairs of each reply, in the order the replies arrive. */
  function Rounds(replies: seq<string>): (rounds: seq<seq<CategoryLine>>)
    ensures |rounds| == |replies|
    ensures forall i :: 0 <= i < |replies| ==> rounds[i] == ParseReply(replies[i])
  {
    seq(|replies|, i requires 0 <= i < |replies| => ParseReply(replies[i]))
  }

  /** The retry loop of `CategoryCreateView.post`, fed the pairs parsed from
      the oracle's successive replies. `last` and `total` are the pairs and sum
      of the previous round. The loop runs while `total <= target`, fails on a
      round with no pairs, and stops early when the new sum equals the target.
      Running out of rounds stands for a loop that never ends. */
  function Retry(rounds: seq<seq<CategoryLine>>, target: Cents, last: seq<CategoryLine>, total: Cents)
    : (r: Result<seq<CategoryLine>, Failure>)
    ensures r.Ok? ==>
      || (r.value == last && total > target)
      || (|r.value| > 0 && Total(r.value) >= target && r.value in rounds)
    ensures r.Err? ==> r.error == UnparsableReply || r.error == OracleUnsettled
    decreases |rounds|
  {
    if total > target then Ok(last)
    else if |rounds| == 0 then Err(OracleUnsettled)
    else
      var parsed := rounds[0];
      if |parsed| == 0 then Err(UnparsableReply)
      else if Total(parsed) == target then Ok(parsed)
      else
        var r := Retry(rounds[1..], target, parsed, Total(parsed));
        assert r.Ok? && r.value != parsed ==> r.value in rounds by {
          if r.Ok? && r.value != parsed {
            assert r.value in rounds[1..];
          }
        }
        r
  }

  /** The loop as the handler starts it: no pairs yet and a running total of zero. */
  function Settle(replies: seq<string>, target: Cents): Result<seq<CategoryLine>, Failure> {
    Retry(Rounds(replies), target, [], 0)
  }

  /** Round `i` is the one the loop stops at: every earlier round had pairs
      whose sum fell short of the target, and this round's pairs reach it. */
  predicate SettlesAt(rounds: seq<seq<CategoryLine>>, target: Cents, i: nat) {
    && i < |rounds|
    && (forall j :: 0 <= j < i ==> |rounds[j]| > 0 && Total(rounds[j]) < target)
    && |rounds[i]| > 0 && Total(rounds[i]) >= target
  }

  /** While the running total is within the target, the previous round's pairs
      play no part in what the loop returns. */
  lemma RetryForgetsLast(rounds: seq<seq<CategoryLine>>, target: Cents, last: seq<CategoryLine>, total: Cents)
    requires 0 <= target && total <= target
    ensures Retry(rounds, target, last, total) == Retry(rounds, target, [], 0)
  {
  }

  /** One round of the loop: a round without pairs fails, a round whose sum
      reaches the target (equal, or over it, which ends the loop through its
      condition) is taken, and a round that falls short is retried. */
  lemma RetryStep(rounds: seq<seq<CategoryLine>>, target: Cents)
    requires target >= 0 && |rounds| > 0
    ensures Retry(rounds, target, [], 0) ==
        if |rounds[0]| == 0 then Err(UnparsableReply)
        else if Total(rounds[0]) >= target then Ok(rounds[0])
        else Retry(rounds[1..], target, [], 0)
  {
    var parsed := rounds[0];
    if |parsed| > 0 && Total(parsed) < target {
      RetryForgetsLast(rounds[1..], target, parsed, Total(parsed));
    }
  }

  /** The exit condition: on success with a non-negative target, the pairs
      are those of the first round whose sum reached the target. */
  lemma {:induction false} RetryExit(rounds: seq<seq<CategoryLine>>, target: Cents)
    requires target >= 0 && Retry(rounds, target, [], 0).Ok?
    ensures exists i: nat :: SettlesAt(rounds, target, i) && Retry(rounds, target, [], 0).value == rounds[i]
    decreases |rounds|
  {
    RetryStep(rounds, target);
    if Total(rounds[0]) >= target {
      assert SettlesAt(rounds, target, 0);
    } else {
      RetryExit(rounds[1..], target);
      var i: nat :| SettlesAt(rounds[1..], target, i) && Retry(rounds[1..], target, [], 0).value == rounds[1..][i];
      assert SettlesAt(rounds, target, i + 1) by {
        forall j | 0 <= j < i + 1 ensures |rounds[j]| > 0 && Total(rounds[j]) < target {
          if j > 0 {
            assert rounds[j] == rounds[1..][j - 1];
          }
        }
      }
    }
  }

  /** Conversely, the first round whose sum reaches the target is taken. */
  lemma {:induction false} RetryTakesFirst(rounds: seq<seq<CategoryLine>>, target: Cents, i: nat)
    requires target >= 0 && SettlesAt(rounds, target, i)
    ensures Retry(rounds, target, [], 0) == Ok(rounds[i])
    decreases i
  {
    RetryStep(rounds, target);
    if i > 0 {
      assert SettlesAt(rounds[1..], target, i - 1) by {
        forall j | 0 <= j < i - 1 ensures |rounds[1..][j]| > 0 && Total(rounds[1..][j]) < target {
          assert rounds[1..][j] == rounds[j + 1];
        }
      }
      RetryTakesFirst(rounds[1..], target, i - 1);
    }
  }

  /** The loop fails with `UnparsableReply` at the first round without pairs
      that comes before any round reaching the target. */
  lemma {:induction false} RetryUnparsable(rounds: seq<seq<CategoryLine>>, target: Cents, i: nat)
    requires target >= 0 && i < |rounds|
    requires forall j :: 0 <= j < i ==> |rounds[j]| > 0 && Total(rounds[j]) < target
    requires |rounds[i]| == 0
    ensures Retry(rounds, target, [], 0) == Err(UnparsableReply)
    decreases i
  {
    RetryStep(rounds, target);
    if i > 0 {
      forall j | 0 <= j < i - 1 ensures |rounds[1..][j]| > 0 && Total(rounds[1..][j]) < target {
        assert rounds[1..][j] == rounds[j + 1];
      }
      RetryUnparsable(rounds[1..], target, i - 1);
    }
  }

  /** Rounds that all fall short of the target never let the loop finish. */
  lemma {:induction false} RetryExhausted(rounds: seq<seq<CategoryLine>>, target: Cents)
    requires target >= 0
    requires forall j :: 0 <= j < |rounds| ==> |rounds[j]| > 0 && Total(rounds[j]) < target
    ensures Retry(rounds, target, [], 0) == Err(OracleUnsettled)
    decreases |rounds|
  {
    if |rounds| > 0 {
      RetryStep(rounds, target);
      forall j | 0 <= j < |rounds| - 1 ensures |rounds[1..][j]| > 0 && Total(rounds[1..][j]) < target {
        assert rounds[1..][j] == rounds[j + 1];
      }
      RetryExhausted(rounds[1..], target);
    }
  }

  /** A negative target never enters the loop: there are no pairs to apply. */
  lemma RetryNegativeTarget(rounds: seq<seq<CategoryLine>>, target: Cents)
    requires target < 0
    ensures Retry(rounds, target, [], 0) == Ok([])
  {
  }
}
