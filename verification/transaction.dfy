/**
 * The ledger entry of nationwide_parser/transaction.py: a date, a signed
 * amount in pence, a free-text kind and description, and the closing
 * balance after the entry. The predicates `succeeds` and `is_interest` and
 * the `redate` copy that the statement reader relies on are defined here.
 */
module Transactions {
  import opened Outcomes
  import opened Digits
  import opened Utils
  import opened Dates

  datatype Transaction = Transaction(
    date: CalendarDate,
    amount: int,          // pence; positive is a credit
    kind: string,
    description: string,
    closingBalance: int)  // pence, after this entry

  /** The kind the bank gives to interest postings. */
  const InterestKind: string := "Interest added"

  /** `is_equivalent`: same date, amount and closing balance. */
  predicate IsEquivalent(a: Transaction, b: Transaction)
  {
    a.date == b.date && a.amount == b.amount && a.closingBalance == b.closingBalance
  }

  /** Two entries are equivalent exactly when they agree once kind and description are blanked out. */
  lemma EquivalenceIgnoresLabels(a: Transaction, b: Transaction)
    ensures IsEquivalent(a, b) <==> a.(kind := "", description := "") == b.(kind := "", description := "")
  {
  }

  /** `is_equivalent` is reflexive, symmetric and transitive. */
  lemma EquivalenceIsAnEquivalence(a: Transaction, b: Transaction, c: Transaction)
    ensures IsEquivalent(a, a)
    ensures IsEquivalent(a, b) ==> IsEquivalent(b, a)
    ensures IsEquivalent(a, b) && IsEquivalent(b, c) ==> IsEquivalent(a, c)
  {
  }

  /** `next.succeeds(previous)`: no earlier, and the balance chain holds. */
  predicate Succeeds(next: Transaction, previous: Transaction)
  {
    AtOrBefore(previous.date, next.date)
    && previous.closingBalance + next.amount == next.closingBalance
  }

  /** `is_interest`: a credit whose kind is the interest kind. */
  predicate IsInterest(t: Transaction)
  {
    t.amount > 0 && t.kind == InterestKind
  }

  /** `redate(d)`: a copy carrying date d and nothing else changed. */
  function Redate(t: Transaction, d: CalendarDate): (r: Transaction)
    ensures r.date == d
    ensures r.amount == t.amount && r.closingBalance == t.closingBalance
    ensures r.kind == t.kind && r.description == t.description
  {
    t.(date := d)
  }

  /** Every adjacent pair satisfies `succeeds` (the account-level audit). */
  predicate Continuous(ts: seq<Transaction>)
  {
    forall i :: 0 < i < |ts| ==> Succeeds(ts[i], ts[i - 1])
  }

  predicate DatesNonDecreasing(ts: seq<Transaction>)
  {
    forall i :: 0 < i < |ts| ==> AtOrBefore(ts[i - 1].date, ts[i].date)
  }

  function SumOfAmounts(ts: seq<Transaction>): int
  {
    if |ts| == 0 then 0 else SumOfAmounts(ts[..|ts| - 1]) + ts[|ts| - 1].amount
  }

  /**
   * A continuous list is sorted by date, and its last closing balance is the
   * first closing balance plus every later amount.
   */
  lemma {:induction false} ContinuousListIsSortedAndBalanced(ts: seq<Transaction>)
    requires Continuous(ts) && |ts| > 0
    ensures forall i, j :: 0 <= i <= j < |ts| ==> AtOrBefore(ts[i].date, ts[j].date)
    ensures ts[|ts| - 1].closingBalance == ts[0].closingBalance + SumOfAmounts(ts[1..])
  {
    if |ts| > 1 {
      var init := ts[..|ts| - 1];
      ContinuousListIsSortedAndBalanced(init);
      assert ts[1..][..|ts| - 2] == init[1..];
      forall i, j | 0 <= i <= j < |ts|
        ensures AtOrBefore(ts[i].date, ts[j].date)
      {
        if j == |ts| - 1 && i < j {
          assert AtOrBefore(init[i].date, init[|ts| - 2].date);
          DateOrderIsTotal(ts[i].date, ts[|ts| - 2].date, ts[j].date);
        } else if i < j {
          assert AtOrBefore(init[i].date, init[j].date);
        }
      }
    }
  }

  /** `abs(amount)` as `__str__` shows it: `Np` below a pound, `£P.pp` from a pound up. */
  function DisplayAmount(magnitude: nat): (s: string)
    ensures forall i :: 0 <= i < |s| ==> s[i] != ' ' && s[i] != '-'
    ensures |s| >= 2 && (s[|s| - 1] == 'p' <==> magnitude < 100)
    ensures magnitude < 100 ==> AllDigits(s[..|s| - 1]) && Value(s[..|s| - 1]) == magnitude
    ensures magnitude >= 100 ==>
      && |s| >= 5 && s[0] == '£' && s[|s| - 3] == '.'
      && AllDigits(s[1..|s| - 3]) && Value(s[1..|s| - 3]) == magnitude / 100
      && AllDigits(s[|s| - 2..]) && Value(s[|s| - 2..]) == magnitude % 100
  {
    if magnitude < 100 then
      var s := Decimal(magnitude) + "p";
      assert s[..|s| - 1] == Decimal(magnitude);
      s
    else
      TwoDigitPad(magnitude % 100);
      var s := "£" + Decimal(magnitude / 100) + "." + ZeroPad(magnitude % 100, 2);
      assert s[1..|s| - 3] == Decimal(magnitude / 100);
      assert s[|s| - 2..] == ZeroPad(magnitude % 100, 2);
      s
  }

  function Preposition(amount: int): string
  {
    if amount < 0 then "to" else "from"
  }

  /** `__str__`: amount, "to"/"from", description and ISO date. */
  function Describe(t: Transaction): string
  {
    DisplayAmount(Abs(t.amount)) + " " + Preposition(t.amount) + " " + t.description + " on " + IsoFormat(t.date)
  }

  /** Position of the first c in s, or |s| when there is none. */
  function IndexOf(s: string, c: char): (k: nat)
    ensures k <= |s|
    ensures forall i :: 0 <= i < k ==> s[i] != c
    ensures k < |s| ==> s[k] == c
  {
    if |s| == 0 then 0 else if s[0] == c then 0 else 1 + IndexOf(s[1..], c)
  }

  function ReadDisplayAmount(d: string): Option<nat>
  {
    if |d| >= 2 && d[|d| - 1] == 'p' && AllDigits(d[..|d| - 1]) then
      Some(Value(d[..|d| - 1]))
    else if |d| >= 5 && d[0] == '£' && d[|d| - 3] == '.'
            && AllDigits(d[1..|d| - 3]) && AllDigits(d[|d| - 2..]) then
      Some(Value(d[1..|d| - 3]) * 100 + Value(d[|d| - 2..]))
    else
      None
  }

  /** Reads the signed amount back from the front of a `__str__` text. */
  function ReadDescribedAmount(s: string): Option<int>
  {
    var k := IndexOf(s, ' ');
    if k == |s| then None
    else
      var rest := s[k + 1..];
      match ReadDisplayAmount(s[..k])
      case None => None
      case Some(m) =>
        var magnitude: int := m;
        if |rest| >= 3 && rest[..3] == "to " then Some(-magnitude)
        else if |rest| >= 5 && rest[..5] == "from " then Some(magnitude)
        else None
  }

  lemma {:induction false} IndexOfAfterSpaceFreePrefix(a: string, b: string)
    requires forall i :: 0 <= i < |a| ==> a[i] != ' '
    ensures IndexOf(a + [' '] + b, ' ') == |a|
  {
    var s := a + [' '] + b;
    if |a| > 0 {
      assert s[1..] == a[1..] + [' '] + b;
      IndexOfAfterSpaceFreePrefix(a[1..], b);
    }
  }

  lemma DisplayAmountRoundTrip(magnitude: nat)
    ensures ReadDisplayAmount(DisplayAmount(magnitude)) == Some(magnitude)
  {
    var d := DisplayAmount(magnitude);
    if magnitude >= 100 {
      var whole, fraction := Value(d[1..|d| - 3]), Value(d[|d| - 2..]);
      assert whole == magnitude / 100 && fraction == magnitude % 100;
      assert whole * 100 + fraction == magnitude;
      assert d[|d| - 1] != 'p';
    }
  }

  /**
   * `__str__` shows the amount without loss: the unsigned magnitude in pence
   * or pounds, signed by the preposition that follows it.
   */
  lemma DescribeAmountRoundTrip(t: Transaction)
    ensures ReadDescribedAmount(Describe(t)) == Some(t.amount)
  {
    DisplayAmountRoundTrip(Abs(t.amount));
    ReadFrontOfDescription(DisplayAmount(Abs(t.amount)), Preposition(t.amount),
      t.description + " on " + IsoFormat(t.date), Abs(t.amount), t.amount < 0);
    DescriptionTail(DisplayAmount(Abs(t.amount)), Preposition(t.amount), t.description, IsoFormat(t.date));
  }

  /**
   * The word after the displayed amount names the direction: "to " exactly
   * for debits, "from " for credits and for zero.
   */
  lemma DescribeNamesDirection(t: Transaction)
    ensures var s := Describe(t); var k := IndexOf(s, ' ');
      && k < |s| && s[..k] == DisplayAmount(Abs(t.amount))
      && ((|s[k + 1..]| >= 3 && s[k + 1..][..3] == "to ") <==> t.amount < 0)
      && (t.amount >= 0 ==> |s[k + 1..]| >= 5 && s[k + 1..][..5] == "from ")
  {
    var d := DisplayAmount(Abs(t.amount));
    var rest := t.description + " on " + IsoFormat(t.date);
    DescriptionTail(d, Preposition(t.amount), t.description, IsoFormat(t.date));
    WordAfterSpaceFreeFront(d, Preposition(t.amount), rest);
  }

  /** In `d + " " + p + " " + rest` with d free of spaces, the text after the first space is `p + " " + rest`. */
  lemma WordAfterSpaceFreeFront(d: string, p: string, rest: string)
    requires forall i :: 0 <= i < |d| ==> d[i] != ' '
    requires p == "to" || p == "from"
    ensures var s := d + " " + p + " " + rest; var k := IndexOf(s, ' ');
      && k == |d| && s[..k] == d
      && ((|s[k + 1..]| >= 3 && s[k + 1..][..3] == "to ") <==> p == "to")
      && (p == "from" ==> |s[k + 1..]| >= 5 && s[k + 1..][..5] == "from ")
  {
    var tail := p + " " + rest;
    var s := d + " " + p + " " + rest;
    assert s == d + [' '] + tail;
    IndexOfAfterSpaceFreePrefix(d, tail);
    assert s[..|d|] == d;
    assert s[|d| + 1..] == tail;
    if p == "to" {
      assert tail[..3] == "to ";
    } else {
      assert tail[..5] == "from ";
      assert tail[..3] != "to " by { assert tail[0] == 'f'; }
    }
  }

  /** The `__str__` text seen as the amount, the preposition and everything after it. */
  lemma DescriptionTail(a: string, b: string, c: string, e: string)
    ensures a + " " + b + " " + c + " on " + e == a + " " + b + " " + (c + " on " + e)
  {
  }

  /** The amount is read from the display text and the preposition alone. */
  lemma ReadFrontOfDescription(d: string, p: string, rest: string, magnitude: nat, debit: bool)
    requires forall i :: 0 <= i < |d| ==> d[i] != ' '
    requires ReadDisplayAmount(d) == Some(magnitude)
    requires p == if debit then "to" else "from"
    ensures ReadDescribedAmount(d + " " + p + " " + rest) == Some(if debit then -(magnitude as int) else magnitude as int)
  {
    var s := d + " " + p + " " + rest;
    var front := d + " " + p + " ";
    assert s[..|front|] == front;
    assert front[..|d|] == d && front[|d|] == ' ';
    assert front[|d| + 1..] == p + " ";
    assert s[..|d|] == front[..|d|];
    ReadAfterDisplay(s, |d|, magnitude, debit);
  }

  lemma ReadAfterDisplay(s: string, k: nat, magnitude: nat, debit: bool)
    requires k < |s| && s[k] == ' '
    requires forall i :: 0 <= i < k ==> s[i] != ' '
    requires ReadDisplayAmount(s[..k]) == Some(magnitude)
    requires if debit then |s| >= k + 4 && s[k + 1..k + 4] == "to "
             else |s| >= k + 6 && s[k + 1..k + 6] == "from "
    ensures ReadDescribedAmount(s) == Some(if debit then -(magnitude as int) else magnitude as int)
  {
    assert IndexOf(s, ' ') == k;
    var rest := s[k + 1..];
    if debit {
      assert rest[..3] == s[k + 1..k + 4];
    } else {
      assert rest[..5] == s[k + 1..k + 6];
      assert rest[..3] != "to " by { assert rest[..3][0] == rest[..5][0] == 'f'; }
    }
  }
}
