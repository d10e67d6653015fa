/**
 * `Account` of nationwide_parser/account.py: a named, chronological list of
 * transactions, and `add_unique_transactions`, the two-index merge that
 * folds a freshly read statement into it.
 *
 * `Merge` is the reference definition of the merge, read front to back;
 * `Account.AddUniqueTransactions` follows the source (insertion points
 * recorded first, newest first, then applied in that order) and is proved
 * to produce what `Merge` describes.
 */
module Accounts {
  import opened Outcomes
  import opened Dates
  import opened Transactions

  /** New entry `newIndex` disagrees with stored entry `oldIndex` on the same or a later date. */
  datatype MergeError = InconsistentTransactions(newIndex: nat, oldIndex: nat)

  /** An insertion point `(new index, old index)`: new entry `newIndex` goes before stored entry `position`. */
  datatype Mark = Mark(newIndex: nat, position: nat)

  /** A merged list, and the new entries it took in (in their merged order). */
  datatype Merged = Merged(entries: seq<Transaction>, inserted: seq<Transaction>)

  /** The first index from k on whose entry is not dated before d: the skip loops, bounded. */
  function SkipBefore(s: seq<Transaction>, d: Date, k: nat): (n: nat)
    requires k <= |s|
    ensures k <= n <= |s|
    ensures forall m :: k <= m < n ==> Before(s[m].date, d)
    ensures n < |s| ==> !Before(s[n].date, d)
    decreases |s| - k
  {
    if k < |s| && Before(s[k].date, d) then SkipBefore(s, d, k + 1) else k
  }

  /** A merge outcome with `entries` and `inserted` put in front of its own. */
  function Extend(entries: seq<Transaction>, inserted: seq<Transaction>, r: Result<Merged, MergeError>): Result<Merged, MergeError>
  {
    match r
    case Ok(m) => Ok(Merged(entries + m.entries, inserted + m.inserted))
    case Err(e) => Err(e)
  }

  /**
   * The comparison loop and the leftovers, from stored entry i and new entry
   * j on: equivalent entries are kept once, a new entry dated before the
   * stored one is taken in ahead of it, any other pair is a conflict, and
   * new entries left when the stored list runs out go last.
   */
  function MergeFrom(stored: seq<Transaction>, incoming: seq<Transaction>, i: nat, j: nat): (r: Result<Merged, MergeError>)
    requires i <= |stored| && j <= |incoming|
    ensures r.Ok? ==> |r.value.entries| == |stored| - i + |r.value.inserted|
    decreases |stored| - i + |incoming| - j
  {
    if j == |incoming| then Ok(Merged(stored[i..], []))
    else if i == |stored| then Ok(Merged(incoming[j..], incoming[j..]))
    else if IsEquivalent(incoming[j], stored[i]) then
      Extend([stored[i]], [], MergeFrom(stored, incoming, i + 1, j + 1))
    else if Before(incoming[j].date, stored[i].date) then
      Extend([incoming[j]], [incoming[j]], MergeFrom(stored, incoming, i, j + 1))
    else
      Err(InconsistentTransactions(j, i))
  }

  /**
   * `add_unique_transactions` read as a merge. Nothing new leaves the list
   * as it is; an empty account takes the new list; otherwise the stored
   * entries before the new window and the new entries before the stored
   * list are skipped (at most one of the two runs is non-empty), and the
   * rest is compared pairwise.
   */
  function Merge(stored: seq<Transaction>, incoming: seq<Transaction>): (r: Result<Merged, MergeError>)
    ensures |incoming| == 0 ==> r == Ok(Merged(stored, []))
    ensures |incoming| > 0 && |stored| == 0 ==> r == Ok(Merged(incoming, incoming))
    ensures r.Ok? ==> |r.value.entries| == |stored| + |r.value.inserted|
  {
    if |incoming| == 0 then Ok(Merged(stored, []))
    else if |stored| == 0 then Ok(Merged(incoming, incoming))
    else
      var i := SkipBefore(stored, incoming[0].date, 0);
      var j := SkipBefore(incoming, stored[0].date, 0);
      Extend(stored[..i] + incoming[..j], incoming[..j], MergeFrom(stored, incoming, i, j))
  }

  lemma ExtendExtend(a: seq<Transaction>, b: seq<Transaction>, c: seq<Transaction>, d: seq<Transaction>, r: Result<Merged, MergeError>)
    ensures Extend(a, b, Extend(c, d, r)) == Extend(a + c, b + d, r)
  {
    if r.Ok? {
      Regroup(a, c, r.value.entries);
      Regroup(b, d, r.value.inserted);
    }
  }

  /** Before is a strict order: two dates are never each before the other. */
  lemma BeforeIsAsymmetric(a: Date, b: Date)
    requires Before(a, b)
    ensures !Before(b, a)
  {
    DateOrderIsTotal(a, b, a);
  }

  /** At most one of the two skip runs is non-empty. */
  lemma {:induction false} OneSkipIsEmpty(stored: seq<Transaction>, incoming: seq<Transaction>)
    requires |stored| > 0 && |incoming| > 0
    ensures SkipBefore(stored, incoming[0].date, 0) == 0 || SkipBefore(incoming, stored[0].date, 0) == 0
    ensures SkipBefore(stored, incoming[0].date, 0) > 0 ==> Before(stored[0].date, incoming[0].date)
  {
    if Before(stored[0].date, incoming[0].date) {
      BeforeIsAsymmetric(stored[0].date, incoming[0].date);
    }
  }

  // ---------------------------------------------------------------------
  // The insertion points and their application (account.py:62-69)
  // ---------------------------------------------------------------------

  /** Python's `list.insert(p, x)` for p >= 0: past the end it appends. */
  function Insert(s: seq<Transaction>, p: nat, x: Transaction): (r: seq<Transaction>)
    ensures |r| == |s| + 1
    ensures p <= |s| ==> r[..p] == s[..p] && r[p] == x && r[p + 1..] == s[p..]
    ensures p >= |s| ==> r == s + [x]
  {
    if p >= |s| then s + [x] else s[..p] + [x] + s[p..]
  }

  predicate IndexesWithin(marks: seq<Mark>, n: nat)
  {
    forall k :: 0 <= k < |marks| ==> marks[k].newIndex < n
  }

  predicate PositionsWithin(marks: seq<Mark>, n: nat)
  {
    forall k :: 0 <= k < |marks| ==> marks[k].position <= n
  }

  /** The application loop: each mark's new entry inserted at the mark's position, in list order. */
  function Apply(s: seq<Transaction>, marks: seq<Mark>, incoming: seq<Transaction>): (r: seq<Transaction>)
    requires IndexesWithin(marks, |incoming|)
    ensures |r| == |s| + |marks|
    decreases |marks|
  {
    if |marks| == 0 then s
    else Apply(Insert(s, marks[0].position, incoming[marks[0].newIndex]), marks[1..], incoming)
  }

  lemma InsertBeforeSuffix(s: seq<Transaction>, t: seq<Transaction>, p: nat, x: Transaction)
    requires p <= |s|
    ensures Insert(s + t, p, x) == Insert(s, p, x) + t
  {
    if p < |s + t| {
      assert (s + t)[..p] == s[..p];
      assert (s + t)[p..] == s[p..] + t;
    }
  }

  /** Insertions at or before the end of s leave anything appended after s where it was. */
  lemma {:induction false} ApplyBeforeSuffix(s: seq<Transaction>, t: seq<Transaction>, marks: seq<Mark>, incoming: seq<Transaction>)
    requires IndexesWithin(marks, |incoming|) && PositionsWithin(marks, |s|)
    ensures Apply(s + t, marks, incoming) == Apply(s, marks, incoming) + t
    decreases |marks|
  {
    if |marks| > 0 {
      var x := incoming[marks[0].newIndex];
      InsertBeforeSuffix(s, t, marks[0].position, x);
      ApplyBeforeSuffix(Insert(s, marks[0].position, x), t, marks[1..], incoming);
    }
  }

  lemma TakeOneMore<T>(s: seq<T>, k: nat)
    requires k < |s|
    ensures s[..k + 1] == s[..k] + [s[k]]
  {
  }

  lemma DropOne<T>(s: seq<T>, k: nat)
    requires k < |s|
    ensures s[k..] == [s[k]] + s[k + 1..]
  {
  }

  lemma RestOfSuffix<T>(s: seq<T>, k: nat)
    requires k < |s|
    ensures s[k..][1..] == s[k + 1..]
  {
  }

  lemma SplitAt<T>(s: seq<T>, k: nat)
    requires k <= |s|
    ensures s == s[..k] + s[k..]
  {
  }

  lemma SliceToEnd<T>(s: seq<T>, k: nat)
    requires k <= |s|
    ensures s[k..|s|] == s[k..]
  {
  }

  lemma AppendNothing<T>(s: seq<T>)
    ensures s + [] == s
  {
  }

  lemma Regroup<T>(a: seq<T>, b: seq<T>, c: seq<T>)
    ensures a + b + c == a + (b + c)
  {
  }

  /** A mark at the current end, put in front of the others, lands after everything they place. */
  lemma MarkAtEnd(s: seq<Transaction>, marks: seq<Mark>, incoming: seq<Transaction>, k: nat)
    requires k < |incoming|
    requires IndexesWithin(marks, |incoming|) && PositionsWithin(marks, |s|)
    ensures IndexesWithin([Mark(k, |s|)] + marks, |incoming|)
    ensures Apply(s, [Mark(k, |s|)] + marks, incoming) == Apply(s, marks, incoming) + [incoming[k]]
  {
    var all := [Mark(k, |s|)] + marks;
    assert all[1..] == marks;
    assert Insert(s, |s|, incoming[k]) == s + [incoming[k]];
    ApplyBeforeSuffix(s, [incoming[k]], marks, incoming);
  }

  /** One pass of the comparison loop on an equivalent pair. */
  lemma KeepStep(stored: seq<Transaction>, incoming: seq<Transaction>, marks: seq<Mark>, i: nat, j: nat,
                 merged: seq<Transaction>, taken: seq<Transaction>)
    requires i < |stored| && j < |incoming| && IsEquivalent(incoming[j], stored[i])
    requires IndexesWithin(marks, |incoming|) && PositionsWithin(marks, i)
    requires Apply(stored[..i], marks, incoming) == merged
    ensures Apply(stored[..i + 1], marks, incoming) == merged + [stored[i]]
    ensures Extend(merged, taken, MergeFrom(stored, incoming, i, j))
         == Extend(merged + [stored[i]], taken, MergeFrom(stored, incoming, i + 1, j + 1))
  {
    TakeOneMore(stored, i);
    ApplyBeforeSuffix(stored[..i], [stored[i]], marks, incoming);
    ExtendExtend(merged, taken, [stored[i]], [], MergeFrom(stored, incoming, i + 1, j + 1));
    AppendNothing(taken);
  }

  /** A new entry dated before the current stored one, or past the stored list, is taken in. */
  lemma MergeFromTakesNew(stored: seq<Transaction>, incoming: seq<Transaction>, i: nat, j: nat)
    requires i <= |stored| && j < |incoming|
    requires i == |stored| || (!IsEquivalent(incoming[j], stored[i]) && Before(incoming[j].date, stored[i].date))
    ensures MergeFrom(stored, incoming, i, j) == Extend([incoming[j]], [incoming[j]], MergeFrom(stored, incoming, i, j + 1))
  {
    if i == |stored| {
      DropOne(incoming, j);
    }
  }

  /** One pass that marks new entry j for insertion before stored entry i (i may be the end). */
  lemma InsertStep(stored: seq<Transaction>, incoming: seq<Transaction>, marks: seq<Mark>, i: nat, j: nat,
                   merged: seq<Transaction>, taken: seq<Transaction>)
    requires i <= |stored| && j < |incoming|
    requires i == |stored| || (!IsEquivalent(incoming[j], stored[i]) && Before(incoming[j].date, stored[i].date))
    requires IndexesWithin(marks, |incoming|) && PositionsWithin(marks, i)
    requires Apply(stored[..i], marks, incoming) == merged
    ensures IndexesWithin([Mark(j, i)] + marks, |incoming|)
    ensures Apply(stored[..i], [Mark(j, i)] + marks, incoming) == merged + [incoming[j]]
    ensures Extend(merged, taken, MergeFrom(stored, incoming, i, j))
         == Extend(merged + [incoming[j]], taken + [incoming[j]], MergeFrom(stored, incoming, i, j + 1))
  {
    MarkAtEnd(stored[..i], marks, incoming, j);
    MergeFromTakesNew(stored, incoming, i, j);
    ExtendExtend(merged, taken, [incoming[j]], [incoming[j]], MergeFrom(stored, incoming, i, j + 1));
  }

  /** Once the new entries are used up, applying the marks to the whole stored list gives the merge. */
  lemma FinishStep(stored: seq<Transaction>, incoming: seq<Transaction>, marks: seq<Mark>, i: nat,
                   merged: seq<Transaction>, taken: seq<Transaction>)
    requires i <= |stored|
    requires IndexesWithin(marks, |incoming|) && PositionsWithin(marks, i)
    requires Apply(stored[..i], marks, incoming) == merged
    ensures Extend(merged, taken, MergeFrom(stored, incoming, i, |incoming|))
         == Ok(Merged(Apply(stored, marks, incoming), taken))
  {
    SplitAt(stored, i);
    ApplyBeforeSuffix(stored[..i], stored[i..], marks, incoming);
    AppendNothing(taken);
  }

  // ---------------------------------------------------------------------
  // The account
  // ---------------------------------------------------------------------

  class Account {
    const name: string
    var transactions: seq<Transaction>

    constructor(name: string, transactions: seq<Transaction>)
      ensures this.name == name && this.transactions == transactions
    {
      this.name := name;
      this.transactions := transactions;
    }

    /** `all_transactions_are_continuous`: each entry succeeds the one before it. */
    predicate AllTransactionsAreContinuous()
      reads this
      ensures AllTransactionsAreContinuous() ==> DatesNonDecreasing(transactions)
    {
      Continuous(transactions)
    }

    /**
     * `add_unique_transactions`: merges `incoming` into the account and
     * returns how many entries it added, or fails on a conflicting pair and
     * leaves the account as it was.
     */
    method AddUniqueTransactions(incoming: seq<Transaction>) returns (r: Result<nat, MergeError>)
      modifies this
      ensures r.Ok? <==> Merge(old(transactions), incoming).Ok?
      ensures r.Ok? ==> transactions == Merge(old(transactions), incoming).value.entries
      ensures r.Ok? ==> r.value == |Merge(old(transactions), incoming).value.inserted|
      ensures r.Err? ==> r.error == Merge(old(transactions), incoming).error
      ensures r.Err? ==> transactions == old(transactions)
    {
      if incoming == [] {
        return Ok(0);
      }
      if transactions == [] {
        transactions := incoming;
        return Ok(|incoming|);
      }
      var points := FindInsertionPoints(transactions, incoming);
      if points.Err? {
        return Err(points.error);
      }
      var marks := points.value;
      ghost var target := Apply(transactions, marks, incoming);
      // apply, newest insertion point first
      var m := 0;
      while m < |marks|
        invariant m <= |marks|
        invariant IndexesWithin(marks[m..], |incoming|)
        invariant Apply(transactions, marks[m..], incoming) == target
        decreases |marks| - m
      {
        RestOfSuffix(marks, m);
        transactions := Insert(transactions, marks[m].position, incoming[marks[m].newIndex]);
        m := m + 1;
      }
      assert marks[m..] == [];
      return Ok(|marks|);
    }
  }

  /**
   * What the scan knows once the stored entries before i and the new
   * entries before j are dealt with: the marks so far turn the first i
   * stored entries into `merged`, taking in `taken`, and the whole merge
   * `goal` is that prefix followed by the merge of what is left.
   */
  ghost predicate Scanned(stored: seq<Transaction>, incoming: seq<Transaction>, marks: seq<Mark>, i: nat, j: nat,
                          merged: seq<Transaction>, taken: seq<Transaction>, goal: Result<Merged, MergeError>)
  {
    && MarksFit(stored, incoming, marks, i, j, taken)
    && Apply(stored[..i], marks, incoming) == merged
    && goal == Extend(merged, taken, MergeFrom(stored, incoming, i, j))
  }

  /** The scan's position is within both lists, and each mark names a new entry and a position passed. */
  predicate MarksFit(stored: seq<Transaction>, incoming: seq<Transaction>, marks: seq<Mark>, i: nat, j: nat,
                     taken: seq<Transaction>)
  {
    && i <= |stored| && j <= |incoming|
    && IndexesWithin(marks, |incoming|) && PositionsWithin(marks, i)
    && |marks| == |taken|
  }

  lemma ScannedKeep(stored: seq<Transaction>, incoming: seq<Transaction>, marks: seq<Mark>, i: nat, j: nat,
                    merged: seq<Transaction>, taken: seq<Transaction>, goal: Result<Merged, MergeError>)
    requires Scanned(stored, incoming, marks, i, j, merged, taken, goal)
    requires i < |stored| && j < |incoming| && IsEquivalent(incoming[j], stored[i])
    ensures Scanned(stored, incoming, marks, i + 1, j + 1, merged + [stored[i]], taken, goal)
  {
    KeepStep(stored, incoming, marks, i, j, merged, taken);
  }

  lemma ScannedInsert(stored: seq<Transaction>, incoming: seq<Transaction>, marks: seq<Mark>, i: nat, j: nat,
                      merged: seq<Transaction>, taken: seq<Transaction>, goal: Result<Merged, MergeError>)
    requires Scanned(stored, incoming, marks, i, j, merged, taken, goal)
    requires j < |incoming|
    requires i == |stored| || (!IsEquivalent(incoming[j], stored[i]) && Before(incoming[j].date, stored[i].date))
    ensures Scanned(stored, incoming, [Mark(j, i)] + marks, i, j + 1, merged + [incoming[j]], taken + [incoming[j]], goal)
  {
    InsertStep(stored, incoming, marks, i, j, merged, taken);
  }

  lemma ScannedConflict(stored: seq<Transaction>, incoming: seq<Transaction>, marks: seq<Mark>, i: nat, j: nat,
                        merged: seq<Transaction>, taken: seq<Transaction>, goal: Result<Merged, MergeError>)
    requires Scanned(stored, incoming, marks, i, j, merged, taken, goal)
    requires i < |stored| && j < |incoming|
    requires !IsEquivalent(incoming[j], stored[i]) && !Before(incoming[j].date, stored[i].date)
    ensures goal == Err(InconsistentTransactions(j, i))
  {
  }

  lemma ScannedAll(stored: seq<Transaction>, incoming: seq<Transaction>, marks: seq<Mark>, i: nat,
                   merged: seq<Transaction>, taken: seq<Transaction>, goal: Result<Merged, MergeError>)
    requires Scanned(stored, incoming, marks, i, |incoming|, merged, taken, goal)
    ensures goal == Ok(Merged(Apply(stored, marks, incoming), taken))
  {
    FinishStep(stored, incoming, marks, i, merged, taken);
  }

  /**
   * The scan of `add_unique_transactions` (account.py:26-64): the insertion
   * points, newest first, whose application yields the merged list; or the
   * first conflicting pair.
   */
  method FindInsertionPoints(stored: seq<Transaction>, incoming: seq<Transaction>) returns (r: Result<seq<Mark>, MergeError>)
    requires |stored| > 0 && |incoming| > 0
    ensures r.Ok? <==> Merge(stored, incoming).Ok?
    ensures r.Ok? ==> IndexesWithin(r.value, |incoming|)
    ensures r.Ok? ==> Apply(stored, r.value, incoming) == Merge(stored, incoming).value.entries
    ensures r.Ok? ==> |r.value| == |Merge(stored, incoming).value.inserted|
    ensures r.Err? ==> r.error == Merge(stored, incoming).error
  {
    var marks, oldI, newI := SkipEarlyEntries(stored, incoming);
    r := CompareFrom(stored, incoming, marks, oldI, newI,
                     stored[..oldI] + incoming[..newI], incoming[..newI], Merge(stored, incoming));
  }

  /** The comparison loop (account.py:46-60) from stored entry oldI and new entry newI on, then the leftovers. */
  method CompareFrom(stored: seq<Transaction>, incoming: seq<Transaction>, marks: seq<Mark>, oldI: nat, newI: nat,
                     ghost merged: seq<Transaction>, ghost taken: seq<Transaction>, ghost goal: Result<Merged, MergeError>)
    returns (r: Result<seq<Mark>, MergeError>)
    requires Scanned(stored, incoming, marks, oldI, newI, merged, taken, goal)
    ensures r.Ok? <==> goal.Ok?
    ensures r.Ok? ==> IndexesWithin(r.value, |incoming|)
    ensures r.Ok? ==> Apply(stored, r.value, incoming) == goal.value.entries
    ensures r.Ok? ==> |r.value| == |goal.value.inserted|
    ensures r.Err? ==> r.error == goal.error
  {
    var all: seq<Mark>, i: nat, j: nat := marks, oldI, newI;
    ghost var soFar, took := merged, taken;
    while j < |incoming| && i < |stored|
      invariant Scanned(stored, incoming, all, i, j, soFar, took, goal)
      decreases |stored| - i + |incoming| - j
    {
      if IsEquivalent(incoming[j], stored[i]) {
        ScannedKeep(stored, incoming, all, i, j, soFar, took, goal);
        soFar := soFar + [stored[i]];
        i, j := i + 1, j + 1;
      } else if Before(incoming[j].date, stored[i].date) {
        ScannedInsert(stored, incoming, all, i, j, soFar, took, goal);
        all := [Mark(j, i)] + all;
        soFar := soFar + [incoming[j]];
        took := took + [incoming[j]];
        j := j + 1;
      } else {
        ScannedConflict(stored, incoming, all, i, j, soFar, took, goal);
        return Err(InconsistentTransactions(j, i));
      }
    }
    all := MarkLeftovers(stored, incoming, all, i, j, soFar, took, goal);
    return Ok(all);
  }

  /**
   * The leftover loop (account.py:62-64): new entries still unmatched when
   * the stored list has run out are marked for the end.
   */
  method MarkLeftovers(stored: seq<Transaction>, incoming: seq<Transaction>, marks: seq<Mark>, oldI: nat, newI: nat,
                       ghost merged: seq<Transaction>, ghost taken: seq<Transaction>, ghost goal: Result<Merged, MergeError>)
    returns (all: seq<Mark>)
    requires Scanned(stored, incoming, marks, oldI, newI, merged, taken, goal)
    requires newI < |incoming| ==> oldI == |stored|
    ensures goal.Ok?
    ensures IndexesWithin(all, |incoming|)
    ensures Apply(stored, all, incoming) == goal.value.entries
    ensures |all| == |goal.value.inserted|
  {
    all := marks;
    ghost var soFar, took := merged, taken;
    for x := newI to |incoming|
      invariant Scanned(stored, incoming, all, oldI, x, soFar, took, goal)
    {
      ScannedInsert(stored, incoming, all, oldI, x, soFar, took, goal);
      all := [Mark(x, |stored|)] + all;
      soFar := soFar + [incoming[x]];
      took := took + [incoming[x]];
    }
    ScannedAll(stored, incoming, all, oldI, soFar, took, goal);
  }

  /**
   * The skip loops (account.py:35-44), with the length bound: stored
   * entries before the new window are passed over, new entries before the
   * stored list are marked for the head.
   */
  method SkipEarlyEntries(stored: seq<Transaction>, incoming: seq<Transaction>) returns (marks: seq<Mark>, oldI: nat, newI: nat)
    requires |stored| > 0 && |incoming| > 0
    ensures oldI == SkipBefore(stored, incoming[0].date, 0)
    ensures newI == SkipBefore(incoming, stored[0].date, 0)
    ensures Scanned(stored, incoming, marks, oldI, newI,
                    stored[..oldI] + incoming[..newI], incoming[..newI], Merge(stored, incoming))
  {
    OneSkipIsEmpty(stored, incoming);
    marks, oldI, newI := [], 0, 0;
    if Before(stored[0].date, incoming[0].date) {
      oldI := SkipEarlyStoredEntries(stored, incoming[0].date);
      BeforeIsAsymmetric(stored[0].date, incoming[0].date);
    } else if Before(incoming[0].date, stored[0].date) {
      BeforeIsAsymmetric(incoming[0].date, stored[0].date);
      marks, newI := MarkEarlyNewEntries(incoming, stored[0].date);
    }
    assert stored[..0] == [] && incoming[..0] == [];
  }

  /** The loop at account.py:37, bounded: the stored entries dated before d are passed over. */
  method SkipEarlyStoredEntries(stored: seq<Transaction>, d: Date) returns (oldI: nat)
    ensures oldI == SkipBefore(stored, d, 0)
  {
    oldI := 0;
    while oldI < |stored| && Before(stored[oldI].date, d)
      invariant oldI <= |stored|
      invariant SkipBefore(stored, d, oldI) == SkipBefore(stored, d, 0)
      decreases |stored| - oldI
    {
      oldI := oldI + 1;
    }
  }

  /**
   * The loop at account.py:41-43, bounded: each new entry dated before d is
   * marked for the head, newest first, so that the marks lay the entries
   * out in their own order.
   */
  method MarkEarlyNewEntries(incoming: seq<Transaction>, d: Date) returns (marks: seq<Mark>, newI: nat)
    ensures newI == SkipBefore(incoming, d, 0)
    ensures |marks| == newI
    ensures IndexesWithin(marks, |incoming|) && PositionsWithin(marks, 0)
    ensures Apply([], marks, incoming) == incoming[..newI]
  {
    marks, newI := [], 0;
    while newI < |incoming| && Before(incoming[newI].date, d)
      invariant newI <= |incoming|
      invariant SkipBefore(incoming, d, newI) == SkipBefore(incoming, d, 0)
      invariant |marks| == newI
      invariant IndexesWithin(marks, |incoming|) && PositionsWithin(marks, 0)
      invariant Apply([], marks, incoming) == incoming[..newI]
      decreases |incoming| - newI
    {
      MarkAtEnd([], marks, incoming, newI);
      TakeOneMore(incoming, newI);
      marks := [Mark(newI, 0)] + marks;
      newI := newI + 1;
    }
  }
}
