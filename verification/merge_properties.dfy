/**
 * What `add_unique_transactions` promises about its result, proved of the
 * reference merge `Accounts.Merge` (and so, through the method's contract,
 * of `Account.AddUniqueTransactions`): the stored entries all survive in
 * their order, only new entries are added and in their order, the new
 * statement appears as a window of the result, the result stays
 * chronological, and merging the same statement again adds nothing.
 */
module MergeProperties {
  import opened Outcomes
  import opened Dates
  import opened Transactions
  import opened Accounts

  // ---------------------------------------------------------------------
  // Order-keeping combinations of lists
  // ---------------------------------------------------------------------

  /** out is a shuffle of a and b that keeps the order within each. */
  predicate Interleaving(out: seq<Transaction>, a: seq<Transaction>, b: seq<Transaction>)
    decreases |out|
  {
    if |out| == 0 then |a| == 0 && |b| == 0
    else
      || (|a| > 0 && out[0] == a[0] && Interleaving(out[1..], a[1..], b))
      || (|b| > 0 && out[0] == b[0] && Interleaving(out[1..], a, b[1..]))
  }

  /** sub is s with some entries left out, the rest in their order. */
  predicate Subsequence(sub: seq<Transaction>, s: seq<Transaction>)
    decreases |s|
  {
    if |sub| == 0 then true
    else if |s| == 0 then false
    else (sub[0] == s[0] && Subsequence(sub[1..], s[1..])) || Subsequence(sub, s[1..])
  }

  /** An interleaving is made of exactly the entries of its two parts. */
  lemma {:induction false} InterleavingIsAPermutation(out: seq<Transaction>, a: seq<Transaction>, b: seq<Transaction>)
    requires Interleaving(out, a, b)
    ensures multiset(out) == multiset(a) + multiset(b)
    decreases |out|
  {
    if |out| > 0 {
      assert out == [out[0]] + out[1..];
      if |a| > 0 && out[0] == a[0] && Interleaving(out[1..], a[1..], b) {
        InterleavingIsAPermutation(out[1..], a[1..], b);
        assert a == [a[0]] + a[1..];
      } else {
        InterleavingIsAPermutation(out[1..], a, b[1..]);
        assert b == [b[0]] + b[1..];
      }
    }
  }

  lemma {:induction false} InterleavingWithNothing(a: seq<Transaction>)
    ensures Interleaving(a, a, [])
    ensures Interleaving(a, [], a)
    decreases |a|
  {
    if |a| > 0 {
      InterleavingWithNothing(a[1..]);
    }
  }

  lemma {:induction false} SubsequenceOfItself(s: seq<Transaction>)
    ensures Subsequence(s, s)
    decreases |s|
  {
    if |s| > 0 {
      SubsequenceOfItself(s[1..]);
    }
  }

  lemma TakeFromA(x: Transaction, out: seq<Transaction>, a: seq<Transaction>, b: seq<Transaction>)
    requires Interleaving(out, a, b)
    ensures Interleaving([x] + out, [x] + a, b)
  {
    assert ([x] + out)[1..] == out;
    assert ([x] + a)[1..] == a;
  }

  lemma TakeFromB(x: Transaction, out: seq<Transaction>, a: seq<Transaction>, b: seq<Transaction>)
    requires Interleaving(out, a, b)
    ensures Interleaving([x] + out, a, [x] + b)
  {
    assert ([x] + out)[1..] == out;
    assert ([x] + b)[1..] == b;
  }

  lemma KeepInSubsequence(x: Transaction, sub: seq<Transaction>, s: seq<Transaction>)
    requires Subsequence(sub, s)
    ensures Subsequence([x] + sub, [x] + s)
  {
    assert ([x] + sub)[1..] == sub;
    assert ([x] + s)[1..] == s;
  }

  lemma LeaveOutOfSubsequence(x: Transaction, sub: seq<Transaction>, s: seq<Transaction>)
    requires Subsequence(sub, s)
    ensures Subsequence(sub, [x] + s)
  {
    assert ([x] + s)[1..] == s;
  }

  /** A shared prefix of the result and of the first part keeps an interleaving. */
  lemma {:induction false} InterleavingAfterA(p: seq<Transaction>, out: seq<Transaction>, a: seq<Transaction>, b: seq<Transaction>)
    requires Interleaving(out, a, b)
    ensures Interleaving(p + out, p + a, b)
    decreases |p|
  {
    if |p| == 0 {
      assert p + out == out && p + a == a;
    } else {
      InterleavingAfterA(p[1..], out, a, b);
      TakeFromA(p[0], p[1..] + out, p[1..] + a, b);
      assert [p[0]] + (p[1..] + out) == p + out;
      assert [p[0]] + (p[1..] + a) == p + a;
    }
  }

  /** A shared prefix of the result and of the second part keeps an interleaving. */
  lemma {:induction false} InterleavingAfterB(p: seq<Transaction>, out: seq<Transaction>, a: seq<Transaction>, b: seq<Transaction>)
    requires Interleaving(out, a, b)
    ensures Interleaving(p + out, a, p + b)
    decreases |p|
  {
    if |p| == 0 {
      assert p + out == out && p + b == b;
    } else {
      InterleavingAfterB(p[1..], out, a, b);
      TakeFromB(p[0], p[1..] + out, a, p[1..] + b);
      assert [p[0]] + (p[1..] + out) == p + out;
      assert [p[0]] + (p[1..] + b) == p + b;
    }
  }

  lemma {:induction false} SubsequenceAfter(p: seq<Transaction>, sub: seq<Transaction>, s: seq<Transaction>)
    requires Subsequence(sub, s)
    ensures Subsequence(p + sub, p + s)
    decreases |p|
  {
    if |p| == 0 {
      assert p + sub == sub && p + s == s;
    } else {
      SubsequenceAfter(p[1..], sub, s);
      KeepInSubsequence(p[0], p[1..] + sub, p[1..] + s);
      assert [p[0]] + (p[1..] + sub) == p + sub;
      assert [p[0]] + (p[1..] + s) == p + s;
    }
  }

  // ---------------------------------------------------------------------
  // Stored entries survive, and only new entries are added
  // ---------------------------------------------------------------------

  /**
   * From any point of the scan, the merged rest is the remaining stored
   * entries with the entries it takes in shuffled in, and those are some of
   * the remaining new entries, in their order.
   */
  lemma {:induction false} MergeFromInterleaves(stored: seq<Transaction>, incoming: seq<Transaction>, i: nat, j: nat)
    requires i <= |stored| && j <= |incoming|
    ensures var r := MergeFrom(stored, incoming, i, j);
      r.Ok? ==> (Interleaving(r.value.entries, stored[i..], r.value.inserted)
                 && Subsequence(r.value.inserted, incoming[j..]))
    decreases |stored| - i + |incoming| - j
  {
    if j == |incoming| {
      InterleavingWithNothing(stored[i..]);
    } else if i == |stored| {
      InterleavingWithNothing(incoming[j..]);
      SubsequenceOfItself(incoming[j..]);
    } else if IsEquivalent(incoming[j], stored[i]) {
      MergeFromInterleaves(stored, incoming, i + 1, j + 1);
      var rest := MergeFrom(stored, incoming, i + 1, j + 1);
      if rest.Ok? {
        TakeFromA(stored[i], rest.value.entries, stored[i + 1..], rest.value.inserted);
        LeaveOutOfSubsequence(incoming[j], rest.value.inserted, incoming[j + 1..]);
        DropOne(stored, i);
        DropOne(incoming, j);
        assert [] + rest.value.inserted == rest.value.inserted;
      }
    } else if Before(incoming[j].date, stored[i].date) {
      MergeFromInterleaves(stored, incoming, i, j + 1);
      var rest := MergeFrom(stored, incoming, i, j + 1);
      if rest.Ok? {
        TakeFromB(incoming[j], rest.value.entries, stored[i..], rest.value.inserted);
        KeepInSubsequence(incoming[j], rest.value.inserted, incoming[j + 1..]);
        DropOne(incoming, j);
      }
    }
  }

  /**
   * The merged list is the stored list with the inserted entries shuffled
   * in: every stored entry stays and keeps its order, and the inserted
   * entries are new entries, in the order of the new list.
   */
  lemma MergeInterleaves(stored: seq<Transaction>, incoming: seq<Transaction>)
    ensures var r := Merge(stored, incoming);
      r.Ok? ==> (Interleaving(r.value.entries, stored, r.value.inserted)
                 && Subsequence(r.value.inserted, incoming))
  {
    if |incoming| == 0 {
      InterleavingWithNothing(stored);
    } else if |stored| == 0 {
      InterleavingWithNothing(incoming);
      SubsequenceOfItself(incoming);
    } else {
      var i := SkipBefore(stored, incoming[0].date, 0);
      var j := SkipBefore(incoming, stored[0].date, 0);
      OneSkipIsEmpty(stored, incoming);
      MergeFromInterleaves(stored, incoming, i, j);
      var rest := MergeFrom(stored, incoming, i, j);
      if rest.Ok? {
        var m := rest.value;
        if j == 0 {
          InterleavingAfterA(stored[..i], m.entries, stored[i..], m.inserted);
          SplitAt(stored, i);
          assert incoming[..j] == [] && incoming[j..] == incoming;
          assert stored[..i] + incoming[..j] == stored[..i];
          assert incoming[..j] + m.inserted == m.inserted;
        } else {
          InterleavingAfterB(incoming[..j], m.entries, stored, m.inserted);
          SubsequenceAfter(incoming[..j], m.inserted, incoming[j..]);
          SplitAt(incoming, j);
          assert stored[..i] == [] && stored[i..] == stored;
          assert stored[..i] + incoming[..j] == incoming[..j];
        }
      }
    }
  }

  /** Hence the merged list holds exactly the stored entries and the inserted ones. */
  lemma MergeAddsOnlyInserted(stored: seq<Transaction>, incoming: seq<Transaction>)
    ensures var r := Merge(stored, incoming);
      r.Ok? ==> multiset(r.value.entries) == multiset(stored) + multiset(r.value.inserted)
  {
    MergeInterleaves(stored, incoming);
    var r := Merge(stored, incoming);
    if r.Ok? {
      InterleavingIsAPermutation(r.value.entries, stored, r.value.inserted);
    }
  }

  // ---------------------------------------------------------------------
  // The new statement appears as a window of the result
  // ---------------------------------------------------------------------

  /** Entry by entry, the front of `e` is equivalent to the whole of `w`. */
  predicate MatchesFront(e: seq<Transaction>, w: seq<Transaction>)
  {
    |w| <= |e| && forall t :: 0 <= t < |w| ==> IsEquivalent(e[t], w[t])
  }

  lemma MatchesItself(w: seq<Transaction>)
    ensures MatchesFront(w, w)
  {
  }

  lemma MatchesCons(x: Transaction, y: Transaction, e: seq<Transaction>, w: seq<Transaction>)
    requires IsEquivalent(x, y) && MatchesFront(e, w)
    ensures MatchesFront([x] + e, [y] + w)
  {
  }

  lemma MatchesAfter(p: seq<Transaction>, e: seq<Transaction>, w: seq<Transaction>)
    requires MatchesFront(e, w)
    ensures MatchesFront(p + e, p + w)
  {
    forall t | 0 <= t < |p + w|
      ensures IsEquivalent((p + e)[t], (p + w)[t])
    {
      if t >= |p| {
        assert (p + e)[t] == e[t - |p|] && (p + w)[t] == w[t - |p|];
      }
    }
  }

  lemma MatchesRest(e: seq<Transaction>, w: seq<Transaction>)
    requires MatchesFront(e, w) && |w| > 0
    ensures IsEquivalent(w[0], e[0])
    ensures MatchesFront(e[1..], w[1..])
  {
  }

  /** Each new entry from j on is matched, in turn, by the merged rest's entries from its start. */
  lemma {:induction false} MergeFromCoversWindow(stored: seq<Transaction>, incoming: seq<Transaction>, i: nat, j: nat)
    requires i <= |stored| && j <= |incoming|
    ensures var r := MergeFrom(stored, incoming, i, j);
      r.Ok? ==> MatchesFront(r.value.entries, incoming[j..])
    decreases |stored| - i + |incoming| - j
  {
    if j == |incoming| {
    } else if i == |stored| {
      MatchesItself(incoming[j..]);
    } else if IsEquivalent(incoming[j], stored[i]) {
      MergeFromCoversWindow(stored, incoming, i + 1, j + 1);
      var rest := MergeFrom(stored, incoming, i + 1, j + 1);
      if rest.Ok? {
        MatchesCons(stored[i], incoming[j], rest.value.entries, incoming[j + 1..]);
        DropOne(incoming, j);
      }
    } else if Before(incoming[j].date, stored[i].date) {
      MergeFromCoversWindow(stored, incoming, i, j + 1);
      var rest := MergeFrom(stored, incoming, i, j + 1);
      if rest.Ok? {
        MatchesCons(incoming[j], incoming[j], rest.value.entries, incoming[j + 1..]);
        DropOne(incoming, j);
      }
    }
  }

  /** Where the new statement starts in the merged list: after the stored entries skipped as earlier. */
  function WindowStart(stored: seq<Transaction>, incoming: seq<Transaction>): (k: nat)
    ensures k <= |stored|
    ensures |incoming| > 0 ==> forall t :: 0 <= t < k ==> Before(stored[t].date, incoming[0].date)
  {
    if |stored| == 0 || |incoming| == 0 then 0 else SkipBefore(stored, incoming[0].date, 0)
  }

  /**
   * The layout of a successful merge: the skipped earlier stored entries
   * first, unchanged, and right after them the whole new statement, entry
   * by entry equivalent to what was read.
   */
  lemma MergeLayout(stored: seq<Transaction>, incoming: seq<Transaction>)
    ensures var r := Merge(stored, incoming); var k := WindowStart(stored, incoming);
      r.Ok? ==> (k + |incoming| <= |r.value.entries|
                 && r.value.entries[..k] == stored[..k]
                 && MatchesFront(r.value.entries[k..], incoming))
  {
    if |incoming| == 0 {
    } else if |stored| == 0 {
      MatchesItself(incoming);
    } else {
      var i := SkipBefore(stored, incoming[0].date, 0);
      var j := SkipBefore(incoming, stored[0].date, 0);
      OneSkipIsEmpty(stored, incoming);
      MergeFromCoversWindow(stored, incoming, i, j);
      var rest := MergeFrom(stored, incoming, i, j);
      if rest.Ok? {
        var e := rest.value.entries;
        if j == 0 {
          DropEmptyMiddle(stored[..i], incoming[..j], e);
        } else {
          DropEmptyFront(stored[..i], incoming[..j], e);
          MatchesAfter(incoming[..j], e, incoming[j..]);
          SplitAt(incoming, j);
        }
      }
    }
  }

  lemma DropEmptyMiddle<T>(a: seq<T>, b: seq<T>, c: seq<T>)
    requires |b| == 0
    ensures (a + b + c)[..|a|] == a && (a + b + c)[|a|..] == c
  {
    assert a + b + c == a + c;
  }

  lemma DropEmptyFront<T>(a: seq<T>, b: seq<T>, c: seq<T>)
    requires |a| == 0
    ensures (a + b + c)[..|a|] == a && (a + b + c)[|a|..] == b + c
  {
    assert a + b + c == b + c;
  }

  /**
   * With a chronological new statement, every new entry dated before the
   * first stored entry goes to the head, in order, and is counted as
   * inserted.
   */
  lemma MergePutsEarlierEntriesFirst(stored: seq<Transaction>, incoming: seq<Transaction>)
    requires |stored| > 0 && DatesNonDecreasing(incoming)
    ensures var r := Merge(stored, incoming);
      r.Ok? ==>
        forall t :: 0 <= t < |incoming| && Before(incoming[t].date, stored[0].date) ==>
          t < |r.value.inserted| && r.value.entries[t] == incoming[t] && r.value.inserted[t] == incoming[t]
  {
    var r := Merge(stored, incoming);
    if r.Ok? && |incoming| > 0 {
      var i := SkipBefore(stored, incoming[0].date, 0);
      var j := SkipBefore(incoming, stored[0].date, 0);
      OneSkipIsEmpty(stored, incoming);
      var m := MergeFrom(stored, incoming, i, j).value;
      forall t | 0 <= t < |incoming| && Before(incoming[t].date, stored[0].date)
        ensures t < |r.value.inserted| && r.value.entries[t] == incoming[t] && r.value.inserted[t] == incoming[t]
      {
        if t >= j {
          SortedPairwise(incoming, j, t);
          DateOrderIsTotal(incoming[j].date, incoming[t].date, stored[0].date);
          assert false;
        }
        DropEmptyFront(stored[..i], incoming[..j], m.entries);
        assert r.value.entries[t] == (incoming[..j] + m.entries)[t] == incoming[..j][t];
        assert r.value.inserted[t] == (incoming[..j] + m.inserted)[t] == incoming[..j][t];
      }
    }
  }

  /**
   * With a chronological stored list, every stored entry dated before the
   * new statement's first date is still at its index after the merge.
   */
  lemma MergeKeepsEarlierHistory(stored: seq<Transaction>, incoming: seq<Transaction>)
    requires DatesNonDecreasing(stored)
    ensures var r := Merge(stored, incoming);
      r.Ok? && |incoming| > 0 ==>
        forall t :: 0 <= t < |stored| && Before(stored[t].date, incoming[0].date) ==> r.value.entries[t] == stored[t]
  {
    MergeLayout(stored, incoming);
    var r := Merge(stored, incoming);
    if r.Ok? && |incoming| > 0 {
      var k := WindowStart(stored, incoming);
      forall t | 0 <= t < |stored| && Before(stored[t].date, incoming[0].date)
        ensures r.value.entries[t] == stored[t]
      {
        if t >= k {
          SortedPairwise(stored, k, t);
          DateOrderIsTotal(stored[k].date, stored[t].date, incoming[0].date);
          assert false;
        }
        assert r.value.entries[..k][t] == stored[..k][t];
      }
    }
  }

  /** In a list whose adjacent dates never decrease, no later entry is dated before an earlier one. */
  lemma {:induction false} SortedPairwise(s: seq<Transaction>, a: nat, b: nat)
    requires DatesNonDecreasing(s) && a <= b < |s|
    ensures AtOrBefore(s[a].date, s[b].date)
    decreases b - a
  {
    if a < b {
      SortedPairwise(s, a + 1, b);
      DateOrderIsTotal(s[a].date, s[a + 1].date, s[b].date);
    }
  }

  // ---------------------------------------------------------------------
  // Chronological order is kept
  // ---------------------------------------------------------------------

  lemma ConsKeepsDateOrder(x: Transaction, e: seq<Transaction>)
    requires DatesNonDecreasing(e)
    requires |e| > 0 ==> AtOrBefore(x.date, e[0].date)
    ensures DatesNonDecreasing([x] + e)
  {
  }

  lemma AppendKeepsDateOrder(a: seq<Transaction>, b: seq<Transaction>)
    requires DatesNonDecreasing(a) && DatesNonDecreasing(b)
    requires |a| > 0 && |b| > 0 ==> AtOrBefore(a[|a| - 1].date, b[0].date)
    ensures DatesNonDecreasing(a + b)
  {
    var s := a + b;
    forall t | 0 < t < |s|
      ensures AtOrBefore(s[t - 1].date, s[t].date)
    {
      if t > |a| {
        assert s[t - 1] == b[t - 1 - |a|] && s[t] == b[t - |a|];
      }
    }
  }

  lemma SliceKeepsDateOrder(s: seq<Transaction>, lo: nat, hi: nat)
    requires DatesNonDecreasing(s) && lo <= hi <= |s|
    ensures DatesNonDecreasing(s[lo..hi])
  {
    forall t | 0 < t < hi - lo
      ensures AtOrBefore(s[lo..hi][t - 1].date, s[lo..hi][t].date)
    {
      assert s[lo..hi][t - 1] == s[lo + t - 1] && s[lo..hi][t] == s[lo + t];
    }
  }

  /**
   * From any point of the scan, with both lists chronological, the merged
   * rest is chronological and starts with the current stored or new entry.
   */
  lemma {:induction false} MergeFromKeepsDateOrder(stored: seq<Transaction>, incoming: seq<Transaction>, i: nat, j: nat)
    requires i <= |stored| && j <= |incoming|
    requires DatesNonDecreasing(stored) && DatesNonDecreasing(incoming)
    ensures var r := MergeFrom(stored, incoming, i, j);
      r.Ok? ==> (DatesNonDecreasing(r.value.entries)
                 && (|r.value.entries| > 0 ==>
                       (i < |stored| && r.value.entries[0] == stored[i])
                       || (j < |incoming| && r.value.entries[0] == incoming[j])))
    decreases |stored| - i + |incoming| - j
  {
    if j == |incoming| {
      SliceKeepsDateOrder(stored, i, |stored|);
      SliceToEnd(stored, i);
    } else if i == |stored| {
      SliceKeepsDateOrder(incoming, j, |incoming|);
      SliceToEnd(incoming, j);
    } else if IsEquivalent(incoming[j], stored[i]) {
      MergeFromKeepsDateOrder(stored, incoming, i + 1, j + 1);
      var rest := MergeFrom(stored, incoming, i + 1, j + 1);
      if rest.Ok? {
        ConsKeepsDateOrder(stored[i], rest.value.entries);
      }
    } else if Before(incoming[j].date, stored[i].date) {
      MergeFromKeepsDateOrder(stored, incoming, i, j + 1);
      var rest := MergeFrom(stored, incoming, i, j + 1);
      if rest.Ok? {
        ConsKeepsDateOrder(incoming[j], rest.value.entries);
      }
    }
  }

  /**
   * When the stored list and the new statement are both chronological, so
   * is the merged list: the account stays a chronological list.
   */
  lemma MergeKeepsDateOrder(stored: seq<Transaction>, incoming: seq<Transaction>)
    requires DatesNonDecreasing(stored) && DatesNonDecreasing(incoming)
    ensures var r := Merge(stored, incoming);
      r.Ok? ==> DatesNonDecreasing(r.value.entries)
  {
    if |incoming| > 0 && |stored| > 0 {
      var i := SkipBefore(stored, incoming[0].date, 0);
      var j := SkipBefore(incoming, stored[0].date, 0);
      OneSkipIsEmpty(stored, incoming);
      MergeFromKeepsDateOrder(stored, incoming, i, j);
      var rest := MergeFrom(stored, incoming, i, j);
      if rest.Ok? {
        var e := rest.value.entries;
        if j == 0 {
          SliceKeepsDateOrder(stored, 0, i);
          assert stored[..i] == stored[0..i];
          if i > 0 && |e| > 0 {
            assert stored[..i][i - 1] == stored[i - 1];
          }
          AppendKeepsDateOrder(stored[..i], e);
          assert stored[..i] + incoming[..j] == stored[..i];
        } else {
          SliceKeepsDateOrder(incoming, 0, j);
          assert incoming[..j] == incoming[0..j];
          if |e| > 0 {
            assert incoming[..j][j - 1] == incoming[j - 1];
          }
          AppendKeepsDateOrder(incoming[..j], e);
          assert stored[..i] + incoming[..j] == incoming[..j];
        }
      }
    }
  }

  // ---------------------------------------------------------------------
  // Conflicts
  // ---------------------------------------------------------------------

  /** A reported conflict names a real pair: not equivalent, and the new entry is not dated before the stored one. */
  predicate IsConflict(stored: seq<Transaction>, incoming: seq<Transaction>, e: MergeError)
  {
    && e.newIndex < |incoming| && e.oldIndex < |stored|
    && !IsEquivalent(incoming[e.newIndex], stored[e.oldIndex])
    && !Before(incoming[e.newIndex].date, stored[e.oldIndex].date)
  }

  lemma {:induction false} MergeFromConflictIsReal(stored: seq<Transaction>, incoming: seq<Transaction>, i: nat, j: nat)
    requires i <= |stored| && j <= |incoming|
    ensures var r := MergeFrom(stored, incoming, i, j);
      r.Err? ==> IsConflict(stored, incoming, r.error)
    decreases |stored| - i + |incoming| - j
  {
    if j == |incoming| || i == |stored| {
    } else if IsEquivalent(incoming[j], stored[i]) {
      MergeFromConflictIsReal(stored, incoming, i + 1, j + 1);
    } else if Before(incoming[j].date, stored[i].date) {
      MergeFromConflictIsReal(stored, incoming, i, j + 1);
    }
  }

  /** The merge fails only on a pair that really conflicts. */
  lemma MergeConflictIsReal(stored: seq<Transaction>, incoming: seq<Transaction>)
    ensures var r := Merge(stored, incoming);
      r.Err? ==> IsConflict(stored, incoming, r.error)
  {
    if |incoming| > 0 && |stored| > 0 {
      MergeFromConflictIsReal(stored, incoming, SkipBefore(stored, incoming[0].date, 0), SkipBefore(incoming, stored[0].date, 0));
    }
  }

  // ---------------------------------------------------------------------
  // Merging what is already there adds nothing
  // ---------------------------------------------------------------------

  /** The skip stops at the first entry not dated before d. */
  lemma {:induction false} SkipStopsAt(s: seq<Transaction>, d: Date, k: nat, n: nat)
    requires k <= n < |s|
    requires forall t :: k <= t < n ==> Before(s[t].date, d)
    requires !Before(s[n].date, d)
    ensures SkipBefore(s, d, k) == n
    decreases n - k
  {
    if k < n {
      SkipStopsAt(s, d, k + 1, n);
    }
  }

  /** A scan over new entries each equivalent to the stored entry it meets keeps the stored rest and takes nothing. */
  lemma {:induction false} WalkOverMatches(stored: seq<Transaction>, incoming: seq<Transaction>, i: nat, j: nat)
    requires i <= |stored| && j <= |incoming|
    requires MatchesFront(stored[i..], incoming[j..])
    ensures MergeFrom(stored, incoming, i, j) == Ok(Merged(stored[i..], []))
    decreases |incoming| - j
  {
    if j < |incoming| {
      MatchesRest(stored[i..], incoming[j..]);
      RestOfSuffix(stored, i);
      RestOfSuffix(incoming, j);
      WalkOverMatches(stored, incoming, i + 1, j + 1);
      DropOne(stored, i);
    }
  }

  /**
   * A stored list whose entries from k on match the new statement entry
   * by entry, with everything before k dated earlier, takes in nothing.
   */
  lemma MergeOfCoveredWindow(stored: seq<Transaction>, incoming: seq<Transaction>, k: nat)
    requires k <= |stored| && |incoming| > 0
    requires forall t :: 0 <= t < k ==> Before(stored[t].date, incoming[0].date)
    requires MatchesFront(stored[k..], incoming)
    ensures Merge(stored, incoming) == Ok(Merged(stored, []))
  {
    MatchesRest(stored[k..], incoming);
    assert stored[k..][0] == stored[k];
    DateOrderIsTotal(incoming[0].date, stored[0].date, incoming[0].date);
    SkipStopsAt(stored, incoming[0].date, 0, k);
    if k > 0 {
      BeforeIsAsymmetric(stored[0].date, incoming[0].date);
    }
    assert SkipBefore(incoming, stored[0].date, 0) == 0;
    assert incoming[0..] == incoming;
    WalkOverMatches(stored, incoming, k, 0);
    DropEmptyMiddle(stored[..k], incoming[..0], stored[k..]);
    SplitAt(stored, k);
  }

  /**
   * A new statement equivalent, entry by entry, to the front of the stored
   * list (the stored list itself, or an equal copy of it) inserts nothing
   * and leaves the list as it is.
   */
  lemma MergeOfMatchingList(stored: seq<Transaction>, incoming: seq<Transaction>)
    requires MatchesFront(stored, incoming)
    ensures Merge(stored, incoming) == Ok(Merged(stored, []))
  {
    if |incoming| > 0 {
      assert stored[0..] == stored;
      MergeOfCoveredWindow(stored, incoming, 0);
    }
  }

  lemma SelfMergeInsertsNothing(stored: seq<Transaction>)
    ensures Merge(stored, stored) == Ok(Merged(stored, []))
  {
    MatchesItself(stored);
    MergeOfMatchingList(stored, stored);
  }

  /** Merging the same statement a second time inserts nothing and changes nothing. */
  lemma MergeIsIdempotent(stored: seq<Transaction>, incoming: seq<Transaction>)
    ensures var r := Merge(stored, incoming);
      r.Ok? ==> Merge(r.value.entries, incoming) == Ok(Merged(r.value.entries, []))
  {
    var r := Merge(stored, incoming);
    if r.Ok? && |incoming| > 0 {
      MergeLayout(stored, incoming);
      var e := r.value.entries;
      var k := WindowStart(stored, incoming);
      forall t | 0 <= t < k
        ensures Before(e[t].date, incoming[0].date)
      {
        assert e[t] == e[..k][t] == stored[..k][t] == stored[t];
      }
      MergeOfCoveredWindow(e, incoming, k);
    }
  }
}
