/**
 * Two places where nationwide_parser/account.py, read literally, does not
 * do what its own tests and comments say; the rest of the model uses the
 * corrected reading (`Accounts.Apply`, `Accounts.SkipBefore`).
 *
 * 1. The application loop (account.py:68-69) uses the first component of
 *    each recorded pair as the list position and the second as the index
 *    into the new statement, while the pairs are recorded the other way
 *    round, as (new index, old position) (account.py:42, :56, :64).
 * 2. The skip loops (account.py:37, :41) have no length bound, so a new
 *    statement dated wholly after the account, or an account dated wholly
 *    after the new statement, runs the index off the end (IndexError).
 */
module AccountAsWritten {
  import opened Outcomes
  import opened Dates
  import opened Transactions
  import opened Accounts
  import opened MergeProperties
  import opened AccountCases

  /**
   * The application loop as written: each pair's first component taken as
   * the position, the second as the index into the new statement. None is
   * the IndexError raised when that index is past the new statement.
   */
  function ApplyAsWritten(s: seq<Transaction>, marks: seq<Mark>, incoming: seq<Transaction>): (r: Option<seq<Transaction>>)
    ensures r.Some? <==> forall k :: 0 <= k < |marks| ==> marks[k].position < |incoming|
    ensures r.Some? ==> |r.value| == |s| + |marks|
    decreases |marks|
  {
    if |marks| == 0 then Some(s)
    else if marks[0].position >= |incoming| then None
    else ApplyAsWritten(Insert(s, marks[0].newIndex, incoming[marks[0].position]), marks[1..], incoming)
  }

  /**
   * On the intermediate case of the tests, one insertion point yields the
   * expected list, and it can only be the pair (1, 2): new entry 1 goes
   * before stored entry 2.
   */
  lemma OnlyOnePointGivesTheIntermediateCase(n: nat, p: nat)
    requires n < 3
    requires Apply(Stored, [Mark(n, p)], [S1, Gap, S2]) == [S0, S1, Gap, S2, S3]
    ensures n == 1 && p == 2
  {
    var incoming := [S1, Gap, S2];
    var r := Insert(Stored, p, incoming[n]);
    assert [Mark(n, p)][1..] == [];
    assert r == Apply(Stored, [Mark(n, p)], incoming);
    assert r[2] == Gap;
    assert incoming[n] == Gap;
  }

  /**
   * That pair applied as written: new entry 2 (a copy of stored entry 2) is
   * inserted at position 1, and the gap entry is lost, where the corrected
   * application gives the list the test expects.
   */
  lemma SwappedPairMisplacesTheGapEntry()
    ensures Apply(Stored, [Mark(1, 2)], [S1, Gap, S2]) == [S0, S1, Gap, S2, S3]
    ensures ApplyAsWritten(Stored, [Mark(1, 2)], [S1, Gap, S2]) == Some([S0, S2, S1, S2, S3])
    ensures ApplyAsWritten(Stored, [Mark(1, 2)], [S1, Gap, S2]) != Some([S0, S1, Gap, S2, S3])
  {
    var incoming := [S1, Gap, S2];
    var marks := [Mark(1, 2)];
    assert marks[1..] == [];
    var v := Insert(Stored, 2, Gap);
    assert v == [S0, S1] + [Gap] + [S2, S3];
    assert Apply(Stored, marks, incoming) == Apply(v, [], incoming);
    var w := Insert(Stored, 1, incoming[2]);
    assert w == [S0] + [S2] + [S1, S2, S3];
    assert [S0] + [S2] + [S1, S2, S3] == [S0, S2, S1, S2, S3];
    assert ApplyAsWritten(Stored, marks, incoming) == ApplyAsWritten(w, [], incoming);
    assert w[2] != Gap;
  }

  /**
   * The skip loops as written: no length bound, so passing the last entry
   * is an IndexError (None).
   */
  function SkipAsWritten(s: seq<Transaction>, d: Date, k: nat): (r: Option<nat>)
    requires k <= |s|
    ensures r.Some? ==> r.value == SkipBefore(s, d, k)
    ensures r.None? <==> forall m :: k <= m < |s| ==> Before(s[m].date, d)
    decreases |s| - k
  {
    if k == |s| then None
    else if Before(s[k].date, d) then SkipAsWritten(s, d, k + 1)
    else Some(k)
  }

  lemma {:induction false} SkipRunsToTheEnd(s: seq<Transaction>, d: Date, k: nat)
    requires k <= |s|
    requires forall m :: k <= m < |s| ==> Before(s[m].date, d)
    ensures SkipBefore(s, d, k) == |s|
    decreases |s| - k
  {
    if k < |s| {
      SkipRunsToTheEnd(s, d, k + 1);
    }
  }

  /**
   * A new statement dated wholly after the account: the old-entry skip as
   * written runs off the end, while the bounded skip appends the whole
   * statement after the stored entries.
   */
  lemma WhollyLaterStatementRunsOffTheEnd(stored: seq<Transaction>, incoming: seq<Transaction>)
    requires |stored| > 0 && |incoming| > 0
    requires forall m :: 0 <= m < |stored| ==> Before(stored[m].date, incoming[0].date)
    ensures Before(stored[0].date, incoming[0].date)
    ensures SkipAsWritten(stored, incoming[0].date, 0) == None
    ensures Merge(stored, incoming) == Ok(Merged(stored + incoming, incoming))
  {
    SkipRunsToTheEnd(stored, incoming[0].date, 0);
    BeforeIsAsymmetric(stored[0].date, incoming[0].date);
    assert SkipBefore(incoming, stored[0].date, 0) == 0;
    assert incoming[0..] == incoming;
    assert MergeFrom(stored, incoming, |stored|, 0) == Ok(Merged(incoming, incoming));
    assert stored[..|stored|] + incoming[..0] == stored;
    assert incoming[..0] + incoming == incoming;
  }

  /**
   * An account dated wholly after the new statement: the new-entry skip as
   * written runs off the end, while the bounded skip puts the whole
   * statement in front of the stored entries.
   */
  lemma WhollyEarlierStatementRunsOffTheEnd(stored: seq<Transaction>, incoming: seq<Transaction>)
    requires |stored| > 0 && |incoming| > 0
    requires forall m :: 0 <= m < |incoming| ==> Before(incoming[m].date, stored[0].date)
    ensures Before(incoming[0].date, stored[0].date)
    ensures SkipAsWritten(incoming, stored[0].date, 0) == None
    ensures Merge(stored, incoming) == Ok(Merged(incoming + stored, incoming))
  {
    SkipRunsToTheEnd(incoming, stored[0].date, 0);
    BeforeIsAsymmetric(incoming[0].date, stored[0].date);
    assert SkipBefore(stored, incoming[0].date, 0) == 0;
    assert incoming[..|incoming|] == incoming && stored[..0] == [] && stored[0..] == stored;
    assert stored[..0] + incoming[..|incoming|] == incoming;
    assert incoming + [] == incoming;
  }
}
