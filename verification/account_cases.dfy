/**
 * The merge cases of nationwide_parser/account_test.py, stated about the
 * reference merge. Through the contract of `Account.AddUniqueTransactions`
 * each is also what the method does to an account holding `Stored`.
 */
module AccountCases {
  import opened Outcomes
  import opened Dates
  import opened Transactions
  import opened Accounts
  import opened MergeProperties

  function Entry(year: int, month: int, day: int, amount: int, balance: int): Transaction
    requires IsValid(Date(year, month, day))
  {
    Transaction(Date(year, month, day), amount, "abc", "xyz", balance)
  }

  // The account every case starts from.
  const S0: Transaction := Entry(2025, 2, 1, 1, 1001)
  const S1: Transaction := Entry(2025, 2, 2, 99, 1100)
  const S2: Transaction := Entry(2025, 2, 4, -600, 500)
  const S3: Transaction := Entry(2025, 2, 4, -100, 400)
  const Stored: seq<Transaction> := [S0, S1, S2, S3]

  // New entries the cases bring in.
  const January: Transaction := Entry(2025, 1, 1, 100, 100)
  const Gap: Transaction := Entry(2025, 2, 3, 100, 1200)
  const Later: Transaction := Entry(2025, 2, 5, -200, 200)

  // Entries that clash with stored ones on the same date.
  const ClashFirst: Transaction := Entry(2025, 2, 1, 10, 1000)
  const ClashSecond: Transaction := Entry(2025, 2, 4, -300, 200)

  /** Merging nothing, the stored list itself or an equal copy adds nothing. */
  lemma EmptySelfAndEqualMerges()
    ensures Merge(Stored, []) == Ok(Merged(Stored, []))
    ensures Merge(Stored, Stored) == Ok(Merged(Stored, []))
    ensures Merge(Stored, [S0, S1, S2, S3]) == Ok(Merged(Stored, []))
  {
    SelfMergeInsertsNothing(Stored);
  }

  /** An entry dated before the account goes to the head. */
  lemma EarlierMerge()
    ensures Merge(Stored, [January, S0]) == Ok(Merged([January, S0, S1, S2, S3], [January]))
  {
    var incoming := [January, S0];
    assert SkipBefore(Stored, January.date, 0) == 0;
    assert SkipBefore(incoming, S0.date, 1) == 1;
    assert SkipBefore(incoming, S0.date, 0) == 1;
    assert MergeFrom(Stored, incoming, 1, 2) == Ok(Merged([S1, S2, S3], []));
    assert [S0] + [S1, S2, S3] == Stored;
    assert MergeFrom(Stored, incoming, 0, 1) == Ok(Merged(Stored, []));
    assert Stored[..0] + incoming[..1] == [January] && incoming[..1] + [] == [January];
    assert [January] + Stored == [January, S0, S1, S2, S3];
  }

  /** An entry dated between two stored entries goes between them. */
  lemma IntermediateMerge()
    ensures Merge(Stored, [S1, Gap, S2]) == Ok(Merged([S0, S1, Gap, S2, S3], [Gap]))
  {
    var incoming := [S1, Gap, S2];
    assert SkipBefore(Stored, S1.date, 1) == 1;
    assert SkipBefore(Stored, S1.date, 0) == 1;
    assert SkipBefore(incoming, S0.date, 0) == 0;
    assert MergeFrom(Stored, incoming, 3, 3) == Ok(Merged([S3], []));
    assert [S2] + [S3] == [S2, S3];
    assert MergeFrom(Stored, incoming, 2, 2) == Ok(Merged([S2, S3], []));
    assert [Gap] + [S2, S3] == [Gap, S2, S3];
    assert [Gap] + [] == [Gap];
    assert MergeFrom(Stored, incoming, 2, 1) == Ok(Merged([Gap, S2, S3], [Gap]));
    assert [S1] + [Gap, S2, S3] == [S1, Gap, S2, S3];
    assert [] + [Gap] == [Gap];
    assert MergeFrom(Stored, incoming, 1, 0) == Ok(Merged([S1, Gap, S2, S3], [Gap]));
    assert Stored[..1] + incoming[..0] == [S0] && incoming[..0] + [Gap] == [Gap];
    assert [S0] + [S1, Gap, S2, S3] == [S0, S1, Gap, S2, S3];
  }

  /** An entry dated after the account goes to the tail. */
  lemma LaterMerge()
    ensures Merge(Stored, [S2, S3, Later]) == Ok(Merged([S0, S1, S2, S3, Later], [Later]))
  {
    var incoming := [S2, S3, Later];
    assert SkipBefore(Stored, S2.date, 2) == 2;
    assert SkipBefore(Stored, S2.date, 1) == 2;
    assert SkipBefore(Stored, S2.date, 0) == 2;
    assert SkipBefore(incoming, S0.date, 0) == 0;
    assert [Later] + [] == [Later];
    assert MergeFrom(Stored, incoming, 4, 2) == Ok(Merged([Later], [Later]));
    assert [S3] + [Later] == [S3, Later];
    assert [] + [Later] == [Later];
    assert MergeFrom(Stored, incoming, 3, 1) == Ok(Merged([S3, Later], [Later]));
    assert [S2] + [S3, Later] == [S2, S3, Later];
    assert [] + [Later] == [Later];
    assert MergeFrom(Stored, incoming, 2, 0) == Ok(Merged([S2, S3, Later], [Later]));
    assert Stored[..2] + incoming[..0] == [S0, S1] && incoming[..0] + [Later] == [Later];
    assert [S0, S1] + [S2, S3, Later] == [S0, S1, S2, S3, Later];
  }

  /** Head, gap and tail entries together: three added. */
  lemma CombinedMerge()
    ensures Merge(Stored, Combined)
         == Ok(Merged([January, S0, S1, Gap, S2, S3, Later], [January, Gap, Later]))
  {
    var incoming := Combined;
    assert SkipBefore(Stored, January.date, 0) == 0;
    assert SkipBefore(incoming, S0.date, 1) == 1;
    assert SkipBefore(incoming, S0.date, 0) == 1;
    CombinedFromFirstStored();
    assert Stored[..0] + incoming[..1] == [January] && incoming[..1] + [Gap, Later] == [January, Gap, Later];
    assert [January] + [S0, S1, Gap, S2, S3, Later] == [January, S0, S1, Gap, S2, S3, Later];
  }

  const Combined: seq<Transaction> := [January, S0, S1, Gap, S2, S3, Later]

  /** The combined statement from its copy of the first stored entry on. */
  lemma CombinedFromFirstStored()
    ensures MergeFrom(Stored, Combined, 0, 1) == Ok(Merged([S0, S1, Gap, S2, S3, Later], [Gap, Later]))
  {
    var incoming := Combined;
    CombinedFromGap();
    assert [S1] + [Gap, S2, S3, Later] == [S1, Gap, S2, S3, Later];
    assert [] + [Gap, Later] == [Gap, Later];
    assert MergeFrom(Stored, incoming, 1, 2) == Ok(Merged([S1, Gap, S2, S3, Later], [Gap, Later]));
    assert [S0] + [S1, Gap, S2, S3, Later] == [S0, S1, Gap, S2, S3, Later];
  }

  /** The combined statement from its gap entry on: the gap and the tail entry are added. */
  lemma CombinedFromGap()
    ensures MergeFrom(Stored, Combined, 2, 3) == Ok(Merged([Gap, S2, S3, Later], [Gap, Later]))
  {
    var incoming := Combined;
    assert [Later] + [] == [Later];
    assert MergeFrom(Stored, incoming, 4, 6) == Ok(Merged([Later], [Later]));
    assert [S3] + [Later] == [S3, Later];
    assert [] + [Later] == [Later];
    assert MergeFrom(Stored, incoming, 3, 5) == Ok(Merged([S3, Later], [Later]));
    assert [S2] + [S3, Later] == [S2, S3, Later];
    assert MergeFrom(Stored, incoming, 2, 4) == Ok(Merged([S2, S3, Later], [Later]));
    assert [Gap] + [S2, S3, Later] == [Gap, S2, S3, Later];
    assert [Gap] + [Later] == [Gap, Later];
  }

  /** A first new entry on the first stored date that does not match it is a conflict at (0, 0). */
  lemma InvalidFirstMerge()
    ensures Merge(Stored, [ClashFirst, S0, S1]) == Err(InconsistentTransactions(0, 0))
  {
    var incoming := [ClashFirst, S0, S1];
    assert SkipBefore(Stored, ClashFirst.date, 0) == 0;
    assert SkipBefore(incoming, S0.date, 0) == 0;
  }

  /** A third new entry that disagrees with the fourth stored one on the same date is a conflict at (2, 3). */
  lemma InvalidSecondMerge()
    ensures Merge(Stored, [S1, S2, ClashSecond, S3]) == Err(InconsistentTransactions(2, 3))
  {
    var incoming := [S1, S2, ClashSecond, S3];
    assert SkipBefore(Stored, S1.date, 1) == 1;
    assert SkipBefore(Stored, S1.date, 0) == 1;
    assert SkipBefore(incoming, S0.date, 0) == 0;
    assert MergeFrom(Stored, incoming, 3, 2) == Err(InconsistentTransactions(2, 3));
    assert MergeFrom(Stored, incoming, 2, 1) == Err(InconsistentTransactions(2, 3));
  }
}
