# Nationwide transaction parser, modelled in Dafny

This project models the core of a small Python tool. The tool reads bank
statement exports (Nationwide statements and Midata files) into lists of
transactions and merges each statement into an account's history. The model
covers five pieces:

- **`Transactions`** (`transaction.dfy`): the five-field transaction record.
  It holds a date, a signed amount in pence, a kind, a description and the
  closing balance. It also covers `is_equivalent`, the `__str__` amount
  rendering, and the helpers the statement reader calls: `succeeds`,
  `is_interest` and `redate`.
- **`Utils`** (`utils.dfy`): `decimalise`, which renders integer pence as
  `(-)P.pp`.
- **`Dates`** (`dates.dfy`): calendar dates as `datetime.date` holds them
  (leap years included), ordered lexicographically, with `min` and the ISO
  rendering. **`Digits`** (`digits.dfy`) holds the digit strings behind
  `str(n)`, `f"{n:02}"` and `int(s)`.
- **`StatementFormats`** (`statement_format.dfy`): the two statement layouts
  (`StatementReader`, a closed two-variant datatype). Each has a header
  line, a field arity, a banner pattern, a row parser, a balance-chain
  direction and an output ordering. The module also holds the money, date
  and row parsers. The earlier draft `statements.py` repeats the same
  parsers line for line, so the same functions model both files.
- **`Reconcile`** (`reconcile.dfy`): the repair automaton of
  `read_nationwide_file`.
  - `TransactionList.Append` and `TransactionList.InsertInterest` update the
    accepted list in place, as `append_transaction` and
    `insert_interest_transaction` do.
  - `ReadStatement` is the row loop. It carries the gap index and the
    held-back interest entry.
  - Each method is proved equal to a pure reference (`AppendOutcome`,
    `InsertOutcome`, `Ingest`). Chain properties are proved about those
    references.
- **`Accounts`** (`account.dfy`): `Account.AddUniqueTransactions`, the
  two-index merge of a new statement into the stored history. As in the
  source, it records insertion points first and then applies them to the
  `transactions` field, newest first. It is proved to produce what `Merge`
  (a front-to-back reference merge) describes.
  - `MergeProperties` (`merge_properties.dfy`) proves what the merge
    promises about `Merge`.
  - `AccountCases` (`account_cases.dfy`) states the merge cases of the test
    suite.
  - `AccountAsWritten` (`account_as_written.dfy`) models two places where
    the merge code, read literally, differs from its tests (see Findings).

Every failure becomes the `Err` arm of a `Result`:

- a Python `ValueError`, `IndexError` or `KeyError` from a parser (a
  `FieldError`);
- a `StatementParseError` from the reader (an `IngestError`, whatever was
  re-raised inside the loop);
- the conflict error of the merge (`MergeError`).

Where the merge code and its tests disagree, the model follows the tests:

- `add_unique_transactions` returns `None` on every path
  (`nationwide_parser/account.py:17`, `:24`, `:71`), but the tests expect the
  number of entries added, which is the number of insertion points the code
  logs at `:70`. `Account.AddUniqueTransactions` returns that count (the
  whole new list when the account was empty).
- The code raises `ValueError` on a conflict (`account.py:60`). The tests
  expect `InconsistentTransactionsError` (`account_test.py:5`), which the
  shown file does not define. Both are the single `Err(InconsistentTransactions(new index, old index))`.
- `succeeds`, `is_interest`, `redate` and `all_transactions_are_continuous`
  are called but not defined in the shown sources. They are defined here
  with their evident meaning:
  - `next.succeeds(previous)` holds when the date is no earlier and the
    previous balance plus the amount is the new balance;
  - interest is a credit whose kind is `"Interest added"`;
  - `redate` changes only the date;
  - continuity means every adjacent pair succeeds.

## Model

| member | source | states |
|---|---|---|
| Digits.Decimal | nationwide_parser/transaction.py:22 | `str(n)` gives a non-empty digit string whose value is n, with no leading zero once n >= 10. |
| Digits.ZeroPad | nationwide_parser/utils.py:10 | `f"{n:02}"` is a digit string of value n, padded to the width when shorter. |
| Digits.ParseNatural | nationwide_parser/statement.py:81 | The digit-string reading behind `int(s)`: it succeeds exactly on non-empty ASCII digit strings and gives their value (the narrowing against Python's `int` is under Left out). |
| Digits.DecimalRoundTrip | nationwide_parser/statement.py:81 | Reading back what `str(n)` printed gives n. |
| Utils.DecimaliseShape | nationwide_parser/utils.py:1-10 | A leading "-" appears exactly for negative input, and what follows it is abs(q) written as pounds and pence. |
| Utils.Decimalise | nationwide_parser/utils.py:1-10 | `decimalise`: "-" for a negative quantity, then the magnitude as `P.pp`; `DecimaliseShape` and `DecimaliseRoundTrip` state its shape and that reading it back recovers the quantity. |
| Utils.UnsignedShape | nationwide_parser/utils.py:10 | Non-negative pence are written as n div 100 in decimal, a ".", then exactly two digits equal to n mod 100. |
| Utils.DecimaliseRoundTrip | nationwide_parser/utils.py:1-10 | The integer part times 100 plus the two-digit fraction, signed by the prefix, recovers the input. |
| Utils.DecimaliseZero | nationwide_parser/utils.py:10 | `decimalise(0)` is "0.00". |
| Dates.DaysInMonth | nationwide_parser/statement.py:96 | Months have 28 to 31 days, and 29 exactly for February of a leap year. |
| Dates.LeapDayExistsOnlyInLeapYears | nationwide_parser/statement.py:96 | `datetime.date(y, 2, 29)` exists exactly when y is a leap year. |
| Dates.Min | nationwide_parser/statement.py:214 | `min` of two dates is one of them and no later than either. |
| Dates.DateOrderIsTotal | nationwide_parser/account.py:54 | `<` on dates is irreflexive, transitive and total, and `a <= b` is `not b < a`. |
| Dates.IsoFormat | nationwide_parser/transaction.py:26 | `str(date)` is YYYY-MM-DD, each field in decimal with the date's value. |
| Transactions.EquivalenceIgnoresLabels | nationwide_parser/transaction.py:28-29 | Two entries are equivalent exactly when they agree once kind and description are blanked out. |
| Transactions.EquivalenceIsAnEquivalence | nationwide_parser/transaction.py:28-29 | `is_equivalent` is reflexive, symmetric and transitive. |
| Transactions.IsEquivalent | nationwide_parser/transaction.py:28-29 | `is_equivalent` compares date, amount and closing balance; `EquivalenceIgnoresLabels` and `EquivalenceIsAnEquivalence` state what that means. |
| Transactions.Succeeds | nationwide_parser/statement.py:51-55 | `next.succeeds(previous)`: next is dated no earlier and its balance is the previous balance plus its amount; `ContinuousListIsSortedAndBalanced` states the chain this builds. |
| Transactions.IsInterest | nationwide_parser/statement.py:175 | `is_interest`: a credit whose kind is "Interest added". |
| Transactions.Redate | nationwide_parser/statement.py:176 | `redate(d)` carries date d and keeps amount, balance, kind and description. |
| Transactions.ContinuousListIsSortedAndBalanced | nationwide_parser/statement_test.py:82 | A continuous list is sorted by date, and its last balance is the first balance plus every later amount. |
| Transactions.DisplayAmount | nationwide_parser/transaction.py:19-24 | Below 100 it is the decimal magnitude then "p". From 100 up it is "£", magnitude div 100, ".", then magnitude mod 100 in two digits. It has no sign and no space. |
| Transactions.DisplayAmountRoundTrip | nationwide_parser/transaction.py:19-24 | The rendered magnitude reads back to the magnitude. |
| Transactions.DescribeAmountRoundTrip | nationwide_parser/transaction.py:13-26 | The `__str__` text gives the signed amount back from its front. `DescribeNamesDirection` states the preposition. |
| Transactions.Describe | nationwide_parser/transaction.py:13-26 | `__str__` is the displayed magnitude, a space, the preposition, the description, " on " and the ISO date; `DescribeAmountRoundTrip` and `DescribeNamesDirection` state what it tells a reader. |
| Transactions.DescribeNamesDirection | nationwide_parser/transaction.py:13-26 | The text before the first space is the displayed magnitude. The text after it starts with "to " exactly when the amount is negative, and with "from " otherwise, zero included. |
| StatementFormats.FieldCount | nationwide_parser/statement.py:21 | `header.count(",") + 1` is the number of header columns: 5 for Midata, 6 for Nationwide. |
| StatementFormats.JoinedCommas | nationwide_parser/statement.py:21 | Joining comma-free column names with commas gives one comma fewer than columns. |
| StatementFormats.Header | nationwide_parser/statement.py:87 | Each layout's header is its column names joined with commas, so it holds one comma fewer than the layout has columns (statement.py:110 for Nationwide). |
| StatementFormats.SearchFrom | nationwide_parser/statement.py:33 | `re.search` returns the group of a match at some position from i on, and None only when no position matches. |
| StatementFormats.GetAccountDescription | nationwide_parser/statement.py:32-37 | The result is the group of a match somewhere in the line, or None when the banner pattern matches nowhere. |
| StatementFormats.MidataMatchIsPattern | nationwide_parser/statement.py:106 | The Midata pattern matches at i with group id exactly when the line holds the prefix, then a non-empty quote-free id, then a quote. |
| StatementFormats.NationwidePatternMatches | nationwide_parser/statement.py:156 | After the prefix, characters that are neither quotes nor stars, then at least one star, at least one digit and a quote, the Nationwide pattern captures exactly the stars and digits. |
| StatementFormats.RunLengthIsRun | nationwide_parser/statement.py:156 | A greedy character-class run holds only class members and stops at a non-member or at the end of the line. |
| StatementFormats.NationwideMatchIsMaskedNumber | nationwide_parser/statement.py:156 | Whatever the Nationwide pattern captures is one or more stars followed by one or more digits. |
| StatementFormats.RemoveFullStops | nationwide_parser/statement.py:80-81 | The translated text contains no full stop. |
| StatementFormats.ParseInteger | nationwide_parser/statement.py:81 | `int(...)` succeeds exactly on a non-empty digit string and gives its value; anything else is `NotAnInteger`. |
| StatementFormats.ParseMonetaryAmount | nationwide_parser/statement.py:65-84 | Text not starting with "£", "+" or "-" fails. Success needs "£" first or second. A "-" prefix gives a non-positive amount, any other a non-negative one. |
| StatementFormats.FullStopsAreIgnored | nationwide_parser/statement.py:80-81 | After a sign prefix, deleting the full stops first changes nothing. |
| StatementFormats.ReadAfterPrefix | nationwide_parser/statement.py:65-84 | After "£" or "-£", the amount is the integer read from the rest with its full stops deleted, negated exactly for "-£"; a failed read is passed on. |
| StatementFormats.AmountWithFullStop | nationwide_parser/statement.py:65-84 | Prefix, digits, ".", digits reads as both digit runs joined, negated exactly for "-£" (the cases of statements.py:19-38, such as "£12.34" and "-£5.00"). |
| StatementFormats.UnsignedDigits | nationwide_parser/statement.py:80-81 | Text written by `decimalise` for a non-negative amount, with its full stop deleted, reads back as that amount in pence. |
| StatementFormats.MonetaryAmountRoundTrip | nationwide_parser/statement.py:65-84 | Every amount written as sign prefix and `decimalise` text reads back exactly. |
| StatementFormats.CalendarDateOf | nationwide_parser/statement.py:96 | `datetime.date(y, m, d)` succeeds exactly on a valid calendar date, and gives that date. |
| StatementFormats.ParseMidataDate | nationwide_parser/statement.py:89-96 | On success the day comes from characters 0-1, the month from 3-4 and the year from 6 on. |
| StatementFormats.MidataSeparatorsIgnored | statements.py:43-50 | The characters at positions 2 and 5 never affect the Midata date. |
| StatementFormats.MidataDateRoundTrip | nationwide_parser/statement.py:89-96 | Every date written dd/mm/yyyy parses back to itself. |
| StatementFormats.MonthNumber | nationwide_parser/statement.py:119-134 | A found month is 1..12, and its abbreviation is the text looked up. |
| StatementFormats.MonthTableRoundTrip | nationwide_parser/statement.py:119-134 | Every month's abbreviation is in the table and maps back to that month. |
| StatementFormats.ParseNationwideDate | nationwide_parser/statement.py:112-136 | On success the day is characters 0-1 and the year 7 on. With those numeric, an unknown abbreviation at 3-5 fails. |
| StatementFormats.NationwideDateRoundTrip | statements.py:65-89 | Every date written "dd Mon yyyy" parses back to itself. |
| StatementFormats.MidataParseTransaction | nationwide_parser/statement.py:98-104 | Success needs date, amount and balance to parse. Columns 0-4 map to date, kind, description, amount and balance. |
| StatementFormats.NationwideParseTransaction | nationwide_parser/statement.py:138-152 | Empty paid-out takes paid-in as the amount, and empty paid-in the negated paid-out. Both filled fails, and so does both empty. |
| StatementFormats.ParseTransaction | nationwide_parser/statement.py:39-43 | A row whose length is not `FieldCount` fails with that count. Success means 5 fields for Midata or 6 for Nationwide. |
| StatementFormats.RowRoundTrip | nationwide_parser/statement.py:39-43 | Any transaction written as a row of either layout parses back to itself. |
| StatementFormats.MidataRowRoundTrip | statements.py:52-58 | A Midata row of a transaction parses back to it. |
| StatementFormats.NationwideRowRoundTrip | nationwide_parser/statement.py:138-152 | A Nationwide row of a transaction parses back to it. |
| StatementFormats.NationwideDebitRoundTrip | nationwide_parser/statement.py:147-148 | A debit, written in the paid-out column, parses back with its negative amount. |
| StatementFormats.NationwideCreditRoundTrip | statements.py:98-99 | A credit, written in the paid-in column, parses back with its amount. |
| StatementFormats.DirectionsMirror | nationwide_parser/statement.py:51-62 | The reverse-chronological `validate` and `date_ordering_is_valid` are the chronological ones with the arguments swapped. Chronological `validate(p, n)` is `n.succeeds(p)`. |
| StatementFormats.ValidationImpliesDateOrdering | nationwide_parser/statement.py:51-62 | A pair that validates has its dates in the layout's order. |
| StatementFormats.Validate | nationwide_parser/statement.py:51-55 | `validate(previous, new)` is `new.succeeds(previous)` for a chronological layout and `previous.succeeds(new)` otherwise; `DirectionsMirror` and `ValidationImpliesDateOrdering` state its properties. |
| StatementFormats.DateOrderingIsValid | nationwide_parser/statement.py:58-62 | The date half of `validate`: new no earlier than previous for a chronological layout, no later otherwise. |
| StatementFormats.Order | nationwide_parser/statement.py:45-49 | `order` leaves a chronological layout's list unchanged and reverses a reverse-chronological one. |
| StatementFormats.OrderedChainIsContinuous | nationwide_parser/statement.py:364 | A list whose adjacent pairs validate in file order is continuous once ordered. |
| Reconcile.AppendOutcome | nationwide_parser/statement.py:164-195 | Success happens exactly when one of the three attempts validates: the plain append, the new interest entry redated to the last date, or the last interest entry redated to the new date (and then also valid after its predecessor). The first attempt that validates decides the list. Success adds one entry, keeps all but the last old entry, and the new pair validates. |
| Reconcile.AppendKeepsChain | nationwide_parser/statement.py:164-195 | Appending keeps every validated pair validated and adds no new break. |
| Reconcile.InsertOutcome | nationwide_parser/statement.py:197-223 | Target 0 or past the end fails, and target at the end is an append. In the middle the candidate is the entry itself when it is in date order with both neighbours, and otherwise its copy redated to `min` of their dates. The insertion succeeds exactly when the candidate validates against both neighbours. It then sits at the target, and everything else keeps its place. |
| Reconcile.InsertClosesGap | nationwide_parser/statement.py:307-312 | Inserting into the reserved gap repairs the only break, so the whole list validates. |
| Reconcile.TransactionList.constructor | nationwide_parser/statement.py:266 | A new list is empty. |
| Reconcile.TransactionList.Push | nationwide_parser/statement.py:282 | `append` adds the entry at the end. |
| Reconcile.TransactionList.Append | nationwide_parser/statement.py:164-195 | True exactly when `AppendOutcome` succeeds, and the list becomes its result. On False the list is unchanged. |
| Reconcile.TransactionList.InsertInterest | nationwide_parser/statement.py:197-223 | True exactly when `InsertOutcome` succeeds, and the list becomes its result. On False the list is unchanged. |
| Reconcile.Reconcile | nationwide_parser/statement.py:280-349 | The first row is accepted unconditionally, and a row that appends leaves the appended list. A row that cannot be appended: interest fails with `SecondMisplacedInterest` exactly while another is held, goes into an open gap (or fails with `GapInsertionFailed`), and is otherwise held back. Any other entry fails with `SecondDiscontinuity` exactly while a gap is open, bridges a held entry in (or fails with `PendingInterestBridgeFailed`), and otherwise is appended with a gap reserved before it. |
| Reconcile.Bridge | nationwide_parser/statement.py:333-335 | The held entry keeps its date when it is in date order after the previous entry; otherwise it is a copy redated to `min` of the two neighbouring dates. |
| Reconcile.ReconcileKeepsEveryRow | nationwide_parser/statement.py:276-349 | No row is lost or duplicated: every successful step holds exactly one entry more, counting a held-back one. |
| Reconcile.ReconcileKeepsInvariant | nationwide_parser/statement.py:268-349 | Each row keeps the state coherent: gap and held entry are never both set, the gap lies inside the list, and only the gap pair may break the chain. |
| Reconcile.RunFromKeepsInvariant | nationwide_parser/statement.py:271-353 | The row loop keeps that state coherent to its end. |
| Reconcile.RunFrom | nationwide_parser/statement.py:271-353 | The row loop: rows are read until the end or the first empty row, each parsed with the arity check and reconciled, and the first failure ends the read. `RunFromKeepsInvariant` and `RunFromKeepsEveryRow` state what a successful run keeps. |
| Reconcile.RowCount | nationwide_parser/statement.py:271-274 | The rows the loop reads: all non-empty, and followed by an empty row or the end. |
| Reconcile.RunFromKeepsEveryRow | nationwide_parser/statement.py:271-353 | A successful run of the loop holds one entry per row it read. |
| Reconcile.Finish | nationwide_parser/statement.py:358-362 | An open gap fails. With nothing pending the list is returned as is. A held entry succeeds exactly when `append_transaction` places it, giving that list, and otherwise fails with `UnplaceablePendingInterest`. On success every adjacent pair validates. |
| Reconcile.Strip | nationwide_parser/statement.py:259 | `str.strip` gives text no longer than its input, with no whitespace at either end; `StripFindsPaddedLine` states that a padded header strips to itself. |
| Reconcile.StripFindsPaddedLine | nationwide_parser/statement.py:259 | A header line with whitespace (a CRLF, say) on either side strips to the header. |
| Reconcile.MidataTriedFirst | nationwide_parser/statement.py:239-247 | A banner the Midata pattern matches is read as Midata, whatever the Nationwide pattern says. |
| Reconcile.DetectionNeedsABanner | nationwide_parser/statement.py:242-251 | No layout is found exactly when neither banner pattern matches. |
| Reconcile.HeaderFromMeansFound | nationwide_parser/statement.py:254-261 | The header search succeeds exactly when some preamble line strips to the header. |
| Reconcile.IngestFailsEarly | nationwide_parser/statement.py:232-251 | An empty first line is `EmptyFile`. A first line neither pattern matches is `UnknownFormat`. |
| Reconcile.Ingest | nationwide_parser/statement.py:225-364 | `read_nationwide_file` on the first line, the preamble and the records: the failures before the loop, the loop, the end-of-file repairs and `order`. `IngestFailsEarly`, `MissingHeaderFails`, `IngestKeepsEveryRow` and `IngestedStatementIsContinuous` state what it promises. |
| Reconcile.MissingHeaderFails | nationwide_parser/statement.py:253-261 | For whichever layout the first line selects, a preamble with no line stripping to its header is `MissingHeader`. |
| Reconcile.IngestedStatementIsContinuous | nationwide_parser/statement.py:355-364 | A successful read returns a continuous chronological list: dates non-decreasing, and each balance the previous one plus the amount. |
| Reconcile.IngestKeepsEveryRow | nationwide_parser/statement.py:225-364 | A successful read returns exactly one entry per row before the first empty row. |
| Reconcile.HeldBackInterestIsBridged | nationwide_parser/statement.py:329-342 | Worked case: an early interest entry is held back and then redated to `min` of its neighbours' dates. It is bridged in before the next entry that breaks the chain. |
| Reconcile.DetectFormat | nationwide_parser/statement.py:242-251 | The format loop returns the first layout, in the order tried, whose pattern matches. |
| Reconcile.FindHeader | nationwide_parser/statement.py:254-261 | The line loop finds the header exactly when some preamble line strips to it. |
| Reconcile.ReconcileInto | nationwide_parser/statement.py:276-349 | One loop body on the list in place, with the returned gap and held entry, is `Reconcile` of the old state. |
| Reconcile.ReadStatement | nationwide_parser/statement.py:225-364 | Reading a file is `Ingest` of its parts, and a successful result is continuous. |
| Accounts.SkipBefore | nationwide_parser/account.py:35-44 | The skip stops at the first entry from k on not dated before d, or at the end, and every entry passed is dated before d. |
| Accounts.MergeFrom | nationwide_parser/account.py:46-64 | From any scan position, the merged rest is the remaining stored entries plus those it takes in. |
| Accounts.Merge | nationwide_parser/account.py:14-64 | An empty new list leaves the account unchanged and adds nothing. An empty account adopts the new list. Otherwise the length is the old length plus the inserted count. |
| Accounts.OneSkipIsEmpty | nationwide_parser/account.py:36-44 | At most one of the two skip runs is non-empty. The stored run is non-empty only when the stored list starts earlier. |
| Accounts.Insert | nationwide_parser/account.py:69 | `list.insert(p, x)` keeps the front, puts x at p and shifts the rest; at or past the end it appends x. |
| Accounts.Apply | nationwide_parser/account.py:66-69 | Applying the insertion points adds one entry per point. |
| Accounts.ApplyBeforeSuffix | nationwide_parser/account.py:66-67 | Insertions at or before the end of a prefix leave what follows it in place, so applying newest first keeps earlier indexes valid. |
| Accounts.Account.constructor | nationwide_parser/account.py:10-12 | The account holds the given name and transactions. |
| Accounts.Account.AllTransactionsAreContinuous | main.py:85 | A continuous account has non-decreasing dates. |
| Accounts.Account.AddUniqueTransactions | nationwide_parser/account.py:14-71 | Succeeds exactly when `Merge` does. The transactions become the merged list and the count is the number inserted. On failure it returns the conflicting pair and leaves the account unchanged. |
| Accounts.FindInsertionPoints | nationwide_parser/account.py:26-64 | The scan's insertion points, applied to the stored list, give the merged list, one per inserted entry. Otherwise it returns the merge's conflict. |
| Accounts.CompareFrom | nationwide_parser/account.py:46-64 | The comparison loop and the leftovers complete the points to the whole merge, or find its conflict. |
| Accounts.MarkLeftovers | nationwide_parser/account.py:62-64 | New entries left after the stored list ends are marked for the tail, completing the merge. |
| Accounts.SkipEarlyEntries | nationwide_parser/account.py:35-44 | The two skip loops stop where `SkipBefore` does. The head entries are marked so that they apply to the skipped prefix. |
| Accounts.SkipEarlyStoredEntries | nationwide_parser/account.py:37-38 | The stored-entry skip stops at the first stored entry not dated before the new list's first date, or at the end. |
| Accounts.MarkEarlyNewEntries | nationwide_parser/account.py:41-43 | The new-entry skip stops where `SkipBefore` does, marks each skipped new entry for position 0, and applying those marks to an empty list gives exactly the skipped entries in order. |
| MergeProperties.InterleavingIsAPermutation | nationwide_parser/account.py:66-70 | An interleaving holds exactly the entries of its two parts. |
| MergeProperties.MergeFromInterleaves | nationwide_parser/account.py:46-64 | From any scan position, the merged rest interleaves the remaining stored entries with those taken in, and those are a subsequence of the remaining new entries. |
| MergeProperties.MergeInterleaves | nationwide_parser/account.py:66-70 | The result interleaves the old list with the inserted entries, so old entries all stay in their order. The inserted entries are a subsequence of the new list. |
| MergeProperties.MergeAddsOnlyInserted | nationwide_parser/account.py:66-70 | As multisets, the result is the old list plus the inserted entries. |
| MergeProperties.MergeFromCoversWindow | nationwide_parser/account.py:46-57 | Each remaining new entry is matched, in turn, by an equivalent entry of the merged rest. |
| MergeProperties.WindowStart | nationwide_parser/account.py:35-39 | The window starts after the stored entries dated before the new list's first date. |
| MergeProperties.MergeLayout | nationwide_parser/account.py:35-57 | The skipped stored entries come first, unchanged. The whole new list follows, entry by entry equivalent to what was read. |
| MergeProperties.MergePutsEarlierEntriesFirst | nationwide_parser/account.py:40-44 | With a chronological new list, every new entry dated before the first stored one goes to the head in order and is counted. |
| MergeProperties.MergeKeepsEarlierHistory | nationwide_parser/account.py:35-39 | With a chronological account, stored entries dated before the new window keep their index. |
| MergeProperties.SortedPairwise | nationwide_parser/account.py:7-8 | In a list with non-decreasing adjacent dates, no later entry is dated before an earlier one. |
| MergeProperties.MergeFromKeepsDateOrder | nationwide_parser/account.py:54-57 | With both lists chronological, the merged rest is chronological and starts with the current stored or new entry. |
| MergeProperties.MergeKeepsDateOrder | nationwide_parser/account.py:7-8 | With both lists chronological, the merged list is chronological too. |
| MergeProperties.MergeConflictIsReal | nationwide_parser/account.py:58-60 | A failure names a pair that is not equivalent, with the new entry not dated before the stored one. |
| MergeProperties.WalkOverMatches | nationwide_parser/account.py:48-53 | New entries each equivalent to the stored entry they meet keep the stored rest and insert nothing. |
| MergeProperties.MergeOfCoveredWindow | nationwide_parser/account.py:35-53 | A new list matched entry by entry from a position, with everything before it dated earlier, inserts nothing. |
| MergeProperties.MergeOfMatchingList | nationwide_parser/account.py:48-53 | A new list equivalent entry by entry to the front of the stored list inserts nothing and changes nothing. |
| MergeProperties.SelfMergeInsertsNothing | nationwide_parser/account_test.py:29-38 | Merging the stored list into itself inserts nothing. |
| MergeProperties.MergeIsIdempotent | nationwide_parser/account.py:14-64 | Merging the same statement again after a success inserts nothing and changes nothing. |
| AccountCases.EmptySelfAndEqualMerges | nationwide_parser/account_test.py:17-55 | The test account merged with nothing, with itself or with an equal copy stays as it is and adds nothing. |
| AccountCases.EarlierMerge | nationwide_parser/account_test.py:57-71 | An entry dated before the account goes to the head, and one is added. |
| AccountCases.IntermediateMerge | nationwide_parser/account_test.py:73-88 | An entry dated between two stored ones goes between them, and one is added. |
| AccountCases.LaterMerge | nationwide_parser/account_test.py:90-105 | An entry dated after the account goes to the tail, and one is added. |
| AccountCases.CombinedMerge | nationwide_parser/account_test.py:107-128 | Head, gap and tail entries together: three are added, each in its place. |
| AccountCases.InvalidFirstMerge | nationwide_parser/account_test.py:130-138 | A first new entry that clashes with the first stored one fails at (0, 0). |
| AccountCases.InvalidSecondMerge | nationwide_parser/account_test.py:140-149 | A third new entry that clashes with the fourth stored one fails at (2, 3). |
| AccountAsWritten.ApplyAsWritten | nationwide_parser/account.py:68-69 | The application loop as written fails exactly when some pair's second component is past the new list. Otherwise it adds one entry per pair. |
| AccountAsWritten.OnlyOnePointGivesTheIntermediateCase | nationwide_parser/account_test.py:73-88 | In the intermediate test, the only single insertion point giving the expected list is (new 1, old 2). |
| AccountAsWritten.SwappedPairMisplacesTheGapEntry | nationwide_parser/account.py:69 | That point applied with swapped components duplicates a stored entry and loses the gap entry. The corrected application gives the expected list. |
| AccountAsWritten.SkipAsWritten | nationwide_parser/account.py:37 | The unbounded skip agrees with `SkipBefore` where it stops. It runs off the end exactly when every entry from k on is dated earlier. |
| AccountAsWritten.SkipRunsToTheEnd | nationwide_parser/account.py:37 | When every entry from k on is dated earlier, the bounded skip stops at the end. |
| AccountAsWritten.WhollyLaterStatementRunsOffTheEnd | nationwide_parser/account.py:36-38 | A new list dated after the whole account makes the stored skip run off the end. The bounded merge appends the new list. |
| AccountAsWritten.WhollyEarlierStatementRunsOffTheEnd | nationwide_parser/account.py:40-43 | An account dated after the whole new list makes the new-entry skip run off the end. The bounded merge puts the new list in front. |

## Findings

| source | as written | input that shows it | evidently intended | confidence | as-written member | corrected member |
|---|---|---|---|---|---|---|
| nationwide_parser/account.py:69 | Points are recorded as (new index, old index) at :42, :56 and :64, but `insert(x[0], new[x[1]])` uses the new index as the position and the old index as the new-list index. | The intermediate test case (account_test.py:73-88): the point (1, 2) inserts new entry 2, a copy of stored entry 2, at position 1. The result is [S0, S2, S1, S2, S3], where the gap entry should sit at position 2. | Insert new entry x[0] at old position x[1]. | not executed | AccountAsWritten.SwappedPairMisplacesTheGapEntry | Accounts.Account.AddUniqueTransactions |
| nationwide_parser/account.py:37 | The skip loops at :37 and :41 have no length bound. | An account [S0] with a new list [Later] dated after it: `self.transactions[1]` is read past the end (IndexError). The mirror case at :41 is an account dated after the whole new list. | Stop at the end of the list. The new list is then appended, or put in front. | not executed | AccountAsWritten.WhollyLaterStatementRunsOffTheEnd | Accounts.SkipEarlyEntries |

## Left out

- main.py: argument parsing, directory listing and beancount output are I/O. The opening-balance subtraction is not modelled.
- File handling in `read_nationwide_file` (`open`, `readline`, `close`), the Latin-1 decoding and `csv.reader` are left out. The input is given as the first line (empty at end of file), the following lines, and the CSV records after the header as lists of fields. The model never reads preamble lines after the header, because the records stand for the rest of the file.
- Logging calls are left out. They change nothing that is returned.
- Regular expressions in general are left out. Only the two fixed banner patterns are modelled, by hand, with `\d` as ASCII digits.
- StatementFormats.ParseInteger: Python's `int()` also accepts surrounding whitespace, underscores and an inner sign (so "£-5" reads as -5). The model accepts non-empty ASCII digit strings only.
- Digits.ParseNatural: the same narrowing of `int()` to non-empty ASCII digit strings.
- Python-only artefacts are left out:
  - the `isinstance` check on the ordering, because the layout is a closed datatype;
  - the shared mutable default argument (`account.py:10`);
  - aliasing of the adopted list (`account.py:23`);
  - the unreachable `return Transaction()` lines.
- `copy()` is the identity on values, so the copies at `statement.py:212` and `:333` are not modelled separately.
- transaction.py at the repository root is a bare record with the same fields, and is not part of this model.
- test.py imports a function that `statements.py` does not define, and is not part of this model.
- The transaction counts in statement_test.py depend on fixture files, which are not part of this model.
- The account's name is kept but plays no part in any operation.
- Accounts.Merge: the tail placement of leftover new entries and the mid-list placement before a later stored entry are stated through the definition of `MergeFrom` and the test cases (`AccountCases`), not as separate all-inputs lemmas.
- Reconcile.Reconcile: re-raising an error inside the loop as `StatementParseError` is folded into the single `Err` outcome. The `IngestError` cause is kept for reading only.
