/**
 * The repair automaton of nationwide_parser/statement.py: appending a
 * transaction with interest redating, splicing a misplaced interest entry
 * into a reserved gap, and the row-by-row reconciliation of
 * `read_nationwide_file` with its two pieces of repair state.
 */
module Reconcile {
  import opened Outcomes
  import opened Dates
  import opened Transactions
  import opened StatementFormats

  function Last(items: seq<Transaction>): Transaction
    requires |items| > 0
  {
    items[|items| - 1]
  }

  /**
   * What `append_transaction` leaves in a non-empty list, or None when it
   * returns False. The three attempts are tried in turn: plain append;
   * append of the new entry redated to the last date when it is interest;
   * and replacement of an interest last entry redated to the new date.
   */
  function AppendOutcome(fmt: StatementReader, items: seq<Transaction>, t: Transaction): (r: Option<seq<Transaction>>)
    requires |items| > 0
    ensures r.Some? ==> |r.value| == |items| + 1 && r.value[..|items| - 1] == items[..|items| - 1]
    ensures r.Some? ==> Validate(fmt, r.value[|items| - 1], r.value[|items|])
    ensures r.Some? && r.value[|items| - 1] != Last(items) ==>
              && IsInterest(Last(items))
              && r.value[|items| - 1] == Redate(Last(items), t.date)
              && (|items| > 1 ==> Validate(fmt, items[|items| - 2], r.value[|items| - 1]))
    ensures r.Some? && r.value[|items|] != t ==> IsInterest(t) && r.value[|items|] == Redate(t, Last(items).date)
    // When a repair succeeds: one of the three attempts validates, and the first that does decides the list.
    ensures r.Some? <==>
              || Validate(fmt, Last(items), t)
              || (IsInterest(t) && Validate(fmt, Last(items), Redate(t, Last(items).date)))
              || (&& IsInterest(Last(items)) && Validate(fmt, Redate(Last(items), t.date), t)
                  && (|items| <= 1 || Validate(fmt, items[|items| - 2], Redate(Last(items), t.date))))
    ensures Validate(fmt, Last(items), t) ==> r == Some(items + [t])
    ensures && !Validate(fmt, Last(items), t)
            && IsInterest(t) && Validate(fmt, Last(items), Redate(t, Last(items).date))
            ==> r == Some(items + [Redate(t, Last(items).date)])
    ensures && !Validate(fmt, Last(items), t)
            && !(IsInterest(t) && Validate(fmt, Last(items), Redate(t, Last(items).date)))
            && r.Some?
            ==> r == Some(items[..|items| - 1] + [Redate(Last(items), t.date), t])
  {
    var last := Last(items);
    if Validate(fmt, last, t) then Some(items + [t])
    else if IsInterest(t) && Validate(fmt, last, Redate(t, last.date)) then Some(items + [Redate(t, last.date)])
    else if IsInterest(last) && Validate(fmt, Redate(last, t.date), t)
            && (|items| <= 1 || Validate(fmt, items[|items| - 2], Redate(last, t.date)))
    then Some(items[..|items| - 1] + [Redate(last, t.date), t])
    else None
  }

  /** All adjacent pairs validate except possibly the one ending at `gap`. */
  predicate ChainedExcept(fmt: StatementReader, items: seq<Transaction>, gap: Option<nat>)
  {
    forall i :: 0 < i < |items| && gap != Some(i) ==> Validate(fmt, items[i - 1], items[i])
  }

  /** Appending keeps every validated pair validated and adds no new break. */
  lemma AppendKeepsChain(fmt: StatementReader, items: seq<Transaction>, t: Transaction, gap: Option<nat>)
    requires |items| > 0 && ChainedExcept(fmt, items, gap)
    requires AppendOutcome(fmt, items, t).Some?
    ensures ChainedExcept(fmt, AppendOutcome(fmt, items, t).value, gap)
  {
    var r := AppendOutcome(fmt, items, t).value;
    var n := |items|;
    forall i | 0 < i < |r| && gap != Some(i)
      ensures Validate(fmt, r[i - 1], r[i])
    {
      if i < n - 1 {
        assert r[i - 1] == r[..n - 1][i - 1] == items[i - 1];
        assert r[i] == r[..n - 1][i] == items[i];
      } else if i == n - 1 {
        assert r[i - 1] == r[..n - 1][i - 1] == items[i - 1];
      }
    }
  }

  /**
   * What `insert_interest_transaction` leaves in the list, or None when it
   * returns False. Inserting at the end is an append; in the middle the
   * entry is redated to the earlier neighbouring date when its own date is
   * out of order, whatever the layout's direction.
   */
  function InsertOutcome(fmt: StatementReader, items: seq<Transaction>, t: Transaction, target: nat): (r: Option<seq<Transaction>>)
    ensures target == 0 || target > |items| ==> r.None?
    ensures 0 < target == |items| ==> r == AppendOutcome(fmt, items, t)
    ensures 0 < target < |items| && r.Some? ==>
              && |r.value| == |items| + 1
              && r.value[..target] == items[..target] && r.value[target + 1..] == items[target..]
              && Validate(fmt, items[target - 1], r.value[target])
              && Validate(fmt, r.value[target], items[target])
              && (r.value[target] == t || r.value[target] == Redate(t, Min(items[target - 1].date, items[target].date)))
    // In the middle: the entry keeps its date exactly when it is in date order with both neighbours,
    // and the insertion succeeds exactly when the entry so placed validates against both.
    ensures && 0 < target < |items|
            && DateOrderingIsValid(fmt, items[target - 1], t) && DateOrderingIsValid(fmt, t, items[target])
            ==> && (r.Some? <==> Validate(fmt, items[target - 1], t) && Validate(fmt, t, items[target]))
                && (r.Some? ==> r.value == items[..target] + [t] + items[target..])
    ensures && 0 < target < |items|
            && !(DateOrderingIsValid(fmt, items[target - 1], t) && DateOrderingIsValid(fmt, t, items[target]))
            ==> var moved := Redate(t, Min(items[target - 1].date, items[target].date));
                && (r.Some? <==> Validate(fmt, items[target - 1], moved) && Validate(fmt, moved, items[target]))
                && (r.Some? ==> r.value == items[..target] + [moved] + items[target..])
  {
    if target == 0 || target > |items| then None
    else if target == |items| then AppendOutcome(fmt, items, t)
    else
      var before, after := items[target - 1], items[target];
      var candidate :=
        if DateOrderingIsValid(fmt, before, t) && DateOrderingIsValid(fmt, t, after) then t
        else Redate(t, Min(before.date, after.date));
      if Validate(fmt, before, candidate) && Validate(fmt, candidate, after)
      then Some(items[..target] + [candidate] + items[target..])
      else None
  }

  /** Splicing into the reserved gap repairs the one break in the chain. */
  lemma InsertClosesGap(fmt: StatementReader, items: seq<Transaction>, t: Transaction, gap: nat)
    requires 0 < gap < |items| && ChainedExcept(fmt, items, Some(gap))
    requires InsertOutcome(fmt, items, t, gap).Some?
    ensures ChainedExcept(fmt, InsertOutcome(fmt, items, t, gap).value, None)
  {
    var r := InsertOutcome(fmt, items, t, gap).value;
    forall i | 0 < i < |r|
      ensures Validate(fmt, r[i - 1], r[i])
    {
      if i < gap {
        assert r[i - 1] == r[..gap][i - 1] && r[i] == r[..gap][i];
      } else if i > gap + 1 {
        assert r[i - 1] == r[gap + 1..][i - 2 - gap] == items[i - 2];
        assert r[i] == r[gap + 1..][i - 1 - gap] == items[i - 1];
      } else if i == gap + 1 {
        assert r[i] == r[gap + 1..][0] == items[gap];
      }
    }
  }

  /** The list of accepted transactions that `append_transaction` and `insert_interest_transaction` update in place. */
  class TransactionList {
    var items: seq<Transaction>

    constructor ()
      ensures items == []
    {
      items := [];
    }

    /** `transactions.append(t)`. */
    method Push(t: Transaction)
      modifies this
      ensures items == old(items) + [t]
    {
      items := items + [t];
    }

    /** `append_transaction`: true exactly when the list grew by a validated entry. */
    method Append(fmt: StatementReader, t: Transaction) returns (ok: bool)
      requires |items| > 0
      modifies this
      ensures ok <==> AppendOutcome(fmt, old(items), t).Some?
      ensures ok ==> items == AppendOutcome(fmt, old(items), t).value
      ensures !ok ==> items == old(items)
    {
      var last := items[|items| - 1];
      if Validate(fmt, last, t) {
        items := items + [t];
        return true;
      }
      if IsInterest(t) {
        var redated := Redate(t, last.date);
        if Validate(fmt, last, redated) {
          items := items + [redated];
          return true;
        }
      }
      if IsInterest(last) {
        var redatedLast := Redate(last, t.date);
        if Validate(fmt, redatedLast, t) && (|items| <= 1 || Validate(fmt, items[|items| - 2], redatedLast)) {
          items := items[|items| - 1 := redatedLast];
          items := items + [t];
          assert items == old(items)[..|old(items)| - 1] + [redatedLast, t];
          return true;
        }
      }
      return false;
    }

    /** `insert_interest_transaction`: true exactly when the entry was placed at `target`. */
    method InsertInterest(fmt: StatementReader, t: Transaction, target: nat) returns (ok: bool)
      modifies this
      ensures ok <==> InsertOutcome(fmt, old(items), t, target).Some?
      ensures ok ==> items == InsertOutcome(fmt, old(items), t, target).value
      ensures !ok ==> items == old(items)
    {
      if target == 0 || target > |items| {
        return false;
      }
      if target == |items| {
        ok := Append(fmt, t);
        return;
      }
      var candidate := t;
      if !(DateOrderingIsValid(fmt, items[target - 1], candidate) && DateOrderingIsValid(fmt, candidate, items[target])) {
        candidate := Redate(candidate, Min(items[target - 1].date, items[target].date));
      }
      if Validate(fmt, items[target - 1], candidate) && Validate(fmt, candidate, items[target]) {
        items := items[..target] + [candidate] + items[target..];
        return true;
      }
      return false;
    }
  }

  // ---------------------------------------------------------------------
  // read_nationwide_file
  // ---------------------------------------------------------------------

  /**
   * The reconciliation state: the accepted list in file order, the
   * discontinuity index reserved for a later interest entry, and the
   * misplaced interest entry held back for later.
   */
  datatype Reconciliation = Reconciliation(accepted: seq<Transaction>, gap: Option<nat>, pending: Option<Transaction>)

  function Start(): Reconciliation
  {
    Reconciliation([], None, None)
  }

  /** Why `read_nationwide_file` raised `StatementParseError`. */
  datatype IngestError =
    | EmptyFile
    | UnknownFormat
    | MissingHeader
    | Unparsable(cause: FieldError)
    | SecondMisplacedInterest
    | GapInsertionFailed
    | SecondDiscontinuity
    | PendingInterestBridgeFailed
    | UnresolvedDiscontinuity
    | UnplaceablePendingInterest

  /** The repair state is coherent: the pending entry and the gap exclude each other, and only the gap pair may break the chain. */
  predicate Invariant(fmt: StatementReader, st: Reconciliation)
  {
    && !(st.gap.Some? && st.pending.Some?)
    && (st.pending.Some? ==> |st.accepted| > 0)
    && (st.gap.Some? ==> 0 < st.gap.value < |st.accepted|)
    && ChainedExcept(fmt, st.accepted, st.gap)
  }

  /** The entry to place between `previous` and `next` when a held-back interest entry is bridged in. */
  function Bridge(fmt: StatementReader, previous: Transaction, held: Transaction, next: Transaction): (r: Transaction)
    ensures DateOrderingIsValid(fmt, previous, held) ==> r == held
    ensures !DateOrderingIsValid(fmt, previous, held) ==>
              && r.date == Min(previous.date, next.date)
              && r == held.(date := r.date)
  {
    if DateOrderingIsValid(fmt, previous, held) then held else Redate(held, Min(previous.date, next.date))
  }

  /** One parsed row through the body of the main loop. */
  function Reconcile(fmt: StatementReader, st: Reconciliation, t: Transaction): (r: Result<Reconciliation, IngestError>)
    ensures |st.accepted| == 0 ==> r == Ok(st.(accepted := [t]))
    ensures |st.accepted| > 0 && AppendOutcome(fmt, st.accepted, t).Some?
            ==> r == Ok(st.(accepted := AppendOutcome(fmt, st.accepted, t).value))
    ensures r.Err? ==> |st.accepted| > 0 && AppendOutcome(fmt, st.accepted, t).None?
    ensures r == Err(SecondMisplacedInterest) <==>
              |st.accepted| > 0 && AppendOutcome(fmt, st.accepted, t).None? && IsInterest(t) && st.pending.Some?
    ensures r == Err(SecondDiscontinuity) <==>
              |st.accepted| > 0 && AppendOutcome(fmt, st.accepted, t).None? && !IsInterest(t) && st.gap.Some?
    // An interest entry that cannot be appended: spliced into the reserved gap, or held back.
    ensures && |st.accepted| > 0 && AppendOutcome(fmt, st.accepted, t).None?
            && IsInterest(t) && st.pending.None? && st.gap.Some?
            ==> var spliced := InsertOutcome(fmt, st.accepted, t, st.gap.value);
                && (r.Ok? <==> spliced.Some?)
                && (r.Ok? ==> r.value == Reconciliation(spliced.value, None, None))
                && (r.Err? ==> r.error == GapInsertionFailed)
    ensures && |st.accepted| > 0 && AppendOutcome(fmt, st.accepted, t).None?
            && IsInterest(t) && st.pending.None? && st.gap.None?
            ==> r == Ok(st.(pending := Some(t)))
    // Any other entry that cannot be appended: the held-back entry is bridged in, or a gap is reserved.
    ensures && |st.accepted| > 0 && AppendOutcome(fmt, st.accepted, t).None?
            && !IsInterest(t) && st.gap.None? && st.pending.Some?
            ==> var bridge := Bridge(fmt, Last(st.accepted), st.pending.value, t);
                && (r.Ok? <==> Validate(fmt, Last(st.accepted), bridge) && Validate(fmt, bridge, t))
                && (r.Ok? ==> r.value == Reconciliation(st.accepted + [bridge, t], None, None))
                && (r.Err? ==> r.error == PendingInterestBridgeFailed)
    ensures && |st.accepted| > 0 && AppendOutcome(fmt, st.accepted, t).None?
            && !IsInterest(t) && st.gap.None? && st.pending.None?
            ==> r == Ok(Reconciliation(st.accepted + [t], Some(|st.accepted|), None))
  {
    if |st.accepted| == 0 then Ok(st.(accepted := [t]))
    else
      match AppendOutcome(fmt, st.accepted, t)
      case Some(next) => Ok(st.(accepted := next))
      case None =>
        var previous := Last(st.accepted);
        if IsInterest(t) then
          if st.pending.Some? then Err(SecondMisplacedInterest)
          else if st.gap.Some? then
            match InsertOutcome(fmt, st.accepted, t, st.gap.value)
            case Some(next) => Ok(Reconciliation(next, None, None))
            case None => Err(GapInsertionFailed)
          else Ok(st.(pending := Some(t)))
        else if st.gap.Some? then Err(SecondDiscontinuity)
        else if st.pending.Some? then
          var bridge := Bridge(fmt, previous, st.pending.value, t);
          if Validate(fmt, previous, bridge) && Validate(fmt, bridge, t)
          then Ok(Reconciliation(st.accepted + [bridge, t], None, None))
          else Err(PendingInterestBridgeFailed)
        else Ok(Reconciliation(st.accepted + [t], Some(|st.accepted|), None))
  }

  /** Every step of the loop keeps the repair state coherent. */
  lemma ReconcileKeepsInvariant(fmt: StatementReader, st: Reconciliation, t: Transaction)
    requires Invariant(fmt, st)
    requires Reconcile(fmt, st, t).Ok?
    ensures Invariant(fmt, Reconcile(fmt, st, t).value)
  {
    if |st.accepted| > 0 {
      var appended := AppendOutcome(fmt, st.accepted, t);
      if appended.Some? {
        AppendKeepsChain(fmt, st.accepted, t, st.gap);
      } else if IsInterest(t) && st.gap.Some? {
        InsertClosesGap(fmt, st.accepted, t, st.gap.value);
      } else if !IsInterest(t) {
        var next := Reconcile(fmt, st, t).value;
        forall i | 0 < i < |next.accepted| && next.gap != Some(i)
          ensures Validate(fmt, next.accepted[i - 1], next.accepted[i])
        {
          if i < |st.accepted| {
            assert next.accepted[i - 1] == st.accepted[i - 1] && next.accepted[i] == st.accepted[i];
          }
        }
      }
    }
  }

  /** One CSV row: parsed with the layout's arity check, then reconciled. */
  function Step(fmt: StatementReader, st: Reconciliation, row: seq<string>): Result<Reconciliation, IngestError>
  {
    match ParseTransaction(fmt, row)
    case Err(e) => Err(Unparsable(e))
    case Ok(t) => Reconcile(fmt, st, t)
  }

  /** The main loop from row k on; it stops at the end of the rows or at the first empty row. */
  function RunFrom(fmt: StatementReader, st: Reconciliation, rows: seq<seq<string>>, k: nat): Result<Reconciliation, IngestError>
    requires k <= |rows|
    decreases |rows| - k
  {
    if k == |rows| || |rows[k]| == 0 then Ok(st)
    else
      match Step(fmt, st, rows[k])
      case Err(e) => Err(e)
      case Ok(next) => RunFrom(fmt, next, rows, k + 1)
  }

  lemma {:induction false} RunFromKeepsInvariant(fmt: StatementReader, st: Reconciliation, rows: seq<seq<string>>, k: nat)
    requires k <= |rows| && Invariant(fmt, st)
    requires RunFrom(fmt, st, rows, k).Ok?
    ensures Invariant(fmt, RunFrom(fmt, st, rows, k).value)
    decreases |rows| - k
  {
    if k < |rows| && |rows[k]| > 0 {
      match ParseTransaction(fmt, rows[k])
      case Ok(t) =>
        ReconcileKeepsInvariant(fmt, st, t);
        RunFromKeepsInvariant(fmt, Reconcile(fmt, st, t).value, rows, k + 1);
      case Err(_) =>
    }
  }

  /** The entries the state holds: the accepted ones and the one held back, if any. */
  function Held(st: Reconciliation): nat
  {
    |st.accepted| + if st.pending.Some? then 1 else 0
  }

  /** No row is lost or duplicated: every successful step holds exactly one entry more. */
  lemma ReconcileKeepsEveryRow(fmt: StatementReader, st: Reconciliation, t: Transaction)
    requires Reconcile(fmt, st, t).Ok?
    ensures Held(Reconcile(fmt, st, t).value) == Held(st) + 1
  {
  }

  /** The rows from k up to the first empty row or the end, which the main loop reads. */
  function RowCount(rows: seq<seq<string>>, k: nat): (n: nat)
    requires k <= |rows|
    ensures k + n <= |rows|
    ensures forall m :: k <= m < k + n ==> |rows[m]| > 0
    ensures k + n < |rows| ==> |rows[k + n]| == 0
    decreases |rows| - k
  {
    if k == |rows| || |rows[k]| == 0 then 0 else 1 + RowCount(rows, k + 1)
  }

  /** A successful run of the loop holds one entry per row it read. */
  lemma {:induction false} RunFromKeepsEveryRow(fmt: StatementReader, st: Reconciliation, rows: seq<seq<string>>, k: nat)
    requires k <= |rows|
    requires RunFrom(fmt, st, rows, k).Ok?
    ensures Held(RunFrom(fmt, st, rows, k).value) == Held(st) + RowCount(rows, k)
    decreases |rows| - k
  {
    if k < |rows| && |rows[k]| > 0 {
      var t := ParseTransaction(fmt, rows[k]).value;
      ReconcileKeepsEveryRow(fmt, st, t);
      RunFromKeepsEveryRow(fmt, Reconcile(fmt, st, t).value, rows, k + 1);
    }
  }

  /** The checks after the loop: no open gap, and the held-back interest entry appended last. */
  function Finish(fmt: StatementReader, st: Reconciliation): (r: Result<seq<Transaction>, IngestError>)
    requires Invariant(fmt, st)
    ensures r.Ok? ==> FormatChained(fmt, r.value)
    ensures st.gap.Some? ==> r == Err(UnresolvedDiscontinuity)
    ensures st.gap.None? && st.pending.None? ==> r == Ok(st.accepted)
    ensures st.gap.None? && st.pending.Some? ==>
              var placed := AppendOutcome(fmt, st.accepted, st.pending.value);
              && (r.Ok? <==> placed.Some?)
              && (r.Ok? ==> r.value == placed.value)
              && (r.Err? ==> r.error == UnplaceablePendingInterest)
  {
    if st.gap.Some? then Err(UnresolvedDiscontinuity)
    else if st.pending.Some? then
      match AppendOutcome(fmt, st.accepted, st.pending.value)
      case Some(items) =>
        AppendKeepsChain(fmt, st.accepted, st.pending.value, None);
        Ok(items)
      case None => Err(UnplaceablePendingInterest)
    else Ok(st.accepted)
  }

  /** Python's `str.isspace` on the Latin-1 range the file is decoded with. */
  predicate IsWhitespace(c: char)
  {
    var code := c as int;
    (9 <= code <= 13) || (28 <= code <= 32) || code == 0x85 || code == 0xA0
  }

  function StripStart(s: string): (r: string)
    ensures |r| <= |s| && r == s[|s| - |r|..]
    ensures forall i :: 0 <= i < |s| - |r| ==> IsWhitespace(s[i])
    ensures |r| > 0 ==> !IsWhitespace(r[0])
  {
    if |s| > 0 && IsWhitespace(s[0]) then
      var r := StripStart(s[1..]);
      assert s[1..][|s| - 1 - |r|..] == s[|s| - |r|..];
      assert forall i :: 0 < i < |s| - |r| ==> s[i] == s[1..][i - 1];
      r
    else s
  }

  function StripEnd(s: string): (r: string)
    ensures |r| <= |s| && r == s[..|r|]
    ensures forall i :: |r| <= i < |s| ==> IsWhitespace(s[i])
    ensures |r| > 0 ==> !IsWhitespace(r[|r| - 1])
  {
    if |s| > 0 && IsWhitespace(s[|s| - 1]) then StripEnd(s[..|s| - 1]) else s
  }

  /** `str.strip()`: leading and trailing whitespace removed. */
  function Strip(s: string): (r: string)
    ensures |r| <= |s|
    ensures |r| > 0 ==> !IsWhitespace(r[0]) && !IsWhitespace(r[|r| - 1])
  {
    StripEnd(StripStart(s))
  }

  lemma {:induction false} StripStartOfPadded(w: string, c: string)
    requires forall i :: 0 <= i < |w| ==> IsWhitespace(w[i])
    requires |c| > 0 && !IsWhitespace(c[0])
    ensures StripStart(w + c) == c
  {
    if |w| > 0 {
      assert (w + c)[1..] == w[1..] + c;
      StripStartOfPadded(w[1..], c);
    } else {
      assert w + c == c;
    }
  }

  lemma {:induction false} StripEndOfPadded(c: string, w: string)
    requires forall i :: 0 <= i < |w| ==> IsWhitespace(w[i])
    requires |c| > 0 && !IsWhitespace(c[|c| - 1])
    ensures StripEnd(c + w) == c
  {
    if |w| > 0 {
      assert (c + w)[..|c + w| - 1] == c + w[..|w| - 1];
      StripEndOfPadded(c, w[..|w| - 1]);
    } else {
      assert c + w == c;
    }
  }

  /** A header line surrounded by whitespace (the CRLF terminator, say) is recognised. */
  lemma StripFindsPaddedLine(before: string, line: string, after: string)
    requires forall i :: 0 <= i < |before| ==> IsWhitespace(before[i])
    requires forall i :: 0 <= i < |after| ==> IsWhitespace(after[i])
    requires |line| > 0 && !IsWhitespace(line[0]) && !IsWhitespace(line[|line| - 1])
    ensures Strip(before + line + after) == line
  {
    assert before + line + after == before + (line + after);
    StripStartOfPadded(before, line + after);
    StripEndOfPadded(line, after);
  }

  /** The statement read from a file: the account and its transactions in chronological order. */
  datatype Statement = Statement(account: string, transactions: seq<Transaction>)

  const KnownFormats: seq<StatementReader> := [Midata, Nationwide]

  /** The first layout, in the order tried, whose banner pattern matches the first line. */
  function DetectFrom(line: string, formats: seq<StatementReader>, i: nat): Option<(StatementReader, string)>
    requires i <= |formats|
    decreases |formats| - i
  {
    if i == |formats| then None
    else
      match GetAccountDescription(formats[i], line)
      case Some(account) => Some((formats[i], account))
      case None => DetectFrom(line, formats, i + 1)
  }

  /** Midata is tried first: a banner both patterns match is read as Midata. */
  lemma MidataTriedFirst(line: string)
    requires GetAccountDescription(Midata, line).Some?
    ensures DetectFrom(line, KnownFormats, 0) == Some((Midata, GetAccountDescription(Midata, line).value))
  {
  }

  /** A layout is detected exactly when one of the two banner patterns matches. */
  lemma DetectionNeedsABanner(line: string)
    ensures DetectFrom(line, KnownFormats, 0).None?
        <==> GetAccountDescription(Midata, line).None? && GetAccountDescription(Nationwide, line).None?
  {
  }

  /** `line.strip() == header`. */
  predicate IsHeaderLine(header: string, line: string)
  {
    Strip(line) == header
  }

  /** Whether some preamble line from position k on is the header once stripped. */
  predicate HeaderFrom(header: string, preamble: seq<string>, k: nat)
    requires k <= |preamble|
    decreases |preamble| - k
  {
    k < |preamble| && (IsHeaderLine(header, preamble[k]) || HeaderFrom(header, preamble, k + 1))
  }

  lemma HeaderFromMeansFound(header: string, preamble: seq<string>, k: nat)
    requires k <= |preamble|
    ensures HeaderFrom(header, preamble, k) <==> exists j :: k <= j < |preamble| && IsHeaderLine(header, preamble[j])
  {
    if HeaderFrom(header, preamble, k) {
      var j := HeaderWitness(header, preamble, k);
    }
    if j :| k <= j < |preamble| && IsHeaderLine(header, preamble[j]) {
      HeaderAt(header, preamble, k, j);
    }
  }

  lemma {:induction false} HeaderWitness(header: string, preamble: seq<string>, k: nat) returns (j: nat)
    requires k <= |preamble| && HeaderFrom(header, preamble, k)
    ensures k <= j < |preamble| && IsHeaderLine(header, preamble[j])
    decreases |preamble| - k
  {
    if IsHeaderLine(header, preamble[k]) {
      j := k;
    } else {
      j := HeaderWitness(header, preamble, k + 1);
    }
  }

  lemma {:induction false} HeaderAt(header: string, preamble: seq<string>, k: nat, j: nat)
    requires k <= j < |preamble| && IsHeaderLine(header, preamble[j])
    ensures HeaderFrom(header, preamble, k)
    decreases j - k
  {
    if k < j {
      HeaderAt(header, preamble, k + 1, j);
    }
  }

  /**
   * `read_nationwide_file` on a file whose first line is `banner` (empty
   * at end of file), whose following lines are `preamble`, and whose CSV
   * records after the header line are `rows`.
   */
  function Ingest(banner: string, preamble: seq<string>, rows: seq<seq<string>>): Result<Statement, IngestError>
  {
    if banner == "" then Err(EmptyFile)
    else
      match DetectFrom(banner, KnownFormats, 0)
      case None => Err(UnknownFormat)
      case Some((fmt, account)) =>
        if !HeaderFrom(Header(fmt), preamble, 0) then Err(MissingHeader)
        else
          match RunFrom(fmt, Start(), rows, 0)
          case Err(e) => Err(e)
          case Ok(st) =>
            RunFromKeepsInvariant(fmt, Start(), rows, 0);
            match Finish(fmt, st)
            case Err(e) => Err(e)
            case Ok(items) => Ok(Statement(account, Order(fmt, items)))
  }

  /**
   * What a successful read promises: the transactions form one continuous
   * chronological chain (dates non-decreasing, each balance the previous
   * one plus the amount).
   */
  lemma IngestedStatementIsContinuous(banner: string, preamble: seq<string>, rows: seq<seq<string>>)
    requires Ingest(banner, preamble, rows).Ok?
    ensures Continuous(Ingest(banner, preamble, rows).value.transactions)
  {
    var fmt :| DetectFrom(banner, KnownFormats, 0).Some? && DetectFrom(banner, KnownFormats, 0).value.0 == fmt;
    var st := RunFrom(fmt, Start(), rows, 0).value;
    RunFromKeepsInvariant(fmt, Start(), rows, 0);
    OrderedChainIsContinuous(fmt, Finish(fmt, st).value);
  }

  /**
   * A successful read returns exactly one transaction per row before the
   * first empty row: none is dropped, none is duplicated.
   */
  lemma IngestKeepsEveryRow(banner: string, preamble: seq<string>, rows: seq<seq<string>>)
    requires Ingest(banner, preamble, rows).Ok?
    ensures |Ingest(banner, preamble, rows).value.transactions| == RowCount(rows, 0)
  {
    var fmt :| DetectFrom(banner, KnownFormats, 0).Some? && DetectFrom(banner, KnownFormats, 0).value.0 == fmt;
    RunFromKeepsInvariant(fmt, Start(), rows, 0);
    RunFromKeepsEveryRow(fmt, Start(), rows, 0);
  }

  /** The failures that happen before any row is read. */
  lemma IngestFailsEarly(banner: string, preamble: seq<string>, rows: seq<seq<string>>)
    ensures banner == "" ==> Ingest(banner, preamble, rows) == Err(EmptyFile)
    ensures banner != "" && GetAccountDescription(Midata, banner).None? && GetAccountDescription(Nationwide, banner).None?
            ==> Ingest(banner, preamble, rows) == Err(UnknownFormat)
  {
  }

  /** Whichever layout the banner selects, a preamble without its header line fails before any row is read. */
  lemma MissingHeaderFails(banner: string, preamble: seq<string>, rows: seq<seq<string>>, fmt: StatementReader, account: string)
    requires banner != "" && DetectFrom(banner, KnownFormats, 0) == Some((fmt, account))
    requires forall j :: 0 <= j < |preamble| ==> !IsHeaderLine(Header(fmt), preamble[j])
    ensures Ingest(banner, preamble, rows) == Err(MissingHeader)
  {
    HeaderFromMeansFound(Header(fmt), preamble, 0);
  }

  /**
   * A worked case in a chronological statement: an interest entry listed
   * before the entry it follows is held back, then bridged in after it
   * once the next entry breaks the chain, redated to the earlier of the
   * two neighbouring dates because its own date is too early.
   */
  lemma HeldBackInterestIsBridged(a: Transaction, i: Transaction, b: Transaction, c: Transaction)
    requires a == Transaction(Date(2025, 6, 1), -2000, "Direct debit", "Rent", 100000)
    requires i == Transaction(Date(2025, 6, 2), 1000, InterestKind, "Interest", 91000)
    requires b == Transaction(Date(2025, 6, 3), -10000, "Card payment", "Shop", 90000)
    requires c == Transaction(Date(2025, 6, 6), -5000, "Card payment", "Cafe", 86000)
    ensures Reconcile(Nationwide, Start(), a) == Ok(Reconciliation([a], None, None))
    ensures Reconcile(Nationwide, Reconciliation([a], None, None), i) == Ok(Reconciliation([a], None, Some(i)))
    ensures Reconcile(Nationwide, Reconciliation([a], None, Some(i)), b) == Ok(Reconciliation([a, b], None, Some(i)))
    ensures Reconcile(Nationwide, Reconciliation([a, b], None, Some(i)), c)
         == Ok(Reconciliation([a, b, Redate(i, b.date), c], None, None))
  {
    assert !Validate(Nationwide, a, i) && !Validate(Nationwide, a, Redate(i, a.date));
    assert [a] + [b] == [a, b];
    assert Bridge(Nationwide, b, i, c) == Redate(i, b.date);
    assert [a, b] + [Redate(i, b.date), c] == [a, b, Redate(i, b.date), c];
  }

  /** The `for fmt in statement_formats` loop: the first layout whose banner pattern matches. */
  method DetectFormat(banner: string) returns (detected: Option<(StatementReader, string)>)
    ensures detected == DetectFrom(banner, KnownFormats, 0)
  {
    detected := None;
    var f := 0;
    while f < |KnownFormats| && detected.None?
      invariant f <= |KnownFormats|
      invariant DetectFrom(banner, KnownFormats, 0) == if detected.Some? then detected else DetectFrom(banner, KnownFormats, f)
      decreases |KnownFormats| - f
    {
      var account := GetAccountDescription(KnownFormats[f], banner);
      if account.Some? {
        detected := Some((KnownFormats[f], account.value));
      }
      f := f + 1;
    }
  }

  /** The `while (True)` loop that skips lines until the stripped header. */
  method FindHeader(header: string, preamble: seq<string>) returns (found: bool)
    ensures found == HeaderFrom(header, preamble, 0)
  {
    var line := 0;
    while line < |preamble| && !IsHeaderLine(header, preamble[line])
      invariant line <= |preamble|
      invariant HeaderFrom(header, preamble, 0) == HeaderFrom(header, preamble, line)
      decreases |preamble| - line
    {
      line := line + 1;
    }
    found := line < |preamble|;
  }

  /**
   * The body of the main loop for one parsed transaction: the list is
   * updated in place and the new gap index and held-back entry returned.
   */
  method ReconcileInto(fmt: StatementReader, list: TransactionList, gap: Option<nat>, pending: Option<Transaction>, t: Transaction)
    returns (r: Result<(Option<nat>, Option<Transaction>), IngestError>)
    modifies list
    ensures var expected := Reconcile(fmt, Reconciliation(old(list.items), gap, pending), t);
      && (r.Err? <==> expected.Err?)
      && (r.Err? ==> r.error == expected.error)
      && (r.Ok? ==> Reconciliation(list.items, r.value.0, r.value.1) == expected.value)
  {
    if |list.items| == 0 {
      list.Push(t);
      return Ok((gap, pending));
    }
    var previous := list.items[|list.items| - 1];
    var appended := list.Append(fmt, t);
    if appended {
      return Ok((gap, pending));
    }
    if IsInterest(t) {
      if pending.Some? {
        return Err(SecondMisplacedInterest);
      }
      if gap.Some? {
        var inserted := list.InsertInterest(fmt, t, gap.value);
        if !inserted {
          return Err(GapInsertionFailed);
        }
        return Ok((None, None));
      }
      return Ok((None, Some(t)));
    }
    if gap.Some? {
      return Err(SecondDiscontinuity);
    }
    if pending.Some? {
      var bridge := Bridge(fmt, previous, pending.value, t);
      if !(Validate(fmt, previous, bridge) && Validate(fmt, bridge, t)) {
        return Err(PendingInterestBridgeFailed);
      }
      list.Push(bridge);
      list.Push(t);
      return Ok((None, None));
    }
    var reserved := |list.items|;
    list.Push(t);
    return Ok((Some(reserved), None));
  }

  /**
   * `read_nationwide_file` as a loop over the rows that updates the list
   * in place together with the gap index and the held-back entry.
   */
  method ReadStatement(banner: string, preamble: seq<string>, rows: seq<seq<string>>) returns (r: Result<Statement, IngestError>)
    ensures r == Ingest(banner, preamble, rows)
    ensures r.Ok? ==> Continuous(r.value.transactions)
  {
    if banner == "" {
      return Err(EmptyFile);
    }
    var detected := DetectFormat(banner);
    if detected.None? {
      return Err(UnknownFormat);
    }
    var fmt, account := detected.value.0, detected.value.1;
    var found := FindHeader(Header(fmt), preamble);
    if !found {
      return Err(MissingHeader);
    }

    var list := new TransactionList();
    var gap: Option<nat> := None;
    var pending: Option<Transaction> := None;
    var k := 0;
    while k < |rows| && |rows[k]| > 0
      invariant k <= |rows|
      invariant Invariant(fmt, Reconciliation(list.items, gap, pending))
      invariant RunFrom(fmt, Start(), rows, 0) == RunFrom(fmt, Reconciliation(list.items, gap, pending), rows, k)
      decreases |rows| - k
    {
      ghost var before := Reconciliation(list.items, gap, pending);
      var parsed := ParseTransaction(fmt, rows[k]);
      if parsed.Err? {
        return Err(Unparsable(parsed.error));
      }
      var outcome := ReconcileInto(fmt, list, gap, pending, parsed.value);
      if outcome.Err? {
        return Err(outcome.error);
      }
      gap, pending := outcome.value.0, outcome.value.1;
      ReconcileKeepsInvariant(fmt, before, parsed.value);
      k := k + 1;
    }

    if gap.Some? {
      return Err(UnresolvedDiscontinuity);
    }
    if pending.Some? {
      var placed := list.Append(fmt, pending.value);
      if !placed {
        return Err(UnplaceablePendingInterest);
      }
    }
    r := Ok(Statement(account, Order(fmt, list.items)));
    IngestedStatementIsContinuous(banner, preamble, rows);
  }
}
