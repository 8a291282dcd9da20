/** The start-up recurrence sweep: every recurring template with an amount
    that is due becomes a new transaction, and the template is stamped with
    the moment of that run.

    The sweep walks the template list as it stood when the sweep began and
    applies its actions, one after another, to the evolving store state. */
module Scheduler {
  import opened Common
  import opened Format
  import opened Ledger

  /** `qt.recurrence && qt.amount`: a template the sweep looks at. An amount
      of 0 is falsy and excludes the template just like a missing one. */
  predicate Eligible(q: QuickTransaction) {
    q.recurrence.Some? && q.amount.Some? && q.amount.value != 0
  }

  /** The template is looked at and its rule is due at `now`. */
  predicate Fires(q: QuickTransaction, now: Moment) {
    Eligible(q) && ShouldExecToday(q.recurrence.value, q.lastAutoExec, now)
  }

  /** The transaction a firing template produces: the template's kind,
      amount, name, category and note, under the fresh id, dated `now` and
      booked to no account. Its amount is never 0. */
  function Materialize(q: QuickTransaction, now: Moment, id: Id): (t: Transaction)
    requires Eligible(q)
    ensures t.id == id && t.date == now && t.accountId.None? && t.amount != 0
    ensures t.kind == q.kind && Some(t.amount) == q.amount && t.description == q.name &&
            t.categoryId == q.categoryId && t.note == q.note
  {
    Transaction(id, q.kind, q.amount.value, q.name, q.categoryId, None, now, q.note)
  }

  /** `{ ...qt, lastAutoExec: now }`. */
  function Stamped(q: QuickTransaction, now: Moment): QuickTransaction {
    q.(lastAutoExec := Some(now))
  }

  /** One iteration of the loop: for a firing template, an `ADD_TRANSACTION`
      followed by an `UPDATE_QUICK`; otherwise nothing. */
  function Step(s: FinanceState, q: QuickTransaction, now: Moment, id: Id): (r: FinanceState)
    ensures r.transactions == (if Fires(q, now) then [Materialize(q, now, id)] else []) + s.transactions
    ensures Fires(q, now) ==> r.quickTransactions == ReplaceById(s.quickTransactions, QuickId, Stamped(q, now))
    ensures !Fires(q, now) ==> r.quickTransactions == s.quickTransactions
    ensures r.categories == s.categories && r.accounts == s.accounts && r.isLoaded == s.isLoaded
  {
    assert [] + s.transactions == s.transactions;
    if Fires(q, now) then
      Reduce(Reduce(s, AddTransaction(Materialize(q, now, id))), UpdateQuick(Stamped(q, now)))
    else
      s
  }

  /** The loop over the templates `qs`, the i-th using the fresh id `ids[i]`
      should it fire. */
  function SweepOver(s: FinanceState, qs: seq<QuickTransaction>, now: Moment, ids: seq<Id>): FinanceState
    requires |ids| == |qs|
    decreases |qs|
  {
    if qs == [] then s else SweepOver(Step(s, qs[0], now, ids[0]), qs[1..], now, ids[1..])
  }

  /** The sweep run once the store is loaded, over the templates of that state. */
  function Sweep(s: FinanceState, now: Moment, ids: seq<Id>): (r: FinanceState)
    requires |ids| == |s.quickTransactions|
    ensures !s.isLoaded ==> r == s
    ensures r.transactions == (if s.isLoaded then NewTransactions(s.quickTransactions, now, ids) else []) + s.transactions
    ensures r.categories == s.categories && r.accounts == s.accounts && r.isLoaded == s.isLoaded
    ensures |r.quickTransactions| == |s.quickTransactions|
  {
    if !s.isLoaded then
      assert [] + s.transactions == s.transactions;
      s
    else
      SweepOverEffect(s, s.quickTransactions, now, ids);
      SweepOver(s, s.quickTransactions, now, ids)
  }

  /** The transactions a sweep over `qs` creates, newest (last created) first. */
  function NewTransactions(qs: seq<QuickTransaction>, now: Moment, ids: seq<Id>): seq<Transaction>
    requires |ids| == |qs|
    decreases |qs|
  {
    if qs == [] then []
    else NewTransactions(qs[1..], now, ids[1..]) + (if Fires(qs[0], now) then [Materialize(qs[0], now, ids[0])] else [])
  }

  /** A sweep puts its new transactions in front of the old ones, which it
      does not touch, and changes neither the categories, the accounts, nor
      the loaded flag; the template list keeps its length. */
  lemma {:induction false} SweepOverEffect(s: FinanceState, qs: seq<QuickTransaction>, now: Moment, ids: seq<Id>)
    requires |ids| == |qs|
    ensures var r := SweepOver(s, qs, now, ids);
            r.transactions == NewTransactions(qs, now, ids) + s.transactions &&
            r.categories == s.categories && r.accounts == s.accounts && r.isLoaded == s.isLoaded &&
            |r.quickTransactions| == |s.quickTransactions|
    decreases |qs|
  {
    if qs != [] {
      var s1 := Step(s, qs[0], now, ids[0]);
      SweepOverEffect(s1, qs[1..], now, ids[1..]);
      var first: seq<Transaction> := if Fires(qs[0], now) then [Materialize(qs[0], now, ids[0])] else [];
      assert s1.transactions == first + s.transactions;
      assert NewTransactions(qs, now, ids) == NewTransactions(qs[1..], now, ids[1..]) + first;
      assert NewTransactions(qs[1..], now, ids[1..]) + (first + s.transactions) ==
             NewTransactions(qs, now, ids) + s.transactions;
    }
  }

  /** Every template that fires yields one transaction built from it: its
      kind, amount, name as description, category and note, no account, and
      the sweep's moment as date; and every new transaction comes from such a
      template. There is one new transaction per firing template. */
  lemma {:induction false} NewTransactionsFromFiring(qs: seq<QuickTransaction>, now: Moment, ids: seq<Id>)
    requires |ids| == |qs|
    ensures forall i :: 0 <= i < |qs| && Fires(qs[i], now) ==> Materialize(qs[i], now, ids[i]) in NewTransactions(qs, now, ids)
    ensures forall t :: t in NewTransactions(qs, now, ids) ==>
              exists i :: 0 <= i < |qs| && Fires(qs[i], now) && t == Materialize(qs[i], now, ids[i])
    ensures |NewTransactions(qs, now, ids)| == |Filter(qs, (q: QuickTransaction) => Fires(q, now))|
    decreases |qs|
  {
    if qs != [] {
      NewTransactionsFromFiring(qs[1..], now, ids[1..]);
      assert qs == [qs[0]] + qs[1..];
      FilterCons(qs[0], qs[1..], (q: QuickTransaction) => Fires(q, now));
      forall i | 0 < i < |qs| && Fires(qs[i], now)
        ensures Materialize(qs[i], now, ids[i]) in NewTransactions(qs, now, ids)
      {
        assert qs[1..][i - 1] == qs[i] && ids[1..][i - 1] == ids[i];
      }
      forall t | t in NewTransactions(qs, now, ids)
        ensures exists i :: 0 <= i < |qs| && Fires(qs[i], now) && t == Materialize(qs[i], now, ids[i])
      {
        if t in NewTransactions(qs[1..], now, ids[1..]) {
          var j :| 0 <= j < |qs[1..]| && Fires(qs[1..][j], now) && t == Materialize(qs[1..][j], now, ids[1..][j]);
          assert qs[j + 1] == qs[1..][j] && ids[j + 1] == ids[1..][j];
        } else {
          assert Fires(qs[0], now) && t == Materialize(qs[0], now, ids[0]);
        }
      }
    }
  }

  /** A sweep in which no template fires changes nothing at all. */
  lemma {:induction false} QuietSweepChangesNothing(s: FinanceState, qs: seq<QuickTransaction>, now: Moment, ids: seq<Id>)
    requires |ids| == |qs|
    requires forall i :: 0 <= i < |qs| ==> !Fires(qs[i], now)
    ensures SweepOver(s, qs, now, ids) == s
    decreases |qs|
  {
    if qs != [] {
      assert !Fires(qs[0], now);
      QuietSweepChangesNothing(s, qs[1..], now, ids[1..]);
    }
  }

  /** A template stamped at `now` does not fire again at `now`. */
  lemma StampedDoesNotFire(q: QuickTransaction, now: Moment)
    ensures !Fires(Stamped(q, now), now)
  {
    if Eligible(q) {
      SameDayGuard(q.recurrence.value, now, now);
    }
  }

  /** What the sweep leaves at position k of the template list, if template
      ids are distinct: the template stamped if it fired, unchanged otherwise. */
  function Outcome(q: QuickTransaction, now: Moment): QuickTransaction {
    if Fires(q, now) then Stamped(q, now) else q
  }

  predicate DistinctIds(qs: seq<QuickTransaction>) {
    forall i, j :: 0 <= i < j < |qs| ==> qs[i].id != qs[j].id
  }

  /** The loop from position `i` on, with positions before `i` already settled. */
  lemma {:induction false} SweepStampsFrom(s: FinanceState, snap: seq<QuickTransaction>, i: nat, now: Moment, ids: seq<Id>)
    requires |ids| == |snap| && i <= |snap| && DistinctIds(snap)
    requires |s.quickTransactions| == |snap|
    requires forall k :: 0 <= k < i ==> s.quickTransactions[k] == Outcome(snap[k], now)
    requires forall k :: i <= k < |snap| ==> s.quickTransactions[k] == snap[k]
    ensures var r := SweepOver(s, snap[i..], now, ids[i..]).quickTransactions;
            |r| == |snap| && forall k :: 0 <= k < |snap| ==> r[k] == Outcome(snap[k], now)
    decreases |snap| - i
  {
    if i < |snap| {
      var q := snap[i];
      var s1 := Step(s, q, now, ids[i]);
      assert snap[i..][0] == q && snap[i..][1..] == snap[i + 1..] && ids[i..][1..] == ids[i + 1..];
      forall k | 0 <= k < |snap|
        ensures s1.quickTransactions[k] == if k <= i then Outcome(snap[k], now) else snap[k]
      {
        if Fires(q, now) && k != i {
          assert s.quickTransactions[k].id == snap[k].id;
        }
      }
      SweepStampsFrom(s1, snap, i + 1, now, ids);
    } else {
      assert snap[i..] == [];
    }
  }

  /** With distinct template ids, every template that fired is stamped with
      the sweep's moment and every other one is left as it was. */
  lemma SweepStamps(s: FinanceState, now: Moment, ids: seq<Id>)
    requires |ids| == |s.quickTransactions| && s.isLoaded && DistinctIds(s.quickTransactions)
    ensures var r := Sweep(s, now, ids).quickTransactions;
            |r| == |s.quickTransactions| &&
            forall k :: 0 <= k < |r| ==>
              r[k] == if Fires(s.quickTransactions[k], now)
                      then s.quickTransactions[k].(lastAutoExec := Some(now))
                      else s.quickTransactions[k]
  {
    var snap := s.quickTransactions;
    assert snap[0..] == snap && ids[0..] == ids;
    SweepStampsFrom(s, snap, 0, now, ids);
  }

  /** The loop from position `i` on, when no template before `i` can fire any
      more and those after it are untouched or cannot fire either. Ids need
      not be distinct. */
  lemma {:induction false} SweepSettlesFrom(s: FinanceState, snap: seq<QuickTransaction>, i: nat, now: Moment, ids: seq<Id>)
    requires |ids| == |snap| && i <= |snap|
    requires |s.quickTransactions| == |snap|
    requires forall k :: 0 <= k < |snap| ==> s.quickTransactions[k].id == snap[k].id
    requires forall k :: 0 <= k < i ==> !Fires(s.quickTransactions[k], now)
    requires forall k :: i <= k < |snap| ==> s.quickTransactions[k] == snap[k] || !Fires(s.quickTransactions[k], now)
    ensures var r := SweepOver(s, snap[i..], now, ids[i..]);
            forall q :: q in r.quickTransactions ==> !Fires(q, now)
    decreases |snap| - i
  {
    if i < |snap| {
      var q := snap[i];
      var s1 := Step(s, q, now, ids[i]);
      assert snap[i..][0] == q && snap[i..][1..] == snap[i + 1..] && ids[i..][1..] == ids[i + 1..];
      StampedDoesNotFire(q, now);
      SweepSettlesFrom(s1, snap, i + 1, now, ids);
    } else {
      assert snap[i..] == [];
      assert forall q :: q in s.quickTransactions ==> exists k :: 0 <= k < |snap| && s.quickTransactions[k] == q;
    }
  }

  /** Idempotence: running the sweep again at the same moment adds no
      transaction and changes nothing, whatever the template ids. */
  lemma SweepIdempotent(s: FinanceState, now: Moment, ids: seq<Id>, moreIds: seq<Id>)
    requires |ids| == |s.quickTransactions|
    requires |moreIds| == |s.quickTransactions|
    ensures |Sweep(s, now, ids).quickTransactions| == |s.quickTransactions|
    ensures Sweep(Sweep(s, now, ids), now, moreIds) == Sweep(s, now, ids)
  {
    var snap := s.quickTransactions;
    SweepOverEffect(s, snap, now, ids);
    if s.isLoaded {
      var r := Sweep(s, now, ids);
      assert snap[0..] == snap && ids[0..] == ids;
      SweepSettlesFrom(s, snap, 0, now, ids);
      assert forall i :: 0 <= i < |r.quickTransactions| ==> r.quickTransactions[i] in r.quickTransactions;
      QuietSweepChangesNothing(r, r.quickTransactions, now, moreIds);
    }
  }

  /** The "already ran today" guard at the level of a sweep: with distinct
      template ids, a template a sweep fires does not fire again in any later
      sweep on the same calendar day. */
  lemma FiredNotAgainSameDay(s: FinanceState, now: Moment, later: Moment, ids: seq<Id>)
    requires |ids| == |s.quickTransactions| && s.isLoaded && DistinctIds(s.quickTransactions)
    requires SameDay(now, later)
    ensures var r := Sweep(s, now, ids).quickTransactions;
            forall k :: 0 <= k < |s.quickTransactions| && Fires(s.quickTransactions[k], now) ==> !Fires(r[k], later)
  {
    SweepStamps(s, now, ids);
    var r := Sweep(s, now, ids).quickTransactions;
    forall k | 0 <= k < |s.quickTransactions| && Fires(s.quickTransactions[k], now)
      ensures !Fires(r[k], later)
    {
      SameDayGuard(r[k].recurrence.value, now, later);
    }
  }

  /** A template without a recurrence, or with a missing or zero amount, never
      yields a transaction, whatever its rule says. */
  lemma IneligibleNeverFires(q: QuickTransaction, now: Moment)
    requires q.recurrence.None? || q.amount.None? || q.amount == Some(0)
    ensures !Fires(q, now)
  {
  }

  /** The same-day guard only covers templates stamped today: a second run
      later on the same calendar day can still create a transaction. Here a
      Monday rule last ran on Tuesday 2 January 2024 at 10:00 (its weekday was
      changed after that run); on Monday 8 January a run at 09:00 finds only
      5 days 23 hours elapsed and adds nothing, and a run at 11:00 that day
      finds 6 days 1 hour and fires it. */
  lemma LaterRerunSameDayCanFire()
    ensures var last := Moment(0, 2, 2, 0, 2024);
            var early := Moment(6 * MsPerDay - 3600000, 8, 1, 0, 2024);
            var late := Moment(6 * MsPerDay + 3600000, 8, 1, 0, 2024);
            var q := QuickTransaction("qt", "Gym", "barbell", Some(300), "cat-health", Expense, None,
                                      Some(Recurrence(Weekly, Some(1), None)), Some(last));
            var s := FinanceState([], [], [q], [], true);
            SameDay(early, late) &&
            Sweep(s, early, ["tx-1"]) == s &&
            |Sweep(Sweep(s, early, ["tx-1"]), late, ["tx-2"]).transactions| == 1
  {
    var last := Moment(0, 2, 2, 0, 2024);
    var early := Moment(6 * MsPerDay - 3600000, 8, 1, 0, 2024);
    var late := Moment(6 * MsPerDay + 3600000, 8, 1, 0, 2024);
    var q := QuickTransaction("qt", "Gym", "barbell", Some(300), "cat-health", Expense, None,
                              Some(Recurrence(Weekly, Some(1), None)), Some(last));
    var s := FinanceState([], [], [q], [], true);
    assert !Fires(q, early);
    assert Fires(q, late);
    QuietSweepChangesNothing(s, [q], early, ["tx-1"]);
    SweepOverEffect(s, [q], late, ["tx-2"]);
  }
}
