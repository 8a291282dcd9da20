/** The store object behind the finance provider: one mutable state, changed
    only by dispatching actions through the reducer. */
module Store {
  import opened Common
  import opened Format
  import opened Ledger
  import opened Scheduler

  class FinanceStore {
    var state: FinanceState

    /** The reducer's initial state: defaults, no transactions, not loaded. */
    constructor ()
      ensures state == InitialState()
    {
      state := InitialState();
    }

    /** `dispatch(action)`. */
    method Dispatch(a: Action)
      modifies this
      ensures state == Reduce(old(state), a)
    {
      state := Reduce(state, a);
    }

    /** The start-up load: one `LOAD` of the stored copy, or of the defaults
      when there is no usable copy. */
    method LoadFrom(stored: Stored)
      modifies this
      ensures state == LoadedState(stored)
      ensures state.isLoaded
    {
      Dispatch(Ledger.Load(LoadedState(stored)));
    }

    /** The recurrence effect: a loop over the template list as it stood when
        the effect started, dispatching for each due template with an amount
        a new transaction and then the template stamped with `now`; `ids[i]`
        is the fresh id for the i-th template's transaction. */
    method RunRecurrences(now: Moment, ids: seq<Id>)
      requires |ids| == |state.quickTransactions|
      modifies this
      ensures state == Sweep(old(state), now, ids)
    {
      if !state.isLoaded {
        return;
      }
      var snapshot := state.quickTransactions;
      var i := 0;
      while i < |snapshot|
        invariant 0 <= i <= |snapshot|
        invariant SweepOver(state, snapshot[i..], now, ids[i..]) == Sweep(old(state), now, ids)
      {
        var qt := snapshot[i];
        assert snapshot[i..][0] == qt && snapshot[i..][1..] == snapshot[i + 1..] && ids[i..][1..] == ids[i + 1..];
        if qt.recurrence.Some? && qt.amount.Some? && qt.amount.value != 0 {
          if ShouldExecToday(qt.recurrence.value, qt.lastAutoExec, now) {
            Dispatch(AddTransaction(Transaction(ids[i], qt.kind, qt.amount.value, qt.name,
                                                qt.categoryId, None, now, qt.note)));
            Dispatch(UpdateQuick(qt.(lastAutoExec := Some(now))));
          }
        }
        i := i + 1;
      }
    }
  }
}
