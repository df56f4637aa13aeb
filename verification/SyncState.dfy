/** The incremental checkpoint: one row, changed only by compare-and-swap on its
    version, which every change increases. */
module SyncState {
  import opened Prelude

  datatype State = State(checkpoint: Option<string>, version: nat, reconciliationRequired: bool)

  const INITIAL := State(None, 0, false)

  /** `compare_and_swap_checkpoint`: refused on another version or a blocked row. */
  function Swap(row: State, expected: nat, checkpoint: string): Option<State> {
    if row.version == expected && !row.reconciliationRequired
    then Some(row.(checkpoint := Some(checkpoint), version := expected + 1))
    else None
  }

  function MarkRequired(row: State, expected: nat): Option<State> {
    if row.version == expected then Some(row.(reconciliationRequired := true, version := expected + 1)) else None
  }

  function Recover(row: State, expected: nat, trusted: string): Option<State> {
    if row.version == expected && row.reconciliationRequired
    then Some(row.(checkpoint := Some(trusted), reconciliationRequired := false, version := expected + 1))
    else None
  }

  /** The stored row of one provider and mechanism, which other processes write too. */
  class StateStore {
    var row: State

    constructor ()
      ensures row == INITIAL
    {
      row := INITIAL;
    }

    /** Whatever other writers do in the meantime: nothing, or one or more
        successful compare-and-swaps. */
    method Interfere()
      modifies this
      ensures row.version >= old(row.version)
      ensures row.version == old(row.version) ==> row == old(row)
    {
      if * {
        var c: Option<string>, n: nat, b: bool := *, *, *;
        row := State(c, row.version + 1 + n, b);
      }
    }

    method CompareAndSwapCheckpoint(expected: nat, checkpoint: string) returns (advanced: Option<State>)
      modifies this
      ensures advanced == Swap(old(row), expected, checkpoint)
      ensures advanced.Some? <==> old(row).version == expected && !old(row).reconciliationRequired
      ensures advanced.Some? ==> row == advanced.value == State(Some(checkpoint), old(row).version + 1, false)
      ensures advanced.None? ==> row == old(row)
    {
      if row.version == expected && !row.reconciliationRequired {
        row := State(Some(checkpoint), expected + 1, false);
        return Some(row);
      }
      return None;
    }

    method MarkReconciliationRequired(expected: nat) returns (marked: Option<State>)
      modifies this
      ensures marked == MarkRequired(old(row), expected)
      ensures marked.Some? <==> old(row).version == expected
      ensures marked.Some? ==> row == marked.value == State(old(row).checkpoint, old(row).version + 1, true)
      ensures marked.None? ==> row == old(row)
    {
      if row.version == expected {
        row := State(row.checkpoint, expected + 1, true);
        return Some(row);
      }
      return None;
    }
  }
}
