/**
 * The database as the loaders see it: each `.execute()` call either
 * raises or returns rows. The calls' outcomes are given in call order;
 * a call beyond the given outcomes fails.
 */
module Store {
  /** One call's outcome: it returned `rows` records (`0` for no data), or it raised. */
  datatype Outcome = Ok(rows: nat) | Fail

  /** The outcome of call number `k` (from 0). */
  function OutcomeAt(store: seq<Outcome>, k: nat): (o: Outcome)
    ensures k >= |store| ==> o == Fail
  {
    if k < |store| then store[k] else Fail
  }
}
