/**
 * Plan versions at the scale the store's mutators work on: a version here is
 * counted in hundredths, so version 1.00 is 100.
 *
 * The check-in, check-out and meeting paths of services/mockBackend.ts raise
 * the stored version by one hundredth (lines 190, 209, 257), while the editor
 * saves the version it last fetched plus one whole unit
 * (components/FloorPlanEditor.tsx:141) and the store accepts any candidate
 * above its latest version (services/mockBackend.ts:143). An editor working
 * from a stale copy therefore still gets its save accepted after up to 99
 * such commits, and its plan replaces theirs: the check-ins, check-outs and
 * bookings made meanwhile are lost without a conflict ever being shown.
 *
 * The rest of the model bumps by one whole version on every commit, and
 * `Editor.StaleSaveConflicts` proves the intended behaviour there.
 */
module VersionScale {

  /** One whole version, in hundredths. */
  const Unit: int := 100

  /** The store's compare-and-swap: a candidate wins only above the latest version. */
  predicate Accepts(latest: int, candidate: int) {
    !(latest >= candidate)
  }

  /** The editor's save: the version it last fetched, plus one whole unit. */
  function EditorCandidate(fetched: int): int {
    fetched + Unit
  }

  /** The stored version after `k` mutator commits of one hundredth each, as written. */
  function AfterHundredthBumps(v: int, k: nat): int {
    if k == 0 then v else AfterHundredthBumps(v, k - 1) + 1
  }

  /** The stored version after `k` mutator commits of one whole unit each. */
  function AfterWholeBumps(v: int, k: nat): int {
    if k == 0 then v else AfterWholeBumps(v, k - 1) + Unit
  }

  /**
   * Arithmetic bookkeeping, not a property of the store: it turns the step
   * count into a sum so that `StaleSaveAcceptedAsWritten` can compare it
   * with the editor's whole-unit candidate.
   */
  lemma {:induction false} HundredthBumpsAdd(v: int, k: nat)
    ensures AfterHundredthBumps(v, k) == v + k
  {
    if k > 0 {
      HundredthBumpsAdd(v, k - 1);
    }
  }

  /** The same bookkeeping for whole-unit commits, used by `StaleSaveRejectedWhenWhole`. */
  lemma {:induction false} WholeBumpsAdd(v: int, k: nat)
    ensures AfterWholeBumps(v, k) == v + k * Unit
  {
    if k > 0 {
      WholeBumpsAdd(v, k - 1);
    }
  }

  /**
   * As written: after between 1 and 99 hundredth commits the editor's stale
   * save is still accepted, overwriting all of them; from 100 commits on it
   * is rejected.
   */
  lemma StaleSaveAcceptedAsWritten(fetched: int, k: nat)
    ensures 1 <= k < Unit ==> Accepts(AfterHundredthBumps(fetched, k), EditorCandidate(fetched))
    ensures k >= Unit ==> !Accepts(AfterHundredthBumps(fetched, k), EditorCandidate(fetched))
  {
    HundredthBumpsAdd(fetched, k);
  }

  /** The concrete case: the editor fetched 1.00, one check-in made it 1.01, the save of 2.00 wins. */
  lemma OneCheckInLost()
    ensures AfterHundredthBumps(100, 1) == 101
    ensures Accepts(AfterHundredthBumps(100, 1), EditorCandidate(100))
  {
    StaleSaveAcceptedAsWritten(100, 1);
  }

  /** Corrected: with whole-unit commits any intervening commit makes the stale save conflict. */
  lemma StaleSaveRejectedWhenWhole(fetched: int, k: nat)
    ensures k >= 1 <==> !Accepts(AfterWholeBumps(fetched, k), EditorCandidate(fetched))
  {
    WholeBumpsAdd(fetched, k);
  }
}
