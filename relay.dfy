/**
 * The verdict at the end of both `relay` functions. A relay runs two copies
 * concurrently: the one on the calling goroutine (`first`) and the one on the
 * spawned goroutine (`second`); only the final classification of their two
 * errors is modelled.
 */
module Relay {

  /** What one `io.Copy` ended with: no error, a deadline expiry, or another failure. */
  datatype CopyError = Nil | Deadline | IO(msg: string)

  /** `err != nil && !errors.Is(err, os.ErrDeadlineExceeded)`. */
  predicate Failed(e: CopyError)
  {
    e.IO?
  }

  /**
   * The relay's result: the first copy's failure if it failed, else the
   * second copy's failure if it failed, else no error.
   */
  function Classify(first: CopyError, second: CopyError): (r: CopyError)
    ensures !r.Deadline?
    ensures r.Nil? <==> !Failed(first) && !Failed(second)
    ensures r.IO? ==> r == first || r == second
  {
    if Failed(first) then first
    else if Failed(second) then second
    else Nil
  }

  /** Reference reading of the same rule: the earliest failure in a list of copy results. */
  function FirstFailure(results: seq<CopyError>): (r: CopyError)
    ensures !r.Deadline?
  {
    if results == [] then Nil
    else if Failed(results[0]) then results[0]
    else FirstFailure(results[1..])
  }

  /** `Classify` reports the earliest failure among the two copies, in order. */
  lemma ClassifyIsFirstFailure(first: CopyError, second: CopyError)
    ensures Classify(first, second) == FirstFailure([first, second])
  {
    assert [first, second][1..] == [second];
    assert FirstFailure([second]) == if Failed(second) then second else FirstFailure([]) by {
      assert [second][1..] == [];
    }
  }

  /** A deadline expiry on either copy counts the same as a clean finish. */
  lemma DeadlineIsSuccess(e: CopyError)
    ensures Classify(Deadline, e) == Classify(Nil, e)
    ensures Classify(e, Deadline) == Classify(e, Nil)
    ensures Classify(Deadline, Deadline) == Nil
  {
  }

  /** When both copies fail, the first copy's error is the one reported. */
  lemma FirstFailureWins(m1: string, m2: string)
    ensures Classify(IO(m1), IO(m2)) == IO(m1)
  {
  }

  /** Whether the relay succeeded does not depend on which copy ran where. */
  lemma SuccessSymmetric(first: CopyError, second: CopyError)
    ensures Classify(first, second).Nil? <==> Classify(second, first).Nil?
  {
  }

  /** The earliest failure of a list is a failure in it, and no earlier entry failed. */
  lemma {:induction false} FirstFailureIsEarliest(results: seq<CopyError>)
    ensures FirstFailure(results).IO? ==>
      exists i | 0 <= i < |results| :: results[i] == FirstFailure(results)
        && forall j | 0 <= j < i :: !Failed(results[j])
    ensures FirstFailure(results).Nil? <==> forall i | 0 <= i < |results| :: !Failed(results[i])
  {
    if results != [] && !Failed(results[0]) {
      var rest := results[1..];
      FirstFailureIsEarliest(rest);
      if FirstFailure(rest).IO? {
        var i :| 0 <= i < |rest| && rest[i] == FirstFailure(rest)
          && forall j | 0 <= j < i :: !Failed(rest[j]);
        assert results[i + 1] == FirstFailure(results);
        assert forall j | 0 <= j < i + 1 :: !Failed(results[j]) by {
          forall j | 0 <= j < i + 1 ensures !Failed(results[j]) {
            if j > 0 { assert results[j] == rest[j - 1]; }
          }
        }
      }
      assert forall i | 0 <= i < |rest| :: rest[i] == results[i + 1];
    }
  }
}
