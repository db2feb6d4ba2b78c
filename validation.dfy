/**
 * The request validator the services and handlers fill in. Its package is not
 * part of this model; it is represented as the ordered list of
 * (field, message) failures recorded so far, with no de-duplication.
 */
module Validation {

  datatype FieldError = FieldError(field: string, message: string)

  /** What `Check(ok, field, message)` records: nothing when the check holds. */
  function Failing(ok: bool, field: string, message: string): (errs: seq<FieldError>)
    ensures errs == [] <==> ok
    ensures !ok ==> errs == [FieldError(field, message)]
  {
    if ok then [] else [FieldError(field, message)]
  }

  /** A check together with the failure recorded when it does not hold. */
  datatype Rule = Rule(holds: bool, failure: FieldError)

  /** The failures a run of independent checks records, in order. */
  function Recorded(rules: seq<Rule>): (errs: seq<FieldError>)
    ensures errs == [] <==> forall i | 0 <= i < |rules| :: rules[i].holds
    ensures |errs| <= |rules|
  {
    if rules == [] then []
    else Failing(rules[0].holds, rules[0].failure.field, rules[0].failure.message) + Recorded(rules[1..])
  }

  /** A failure is recorded exactly when some check carrying it does not hold. */
  lemma {:induction false} RecordedContains(rules: seq<Rule>, e: FieldError)
    ensures e in Recorded(rules) <==> exists i | 0 <= i < |rules| :: !rules[i].holds && rules[i].failure == e
  {
    if rules != [] {
      RecordedContains(rules[1..], e);
      assert forall i | 1 <= i < |rules| :: rules[i] == rules[1..][i - 1];
      if e in Recorded(rules[1..]) {
        var i :| 0 <= i < |rules[1..]| && !rules[1..][i].holds && rules[1..][i].failure == e;
        assert !rules[i + 1].holds && rules[i + 1].failure == e;
      }
    }
  }

  /**
   * When no other check carries the same failure, that failure is recorded
   * exactly when its own check does not hold, whatever the others do.
   */
  lemma RecordedIndependently(rules: seq<Rule>, k: nat)
    requires k < |rules|
    requires forall i | 0 <= i < |rules| && i != k :: rules[i].failure != rules[k].failure
    ensures rules[k].failure in Recorded(rules) <==> !rules[k].holds
  {
    RecordedContains(rules, rules[k].failure);
  }

  /**
   * Appending failures in two steps is appending them at once: a step the
   * `Validate*` proofs call explicitly to keep the solver's work small.
   */
  lemma AppendTwice(recorded: seq<FieldError>, first: seq<FieldError>, second: seq<FieldError>)
    ensures recorded + first + second == recorded + (first + second)
  {
  }

  class Validator {
    var errors: seq<FieldError>

    /** `validator.New()`. */
    constructor ()
      ensures errors == []
    {
      errors := [];
    }

    /** `Valid()`: no failure has been recorded. */
    predicate Valid()
      reads this
    {
      errors == []
    }

    method AddError(field: string, message: string)
      modifies this
      ensures errors == old(errors) + [FieldError(field, message)]
    {
      errors := errors + [FieldError(field, message)];
    }

    method Check(ok: bool, field: string, message: string)
      modifies this
      ensures errors == old(errors) + Failing(ok, field, message)
    {
      if !ok {
        AddError(field, message);
      }
    }
  }
}
