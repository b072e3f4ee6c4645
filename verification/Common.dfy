/** Result types and finite-set helpers shared by every module. */
module Common {
  datatype Option<+T> = None | Some(value: T)

  datatype Result<+T, +E> = Ok(value: T) | Err(error: E)

  /** The errors the services raise: 404, 400, 403, 401 and 409, and any other exception. */
  datatype Error = NotFound | Validation | Forbidden | Unauthorized | Conflict | Internal

  /** `_max` over a set of sequence numbers; 0 for the empty set. */
  ghost function MaxOf(s: set<nat>): (m: nat)
    ensures forall x :: x in s ==> x <= m
    ensures s != {} ==> m in s
    ensures s == {} ==> m == 0
  {
    if s == {} then 0 else
      var x :| x in s;
      var rest := MaxOf(s - {x});
      assert forall y :: y in s ==> y == x || y in s - {x};
      if x >= rest then x else rest
  }

  /** A maximum is determined by its two defining facts. */
  lemma MaxOfIs(s: set<nat>, m: nat)
    requires m in s || (s == {} && m == 0)
    requires forall x :: x in s ==> x <= m
    ensures MaxOf(s) == m
  {
  }

  /** There is always another id. */
  lemma FreshString(used: set<string>) returns (s: string)
    ensures s != "" && s !in used
  {
    var lengths := set u | u in used :: |u|;
    s := seq(MaxOf(lengths) + 1, _ => 'a');
    assert s in used ==> |s| in lengths;
  }
}
