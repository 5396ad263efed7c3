/** Identifiers, errors and results shared by every module of the model. */
module Ids {

  datatype Option<+T> = None | Some(value: T)

  datatype Result<+T> = Ok(value: T) | Err(error: Error)

  /** The typed errors of internal/biz/model.go that the modelled operations return. */
  datatype Error =
    | NotFound
    | InvalidArgument
    | PermissionDenied
    | NodeLocked
    | NameConflict
    | CycleDetected
    | QuotaExceeded
    | UploadIncomplete
    | UploadExpired
    | UploadAborted
    | PreconditionFailed
    | TooLarge
    | Unsupported
    | Unauthenticated
    | AccountDisabled
    | ResourceExhausted
    | StorageFailure

  /** A UUID is a number with a canonical text. All the model needs of the text is that it is not
      empty, holds no slash and differs for different numbers; decimal digits stand in for the
      hexadecimal groups. */
  type Uuid = nat

  /** uuid.Nil, the parent of every root level node. */
  const NIL: Uuid := 0

  const DIGITS := "0123456789"

  function Text(n: nat): (t: string)
    ensures t != "" && '/' !in t
  {
    if n < 10 then [DIGITS[n]] else Text(n / 10) + [DIGITS[n % 10]]
  }

  lemma {:induction false} TextInjective(a: nat, b: nat)
    requires Text(a) == Text(b)
    ensures a == b
  {
    assert Text(a)[|Text(a)| - 1] == DIGITS[a % 10];
    assert Text(b)[|Text(b)| - 1] == DIGITS[b % 10];
    if a >= 10 && b >= 10 {
      assert Text(a)[..|Text(a)| - 1] == Text(a / 10);
      assert Text(b)[..|Text(b)| - 1] == Text(b / 10);
      TextInjective(a / 10, b / 10);
    }
  }

  /** NewID: an identifier that was never handed out before. Uniqueness of time-ordered UUIDs
      is the assumption this stands for, so the identifiers minted so far are an argument. */
  method NewID(minted: set<Uuid>) returns (id: Uuid)
    ensures id !in minted && id != NIL
  {
    var highest := NIL;
    var left := minted;
    while left != {}
      invariant left <= minted && highest >= 0
      invariant forall u | u in minted && u !in left :: u <= highest
    {
      var u :| u in left;
      left := left - {u};
      if u > highest { highest := u; }
    }
    id := highest + 1;
  }
}
