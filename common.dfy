/** Types shared by every service: optional values, the failures a service call
    can end in, and the pair (result, new table) that each transition returns. */
module Common {

  /** A value that may be absent (the store's `null`). */
  datatype Option<+T> = None | Some(value: T)

  /** How a service call fails: one of the framework's HTTP exceptions with its
      message, or an error raised by the store that the service does not catch,
      identified by the store's error code. */
  datatype Failure =
    | BadRequest(message: string)
    | NotFound(message: string)
    | Unauthorized(message: string)
    | StoreError(code: string)

  datatype Result<+T> = Ok(value: T) | Err(failure: Failure)

  /** Store error code for a violated unique constraint. */
  const UniqueViolation := "P2002"
  /** Store error code for an update whose target row does not exist. */
  const RecordNotFound := "P2025"

  /** What one service call returns, together with the table it leaves behind. */
  datatype Outcome<+T, +S> = Outcome(result: Result<T>, table: S)

  /** Index of the first element of `s` that satisfies `p`, or |s| when none does
      (a store lookup that returns the first matching row). */
  function FirstWhere<T>(s: seq<T>, p: T -> bool): (k: nat)
    ensures k <= |s|
    ensures forall j :: 0 <= j < k ==> !p(s[j])
    ensures k < |s| ==> p(s[k])
    decreases |s|
  {
    if |s| == 0 then 0
    else if p(s[0]) then 0
    else 1 + FirstWhere(s[1..], p)
  }

  /** `s` without its element at index `k` (a row deleted from a table). */
  function RemoveAt<T>(s: seq<T>, k: nat): (r: seq<T>)
    requires k < |s|
    ensures |r| == |s| - 1
    ensures forall i :: 0 <= i < k ==> r[i] == s[i]
    ensures forall i :: k <= i < |r| ==> r[i] == s[i + 1]
  {
    s[..k] + s[k + 1..]
  }
}
