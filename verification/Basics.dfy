/** Small shared vocabulary: optional values, results with errors, name tests,
    clamping. */
module Basics {

  datatype Option<+T> = None | Some(value: T)

  /** An error return, or a panic, carries its reason. */
  datatype Result<+T> = Ok(value: T) | Err(reason: string) {
    predicate IsFailure() { Err? }

    function PropagateFailure<U>(): Result<U>
      requires Err?
    {
      Err(reason)
    }

    function Extract(): T
      requires Ok?
    {
      value
    }
  }

  predicate HasSuffix(s: string, suffix: string) {
    |suffix| <= |s| && s[|s| - |suffix|..] == suffix
  }

  function Min1(x: real): real { if x < 1.0 then x else 1.0 }

  function Max0(x: real): real { if x > 0.0 then x else 0.0 }

  /** `cmp.Or` on numbers: the first one that is not zero. */
  function Or(x: nat, default: nat): nat { if x != 0 then x else default }
}
