/** Kernel-wide error codes (kernel/Error.hpp): a code enum, the `Error`
    wrapper whose truth value means "something went wrong", the identifier
    table behind `Name`, and the `(value, error)` pair `WithError<T>`. */
module Errors {

  /** The enumerators of `Error::Code`, in declaration order. */
  datatype Code = Success | Full | Empty | IndexOutOfRange | LastOfCode

  /** Position of a code in the C++ enum (its `static_cast<int>`). */
  function Ordinal(c: Code): nat
  {
    match c
    case Success => 0
    case Full => 1
    case Empty => 2
    case IndexOutOfRange => 3
    case LastOfCode => 4
  }

  /** The identifier table `code_names_`: four rows for five enumerators. */
  const CodeNames: seq<string> := ["kSuccess", "kFull", "kEmpty", "kIndexOutOfRange"]

  /** An error value wraps exactly one code. */
  datatype Error = Error(code: Code)

  /** `MAKE_ERROR(c)`. */
  function MakeError(c: Code): (e: Error)
    ensures e.code == c
  {
    Error(c)
  }

  /** `operator bool`: an error is "raised" exactly when its code is not kSuccess. */
  predicate Failed(e: Error): (f: bool)
    ensures f <==> e != MakeError(Success)
  {
    e.code != Success
  }

  /** `Name()` indexes `code_names_` by the enumerator's position, so it is
      defined for every code except the sentinel kLastOfCode. */
  function Name(e: Error): (s: string)
    requires e.code != LastOfCode
    ensures |s| > 1 && s[0] == 'k'
    ensures e.code == Success ==> s == "kSuccess"
    ensures e.code == Full ==> s == "kFull"
    ensures e.code == Empty ==> s == "kEmpty"
    ensures e.code == IndexOutOfRange ==> s == "kIndexOutOfRange"
  {
    CodeNames[Ordinal(e.code)]
  }

  /** `WithError<T>`: a plain pair of a value and an error. */
  datatype WithError<T> = WithError(value: T, error: Error)

  /** The table covers exactly the codes other than the sentinel. */
  lemma NameTableCoversAllButSentinel(c: Code)
    ensures Ordinal(c) < |CodeNames| <==> c != LastOfCode
  {
  }

  /** Distinct codes have distinct names, so a name identifies its code. */
  lemma NameInjective(e1: Error, e2: Error)
    requires e1.code != LastOfCode && e2.code != LastOfCode
    ensures Name(e1) == Name(e2) <==> e1 == e2
  {
  }

  /** The truth value of `MAKE_ERROR(c)` is false exactly for kSuccess. */
  lemma MakeErrorFailedIff(c: Code)
    ensures Failed(MakeError(c)) <==> c != Success
  {
  }
}
