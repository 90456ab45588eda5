/** The guarded addition of src/utils/sum.ts. */
module Sum {
  import opened Wrappers
  import opened HttpErrors

  const NULL_INPUT: string := "Invalid input: null value"

  /** `sum({a, b})`: a `null` operand throws, otherwise the sum. */
  function Sum(a: Option<int>, b: Option<int>): (r: Result<int, AppError>)
    ensures r.Failure? <==> a.None? || b.None?
    ensures r.Failure? ==> r.error == Native("Error", NULL_INPUT, None, [])
    ensures r.Success? ==> r.value == a.value + b.value
  {
    if a.None? || b.None? then Failure(Native("Error", NULL_INPUT, None, []))
    else Success(a.value + b.value)
  }

  /** Swapping the operands changes neither the result nor the error. */
  lemma SumSymmetric(a: Option<int>, b: Option<int>)
    ensures Sum(a, b) == Sum(b, a)
  {
  }
}
