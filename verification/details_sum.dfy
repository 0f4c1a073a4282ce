/** The amount check both transaction services run before anything else
    (apps/backend/src/transactions_details/transactions_details.service.ts
    and apps/backend/src/transactions/transactions.service.ts): the sum of
    `quantity * pricePerUnit` over the details, folded from the left, must
    be within 0.01 of the declared amount. Amounts are exact reals here. */
module DetailsSum {

  /** One detail of a creation request. */
  datatype DetailInput = DetailInput(productOrServiceId: int, quantity: real, pricePerUnit: real)

  /** The allowed difference between the declared amount and the sum. */
  const Tolerance: real := 0.01

  /** `details.reduce((sum, item) => sum + item.quantity * item.pricePerUnit, 0)`. */
  function Total(details: seq<DetailInput>): real {
    if details == [] then 0.0
    else Total(details[..|details| - 1]) + details[|details| - 1].quantity * details[|details| - 1].pricePerUnit
  }

  function Abs(x: real): real {
    if x < 0.0 then -x else x
  }

  /** `Math.abs(calculatedAmount - amount) > 0.01`: the request is refused. */
  predicate AmountMismatch(details: seq<DetailInput>, amount: real) {
    Abs(Total(details) - amount) > Tolerance
  }

  /** The fold splits over concatenation: the total of a request is the sum
      of the totals of any split of its details. */
  lemma {:induction false} TotalAppend(a: seq<DetailInput>, b: seq<DetailInput>)
    ensures Total(a + b) == Total(a) + Total(b)
  {
    if b == [] {
      assert a + b == a;
    } else {
      var init := b[..|b| - 1];
      assert (a + b)[..|a + b| - 1] == a + init;
      TotalAppend(a, init);
    }
  }

  /** The check does not depend on the order of the details: moving a block
      of details to the front changes neither the total nor the verdict. */
  lemma MismatchIgnoresOrder(a: seq<DetailInput>, b: seq<DetailInput>, amount: real)
    ensures Total(a + b) == Total(b + a)
    ensures AmountMismatch(a + b, amount) <==> AmountMismatch(b + a, amount)
  {
    TotalAppend(a, b);
    TotalAppend(b, a);
  }

  /** Reconciliation: with amount 100, details 2 × 40 and 1 × 19 (sum 99)
      are refused, and 2 × 40 and 1 × 20 (sum 100) are accepted. */
  lemma ReconciliationExamples()
    ensures AmountMismatch([DetailInput(1, 2.0, 40.0), DetailInput(2, 1.0, 19.0)], 100.0)
    ensures !AmountMismatch([DetailInput(1, 2.0, 40.0), DetailInput(2, 1.0, 20.0)], 100.0)
  {
    var short := [DetailInput(1, 2.0, 40.0), DetailInput(2, 1.0, 19.0)];
    var exact := [DetailInput(1, 2.0, 40.0), DetailInput(2, 1.0, 20.0)];
    assert short[..1] == [short[0]] && [short[0]][..0] == [];
    assert exact[..1] == [exact[0]];
    assert Total(short) == 99.0;
    assert Total(exact) == 100.0;
  }
}
