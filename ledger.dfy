/** The purchase record shared by the dashboard, the heat map and the day
    detail view, and the sum of its amounts. */
module Ledger {

  datatype Option<T> = None | Some(value: T)

  /** One purchase. `date` is the stored ISO-8601 text; `amountSpent` is in
      cents; `category` is absent on records that were saved without one. */
  datatype Entry = Entry(
    id: string,
    date: string,
    amountSpent: int,
    grams: int,
    source: string,
    kind: string,
    category: Option<string>,
    notes: string)

  predicate NonNegativeAmounts(s: seq<Entry>) {
    forall i :: 0 <= i < |s| ==> s[i].amountSpent >= 0
  }

  /** `s.reduce((sum, e) => sum + e.amountSpent, 0)`: a left fold. */
  function TotalAmount(s: seq<Entry>): int
  {
    if s == [] then 0 else TotalAmount(s[..|s| - 1]) + s[|s| - 1].amountSpent
  }

  lemma {:induction false} TotalAmountConcat(a: seq<Entry>, b: seq<Entry>)
    ensures TotalAmount(a + b) == TotalAmount(a) + TotalAmount(b)
  {
    if b != [] {
      assert (a + b)[..|a + b| - 1] == a + b[..|b| - 1];
      TotalAmountConcat(a, b[..|b| - 1]);
    } else {
      assert a + b == a;
    }
  }
}
