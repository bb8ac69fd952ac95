/** Shared vocabulary: optional values, decimal numerals, concatenation. */
module Common {

  datatype Option<+T> = None | Some(value: T)

  function Decimal(n: nat): string {
    if n < 10 then ["0123456789"[n]] else Decimal(n / 10) + ["0123456789"[n % 10]]
  }

  lemma Associate<A>(a: seq<A>, b: seq<A>, c: seq<A>)
    ensures a + (b + c) == a + b + c
  {
  }
}
