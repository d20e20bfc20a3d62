/**
 * The revenue-to-cash-flow multiplier of a listing (`calculate_multiplier`).
 */
module Metrics {
  import opened Wrappers

  /** Python truthiness of an optional integer: present and not zero. */
  predicate Truthy(x: Option<int>) {
    x.Some? && x.value != 0
  }

  /**
   * `revenue / sde` when revenue is truthy, `sde` is truthy and `sde > 0`;
   * `None` otherwise. The quotient is kept exact: the result times `sde` is
   * the revenue, and it is positive exactly when the revenue is.
   */
  function Multiplier(revenue: Option<int>, sde: Option<int>): (r: Option<real>)
    ensures r.Some? <==> revenue.Some? && revenue.value != 0 && sde.Some? && sde.value > 0
    ensures r.Some? ==> r.value * (sde.value as real) == revenue.value as real
    ensures r.Some? ==> (r.value > 0.0 <==> revenue.value > 0)
  {
    if Truthy(revenue) && Truthy(sde) && sde.value > 0 then
      Some(Quotient(revenue.value, sde.value))
    else
      None
  }

  /** The exact quotient of two integers, the divisor being positive. */
  function Quotient(a: int, b: int): (q: real)
    requires b > 0
    ensures q * (b as real) == a as real
    ensures q > 0.0 <==> a > 0
  {
    a as real / b as real
  }
}
