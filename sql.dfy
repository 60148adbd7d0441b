/** Parameterised SQL statements as the query modules build them for sqlx. */
module Sql {
  import opened Text

  /** Rust's `i32`. */
  type I32 = x: int | -0x8000_0000 <= x < 0x8000_0000

  /** `x as i32` from a wider integer: keep the low 32 bits and read them as two's complement.
      Written as repeated steps of 2^32 towards the `i32` range. */
  function AsI32(x: int): (r: I32)
    ensures -0x8000_0000 <= x < 0x8000_0000 ==> r == x
    decreases if x >= 0 then x + 1 else -x
  {
    if x >= 0x8000_0000 then AsI32(x - 0x1_0000_0000)
    else if x < -0x8000_0000 then AsI32(x + 0x1_0000_0000)
    else x
  }

  /** The narrowed value differs from the original by a multiple of 2^32: it is the low 32 bits
      read as two's complement. */
  lemma {:induction false} AsI32Wraps(x: int)
    ensures (x - AsI32(x)) % 0x1_0000_0000 == 0
    decreases if x >= 0 then x + 1 else -x
  {
    if x >= 0x8000_0000 {
      AsI32Wraps(x - 0x1_0000_0000);
    } else if x < -0x8000_0000 {
      AsI32Wraps(x + 0x1_0000_0000);
    }
  }

  /** A value bound to a `?` placeholder. */
  datatype Param = Text(text: string) | Int(number: I32)

  /** Query text and the values bound to it, in binding order. */
  datatype Statement = Statement(text: string, params: seq<Param>)

  /** Binding a list of text values one after another, as the builders' `for param in params` loop does. */
  function Bind(values: seq<string>): (r: seq<Param>)
    ensures |r| == |values|
    ensures forall k :: 0 <= k < |values| ==> r[k] == Text(values[k])
  {
    if values == [] then [] else Bind(values[..|values| - 1]) + [Text(values[|values| - 1])]
  }

  /** The `for param in params { query = query.bind(param) }` loop shared by the update builders. */
  method BindAll(params: seq<string>) returns (bound: seq<Param>)
    ensures bound == Bind(params)
  {
    bound := [];
    for i := 0 to |params|
      invariant bound == Bind(params[..i])
    {
      assert params[..i + 1][..i] == params[..i];
      bound := bound + [Text(params[i])];
    }
    assert params[..|params|] == params;
  }

  /** The number of `?` placeholders in a query text. */
  function Placeholders(text: string): nat {
    CountChar(text, '?')
  }

  /** Every placeholder receives exactly one bound value. */
  predicate Aligned(stmt: Statement) {
    Placeholders(stmt.text) == |stmt.params|
  }
}
