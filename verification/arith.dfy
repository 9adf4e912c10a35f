/**
  The numbers the calculator computes with.  Its values are JavaScript
  numbers (IEEE 754 doubles); here they are exact reals with one extra value
  `NonFinite` standing for every infinity and NaN, which then absorbs every
  later operation.  Exact reals never leave the finite range, so only a
  division by zero reaches `NonFinite` here, where a double also reaches an
  infinity by overflow (a literal of 309 or more digits, a sum or product
  beyond about 1.8e308) and is rounded along the way.

  The grammar does not depend on what the operations compute, so the parser
  takes them as a parameter `Ops`, and everything proved about parsing holds
  for every choice of them; `Js` is the playground's choice.
*/
module Arith {

  datatype Num = Finite(r: real) | NonFinite

  function Add(a: Num, b: Num): (c: Num)
    ensures c.Finite? <==> a.Finite? && b.Finite?
  {
    if a.Finite? && b.Finite? then Finite(a.r + b.r) else NonFinite
  }

  function Sub(a: Num, b: Num): (c: Num)
    ensures c.Finite? <==> a.Finite? && b.Finite?
  {
    if a.Finite? && b.Finite? then Finite(a.r - b.r) else NonFinite
  }

  function Mul(a: Num, b: Num): (c: Num)
    ensures c.Finite? <==> a.Finite? && b.Finite?
  {
    if a.Finite? && b.Finite? then Finite(a.r * b.r) else NonFinite
  }

  /** Division; dividing by zero leaves the finite numbers. */
  function Divide(a: Num, b: Num): (c: Num)
    ensures c.Finite? <==> a.Finite? && b.Finite? && b.r != 0.0
  {
    if a.Finite? && b.Finite? && b.r != 0.0 then Finite(a.r / b.r) else NonFinite
  }

  /** What `+`, `-`, `*` and `/` compute. */
  datatype Ops = Ops(add: (Num, Num) -> Num, sub: (Num, Num) -> Num,
                     mul: (Num, Num) -> Num, div: (Num, Num) -> Num)

  /** The operators of the embedded actions. */
  const Js: Ops := Ops(Add, Sub, Mul, Divide)
}
