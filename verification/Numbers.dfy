/**
  Opaque numbers, shared by the source language and the target. Keeping them opaque means
  that no claim is made about rounding: a Python float and a WebAssembly f32 never meet.
*/
module Numbers {
  type Num(==, !new)

  datatype ArithOp = Add | Sub | Mul | Div

  datatype RelOp = Gt | Ge | Lt | Le | Eq | Ne

  /** The value of a literal, the four operators, the six comparisons. */
  datatype Arith = Arith(
    literal: real -> Num,
    arith: (ArithOp, Num, Num) -> Num,
    compare: (RelOp, Num, Num) -> bool)
}
