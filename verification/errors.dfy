/** The closed error taxonomy shared by the construction pipeline and the
    (not modelled) arithmetic operations. Each constructor carries the data the
    corresponding error class is built from; the human-readable message is not
    part of the model. */
module Errors {

  datatype ErrorKind =
    | TypeNotSupported
    | InvalidSize(expectedSize: int, actualSize: int)
    | NegativeUnsigned
    | Overflow(capacity: int, number: int, requiredSize: int)
    | Underflow(capacity: int, number: int, requiredSize: int)
    | InconsistentSize(requiredSize: int, inputSize: int)
    | FloatingPointNotSupported
    | DivisionByZero
    | UnconstructableInteger(words: int, signed: bool, decimal: string)

}
