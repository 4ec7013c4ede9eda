/** The Python exceptions the driver raises (or runs into) on its error paths. */
module Exceptions {
  datatype Exception =
    | ValueError      // an argument outside the accepted set
    | RuntimeError    // the chip did not identify itself
    | OSError         // the chip did not identify itself (the legacy driver's choice)
    | AttributeError  // AnyMeas mode asked for without a data-ready pin
    | TypeError       // an operator applied to a value of the wrong type
    | StructError     // `struct.pack` given a value that does not fit its format
}
