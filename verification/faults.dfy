/** The Python exceptions that can end an operation of the trading core early. */
module Faults {

  datatype Fault =
    /** TypeError or AttributeError: arithmetic on, or an attribute of, `None`. */
    | NoneOperand
    /** ZeroDivisionError from a float division. */
    | DivisionByZero
    /** IndexError raised by `random.choice` on an empty list. */
    | EmptyChoice
    /** `sys.exit`: the configured initial coin is not a supported coin. */
    | ExitUnsupportedCoin
}
