/** The error codes that the modelled functions report. */
module Errors {
  datatype Error =
    | NoError | Fail | NoMem | InvalidArg | InvalidState | InvalidSize | NotFound
    | NotSupported | Timeout | InvalidResponse | InvalidCrc
}
