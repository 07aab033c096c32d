/** The exceptions the modelled code can raise, and a result type that
    carries either a value or one of them. */
module Errors {

  datatype Error =
    | AnchorUnpack      // `a1, a2 = anchor` on a string that is not two characters long
    | BadAnchor         // an anchor letter outside l/m/r or t/m/b (raised only by the corrected check)
    | DateOutOfRange    // `date(year, month, 1)` with a year outside 1..9999
    | DateOverflow      // `date + timedelta(days=1)` past 9999-12-31

  datatype Result<+T> = Ok(value: T) | Err(error: Error)

  datatype Option<+T> = None | Some(value: T)
}
