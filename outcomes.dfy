/** Optional values, results and the exceptions the modelled Python code raises. */
module Outcomes {

  datatype Option<+T> = None | Some(value: T)

  /** The Python exception a failed call ends with. */
  datatype Error =
    | KeyError(key: string)                  // a dictionary or index lookup with a missing key
    | ValueError(reason: string)             // a parse failure or an explicit `raise ValueError`
    | InvalidWindow                          // the requested start date is after the end date
    | ResolutionError(name: string, matches: nat)   // a geometry name that does not match exactly once
    | UnboundLocal(name: string)             // a local variable read before any branch assigned it
    | IndexError                             // `xs[0]` on an empty list or index
    | AttributeError(name: string)           // an unknown aggregation name or a wrong object type
    | SpecificationError(name: string)       // an aggregation function named twice
    | UnsupportedMode                        // a combination the model does not follow pandas into
    | UndefinedTable(table: string)          // the database has no table of that name

  datatype Result<+T> = Ok(value: T) | Err(error: Error)
}
