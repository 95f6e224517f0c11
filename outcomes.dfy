/** Error outcomes of the benchmark's core: the places where the Rust version panics,
    the C++ version has undefined behaviour, or a collective call is erroneous. */
module Outcomes {

  datatype Fault =
    | SliceOutOfRange(start: nat, end: nat)  // a slice `edges[start..end]` with start > end
    | EmptyRange                             // sampling from the empty range `0..0`
    | CountMismatch                          // ranks pass different counts to one collective

  datatype Result<T> = Ok(value: T) | Err(fault: Fault)
}
