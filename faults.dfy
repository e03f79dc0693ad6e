/**
 * The ways a computation of the melting program stops abnormally.  The Java
 * code either throws (a RuntimeException from `die`, or an exception raised
 * by a String method) or terminates the process with `System.exit`; both end
 * the computation, so both are a `Fault`.
 */
module Faults {

  datatype Fault =
    /** NullPointerException: a table slot whose code was never filled. */
    | NullPointer
    /** StringIndexOutOfBoundsException from charAt or substring. */
    | IndexOutOfBounds
    /** die("NN parameters for XX/YY not found."): no usable table entry. */
    | ParametersNotFound
    /** die("Bad index name ..."): no initiation entry in the table. */
    | BadIndexName
    /** System.exit(1) in make_complement: a base it cannot complement. */
    | IllegalBase
    /** System.exit(1) in get_results: the sequence has length zero. */
    | EmptySequence
    /** System.exit(-1) in tm_approx: the duplex has size zero. */
    | EmptyDuplex
    /** System.exit(-1): a mismatch on an extreme position of the duplex. */
    | ExtremeMismatch
    /** System.exit(-1) in tm_approx: no hybridisation type is set. */
    | NoHybridisationType
    /** System.exit(-1) in tm_exact: the nak99a salt correction. */
    | NotImplemented
}
