/**
 * Snapshots of the state the computation reads: the parameters of the
 * present computation (Melting.java, `MeltingParams`) and the program-wide
 * flags that steer it (the `i_...` statics).
 */
module Settings {
  import opened Tables

  /** Maximal length of a duplex analysed by the nearest-neighbour approach. */
  const MAX_SIZE_NN: int := 50
  /** Default correction factor for the nucleic acid concentration. */
  const DEFAULT_NUC_CORR: real := 4.0
  /** Default salt correction. */
  const DEFAULT_SALT_CORR: string := "san98a"

  datatype Params = Params(
    sequence: string,          // the probe
    complement: string,        // the (supposed) complement, position by position
    concProbe: real,           // concentration of the strand in excess
    concSalt: real,            // sodium concentration
    gnat: real,                // correction factor for the probe concentration
    nn: Table,                 // regular nearest-neighbour parameters
    mm: Table,                 // mismatch parameters
    de: Table,                 // dangling-end parameters
    sodiumCorrection: string)  // code of the salt correction

  datatype Flags = Flags(
    approx: bool,      // approximative computation requested (sticky)
    threshold: int,    // longest sequence still analysed exactly
    dnadna: bool,      // the hybridisation type
    dnarna: bool,
    rnarna: bool)
}
