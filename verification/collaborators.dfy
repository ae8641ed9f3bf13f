/**
 The library calls that parseMetadata delegates to and whose code is not part
 of this model: the typed accessors of the metadata package, net.SplitHostPort,
 the TLS client-configuration loader and the header-key canonicalisation of
 net/http. Each becomes a function-valued field of `Env`, so every property
 proved about the parser holds for every implementation of them.
 */
module Collaborators {
  import opened Wrappers

  /** Go's 64-bit signed integer (the `int` of a 64-bit platform). */
  newtype int64 = x: int | -0x8000_0000_0000_0000 <= x < 0x8000_0000_0000_0000

  /** time.Duration: a count of nanoseconds held in an int64. */
  type Duration = int64

  /** The three results of net.SplitHostPort; `failed` stands for a non-nil error. */
  datatype HostPort = HostPort(host: string, port: string, failed: bool)

  /** The two results of the TLS client-configuration loader: a possibly nil
      configuration `C` and a possibly nil error `E`. */
  datatype Loaded<C, E> = Loaded(config: Option<C>, err: Option<E>)

  /**
   The environment of one parse. `M` is the untyped metadata bag, read only
   through the accessors; each accessor is an arbitrary function of
   (bag, key), and nothing is assumed about how it treats a missing key.
   */
  datatype Env<!M, C, E> = Env(
    getString: (M, string) -> string,
    getBool: (M, string) -> bool,
    getDuration: (M, string) -> Duration,
    getInt: (M, string) -> int64,
    getStringMapString: (M, string) -> map<string, string>,
    splitHostPort: string -> HostPort,
    loadClientConfig: (string, string, string, bool, string) -> Loaded<C, E>,
    canonicalHeaderKey: string -> string
  )
}
