# WebSocket-mux dialer metadata, in Dafny

This project models `parseMetadata` of the WebSocket-multiplexing dialer
(`pkg/dialer/ws/mux/metadata.go`). The function turns an untyped metadata
bag into the typed `metadata` record the dialer reads. It does four things:

- it stores the `path` option, or `"/ws"` when that option is empty;
- it derives the TLS server name from the host part of `serverName`, falling
  back to `"localhost"`, and hands it with `certFile`, `keyFile`, `caFile` and
  `secure` to the TLS client-configuration loader;
- it copies each scalar option (timeouts, buffer sizes, compression flag and
  the `mux*` session parameters) from its own key;
- it builds an `http.Header` from the `header` string map when that map is
  non-empty, and otherwise leaves the receiver's header as it was.

Modules:

- `Wrappers` (`wrappers.dfy`): `Option`, standing for Go's nil.
- `Collaborators` (`collaborators.dfy`): the library calls the parser
  delegates to, as function-valued fields of `Env`. These are the typed
  accessors `GetString`, `GetBool`, `GetDuration`, `GetInt` and
  `GetStringMapString`, plus `net.SplitHostPort`, `tls_util.LoadClientConfig`
  and http header-key canonicalisation. Every property below holds for
  every implementation of them. Go's `int` and `time.Duration` are the
  `int64` newtype.
- `HttpHeader` (`http_header.dfy`): `http.Header` as a map from canonical name
  to a value list, `Header.Add`, and the `for k, v := range m { h.Add(k, v) }`
  loop. Go's map iteration order is unspecified, so the loop takes the
  sequence of (key, value) pairs it visits as an explicit argument. The only
  requirement on that argument is that it yields every entry of the map
  exactly once (`IsEnumeration`). The header contract is stated per
  (key, value) count, so it is the same for every order.
- `Mux` (`mux_metadata.dfy`): the `Metadata` record, the option names, the
  defaults, and `ParseMetadata`. The Go method writes into its receiver's
  `md` field and returns an error. The model returns the record together
  with that error (`Parsed`).

Points of the code's behaviour that a reader of the record might not expect:

- On a TLS loader error the code still assigns every other field and returns
  the error (`metadata.go:76-104`). `ParseMetadata` returns the full record
  plus the loader's error, and `TlsOutcomeOnlyAffectsTls` states that the
  loader's outcome touches nothing but `tlsConfig`.
- The loader is called unconditionally (`metadata.go:76-82`), whatever
  `secure` and the file names say, and its possibly nil result is stored as
  it is.
- `Header.Add` files each key under its canonical form, so two source keys
  with one canonical form share a value list. The model states the header's
  contents per canonical key.
- The header is assigned only inside `if len(m) > 0` (`metadata.go:97-103`).
  With an empty header map the receiver keeps the header it already held;
  `ParseMetadata` takes that header as its `prior` argument.

## Model

| member | source | states |
|---|---|---|
| Mux.ParseMetadata | pkg/dialer/ws/mux/metadata.go:38-105 | the path is never empty; a non-empty supplied path is stored unchanged, and the path is "/ws" exactly when the supplied one is empty or "/ws"; host is copied verbatim; each scalar field equals its accessor's result for its own option name; tlsConfig and the returned error are exactly the loader's two results; with an empty header map the receiver's header is kept, otherwise it is replaced by a header holding one value per map entry; the header is nil exactly when the map is empty and the receiver held none |
| Mux.ResolvePath | pkg/dialer/ws/mux/metadata.go:65-68 | the stored path is never empty; a non-empty supplied path is kept unchanged; the result is "/ws" exactly when the supplied path is empty or already "/ws" |
| Mux.ServerName | pkg/dialer/ws/mux/metadata.go:72-75 | the server name is never empty; it equals the host part of the split whenever that part is non-empty; anything other than "localhost" is the host part; the split's error flag is never consulted |
| Mux.TlsRequestOf | pkg/dialer/ws/mux/metadata.go:72-82 | the loader receives certFile, keyFile, caFile and secure exactly as the accessors return them, and a non-empty server name: the host part of serverName, or "localhost" when that is empty |
| HttpHeader.BuildHoldsEachEntry | pkg/dialer/ws/mux/metadata.go:97-103 | every entry of the header option appears as a value under the canonical form of its key, and every header key is the canonical form of some source key |
| Mux.ParseIndependentOfOrder | pkg/dialer/ws/mux/metadata.go:97-103 | two runs of the range loop in different orders give the same error, the same scalar fields and TLS config, the same header keys, and the same values per key up to order |
| Mux.TlsOutcomeOnlyAffectsTls | pkg/dialer/ws/mux/metadata.go:76-104 | replacing the TLS loader, for example by one that fails, changes nothing in the record except tlsConfig: execution continues past the loader call |
| Mux.ParseReadsOnlyItsOptions | pkg/dialer/ws/mux/metadata.go:39-103 | the record and error depend only on the nineteen declared option names read with their declared accessor |
| Mux.EmptyBagGivesDefaults | pkg/dialer/ws/mux/metadata.go:14-103 | a bag in which every accessor finds nothing gives path "/ws", empty host, zero scalars, the receiver's header unchanged, and a TLS request with empty file names, secure off and server name "localhost" |
| HttpHeader.Add | pkg/dialer/ws/mux/metadata.go:100 | Header.Add appends the value to the list of the key's canonical form, creates that key if absent, and leaves every other key's values unchanged |
| HttpHeader.TotalValuesAdd | pkg/dialer/ws/mux/metadata.go:100 | each Add increases the total number of header values by exactly one |
| HttpHeader.Build | pkg/dialer/ws/mux/metadata.go:97-103 | no header exactly when the map is empty; otherwise the header keys are exactly the canonical forms of the map's keys, each value occurs under a key once per map entry with that canonical key and that value, and the total number of values equals the number of map entries |
| HttpHeader.AddAllValues | pkg/dialer/ws/mux/metadata.go:99-101 | the copy loop appends under each canonical key exactly the values of the visited entries with that canonical key, in visiting order |
| HttpHeader.AddAllKeys | pkg/dialer/ws/mux/metadata.go:99-101 | the copy loop adds exactly the canonical forms of the visited keys to the header's key set |
| HttpHeader.AddAllTotal | pkg/dialer/ws/mux/metadata.go:99-101 | the copy loop adds one value per visited entry |
| HttpHeader.MatchingCount | pkg/dialer/ws/mux/metadata.go:99-101 | when no entry is visited twice, a value's multiplicity under a key equals the number of visited entries with that canonical key and value |
| HttpHeader.EnumerationExists | pkg/dialer/ws/mux/metadata.go:99 | every map has a run of the range loop that visits each entry exactly once, so the parser's requirement on the visiting order excludes no header map |
| HttpHeader.EnumerationLength | pkg/dialer/ws/mux/metadata.go:97-99 | a run of the range loop visits exactly len(m) entries |
| HttpHeader.BuildKeys | pkg/dialer/ws/mux/metadata.go:97-103 | starting from an empty header, the keys created are exactly the canonical forms of the source map's keys |
| HttpHeader.BuildCount | pkg/dialer/ws/mux/metadata.go:97-103 | starting from an empty header, each value's multiplicity under each key is the number of source entries with that canonical key and that value, whatever the visiting order |
| HttpHeader.BuildTotal | pkg/dialer/ws/mux/metadata.go:97-103 | starting from an empty header, the copy loop leaves exactly len(m) values |
| HttpHeader.BuildPair | pkg/dialer/ws/mux/metadata.go:97-103 | a two-entry map with distinct, already-canonical keys gives a single-value list under each key, in either visiting order |
| HttpHeader.BuildTwoEntries | pkg/dialer/ws/mux/metadata.go:97-103 | the two-entry header {"X-Foo": "bar", "X-Baz": "qux"}, keys already canonical, gives exactly one value under each of its keys |

## Left out

- Internals of `tls_util.LoadClientConfig`: reading the certificate, key and CA files, the crypto, and peer-verification settings. The loader is a parameter of `Env` returning a possibly nil configuration and a possibly nil error.
- The coercion rules of `GetString`, `GetBool`, `GetDuration`, `GetInt` and `GetStringMapString`. That library is not part of this model, so each accessor is an arbitrary function of (bag, key).
- The parsing done by `net.SplitHostPort`, such as bracketed IPv6 and a missing port. Only its host component is used, and the model holds for any splitter.
- `http.CanonicalMIMEHeaderKey`: canonicalisation is an arbitrary `string -> string` function.
- Go's map iteration order: it is an argument of the parser, constrained only to visit each entry once.
- The `mwsDialer` receiver: the record is returned rather than written into `d.md`. Only its header is read, as the `prior` argument, because it is the only field the parser may leave untouched.
- `time.Duration` is only its int64 nanosecond count, and Go's `int` is taken to be 64 bits wide. No field is computed, so no wrap-around can arise.
- The dialer, the WebSocket handshake and the mux session that consume the record. These are network and concurrency code.
