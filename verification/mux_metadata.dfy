/**
 The configuration record of the WebSocket-multiplexing dialer and the
 parser that fills it from an untyped metadata bag
 (pkg/dialer/ws/mux/metadata.go).
 */
module Mux {
  import opened Wrappers
  import opened Collaborators
  import opened HttpHeader

  /** Used when the bag supplies no path. */
  const DefaultPath: string := "/ws"

  /** Used when the host part of `serverName` is empty. */
  const DefaultServerName: string := "localhost"

  // The option names read from the bag; exact-match keys.
  const PathKey: string := "path"
  const HostKey: string := "host"
  const CertFileKey: string := "certFile"
  const KeyFileKey: string := "keyFile"
  const CaFileKey: string := "caFile"
  const SecureKey: string := "secure"
  const ServerNameKey: string := "serverName"
  const HandshakeTimeoutKey: string := "handshakeTimeout"
  const ReadHeaderTimeoutKey: string := "readHeaderTimeout"
  const ReadBufferSizeKey: string := "readBufferSize"
  const WriteBufferSizeKey: string := "writeBufferSize"
  const EnableCompressionKey: string := "enableCompression"
  const HeaderKey: string := "header"
  const MuxKeepAliveDisabledKey: string := "muxKeepAliveDisabled"
  const MuxKeepAliveIntervalKey: string := "muxKeepAliveInterval"
  const MuxKeepAliveTimeoutKey: string := "muxKeepAliveTimeout"
  const MuxMaxFrameSizeKey: string := "muxMaxFrameSize"
  const MuxMaxReceiveBufferKey: string := "muxMaxReceiveBuffer"
  const MuxMaxStreamBufferKey: string := "muxMaxStreamBuffer"

  /** The typed configuration the dialer reads; `C` is the TLS configuration type. */
  datatype Metadata<C> = Metadata(
    path: string,
    host: string,
    tlsConfig: Option<C>,
    handshakeTimeout: Duration,
    readHeaderTimeout: Duration,
    readBufferSize: int64,
    writeBufferSize: int64,
    enableCompression: bool,
    muxKeepAliveDisabled: bool,
    muxKeepAliveInterval: Duration,
    muxKeepAliveTimeout: Duration,
    muxMaxFrameSize: int64,
    muxMaxReceiveBuffer: int64,
    muxMaxStreamBuffer: int64,
    header: Option<Header>
  )

  /** The record a parse leaves behind, and the error it returns. */
  datatype Parsed<C, E> = Parsed(md: Metadata<C>, err: Option<E>)

  /** The five arguments handed to the TLS client-configuration loader. */
  datatype TlsRequest = TlsRequest(certFile: string, keyFile: string, caFile: string, secure: bool, serverName: string)

  /** The stored path: the supplied one, or the default when none is supplied. */
  function ResolvePath(supplied: string): (p: string)
    ensures p != ""
    ensures supplied != "" ==> p == supplied
    ensures p == DefaultPath <==> supplied in {"", DefaultPath}
  {
    if supplied == "" then DefaultPath else supplied
  }

  /** The TLS server name: the host part of `serverName`, or "localhost" when
      that part is empty. Whether the split failed is not looked at. */
  function ServerName(split: HostPort): (sn: string)
    ensures sn != ""
    ensures split.host != "" ==> sn == split.host
    ensures sn != DefaultServerName ==> sn == split.host
  {
    if split.host == "" then DefaultServerName else split.host
  }

  /** The arguments of the TLS loader call, each read from its own option. */
  function TlsRequestOf<M, C, E>(env: Env<M, C, E>, bag: M): (q: TlsRequest)
    ensures q.serverName != ""
    ensures q.certFile == env.getString(bag, "certFile")
    ensures q.keyFile == env.getString(bag, "keyFile")
    ensures q.caFile == env.getString(bag, "caFile")
    ensures q.secure == env.getBool(bag, "secure")
    ensures var host := env.splitHostPort(env.getString(bag, "serverName")).host;
      q.serverName == if host == "" then "localhost" else host
  {
    TlsRequest(
      env.getString(bag, CertFileKey),
      env.getString(bag, KeyFileKey),
      env.getString(bag, CaFileKey),
      env.getBool(bag, SecureKey),
      ServerName(env.splitHostPort(env.getString(bag, ServerNameKey))))
  }

  /** The TLS loader applied to a request. */
  function Load<M, C, E>(env: Env<M, C, E>, q: TlsRequest): Loaded<C, E>
  {
    env.loadClientConfig(q.certFile, q.keyFile, q.caFile, q.secure, q.serverName)
  }

  /**
   (*mwsDialer).parseMetadata. `entries` is the sequence of (key, value)
   pairs Go's `range` yields over the header map, and `prior` is the header
   the receiver holds on entry. Every field but the header is assigned
   whatever the TLS loader returns; the header is replaced only when the
   header map is non-empty; the loader's error is the parser's result.
   */
  function ParseMetadata<M, C, E>(env: Env<M, C, E>, bag: M, prior: Option<Header>, entries: seq<(string, string)>): (r: Parsed<C, E>)
    requires IsEnumeration(entries, env.getStringMapString(bag, "header"))
    ensures r.md.path != ""
    ensures env.getString(bag, "path") != "" ==> r.md.path == env.getString(bag, "path")
    ensures r.md.path == "/ws" <==> env.getString(bag, "path") in {"", "/ws"}
    ensures r.md.host == env.getString(bag, "host")
    ensures r.md.tlsConfig == Load(env, TlsRequestOf(env, bag)).config
    ensures r.err == Load(env, TlsRequestOf(env, bag)).err
    ensures r.md.muxKeepAliveDisabled == env.getBool(bag, "muxKeepAliveDisabled")
    ensures r.md.muxKeepAliveInterval == env.getDuration(bag, "muxKeepAliveInterval")
    ensures r.md.muxKeepAliveTimeout == env.getDuration(bag, "muxKeepAliveTimeout")
    ensures r.md.muxMaxFrameSize == env.getInt(bag, "muxMaxFrameSize")
    ensures r.md.muxMaxReceiveBuffer == env.getInt(bag, "muxMaxReceiveBuffer")
    ensures r.md.muxMaxStreamBuffer == env.getInt(bag, "muxMaxStreamBuffer")
    ensures r.md.handshakeTimeout == env.getDuration(bag, "handshakeTimeout")
    ensures r.md.readHeaderTimeout == env.getDuration(bag, "readHeaderTimeout")
    ensures r.md.readBufferSize == env.getInt(bag, "readBufferSize")
    ensures r.md.writeBufferSize == env.getInt(bag, "writeBufferSize")
    ensures r.md.enableCompression == env.getBool(bag, "enableCompression")
    ensures |env.getStringMapString(bag, "header")| == 0 ==> r.md.header == prior
    ensures |env.getStringMapString(bag, "header")| > 0 ==>
      r.md.header == Build(env.canonicalHeaderKey, env.getStringMapString(bag, "header"), entries)
    ensures r.md.header.None? <==> prior.None? && |env.getStringMapString(bag, "header")| == 0
    ensures |env.getStringMapString(bag, "header")| > 0 ==>
      r.md.header.Some? && TotalValues(r.md.header.value) == |env.getStringMapString(bag, "header")|
  {
    var loaded := Load(env, TlsRequestOf(env, bag));
    var built := Build(env.canonicalHeaderKey, env.getStringMapString(bag, HeaderKey), entries);
    var md := Metadata(
      path := ResolvePath(env.getString(bag, PathKey)),
      host := env.getString(bag, HostKey),
      tlsConfig := loaded.config,
      handshakeTimeout := env.getDuration(bag, HandshakeTimeoutKey),
      readHeaderTimeout := env.getDuration(bag, ReadHeaderTimeoutKey),
      readBufferSize := env.getInt(bag, ReadBufferSizeKey),
      writeBufferSize := env.getInt(bag, WriteBufferSizeKey),
      enableCompression := env.getBool(bag, EnableCompressionKey),
      muxKeepAliveDisabled := env.getBool(bag, MuxKeepAliveDisabledKey),
      muxKeepAliveInterval := env.getDuration(bag, MuxKeepAliveIntervalKey),
      muxKeepAliveTimeout := env.getDuration(bag, MuxKeepAliveTimeoutKey),
      muxMaxFrameSize := env.getInt(bag, MuxMaxFrameSizeKey),
      muxMaxReceiveBuffer := env.getInt(bag, MuxMaxReceiveBufferKey),
      muxMaxStreamBuffer := env.getInt(bag, MuxMaxStreamBufferKey),
      header := if built.None? then prior else built);
    Parsed(md, loaded.err)
  }

  /** The record does not depend on the order in which the header map is
      visited: two runs give the same record up to the order of the values
      stored under each header key. */
  lemma ParseIndependentOfOrder<M, C, E>(env: Env<M, C, E>, bag: M, prior: Option<Header>, entries1: seq<(string, string)>, entries2: seq<(string, string)>)
    requires IsEnumeration(entries1, env.getStringMapString(bag, "header"))
    requires IsEnumeration(entries2, env.getStringMapString(bag, "header"))
    ensures var r1 := ParseMetadata(env, bag, prior, entries1);
      var r2 := ParseMetadata(env, bag, prior, entries2);
      && r1.err == r2.err
      && r1.md.(header := None) == r2.md.(header := None)
      && r1.md.header.Some? == r2.md.header.Some?
      && (r1.md.header.Some? ==>
            && r1.md.header.value.Keys == r2.md.header.value.Keys
            && forall key :: multiset(Values(r1.md.header.value, key)) == multiset(Values(r2.md.header.value, key)))
  {
  }

  /** A failing TLS loader does not stop the parse: two loaders that differ
      give records that differ at most in the TLS configuration. */
  lemma TlsOutcomeOnlyAffectsTls<M, C, E>(env: Env<M, C, E>, loader: (string, string, string, bool, string) -> Loaded<C, E>, bag: M, prior: Option<Header>, entries: seq<(string, string)>)
    requires IsEnumeration(entries, env.getStringMapString(bag, "header"))
    ensures var r1 := ParseMetadata(env, bag, prior, entries);
      var r2 := ParseMetadata(env.(loadClientConfig := loader), bag, prior, entries);
      r1.md.(tlsConfig := None) == r2.md.(tlsConfig := None)
  {
  }

  /** The parse reads nothing but its declared options: two bags on which the
      accessors agree for those options give the same record. */
  lemma ParseReadsOnlyItsOptions<M, C, E>(env: Env<M, C, E>, bag1: M, bag2: M, prior: Option<Header>, entries: seq<(string, string)>)
    requires IsEnumeration(entries, env.getStringMapString(bag1, "header"))
    requires forall key :: key in {"path", "host", "certFile", "keyFile", "caFile", "serverName"} ==>
      env.getString(bag1, key) == env.getString(bag2, key)
    requires forall key :: key in {"secure", "enableCompression", "muxKeepAliveDisabled"} ==>
      env.getBool(bag1, key) == env.getBool(bag2, key)
    requires forall key :: key in {"handshakeTimeout", "readHeaderTimeout", "muxKeepAliveInterval", "muxKeepAliveTimeout"} ==>
      env.getDuration(bag1, key) == env.getDuration(bag2, key)
    requires forall key :: key in {"readBufferSize", "writeBufferSize", "muxMaxFrameSize", "muxMaxReceiveBuffer", "muxMaxStreamBuffer"} ==>
      env.getInt(bag1, key) == env.getInt(bag2, key)
    requires env.getStringMapString(bag1, "header") == env.getStringMapString(bag2, "header")
    ensures ParseMetadata(env, bag1, prior, entries) == ParseMetadata(env, bag2, prior, entries)
  {
  }

  /** A bag in which every accessor finds nothing yields the all-defaults
      record: path "/ws", the receiver's header kept, zero scalars, and a TLS request for
      "localhost" with empty file names and verification off. */
  lemma EmptyBagGivesDefaults<M, C, E>(env: Env<M, C, E>, bag: M, prior: Option<Header>)
    requires forall key :: env.getString(bag, key) == ""
    requires forall key :: !env.getBool(bag, key)
    requires forall key :: env.getDuration(bag, key) == 0
    requires forall key :: env.getInt(bag, key) == 0
    requires forall key :: env.getStringMapString(bag, key) == map[]
    requires env.splitHostPort("").host == ""
    ensures var r := ParseMetadata(env, bag, prior, []);
      && r.md == Metadata("/ws", "", Load(env, TlsRequest("", "", "", false, "localhost")).config,
                          0, 0, 0, 0, false, false, 0, 0, 0, 0, 0, prior)
      && r.err == Load(env, TlsRequest("", "", "", false, "localhost")).err
  {
  }
}
