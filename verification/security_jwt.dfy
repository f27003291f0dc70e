/** The application's own logic around JWT decoding and encoding.

    The MAC computation, the JWT parser and the library decoder are not
    modelled: the library decoder is abstracted as the `DecodeOutcome` it
    produces for a token. What is modelled is the wrapper the application
    puts around it (which failure increments which security meter), the
    mapping from the authorities claim to granted authorities, and the
    construction of the one secret key that encoder and decoder share. */
module SecurityJwt {
  import opened Wrappers
  import opened StringSearch

  // ---------------------------------------------------------------------
  // Failure classification
  // ---------------------------------------------------------------------

  /** Message fragments the wrapper looks for in a decoding failure. */
  const ExpiredMarker: string := "Jwt expired at"
  const InvalidSignatureMarker: string := "Failed to validate the token"
  const MalformedMarker: string := "An error occurred while attempting to decode the Jwt"

  /** Where a decoding failure is observed: `Emitted` by the returned
      reactive value (seen by its error hook), or `Thrown` while the decoder
      was still building that value (seen by the catch block). */
  datatype ErrorPath = Emitted | Thrown

  /** The security meters the wrapper can increment. */
  datatype Metric = TokenExpired | TokenInvalidSignature | TokenMalformed

  /** The meters sink: one counter per metric. */
  datatype Meters = Meters(expired: nat, invalidSignature: nat, malformed: nat)

  /** The failure the decoder reports; the wrapper passes it on as it is. */
  datatype DecodeError = DecodeError(message: string)

  /** The marker that takes priority on each path: expiry for an emitted
      failure, a parse failure for a thrown one. */
  function PrimaryMarker(path: ErrorPath): (marker: string) {
    match path
    case Emitted => ExpiredMarker
    case Thrown => MalformedMarker
  }

  /** The metric a failure message increments on a given path, if any. Each
      path is an else-if chain: the path's primary marker first, then the
      invalid-signature marker; a message matching neither increments
      nothing. */
  function Classify(path: ErrorPath, message: string): (m: Option<Metric>)
    ensures m == Some(TokenExpired) <==> path == Emitted && Occurs(ExpiredMarker, message)
    ensures m == Some(TokenMalformed) <==> path == Thrown && Occurs(MalformedMarker, message)
    ensures m == Some(TokenInvalidSignature) <==>
      Occurs(InvalidSignatureMarker, message) && !Occurs(PrimaryMarker(path), message)
    ensures m.None? <==>
      !Occurs(PrimaryMarker(path), message) && !Occurs(InvalidSignatureMarker, message)
  {
    match path
    case Emitted =>
      if Contains(message, ExpiredMarker) then Some(TokenExpired)
      else if Contains(message, InvalidSignatureMarker) then Some(TokenInvalidSignature)
      else None
    case Thrown =>
      if Contains(message, MalformedMarker) then Some(TokenMalformed)
      else if Contains(message, InvalidSignatureMarker) then Some(TokenInvalidSignature)
      else None
  }

  /** Increments the counter of `metric`, if there is one. */
  function Track(meters: Meters, metric: Option<Metric>): (r: Meters)
    ensures metric.None? ==> r == meters
    ensures r.expired == meters.expired + (if metric == Some(TokenExpired) then 1 else 0)
    ensures r.invalidSignature == meters.invalidSignature + (if metric == Some(TokenInvalidSignature) then 1 else 0)
    ensures r.malformed == meters.malformed + (if metric == Some(TokenMalformed) then 1 else 0)
  {
    match metric
    case None => meters
    case Some(TokenExpired) => meters.(expired := meters.expired + 1)
    case Some(TokenInvalidSignature) => meters.(invalidSignature := meters.invalidSignature + 1)
    case Some(TokenMalformed) => meters.(malformed := meters.malformed + 1)
  }

  /** The sum of all counters. */
  function Total(meters: Meters): (n: nat) {
    meters.expired + meters.invalidSignature + meters.malformed
  }

  /** A decoded token: its subject and its claims. Only claims whose value
      is a collection of strings are modelled. */
  datatype Jwt = Jwt(subject: string, claims: map<string, seq<string>>)

  /** What the library decoder does with one token: yields the decoded
      token, returns a reactive value that fails, or throws before returning
      one. */
  datatype DecodeOutcome =
    | Decoded(jwt: Jwt)
    | Emits(failure: DecodeError)
    | Throws(failure: DecodeError)
  {
    /** Where the failure, if any, is observed. */
    function Path(): (p: ErrorPath)
      requires !Decoded?
    {
      if Emits? then Emitted else Thrown
    }
  }

  /** What the wrapped decoder leaves behind: the decoding result seen by its
      caller and the meters afterwards. */
  datatype Observed = Observed(result: Result<Jwt, DecodeError>, meters: Meters)

  /** The application's decoder: delegates to the library decoder, counts a
      failure on the path where it is observed, and passes every failure on
      unchanged. */
  function Decode(outcome: DecodeOutcome, meters: Meters): (r: Observed)
    ensures outcome.Decoded? <==> r.result.Success?
    ensures outcome.Decoded? ==> r.result.value == outcome.jwt && r.meters == meters
    ensures !outcome.Decoded? ==> r.result.error == outcome.failure
    ensures Total(meters) <= Total(r.meters) <= Total(meters) + 1
  {
    match outcome
    case Decoded(jwt) => Observed(Success(jwt), meters)
    case Emits(e) => Observed(Failure(e), Track(meters, Classify(Emitted, e.message)))
    case Throws(e) => Observed(Failure(e), Track(meters, Classify(Thrown, e.message)))
  }

  /** An emitted failure mentioning expiry increments exactly the expired
      counter, even when it also mentions a failed validation. */
  lemma EmittedExpiredCounted(meters: Meters, e: DecodeError)
    requires Occurs(ExpiredMarker, e.message)
    ensures Decode(Emits(e), meters).meters == meters.(expired := meters.expired + 1)
  {
  }

  /** An emitted failed validation that does not mention expiry increments
      exactly the invalid-signature counter. */
  lemma EmittedInvalidSignatureCounted(meters: Meters, e: DecodeError)
    requires Occurs(InvalidSignatureMarker, e.message)
    requires !Occurs(ExpiredMarker, e.message)
    ensures Decode(Emits(e), meters).meters == meters.(invalidSignature := meters.invalidSignature + 1)
  {
  }

  /** A thrown parse failure increments exactly the malformed counter, even
      when it also mentions a failed validation. */
  lemma ThrownMalformedCounted(meters: Meters, e: DecodeError)
    requires Occurs(MalformedMarker, e.message)
    ensures Decode(Throws(e), meters).meters == meters.(malformed := meters.malformed + 1)
  {
  }

  /** A thrown failed validation that is not a parse failure increments
      exactly the invalid-signature counter. */
  lemma ThrownInvalidSignatureCounted(meters: Meters, e: DecodeError)
    requires Occurs(InvalidSignatureMarker, e.message)
    requires !Occurs(MalformedMarker, e.message)
    ensures Decode(Throws(e), meters).meters == meters.(invalidSignature := meters.invalidSignature + 1)
  {
  }

  /** Each observed failure increments at most one counter, and never
      decrements any. */
  lemma AtMostOneCounter(outcome: DecodeOutcome, meters: Meters)
    ensures var after := Decode(outcome, meters).meters;
      && meters.expired <= after.expired
      && meters.invalidSignature <= after.invalidSignature
      && meters.malformed <= after.malformed
      && Total(after) <= Total(meters) + 1
  {
  }

  /** Malformed is never counted for an emitted failure, and expired never
      for a thrown one. */
  lemma PathsCountDisjointMetrics(outcome: DecodeOutcome, meters: Meters)
    ensures outcome.Emits? ==> Decode(outcome, meters).meters.malformed == meters.malformed
    ensures outcome.Throws? ==> Decode(outcome, meters).meters.expired == meters.expired
  {
  }

  /** A failure whose message matches no marker of its path changes no
      counter, and is still passed on unchanged. */
  lemma UnmatchedFailureNotCounted(outcome: DecodeOutcome, meters: Meters)
    requires !outcome.Decoded?
    requires !Occurs(PrimaryMarker(outcome.Path()), outcome.failure.message)
    requires !Occurs(InvalidSignatureMarker, outcome.failure.message)
    ensures Decode(outcome, meters) == Observed(Failure(outcome.failure), meters)
  {
  }

  // ---------------------------------------------------------------------
  // Granted authorities
  // ---------------------------------------------------------------------

  /** How the authorities converter is set up: the prefix put before every
      authority name, and the claim the names are read from. */
  datatype AuthoritiesConverter = AuthoritiesConverter(prefix: string, claimName: string)

  /** The converter the application configures: an empty prefix and the
      application's authorities claim. */
  function ConfiguredConverter(authoritiesKey: string): (c: AuthoritiesConverter)
    ensures c.prefix == ""
    ensures c.claimName == authoritiesKey
  {
    AuthoritiesConverter("", authoritiesKey)
  }

  /** The granted authorities of a token: the prefix followed by each string
      of the authorities claim, in order; none when the claim is absent. */
  function GrantedAuthorities(converter: AuthoritiesConverter, jwt: Jwt): (r: seq<string>)
    ensures converter.claimName !in jwt.claims ==> r == []
    ensures converter.claimName in jwt.claims ==>
      && |r| == |jwt.claims[converter.claimName]|
      && forall i :: 0 <= i < |r| ==> r[i] == converter.prefix + jwt.claims[converter.claimName][i]
  {
    if converter.claimName in jwt.claims then
      var names := jwt.claims[converter.claimName];
      seq(|names|, i requires 0 <= i < |names| => converter.prefix + names[i])
    else
      []
  }

  /** The authenticated principal a decoded token becomes. */
  datatype Principal = Principal(name: string, authorities: seq<string>)

  function Authenticate(converter: AuthoritiesConverter, jwt: Jwt): (p: Principal)
    ensures p.name == jwt.subject
    ensures p.authorities == GrantedAuthorities(converter, jwt)
  {
    Principal(jwt.subject, GrantedAuthorities(converter, jwt))
  }

  /** With the application's configuration the granted authority names are
      the strings of the authorities claim, verbatim. */
  lemma ConfiguredAuthoritiesVerbatim(authoritiesKey: string, jwt: Jwt)
    ensures var p := Authenticate(ConfiguredConverter(authoritiesKey), jwt);
      p.authorities == (if authoritiesKey in jwt.claims then jwt.claims[authoritiesKey] else [])
  {
    var r := GrantedAuthorities(ConfiguredConverter(authoritiesKey), jwt);
    if authoritiesKey in jwt.claims {
      var names := jwt.claims[authoritiesKey];
      forall i | 0 <= i < |r|
        ensures r[i] == names[i]
      {
        assert r[i] == "" + names[i];
      }
    }
  }

  // ---------------------------------------------------------------------
  // The shared secret key
  // ---------------------------------------------------------------------

  /** The configuration: the bytes of the base64-decoded secret and the
      name of the MAC algorithm. */
  datatype JwtSettings = JwtSettings(secret: seq<bv8>, algorithm: string)

  datatype SecretKey = SecretKey(bytes: seq<bv8>, algorithm: string)

  /** Why building the key can fail: the key specification refuses an empty
      key. */
  datatype KeyError = EmptyKey

  /** The secret key built from the whole secret and the algorithm name. */
  function GetSecretKey(settings: JwtSettings): (r: Result<SecretKey, KeyError>)
    ensures r.Failure? <==> |settings.secret| == 0
    ensures r.Success? ==> r.value.bytes == settings.secret && r.value.algorithm == settings.algorithm
  {
    if |settings.secret| == 0 then Failure(EmptyKey)
    else Success(SecretKey(settings.secret[0..|settings.secret|], settings.algorithm))
  }

  /** The decoder checks MACs with a key and an algorithm; the encoder signs
      with a key. */
  datatype MacDecoder = MacDecoder(key: SecretKey, algorithm: string)
  datatype MacEncoder = MacEncoder(key: SecretKey)

  /** The decoder bean: built on the secret key, checking the configured
      algorithm; not built when the key is refused. */
  function JwtDecoder(settings: JwtSettings): (r: Result<MacDecoder, KeyError>)
    ensures r.Failure? <==> |settings.secret| == 0
    ensures r.Success? ==> r.value == MacDecoder(SecretKey(settings.secret, settings.algorithm), settings.algorithm)
  {
    match GetSecretKey(settings)
    case Success(key) => Success(MacDecoder(key, settings.algorithm))
    case Failure(e) => Failure(e)
  }

  /** The encoder bean: signs with the secret key; not built when the key is
      refused. */
  function JwtEncoder(settings: JwtSettings): (r: Result<MacEncoder, KeyError>)
    ensures r.Failure? <==> |settings.secret| == 0
    ensures r.Success? ==> r.value == MacEncoder(SecretKey(settings.secret, settings.algorithm))
  {
    match GetSecretKey(settings)
    case Success(key) => Success(MacEncoder(key))
    case Failure(e) => Failure(e)
  }

  /** Encoder and decoder are built together or not at all, and share one
      key: the configured secret, for the configured algorithm, which is also
      the algorithm the decoder checks. */
  lemma EncoderAndDecoderShareKey(settings: JwtSettings)
    ensures JwtDecoder(settings).Success? <==> JwtEncoder(settings).Success?
    ensures JwtDecoder(settings).Success? ==>
      && JwtDecoder(settings).value.key == JwtEncoder(settings).value.key
      && JwtDecoder(settings).value.key == SecretKey(settings.secret, settings.algorithm)
      && JwtDecoder(settings).value.algorithm == JwtDecoder(settings).value.key.algorithm
  {
  }
}
