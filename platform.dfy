/**
  The collaborators both agents reach through libraries and the operating system: the
  local filesystem, PEM/X.509 decoding and signature checking, and the HTTP client.
  Each is given as data or as a function the caller supplies, so that every outcome the
  library can report is an input of the model.
 */
module Platform {
  import opened Base

  /** The files the agent reads and writes, and the paths it is not allowed to write. */
  datatype FileSystem = FileSystem(files: map<string, string>, readOnly: set<string>)

  /** ioutil.ReadFile: the contents, or nothing when the file cannot be read. */
  function ReadFile(fs: FileSystem, path: string): Option<string> {
    if path in fs.files then Some(fs.files[path]) else None
  }

  /** ioutil.WriteFile: replaces the whole file, or fails and changes nothing. */
  function WriteFile(fs: FileSystem, path: string, data: string): (r: Option<FileSystem>)
    ensures r.Some? <==> path !in fs.readOnly
    ensures r.Some? ==> ReadFile(r.value, path) == Some(data)
    ensures r.Some? ==> forall p :: p != path ==> ReadFile(r.value, p) == ReadFile(fs, p)
  {
    if path in fs.readOnly then None
    else Some(fs.(files := fs.files[path := data]))
  }

  /** The algorithms x509.ParsePKIXPublicKey can return a key for. */
  datatype KeyAlgorithm = Rsa | Ecdsa | Ed25519 | Dsa | Ecdh

  /** A parsed SubjectPublicKeyInfo; `material` stands for the key itself. */
  datatype PublicKey = PublicKey(algorithm: KeyAlgorithm, material: nat)

  /** One block found by pem.Decode: its type line and its decoded body. */
  datatype PemBlock = PemBlock(blockType: string, der: string)

  /** A signature checker bound to one trusted key. */
  datatype Verifier =
    | RsaPkcs1Sha256(key: PublicKey)  // RSASSA-PKCS1-v1_5 over a SHA-256 digest (RFC 8017, section 8.2.2)
    | Ed25519Direct(key: PublicKey)   // Ed25519 over the message itself (RFC 8032, section 5.1.7)

  /**
    The library calls behind the trust store and the verifiers: pem.Decode,
    x509.ParsePKIXPublicKey, hex.DecodeString (whose partial result on bad input is
    still a byte string) and Verify(message, signature) succeeding.
   */
  datatype Crypto = Crypto(
    pemDecode: string -> Option<PemBlock>,
    parsePkix: string -> Option<PublicKey>,
    hexDecode: string -> seq<bv8>,
    verify: (Verifier, string, seq<bv8>) -> bool)

  /**
    A GET request as the agent hands it to http.DefaultClient: the base URL, the two path
    segments (host name and account, before escaping), the query values, the headers and
    the context timeout in milliseconds, if any.
   */
  datatype Request = Request(
    baseUrl: string,
    hostname: string,
    user: string,
    query: map<string, string>,
    headers: map<string, string>,
    timeoutMs: Option<int>)

  /**
    What happened to a request: http.NewRequest refused the URL, the transport failed
    (including the timeout), or a response arrived whose body could (Some) or could not
    (None) be read.
   */
  datatype HttpOutcome = InvalidUrl | TransportError | Response(status: int, body: Option<string>)

  /** The result of performQuery: a body, a failure code, or no host name to ask for. */
  datatype Fetch = Fetched(body: string) | FetchFailed(code: int) | HostnameUnavailable

  const FETCH_BAD_REQUEST := 8
  const FETCH_TRANSPORT := 9
  const FETCH_AUTHORITY := 20

  /**
    performQuery's status mapping: 8 when the request cannot be built, 9 when it cannot be
    sent, 20 for a status above 399 or an unreadable body, and the body otherwise.
   */
  function Classify(o: HttpOutcome): (r: Fetch)
    ensures r.Fetched? <==> o.Response? && o.status <= 399 && o.body.Some?
    ensures r.Fetched? ==> r.body == o.body.value
    ensures r.FetchFailed? ==> r.code in {FETCH_BAD_REQUEST, FETCH_TRANSPORT, FETCH_AUTHORITY}
    ensures r.FetchFailed? && r.code == FETCH_AUTHORITY <==> o.Response? && (o.status > 399 || o.body.None?)
    ensures !r.HostnameUnavailable?
    ensures o.InvalidUrl? ==> r == FetchFailed(FETCH_BAD_REQUEST)
    ensures o.TransportError? ==> r == FetchFailed(FETCH_TRANSPORT)
  {
    match o
    case InvalidUrl => FetchFailed(FETCH_BAD_REQUEST)
    case TransportError => FetchFailed(FETCH_TRANSPORT)
    case Response(status, body) =>
      if status > 399 then FetchFailed(FETCH_AUTHORITY)
      else if body.None? then FetchFailed(FETCH_AUTHORITY)
      else Fetched(body.value)
  }

  /** A flag value that, when set, overrides the configured one. */
  function Override(flag: string, configured: string): (r: string)
    ensures flag != "" ==> r == flag
    ensures flag == "" ==> r == configured
  {
    if flag != "" then flag else configured
  }
}
