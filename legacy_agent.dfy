/**
  The older agent (package main, agent.go): a single trusted RSA key, a configuration
  read as a flat string map, the fetched body printed as it came (or, when verifying, a
  newline-separated list of the keys whose signatures check out), and a cache that holds
  exactly what was printed last time.
 */
module LegacyAgent {
  import opened Base
  import opened Text
  import opened Platform

  /** The two JSON fields verifyKeys decodes from each record. */
  datatype LegacyKey = LegacyKey(publicKey: string, publicKeySig: string)

  /**
    The flags this path reads; `url` and `token` are the pointers Query receives, None
    standing for nil.
   */
  datatype Flags = Flags(
    url: Option<string>,
    token: Option<string>,
    verify: bool,
    publicKeyPath: string,
    sshFingerprint: string,
    cacheDirPath: string)

  /** parseConfig: a string map, or the file could not be read (5) or decoded (7). */
  datatype ConfigSource = ConfigOk(settings: map<string, string>) | ConfigUnreadable | ConfigMalformed

  /** The configuration file, os.Hostname, the User-Agent, the HTTP client, the JSON decoder of key lists and the crypto library. */
  datatype World = World(
    config: ConfigSource,
    hostname: Option<string>,
    userAgent: string,
    http: Request -> HttpOutcome,
    parseKeys: string -> Option<seq<LegacyKey>>,
    crypto: Crypto)

  const EXIT_OK := 0
  const EXIT_NO_CACHE := 2
  const EXIT_CONFIG_UNREADABLE := 5
  const EXIT_HOSTNAME := 6
  const EXIT_CONFIG_MALFORMED := 7
  const EXIT_VERIFY_FAILED := 9
  const EXIT_NO_PUBLIC_KEY := 10
  const EXIT_CACHE_WRITE := 21

  /** A map lookup as Go does it: a missing key reads as "". */
  function Setting(settings: map<string, string>, name: string): (v: string)
    ensures name !in settings ==> v == ""
    ensures name in settings ==> v == settings[name]
  {
    if name in settings then settings[name] else ""
  }

  // ---------------------------------------------------------------------------------------
  // The trusted key

  /** newVerifierFromKey: only RSA keys are supported here. */
  function NewVerifierFromKey(k: PublicKey): (r: Option<Verifier>)
    ensures r.Some? <==> k.algorithm == Rsa
    ensures r.Some? ==> r.value == RsaPkcs1Sha256(k)
  {
    if k.algorithm == Rsa then Some(RsaPkcs1Sha256(k)) else None
  }

  /** parsePublicKey: a PEM block of type PUBLIC KEY holding an RSA SubjectPublicKeyInfo. */
  function ParsePublicKey(c: Crypto, pem: string): (r: Option<Verifier>)
    ensures r.Some? ==> c.pemDecode(pem).Some? && c.pemDecode(pem).value.blockType == "PUBLIC KEY"
    ensures r.Some? ==> var k := c.parsePkix(c.pemDecode(pem).value.der);
                        k.Some? && k.value.algorithm == Rsa && r.value == RsaPkcs1Sha256(k.value)
    ensures c.pemDecode(pem).Some? && c.pemDecode(pem).value.blockType == "PUBLIC KEY"
            && c.parsePkix(c.pemDecode(pem).value.der).Some?
            && c.parsePkix(c.pemDecode(pem).value.der).value.algorithm == Rsa
            ==> r == Some(RsaPkcs1Sha256(c.parsePkix(c.pemDecode(pem).value.der).value))
  {
    match c.pemDecode(pem)
    case None => None
    case Some(block) =>
      if block.blockType != "PUBLIC KEY" then None
      else
        match c.parsePkix(block.der)
        case None => None
        case Some(k) => NewVerifierFromKey(k)
  }

  /** loadPublicKey: read the PEM file at `path`, then parse it. */
  function LoadPublicKey(c: Crypto, fs: FileSystem, path: string): (r: Option<Verifier>)
    ensures ReadFile(fs, path).None? ==> r.None?
    ensures ReadFile(fs, path).Some? ==> r == ParsePublicKey(c, ReadFile(fs, path).value)
  {
    match ReadFile(fs, path)
    case None => None
    case Some(data) => ParsePublicKey(c, data)
  }

  // ---------------------------------------------------------------------------------------
  // Verification

  predicate Accepts(c: Crypto, v: Verifier, k: LegacyKey) {
    c.verify(v, k.publicKey, c.hexDecode(k.publicKeySig))
  }

  /**
    The buffer verifyKeys fills: each accepted key's text, preceded by a newline whenever
    the key is not the first of the input (whether or not the first was accepted).
   */
  function Buffer(c: Crypto, v: Verifier, keys: seq<LegacyKey>): string
    decreases |keys|
  {
    if keys == [] then ""
    else
      var i := |keys| - 1;
      Buffer(c, v, keys[..i]) + if Accepts(c, v, keys[i]) then (if i > 0 then "\n" else "") + keys[i].publicKey else ""
  }

  /** The texts of the accepted keys, in order. */
  function AcceptedKeys(c: Crypto, v: Verifier, keys: seq<LegacyKey>): (pks: seq<string>)
    ensures |pks| <= |keys|
    decreases |keys|
  {
    if keys == [] then []
    else
      var i := |keys| - 1;
      AcceptedKeys(c, v, keys[..i]) + if Accepts(c, v, keys[i]) then [keys[i].publicKey] else []
  }

  /**
    The buffer is the accepted keys joined by newlines, with one extra newline in front
    exactly when some key is accepted but the first key of the input is not.
   */
  lemma {:induction false} BufferShape(c: Crypto, v: Verifier, keys: seq<LegacyKey>)
    ensures Buffer(c, v, keys) == Lead(c, v, keys) + Join(AcceptedKeys(c, v, keys), "\n")
    decreases |keys|
  {
    if keys != [] {
      var i := |keys| - 1;
      var init := keys[..i];
      BufferShape(c, v, init);
      if Accepts(c, v, keys[i]) {
        BufferStepAccepted(c, v, keys);
      } else {
        assert Buffer(c, v, keys) == Buffer(c, v, init);
        assert AcceptedKeys(c, v, keys) == AcceptedKeys(c, v, init);
        if i > 0 {
          assert init[0] == keys[0];
        }
      }
    }
  }

  /** The newline verifyKeys writes in front of the first accepted key when that key is not the first of the input. */
  function Lead(c: Crypto, v: Verifier, keys: seq<LegacyKey>): string {
    if AcceptedKeys(c, v, keys) != [] && !Accepts(c, v, keys[0]) then "\n" else ""
  }

  lemma BufferStepAccepted(c: Crypto, v: Verifier, keys: seq<LegacyKey>)
    requires keys != [] && Accepts(c, v, keys[|keys| - 1])
    requires var init := keys[..|keys| - 1];
             Buffer(c, v, init) == Lead(c, v, init) + Join(AcceptedKeys(c, v, init), "\n")
    ensures Buffer(c, v, keys) == Lead(c, v, keys) + Join(AcceptedKeys(c, v, keys), "\n")
  {
    var i := |keys| - 1;
    var init := keys[..i];
    var pks := AcceptedKeys(c, v, init);
    var pk := keys[i].publicKey;
    var sep := if i > 0 then "\n" else "";
    assert Buffer(c, v, keys) == Buffer(c, v, init) + (sep + pk);
    assert AcceptedKeys(c, v, keys) == pks + [pk];
    if pks != [] {
      assert init[0] == keys[0];
      StepAfterAccepted(Lead(c, v, init), Join(pks, "\n"), pk);
      JoinSnoc(pks, pk, "\n");
    } else {
      AcceptedNoneBefore(c, v, init);
      assert Join(pks + [pk], "\n") == pk;
      if i > 0 {
        assert init[0] == keys[0];
        assert !Accepts(c, v, keys[0]);
      }
    }
  }

  lemma StepAfterAccepted(lead: string, joined: string, pk: string)
    ensures lead + joined + ("\n" + pk) == lead + (joined + "\n" + pk)
  {
  }

  /** When no key is accepted, none of them is (in particular not the first). */
  lemma {:induction false} AcceptedNoneBefore(c: Crypto, v: Verifier, keys: seq<LegacyKey>)
    requires AcceptedKeys(c, v, keys) == []
    ensures forall j :: 0 <= j < |keys| ==> !Accepts(c, v, keys[j])
    ensures Buffer(c, v, keys) == ""
    decreases |keys|
  {
    if keys != [] {
      var i := |keys| - 1;
      AcceptedNoneBefore(c, v, keys[..i]);
      assert forall j :: 0 <= j < i ==> keys[..i][j] == keys[j];
    }
  }

  /** A key text appears among the accepted ones only if a key with that text was accepted. */
  lemma {:induction false} AcceptedKeysSound(c: Crypto, v: Verifier, keys: seq<LegacyKey>, pk: string)
    requires pk in AcceptedKeys(c, v, keys)
    ensures exists j :: 0 <= j < |keys| && keys[j].publicKey == pk && Accepts(c, v, keys[j])
    decreases |keys|
  {
    var i := |keys| - 1;
    if pk in AcceptedKeys(c, v, keys[..i]) {
      AcceptedKeysSound(c, v, keys[..i], pk);
      var j :| 0 <= j < i && keys[..i][j].publicKey == pk && Accepts(c, v, keys[..i][j]);
      assert keys[j] == keys[..i][j];
    } else {
      assert keys[i].publicKey == pk && Accepts(c, v, keys[i]);
    }
  }

  /** The reference result of verifyKeys: None when the body or the key does not load. */
  function VerifiedBody(c: Crypto, fs: FileSystem, parseKeys: string -> Option<seq<LegacyKey>>, path: string, body: string): (r: Option<string>)
    ensures parseKeys(body).None? ==> r.None?
    ensures parseKeys(body).Some? ==> (r.None? <==> LoadPublicKey(c, fs, path).None?)
  {
    match parseKeys(body)
    case None => None
    case Some(keys) =>
      match LoadPublicKey(c, fs, path)
      case None => None
      case Some(v) => Some(Buffer(c, v, keys))
  }

  /** verifyKeys: decode the keys, load the one trusted key, and write each accepted key into the buffer. */
  method VerifyKeys(c: Crypto, fs: FileSystem, parseKeys: string -> Option<seq<LegacyKey>>, publicKeyPath: string, body: string)
    returns (r: Option<string>)
    ensures r == VerifiedBody(c, fs, parseKeys, publicKeyPath, body)
  {
    var keys := parseKeys(body);
    if keys.None? {
      return None;
    }
    var parser := LoadPublicKey(c, fs, publicKeyPath);
    if parser.None? {
      return None;
    }
    var b := "";
    var i := 0;
    while i < |keys.value|
      invariant 0 <= i <= |keys.value|
      invariant b == Buffer(c, parser.value, keys.value[..i])
    {
      assert keys.value[..i + 1][..i] == keys.value[..i];
      var key := keys.value[i];
      var signature := c.hexDecode(key.publicKeySig);
      if !c.verify(parser.value, key.publicKey, signature) {
        i := i + 1;
        continue;
      }
      if i > 0 {
        b := b + "\n";
      }
      b := b + key.publicKey;
      i := i + 1;
    }
    assert keys.value[..i] == keys.value;
    return Some(b);
  }

  // ---------------------------------------------------------------------------------------
  // The request and the cache

  /** The request performQuery sends: `f` only with a fingerprint, Accept only when verifying, no timeout. */
  function RequestFor(w: World, flags: Flags, url: string, token: string, hostname: string, user: string): (r: Request)
    ensures ("f" in r.query <==> flags.sshFingerprint != "") && r.query.Keys <= {"f"}
    ensures "Accept" in r.headers <==> flags.verify
    ensures "Authorization" in r.headers && r.headers["Authorization"] == "Bearer " + token
    ensures r.timeoutMs.None?
    ensures "f" in r.query ==> r.query["f"] == flags.sshFingerprint
    ensures "Accept" in r.headers ==> r.headers["Accept"] == "application/json"
    ensures r.headers.Keys <= {"User-Agent", "Authorization", "Accept"}
    ensures "User-Agent" in r.headers && r.headers["User-Agent"] == w.userAgent
    ensures r.baseUrl == url && r.hostname == hostname && r.user == user
  {
    var headers := map["User-Agent" := w.userAgent, "Authorization" := "Bearer " + token];
    Request(url, hostname, user,
      if flags.sshFingerprint != "" then map["f" := flags.sshFingerprint] else map[],
      if flags.verify then headers["Accept" := "application/json"] else headers,
      None)
  }

  /** performQuery: exit 6 without a host name, else the classified HTTP outcome. */
  function FetchOutcome(w: World, flags: Flags, url: string, token: string, user: string): (r: Fetch)
    ensures r.HostnameUnavailable? <==> w.hostname.None?
  {
    match w.hostname
    case None => HostnameUnavailable
    case Some(hostname) => Classify(w.http(RequestFor(w, flags, url, token, hostname, user)))
  }

  /** getUserFilename: a hidden file named after the account in the cache directory. */
  function CacheFileName(cacheDirPath: string, user: string): (path: string)
    ensures HasPrefix(path, cacheDirPath + "/.") && |path| == |cacheDirPath| + 2 + |user|
  {
    cacheDirPath + "/." + user
  }

  /** Two accounts never share a cache file in one directory: the account is the rest of the name. */
  lemma CacheFileNameInjective(dir: string, user1: string, user2: string)
    ensures CacheFileName(dir, user1) == CacheFileName(dir, user2) ==> user1 == user2
    ensures CacheFileName(dir, user1)[|dir| + 2..] == user1
  {
    var p1, p2 := CacheFileName(dir, user1), CacheFileName(dir, user2);
    assert p1[|dir| + 2..] == user1;
    assert p2[|dir| + 2..] == user2;
  }

  // ---------------------------------------------------------------------------------------
  // The query

  /** One run: the exit status (or the status Query returns), what was written to standard output, the files afterwards. */
  datatype Run = Run(exit: int, stdout: string, fs: FileSystem)

  /** The status performQuery returns when Query is given both a URL and a token. */
  function DirectStatus(f: Fetch): int {
    match f
    case HostnameUnavailable => EXIT_HOSTNAME
    case Fetched(_) => EXIT_OK
    case FetchFailed(code) => code
  }

  /**
    The body printed and cached: as fetched, or the verified buffer; otherwise Stop with the
    exit status, 10 exactly when -verify names no public key (neither flag nor configuration).
   */
  function Delivered(w: World, flags: Flags, fs: FileSystem, settings: map<string, string>, body: string): (r: Result)
    ensures r.Stop? ==> r.exit in {EXIT_VERIFY_FAILED, EXIT_NO_PUBLIC_KEY}
    ensures !flags.verify ==> r == Deliver(body)
    ensures flags.verify ==>
              (r == Stop(EXIT_NO_PUBLIC_KEY) <==> Override(flags.publicKeyPath, Setting(settings, "public_key")) == "")
  {
    if !flags.verify then Deliver(body)
    else
      var publicKeyPath := Override(flags.publicKeyPath, Setting(settings, "public_key"));
      if publicKeyPath == "" then Stop(EXIT_NO_PUBLIC_KEY)
      else
        match VerifiedBody(w.crypto, fs, w.parseKeys, publicKeyPath, body)
        case None => Stop(EXIT_VERIFY_FAILED)
        case Some(b) => Deliver(b)
  }

  datatype Result = Deliver(body: string) | Stop(exit: int)

  /** The reference behaviour of Query. */
  function QueryRun(w: World, flags: Flags, fs: FileSystem, user: string): Run {
    if flags.url.Some? && flags.token.Some? then
      Run(DirectStatus(FetchOutcome(w, flags, flags.url.value, flags.token.value, user)), "", fs)
    else
      match w.config
      case ConfigUnreadable => Run(EXIT_CONFIG_UNREADABLE, "", fs)
      case ConfigMalformed => Run(EXIT_CONFIG_MALFORMED, "", fs)
      case ConfigOk(settings) =>
        var path := CacheFileName(flags.cacheDirPath, user);
        match FetchOutcome(w, flags, Setting(settings, "url"), Setting(settings, "token"), user)
        case HostnameUnavailable => Run(EXIT_HOSTNAME, "", fs)
        case Fetched(body) =>
          (match Delivered(w, flags, fs, settings, body)
           case Stop(code) => Run(code, "", fs)
           case Deliver(b) =>
             match WriteFile(fs, path, b)
             case None => Run(EXIT_CACHE_WRITE, b + "\n", fs)
             case Some(fs') => Run(EXIT_OK, b + "\n", fs'))
        case FetchFailed(_) =>
          match ReadFile(fs, path)
          case None => Run(EXIT_NO_CACHE, "", fs)
          case Some(data) => Run(EXIT_OK, data, fs)
  }

  /** Query: each os.Exit and the final return become the run's status. */
  method Query(w: World, flags: Flags, fs: FileSystem, user: string) returns (run: Run)
    ensures run == QueryRun(w, flags, fs, user)
  {
    if flags.url.None? || flags.token.None? {
      if w.config.ConfigUnreadable? {
        return Run(EXIT_CONFIG_UNREADABLE, "", fs);
      } else if w.config.ConfigMalformed? {
        return Run(EXIT_CONFIG_MALFORMED, "", fs);
      }
      var config := w.config.settings;
      var fetched := FetchOutcome(w, flags, Setting(config, "url"), Setting(config, "token"), user);
      if fetched.HostnameUnavailable? {
        return Run(EXIT_HOSTNAME, "", fs);
      }
      var body := if fetched.Fetched? then fetched.body else "";
      if fetched.Fetched? {
        if flags.verify {
          var publicKeyPath: string;
          if flags.publicKeyPath != "" {
            publicKeyPath := flags.publicKeyPath;
          } else {
            publicKeyPath := Setting(config, "public_key");
          }
          if publicKeyPath == "" {
            return Run(EXIT_NO_PUBLIC_KEY, "", fs);
          }
          var b := VerifyKeys(w.crypto, fs, w.parseKeys, publicKeyPath, body);
          if b.None? {
            return Run(EXIT_VERIFY_FAILED, "", fs);
          }
          body := b.value;
        }
      }
      var ret: int;
      var files := fs;
      var stdout: string;
      if fetched.Fetched? {
        stdout := body + "\n";
        var written := WriteFile(fs, CacheFileName(flags.cacheDirPath, user), body);
        if written.None? {
          ret := EXIT_CACHE_WRITE;
        } else {
          files := written.value;
          ret := EXIT_OK;
        }
      } else {
        var dat := ReadFile(fs, CacheFileName(flags.cacheDirPath, user));
        if dat.None? {
          ret, stdout := EXIT_NO_CACHE, "";
        } else {
          ret, stdout := EXIT_OK, dat.value;
        }
      }
      return Run(ret, stdout, files);
    } else {
      var fetched := FetchOutcome(w, flags, flags.url.value, flags.token.value, user);
      if fetched.HostnameUnavailable? {
        return Run(EXIT_HOSTNAME, "", fs);
      }
      var ret := if fetched.Fetched? then EXIT_OK else fetched.code;
      return Run(ret, "", fs);
    }
  }

  // ---------------------------------------------------------------------------------------
  // Properties of a query

  /** Given both a URL and a token, Query only reports performQuery's status: nothing is printed or cached. */
  lemma DirectQueryHasNoEffect(w: World, flags: Flags, fs: FileSystem, user: string)
    requires flags.url.Some? && flags.token.Some?
    ensures var run := QueryRun(w, flags, fs, user);
            run.stdout == "" && run.fs == fs
            && run.exit in {EXIT_OK, EXIT_HOSTNAME, FETCH_BAD_REQUEST, FETCH_TRANSPORT, FETCH_AUTHORITY}
  {
  }

  /**
    After a fetch, what is printed is the cached text plus a newline: the cache holds
    exactly the text printed, or the write failed (21) and the files are unchanged.
   */
  lemma PrintedIsCached(w: World, flags: Flags, fs: FileSystem, user: string)
    requires flags.url.None? || flags.token.None?
    ensures var run := QueryRun(w, flags, fs, user);
            var path := CacheFileName(flags.cacheDirPath, user);
            w.config.ConfigOk? && FetchOutcome(w, flags, Setting(w.config.settings, "url"), Setting(w.config.settings, "token"), user).Fetched?
            && run.stdout != "" ==>
              HasSuffix(run.stdout, "\n")
              && (run.exit == EXIT_OK ==> ReadFile(run.fs, path) == Some(run.stdout[..|run.stdout| - 1]))
              && (run.exit != EXIT_OK ==> run.exit == EXIT_CACHE_WRITE && run.fs == fs)
  {
    if w.config.ConfigOk? && FetchOutcome(w, flags, Setting(w.config.settings, "url"), Setting(w.config.settings, "token"), user).Fetched? {
      var fetched := FetchOutcome(w, flags, Setting(w.config.settings, "url"), Setting(w.config.settings, "token"), user);
      var d := Delivered(w, flags, fs, w.config.settings, fetched.body);
      if d.Deliver? {
        var out := d.body + "\n";
        assert out[|out| - 1..] == "\n";
        assert out[..|out| - 1] == d.body;
      }
    }
  }

  /** Without the authority, the cache file is printed as it is, or the run exits 2 with no output. */
  lemma FallbackPrintsCache(w: World, flags: Flags, fs: FileSystem, user: string, code: int)
    requires flags.url.None? || flags.token.None?
    requires w.config.ConfigOk?
    requires FetchOutcome(w, flags, Setting(w.config.settings, "url"), Setting(w.config.settings, "token"), user) == FetchFailed(code)
    ensures var run := QueryRun(w, flags, fs, user);
            var cached := ReadFile(fs, CacheFileName(flags.cacheDirPath, user));
            run.fs == fs
            && (cached.Some? ==> run == Run(EXIT_OK, cached.value, fs))
            && (cached.None? ==> run == Run(EXIT_NO_CACHE, "", fs))
  {
  }

  /**
    The cache carries a run into the next one: after a run that fetched and cached its
    text, a run that cannot reach the authority prints the same text (without the final
    newline the first run added).
   */
  lemma CacheCarriesOver(w1: World, w2: World, flags: Flags, fs: FileSystem, user: string, code: int)
    requires flags.url.None? || flags.token.None?
    requires w1.config.ConfigOk? && w2.config.ConfigOk?
    requires FetchOutcome(w1, flags, Setting(w1.config.settings, "url"), Setting(w1.config.settings, "token"), user).Fetched?
    requires FetchOutcome(w2, flags, Setting(w2.config.settings, "url"), Setting(w2.config.settings, "token"), user) == FetchFailed(code)
    requires QueryRun(w1, flags, fs, user).exit == EXIT_OK
    ensures var run1 := QueryRun(w1, flags, fs, user);
            var run2 := QueryRun(w2, flags, run1.fs, user);
            run2.exit == EXIT_OK && run2.stdout + "\n" == run1.stdout
  {
    var run1 := QueryRun(w1, flags, fs, user);
    PrintedIsCached(w1, flags, fs, user);
    var s := run1.stdout;
    assert s != "";
    assert s[..|s| - 1] + "\n" == s by {
      assert s[|s| - 1..] == "\n";
      assert s == s[..|s| - 1] + s[|s| - 1..];
    }
  }

  /** With verification on, a body whose keys do not decode, or a trusted key that does not load, ends the run with 9 and no output. */
  lemma VerifyFailureIsFinal(w: World, flags: Flags, fs: FileSystem, user: string, body: string)
    requires flags.url.None? || flags.token.None?
    requires flags.verify && w.config.ConfigOk?
    requires FetchOutcome(w, flags, Setting(w.config.settings, "url"), Setting(w.config.settings, "token"), user) == Fetched(body)
    requires Override(flags.publicKeyPath, Setting(w.config.settings, "public_key")) != ""
    requires w.parseKeys(body).None? || LoadPublicKey(w.crypto, fs, Override(flags.publicKeyPath, Setting(w.config.settings, "public_key"))).None?
    ensures QueryRun(w, flags, fs, user) == Run(EXIT_VERIFY_FAILED, "", fs)
  {
  }

  /**
    With verification on, every non-empty line printed after a fetch is the text of a key
    the trusted key vouches for.
   */
  lemma VerifiedOutputIsTrusted(w: World, flags: Flags, fs: FileSystem, user: string, body: string, keys: seq<LegacyKey>, v: Verifier)
    requires flags.url.None? || flags.token.None?
    requires flags.verify && w.config.ConfigOk?
    requires FetchOutcome(w, flags, Setting(w.config.settings, "url"), Setting(w.config.settings, "token"), user) == Fetched(body)
    requires w.parseKeys(body) == Some(keys)
    requires LoadPublicKey(w.crypto, fs, Override(flags.publicKeyPath, Setting(w.config.settings, "public_key"))) == Some(v)
    requires Override(flags.publicKeyPath, Setting(w.config.settings, "public_key")) != ""
    ensures QueryRun(w, flags, fs, user).stdout == Lead(w.crypto, v, keys) + Join(AcceptedKeys(w.crypto, v, keys), "\n") + "\n"
    ensures forall pk :: pk in AcceptedKeys(w.crypto, v, keys) ==>
              exists j :: 0 <= j < |keys| && keys[j].publicKey == pk && Accepts(w.crypto, v, keys[j])
  {
    BufferShape(w.crypto, v, keys);
    forall pk | pk in AcceptedKeys(w.crypto, v, keys)
      ensures exists j :: 0 <= j < |keys| && keys[j].publicKey == pk && Accepts(w.crypto, v, keys[j])
    {
      AcceptedKeysSound(w.crypto, v, keys, pk);
    }
  }
}
