/**
  The current agent (package cmd): fetch the key records for an account from the
  authority, fall back to the local cache, keep the keys some trusted signer vouches for,
  optionally narrow them to the one whose fingerprint the SSH client presented, and print
  them as authorized_keys lines.
 */
module CmdAgent {
  import opened Base
  import opened Text
  import opened Platform
  import Fmt

  /** A key record (JSON fields public_key, public_key_sig, email, ssh_options). */
  datatype Key = Key(publicKey: string, publicKeySig: string, account: string, sshOptions: string)

  /** The configuration file, as the YAML decoder fills it in. */
  datatype Config = Config(
    url: string,
    token: string,
    cachedir: string,
    verify: bool,
    publicKey: seq<string>,
    timeout: int,
    hostnamePrefix: string,
    hostnameSuffix: string)

  /** The command-line flags the query path reads ("" and false when not given). */
  datatype Flags = Flags(
    url: string,
    accessToken: string,
    verify: bool,
    publicKeyPath: string,
    sshFingerprint: string,
    sshConnection: string,
    cacheDirPath: string,
    hostnamePrefix: string,
    hostnameSuffix: string)

  /** parseConfig: the decoded file, or the file could not be read (5) or decoded (7). */
  datatype ConfigSource = ConfigOk(config: Config) | ConfigUnreadable | ConfigMalformed

  /** json.Marshal and json.Unmarshal of a key list. */
  datatype KeyCodec = KeyCodec(marshal: seq<Key> -> string, unmarshal: string -> Option<seq<Key>>)

  /** An OpenSSH public key; `blob` stands for its wire encoding. */
  datatype SshPublicKey = SshPublicKey(blob: nat)

  /** ssh.ParseAuthorizedKey and ssh.FingerprintSHA256. */
  datatype SshKeys = SshKeys(parseAuthorizedKey: string -> Option<SshPublicKey>, fingerprintSha256: SshPublicKey -> string)

  /**
    Everything outside the process that one query depends on: the configuration file,
    os.Hostname, the agent's User-Agent string, the HTTP client, the JSON codec, the crypto
    and SSH libraries, whether syslog can be opened, and which writes to standard output
    succeed (by write number).
   */
  datatype World = World(
    config: ConfigSource,
    hostname: Option<string>,
    userAgent: string,
    http: Request -> HttpOutcome,
    json: KeyCodec,
    crypto: Crypto,
    ssh: SshKeys,
    syslogAvailable: bool,
    stdoutAccepts: nat -> bool)

  const EXIT_OK := 0
  const EXIT_PANIC := 2            // status of a Go program that dies of an unrecovered panic
  const EXIT_CONFIG_UNREADABLE := 5
  const EXIT_HOSTNAME := 6
  const EXIT_CONFIG_MALFORMED := 7
  const EXIT_BAD_BODY := 9
  const EXIT_NO_PUBLIC_KEY := 10
  const EXIT_CACHE_WRITE := 21

  const DEFAULT_TIMEOUT_MS := 5000
  const PEM_PUBLIC_KEY_HEADER := "-----BEGIN PUBLIC KEY-----"

  // ---------------------------------------------------------------------------------------
  // Trust store

  /** newVerifierFromKey: RSA and Ed25519 keys get a verifier, every other algorithm is refused. */
  function NewVerifierFromKey(k: PublicKey): (r: Option<Verifier>)
    ensures r.Some? <==> k.algorithm == Rsa || k.algorithm == Ed25519
    ensures r.Some? ==> r.value.key == k && (r.value.RsaPkcs1Sha256? <==> k.algorithm == Rsa)
  {
    match k.algorithm
    case Rsa => Some(RsaPkcs1Sha256(k))
    case Ed25519 => Some(Ed25519Direct(k))
    case _ => None
  }

  /**
    parsePublicKey: the first PEM block must be of type PUBLIC KEY and hold a
    SubjectPublicKeyInfo of a supported algorithm.
   */
  function ParsePublicKey(c: Crypto, pem: string): (r: Option<Verifier>)
    ensures r.Some? ==> c.pemDecode(pem).Some? && c.pemDecode(pem).value.blockType == "PUBLIC KEY"
    ensures r.Some? ==> var k := c.parsePkix(c.pemDecode(pem).value.der);
                        k.Some? && r.value.key == k.value && k.value.algorithm in {Rsa, Ed25519}
    ensures c.pemDecode(pem).Some? && c.pemDecode(pem).value.blockType == "PUBLIC KEY"
            && c.parsePkix(c.pemDecode(pem).value.der).Some?
            ==> r == NewVerifierFromKey(c.parsePkix(c.pemDecode(pem).value.der).value)
  {
    match c.pemDecode(pem)
    case None => None
    case Some(block) =>
      if block.blockType != "PUBLIC KEY" then None
      else
        match c.parsePkix(block.der)
        case None => None
        case Some(k) => NewVerifierFromKey(k)
  }

  /** loadPublicKey: read the PEM file at `path`, then parse it. */
  function LoadPublicKey(c: Crypto, fs: FileSystem, path: string): (r: Option<Verifier>)
    ensures ReadFile(fs, path).None? ==> r.None?
    ensures ReadFile(fs, path).Some? ==> r == ParsePublicKey(c, ReadFile(fs, path).value)
  {
    match ReadFile(fs, path)
    case None => None
    case Some(data) => ParsePublicKey(c, data)
  }

  /**
    One trust-key specifier as verifyKeys loads it: trimmed of spaces; blank means skipped;
    text starting with the PEM header is an inline key, anything else a file path.
   */
  function LoadSpecifier(c: Crypto, fs: FileSystem, spec: string): (r: Option<Verifier>)
  {
    var s := Trim(spec);
    if s == "" then None
    else if HasPrefix(s, PEM_PUBLIC_KEY_HEADER) then ParsePublicKey(c, s)
    else LoadPublicKey(c, fs, s)
  }

  /**
    A blank specifier loads nothing; an inline key is parsed from the trimmed text; a path
    is read from the trimmed text. A loaded verifier is always RSA or Ed25519.
   */
  lemma LoadSpecifierCases(c: Crypto, fs: FileSystem, spec: string)
    ensures AllSpaces(spec) ==> LoadSpecifier(c, fs, spec).None?
    ensures !AllSpaces(spec) && HasPrefix(Trim(spec), PEM_PUBLIC_KEY_HEADER) ==> LoadSpecifier(c, fs, spec) == ParsePublicKey(c, Trim(spec))
    ensures !AllSpaces(spec) && !HasPrefix(Trim(spec), PEM_PUBLIC_KEY_HEADER) ==> LoadSpecifier(c, fs, spec) == LoadPublicKey(c, fs, Trim(spec))
    ensures LoadSpecifier(c, fs, spec).Some? ==> LoadSpecifier(c, fs, spec).value.key.algorithm in {Rsa, Ed25519}
  {
    TrimSpec(spec);
  }

  // ---------------------------------------------------------------------------------------
  // Verification engine

  /** `v` accepts the signature of `k` over its public-key text (hex decoding failures give the bytes decoded so far). */
  predicate Accepts(c: Crypto, v: Verifier, k: Key) {
    c.verify(v, k.publicKey, c.hexDecode(k.publicKeySig))
  }

  /** The verifier each specifier loads to, in order (None for a skipped or failing one). */
  function LoadAll(load: string -> Option<Verifier>, specs: seq<string>): (trust: seq<Option<Verifier>>)
    ensures |trust| == |specs|
    decreases |specs|
  {
    if specs == [] then []
    else LoadAll(load, specs[..|specs| - 1]) + [load(specs[|specs| - 1])]
  }

  /** The trust store of verifyKeys: each specifier through LoadSpecifier. */
  function Loaded(c: Crypto, fs: FileSystem, specs: seq<string>): seq<Option<Verifier>> {
    LoadAll(spec => LoadSpecifier(c, fs, spec), specs)
  }

  lemma {:induction false} LoadAllAt(load: string -> Option<Verifier>, specs: seq<string>, i: nat)
    requires i < |specs|
    ensures LoadAll(load, specs)[i] == load(specs[i])
    decreases |specs|
  {
    var init := specs[..|specs| - 1];
    if i < |init| {
      LoadAllAt(load, init, i);
    }
  }

  lemma {:induction false} LoadAllAppend(load: string -> Option<Verifier>, specs1: seq<string>, specs2: seq<string>)
    ensures LoadAll(load, specs1 + specs2) == LoadAll(load, specs1) + LoadAll(load, specs2)
    decreases |specs2|
  {
    if specs2 == [] {
      assert specs1 + specs2 == specs1;
    } else {
      var init := specs2[..|specs2| - 1];
      var last := specs2[|specs2| - 1];
      LoadAllAppend(load, specs1, init);
      assert (specs1 + specs2)[..|specs1 + specs2| - 1] == specs1 + init;
      assert (specs1 + specs2)[|specs1 + specs2| - 1] == last;
    }
  }

  /** The keys `v` accepts, in input order. */
  function AcceptedBy(c: Crypto, v: Verifier, keys: seq<Key>): seq<Key>
    decreases |keys|
  {
    if keys == [] then []
    else
      var last := keys[|keys| - 1];
      AcceptedBy(c, v, keys[..|keys| - 1]) + if Accepts(c, v, last) then [last] else []
  }

  /** What one loaded specifier adds to the result: nothing when it did not load. */
  function Contribution(c: Crypto, v: Option<Verifier>, keys: seq<Key>): seq<Key> {
    match v
    case None => []
    case Some(v) => AcceptedBy(c, v, keys)
  }

  /** The keys the loaded verifiers accept, verifier after verifier. */
  function VerifiedWith(c: Crypto, trust: seq<Option<Verifier>>, keys: seq<Key>): seq<Key>
    decreases |trust|
  {
    if trust == [] then []
    else VerifiedWith(c, trust[..|trust| - 1], keys) + Contribution(c, trust[|trust| - 1], keys)
  }

  /** The reference result of verifyKeys. */
  function Verified(c: Crypto, fs: FileSystem, specs: seq<string>, keys: seq<Key>): seq<Key> {
    VerifiedWith(c, Loaded(c, fs, specs), keys)
  }

  /**
    verifyKeys: for every specifier that loads, append every key its verifier accepts.
    The Go function also returns an error, which is always nil.
   */
  method VerifyKeys(c: Crypto, fs: FileSystem, publicKey: seq<string>, keys: seq<Key>) returns (retKeys: seq<Key>)
    ensures retKeys == Verified(c, fs, publicKey, keys)
  {
    retKeys := [];
    var i := 0;
    while i < |publicKey|
      invariant 0 <= i <= |publicKey|
      invariant retKeys == Verified(c, fs, publicKey[..i], keys)
    {
      assert publicKey[..i + 1][..i] == publicKey[..i];
      var prev := Loaded(c, fs, publicKey[..i]);
      ghost var next := prev + [LoadSpecifier(c, fs, publicKey[i])];
      assert Loaded(c, fs, publicKey[..i + 1]) == next;
      assert next[..|next| - 1] == prev;
      var spec := Trim(publicKey[i]);
      if spec == "" {
        i := i + 1;
        continue;
      }
      var parser: Option<Verifier>;
      if HasPrefix(spec, PEM_PUBLIC_KEY_HEADER) {
        parser := ParsePublicKey(c, spec);
      } else {
        parser := LoadPublicKey(c, fs, spec);
      }
      if parser.None? {
        i := i + 1;
        continue;
      }
      retKeys := AppendAccepted(c, parser.value, keys, retKeys);
      i := i + 1;
    }
    assert publicKey[..i] == publicKey;
  }

  /** The inner loop of verifyKeys: append every key `v` accepts, in order. */
  method AppendAccepted(c: Crypto, v: Verifier, keys: seq<Key>, acc: seq<Key>) returns (retKeys: seq<Key>)
    ensures retKeys == acc + AcceptedBy(c, v, keys)
  {
    retKeys := acc;
    var x := 0;
    while x < |keys|
      invariant 0 <= x <= |keys|
      invariant retKeys == acc + AcceptedBy(c, v, keys[..x])
    {
      assert keys[..x + 1][..x] == keys[..x];
      var key := keys[x];
      var signature := c.hexDecode(key.publicKeySig);
      if c.verify(v, key.publicKey, signature) {
        retKeys := retKeys + [key];
      }
      x := x + 1;
    }
    assert keys[..x] == keys;
  }

  /** `v` is loaded and accepts `k`. */
  predicate Vouches(c: Crypto, v: Option<Verifier>, k: Key) {
    v.Some? && Accepts(c, v.value, k)
  }

  /** How many of the loaded verifiers accept `k`. */
  function TrustCount(c: Crypto, trust: seq<Option<Verifier>>, k: Key): nat
    decreases |trust|
  {
    if trust == [] then 0
    else TrustCount(c, trust[..|trust| - 1], k) + if Vouches(c, trust[|trust| - 1], k) then 1 else 0
  }

  lemma {:induction false} AcceptedByCount(c: Crypto, v: Verifier, keys: seq<Key>, k: Key)
    ensures multiset(AcceptedBy(c, v, keys))[k] == if Accepts(c, v, k) then multiset(keys)[k] else 0
    decreases |keys|
  {
    if keys != [] {
      var init := keys[..|keys| - 1];
      AcceptedByCount(c, v, init, k);
      assert keys == init + [keys[|keys| - 1]];
    }
  }

  /**
    The duplication law: a key appears in the result once per loaded verifier that accepts
    it, times the number of times it appears in the input.
   */
  lemma ContributionCount(c: Crypto, v: Option<Verifier>, keys: seq<Key>, k: Key)
    ensures multiset(Contribution(c, v, keys))[k] == if Vouches(c, v, k) then multiset(keys)[k] else 0
  {
    if v.Some? {
      AcceptedByCount(c, v.value, keys, k);
    }
  }

  lemma {:induction false} VerifiedCount(c: Crypto, trust: seq<Option<Verifier>>, keys: seq<Key>, k: Key)
    ensures multiset(VerifiedWith(c, trust, keys))[k] == TrustCount(c, trust, k) * multiset(keys)[k]
    decreases |trust|
  {
    if trust != [] {
      var init := trust[..|trust| - 1];
      var last := trust[|trust| - 1];
      VerifiedCount(c, init, keys, k);
      ContributionCount(c, last, keys, k);
      assert VerifiedWith(c, trust, keys) == VerifiedWith(c, init, keys) + Contribution(c, last, keys);
      CountStep(multiset(VerifiedWith(c, init, keys))[k], TrustCount(c, init, k), multiset(keys)[k], Vouches(c, last, k),
        multiset(VerifiedWith(c, trust, keys))[k], TrustCount(c, trust, k));
    }
  }

  lemma CountStep(before: nat, t: nat, m: nat, vouches: bool, after: nat, t': nat)
    requires before == t * m
    requires after == before + if vouches then m else 0
    requires t' == t + if vouches then 1 else 0
    ensures after == t' * m
  {
    if vouches {
      MulSucc(t, m);
    }
  }

  lemma MulPositive(t: nat, m: nat)
    ensures t * m > 0 <==> t > 0 && m > 0
  {
    if t > 0 && m > 0 {
      assert t * m >= m;
    }
  }

  lemma MulSucc(t: nat, m: nat)
    ensures (t + 1) * m == t * m + m
  {
  }

  lemma {:induction false} TrustCountPositive(c: Crypto, trust: seq<Option<Verifier>>, k: Key)
    ensures TrustCount(c, trust, k) > 0 <==> exists i :: 0 <= i < |trust| && Vouches(c, trust[i], k)
    decreases |trust|
  {
    if trust != [] {
      var init := trust[..|trust| - 1];
      TrustCountPositive(c, init, k);
      if exists i :: 0 <= i < |trust| && Vouches(c, trust[i], k) {
        var i :| 0 <= i < |trust| && Vouches(c, trust[i], k);
        if i < |init| {
          assert init[i] == trust[i];
        }
      }
      if exists i :: 0 <= i < |init| && Vouches(c, init[i], k) {
        var i :| 0 <= i < |init| && Vouches(c, init[i], k);
        assert trust[i] == init[i];
      }
    }
  }

  /** The duplication law for verifyKeys, stated on the specifiers. */
  lemma VerifiedMultiplicity(c: Crypto, fs: FileSystem, specs: seq<string>, keys: seq<Key>, k: Key)
    ensures multiset(Verified(c, fs, specs, keys))[k] == TrustCount(c, Loaded(c, fs, specs), k) * multiset(keys)[k]
  {
    VerifiedCount(c, Loaded(c, fs, specs), keys, k);
  }

  /**
    A key is in the result exactly when it is one of the input keys and some specifier
    loads to a verifier that accepts it: a key no trusted signer vouches for never gets through.
   */
  lemma VerifiedMembership(c: Crypto, fs: FileSystem, specs: seq<string>, keys: seq<Key>, k: Key)
    ensures var trust := Loaded(c, fs, specs);
            k in Verified(c, fs, specs, keys) <==> k in keys && exists i :: 0 <= i < |trust| && Vouches(c, trust[i], k)
  {
    var trust := Loaded(c, fs, specs);
    VerifiedCount(c, trust, keys, k);
    TrustCountPositive(c, trust, k);
    MulPositive(TrustCount(c, trust, k), multiset(keys)[k]);
    assert k in keys <==> multiset(keys)[k] > 0;
    assert k in Verified(c, fs, specs, keys) <==> multiset(Verified(c, fs, specs, keys))[k] > 0;
  }

  /** The verifier at position `i` of the trust store is what specifier `i` loads to. */
  lemma LoadedAt(c: Crypto, fs: FileSystem, specs: seq<string>, i: nat)
    requires i < |specs|
    ensures Loaded(c, fs, specs)[i] == LoadSpecifier(c, fs, specs[i])
  {
    LoadAllAt(spec => LoadSpecifier(c, fs, spec), specs, i);
  }

  lemma {:induction false} VerifiedWithAppend(c: Crypto, trust1: seq<Option<Verifier>>, trust2: seq<Option<Verifier>>, keys: seq<Key>)
    ensures VerifiedWith(c, trust1 + trust2, keys) == VerifiedWith(c, trust1, keys) + VerifiedWith(c, trust2, keys)
    decreases |trust2|
  {
    if trust2 == [] {
      assert trust1 + trust2 == trust1;
    } else {
      var init := trust2[..|trust2| - 1];
      var last := trust2[|trust2| - 1];
      VerifiedWithAppend(c, trust1, init, keys);
      var both := trust1 + trust2;
      assert both[..|both| - 1] == trust1 + init;
      assert both[|both| - 1] == last;
      assert VerifiedWith(c, both, keys) == VerifiedWith(c, trust1 + init, keys) + Contribution(c, last, keys);
    }
  }

  /** The result for a list of specifiers is the result for its first part followed by that for the rest. */
  lemma VerifiedAppend(c: Crypto, fs: FileSystem, specs1: seq<string>, specs2: seq<string>, keys: seq<Key>)
    ensures Verified(c, fs, specs1 + specs2, keys) == Verified(c, fs, specs1, keys) + Verified(c, fs, specs2, keys)
  {
    LoadAllAppend(spec => LoadSpecifier(c, fs, spec), specs1, specs2);
    VerifiedWithAppend(c, Loaded(c, fs, specs1), Loaded(c, fs, specs2), keys);
  }

  lemma {:induction false} VerifiedWithNothingLoaded(c: Crypto, trust: seq<Option<Verifier>>, keys: seq<Key>)
    requires forall i :: 0 <= i < |trust| ==> trust[i].None?
    ensures VerifiedWith(c, trust, keys) == []
    decreases |trust|
  {
    if trust != [] {
      VerifiedWithNothingLoaded(c, trust[..|trust| - 1], keys);
    }
  }

  /**
    With no specifier that loads (none given, all blank, or all failing) the result is empty,
    not the input: verification never degenerates into letting every key through.
   */
  lemma VerifiedWithoutVerifier(c: Crypto, fs: FileSystem, specs: seq<string>, keys: seq<Key>)
    requires forall i :: 0 <= i < |specs| ==> LoadSpecifier(c, fs, specs[i]).None?
    ensures Verified(c, fs, specs, keys) == []
  {
    forall i | 0 <= i < |specs|
      ensures Loaded(c, fs, specs)[i].None?
    {
      LoadAllAt(spec => LoadSpecifier(c, fs, spec), specs, i);
    }
    VerifiedWithNothingLoaded(c, Loaded(c, fs, specs), keys);
  }

  /** In particular, blank specifiers (the YAML list `- ""`) trust nothing. */
  lemma VerifiedBlankSpecifiers(c: Crypto, fs: FileSystem, specs: seq<string>, keys: seq<Key>)
    requires forall i :: 0 <= i < |specs| ==> AllSpaces(specs[i])
    ensures Verified(c, fs, specs, keys) == []
  {
    forall i | 0 <= i < |specs|
      ensures LoadSpecifier(c, fs, specs[i]).None?
    {
      LoadSpecifierCases(c, fs, specs[i]);
    }
    VerifiedWithoutVerifier(c, fs, specs, keys);
  }

  /** A verifier that accepts every key keeps them all, in order; one that accepts none keeps none. */
  lemma {:induction false} AcceptedByExtremes(c: Crypto, v: Verifier, keys: seq<Key>)
    ensures (forall i :: 0 <= i < |keys| ==> Accepts(c, v, keys[i])) ==> AcceptedBy(c, v, keys) == keys
    ensures (forall i :: 0 <= i < |keys| ==> !Accepts(c, v, keys[i])) ==> AcceptedBy(c, v, keys) == []
    decreases |keys|
  {
    if keys != [] {
      var init := keys[..|keys| - 1];
      assert forall i :: 0 <= i < |init| ==> init[i] == keys[i];
      AcceptedByExtremes(c, v, init);
      assert init + [keys[|keys| - 1]] == keys;
    }
  }

  // ---------------------------------------------------------------------------------------
  // Fingerprint filter

  predicate Attributed(k: Key) {
    k.account != ""
  }

  /** The SHA-256 fingerprint of the key's public-key text, when it parses as an authorized key. */
  function Fingerprint(ssh: SshKeys, k: Key): Option<string> {
    match ssh.parseAuthorizedKey(k.publicKey)
    case None => None
    case Some(pk) => Some(ssh.fingerprintSha256(pk))
  }

  predicate MatchesFingerprint(ssh: SshKeys, fingerprint: string, k: Key) {
    Attributed(k) && Fingerprint(ssh, k) == Some(fingerprint)
  }

  /** Where the scan of filterKeysByFingerprint stops: at a match, at the end, or at a key that makes parseSSHPublicKey panic. */
  datatype Selection = Selected(index: nat) | NoMatch | ParsePanic(index: nat)

  function SelectFrom(ssh: SshKeys, fingerprint: string, keys: seq<Key>, i: nat): (r: Selection)
    requires i <= |keys|
    ensures r.Selected? ==> i <= r.index < |keys| && MatchesFingerprint(ssh, fingerprint, keys[r.index])
    ensures r.ParsePanic? ==> i <= r.index < |keys| && Attributed(keys[r.index]) && Fingerprint(ssh, keys[r.index]).None?
    decreases |keys| - i
  {
    if i == |keys| then NoMatch
    else if !Attributed(keys[i]) then SelectFrom(ssh, fingerprint, keys, i + 1)
    else
      match ssh.parseAuthorizedKey(keys[i].publicKey)
      case None => ParsePanic(i)
      case Some(pk) =>
        if ssh.fingerprintSha256(pk) == fingerprint then Selected(i)
        else SelectFrom(ssh, fingerprint, keys, i + 1)
  }

  /**
    The scan stops at the first attributed key that matches or fails to parse; the keys
    before it are unattributed, or parse and do not match.
   */
  lemma {:induction false} SelectFromFirst(ssh: SshKeys, fingerprint: string, keys: seq<Key>, i: nat)
    requires i <= |keys|
    ensures var r := SelectFrom(ssh, fingerprint, keys, i);
            var stop := if r.NoMatch? then |keys| else r.index;
            forall j :: i <= j < stop ==> !Attributed(keys[j]) || (Fingerprint(ssh, keys[j]).Some? && !MatchesFingerprint(ssh, fingerprint, keys[j]))
    decreases |keys| - i
  {
    if i < |keys| {
      SelectFromFirst(ssh, fingerprint, keys, i + 1);
    }
  }

  /** The audit line filterKeysByFingerprint writes to syslog. */
  function AuditLine(account: string, user: string): string {
    "Account " + account + " logged in as " + user + "\n"
  }

  /** The outcome of filterKeysByFingerprint: the kept keys and the audit line written, or a panic. */
  datatype Filtered = Filtered(keys: seq<Key>, audit: Option<string>) | Panicked

  function FilterOutcome(ssh: SshKeys, syslogAvailable: bool, fingerprint: string, user: string, keys: seq<Key>): Filtered {
    match SelectFrom(ssh, fingerprint, keys, 0)
    case Selected(j) =>
      Filtered([keys[j]], if syslogAvailable then Some(AuditLine(keys[j].account, user)) else None)
    case NoMatch => Filtered([], None)
    case ParsePanic(_) => Panicked
  }

  /**
    filterKeysByFingerprint: keep only the first attributed key whose fingerprint is the
    one given, and log which account logged in as `user`. Unattributed keys are skipped
    without being parsed; an attributed key that does not parse makes the agent panic.
   */
  method FilterKeysByFingerprint(ssh: SshKeys, syslogAvailable: bool, fingerprint: string, user: string, keys: seq<Key>)
    returns (r: Filtered)
    ensures r == FilterOutcome(ssh, syslogAvailable, fingerprint, user, keys)
    ensures r.Filtered? ==> |r.keys| <= 1
  {
    var retKeys: seq<Key> := [];
    var audit: Option<string> := None;
    var i := 0;
    while i < |keys|
      invariant 0 <= i <= |keys|
      invariant SelectFrom(ssh, fingerprint, keys, 0) == SelectFrom(ssh, fingerprint, keys, i)
    {
      if keys[i].account != "" {
        var sshpk := ssh.parseAuthorizedKey(keys[i].publicKey);
        if sshpk.None? {
          return Panicked;
        }
        var f := ssh.fingerprintSha256(sshpk.value);
        if f == fingerprint {
          if syslogAvailable {
            audit := Some(AuditLine(keys[i].account, user));
          }
          retKeys := retKeys + [keys[i]];
          break;
        }
      }
      i := i + 1;
    }
    r := Filtered(retKeys, audit);
  }

  /**
    The filter keeps at most one key: the first attributed key whose fingerprint is the
    one asked for. When it keeps none, no attributed key matches.
   */
  lemma FilterKeepsFirstMatch(ssh: SshKeys, syslogAvailable: bool, fingerprint: string, user: string, keys: seq<Key>)
    ensures var r := FilterOutcome(ssh, syslogAvailable, fingerprint, user, keys);
            r.Filtered? ==> |r.keys| <= 1 && (r.keys == [] <==> r.audit.None? && forall j :: 0 <= j < |keys| ==> !MatchesFingerprint(ssh, fingerprint, keys[j]))
    ensures var r := FilterOutcome(ssh, syslogAvailable, fingerprint, user, keys);
            r.Filtered? && r.keys != [] ==>
              exists j :: 0 <= j < |keys| && r.keys == [keys[j]] && MatchesFingerprint(ssh, fingerprint, keys[j])
                && (forall i :: 0 <= i < j ==> !MatchesFingerprint(ssh, fingerprint, keys[i]))
  {
    SelectFromFirst(ssh, fingerprint, keys, 0);
  }

  /** Unattributed keys are never returned, whatever their fingerprint. */
  lemma FilterSkipsUnattributed(ssh: SshKeys, syslogAvailable: bool, fingerprint: string, user: string, keys: seq<Key>)
    ensures var r := FilterOutcome(ssh, syslogAvailable, fingerprint, user, keys);
            r.Filtered? ==> forall k :: k in r.keys ==> Attributed(k) && k in keys
  {
  }

  // ---------------------------------------------------------------------------------------
  // Output

  /** getSSHOptions: the options followed by one space, or nothing. */
  function SshOptionsPrefix(sshOptions: string): (r: string)
    ensures sshOptions == "" ==> r == ""
    ensures sshOptions != "" ==> r == sshOptions + " "
  {
    if sshOptions == "" then sshOptions else sshOptions + " "
  }

  /** getAuthorizedKeysLine: the options prefix, the public key unchanged, and a newline. */
  function AuthorizedKeysLine(k: Key): string {
    SshOptionsPrefix(k.sshOptions) + k.publicKey + "\n"
  }

  /** An authorized_keys line ends with the key text and a newline, and starts with the options, if any. */
  lemma AuthorizedKeysLineShape(k: Key)
    ensures var line := AuthorizedKeysLine(k);
            HasSuffix(line, k.publicKey + "\n") && HasPrefix(line, SshOptionsPrefix(k.sshOptions))
            && |line| == |SshOptionsPrefix(k.sshOptions)| + |k.publicKey| + 1
  {
    var line := AuthorizedKeysLine(k);
    var p := SshOptionsPrefix(k.sshOptions);
    assert line[..|p|] == p;
    assert line[|line| - |k.publicKey + "\n"|..] == k.publicKey + "\n";
  }

  /** Changing the options of a key changes only the prefix of its line: what follows it is the key and a newline. */
  lemma OptionsOnlyChangePrefix(k: Key, options: string)
    ensures var line := AuthorizedKeysLine(k.(sshOptions := options));
            line == SshOptionsPrefix(options) + k.publicKey + "\n"
    ensures options == "" ==> AuthorizedKeysLine(k.(sshOptions := options)) == k.publicKey + "\n"
  {
    var line := AuthorizedKeysLine(k.(sshOptions := options));
    var p := SshOptionsPrefix(options);
    assert line[..|p|] == p;
    assert line[|p|..] == k.publicKey + "\n";
    assert line == line[..|p|] + line[|p|..];
  }

  /** The lines written from index `i` on: one per key, until the first write that fails. */
  function EmittedFrom(keys: seq<Key>, accepts: nat -> bool, i: nat): seq<string>
    decreases |keys| - i
  {
    if i >= |keys| || !accepts(i) then []
    else [AuthorizedKeysLine(keys[i])] + EmittedFrom(keys, accepts, i + 1)
  }

  /**
    printAuthorizedKeys: write the keys' lines in order and stop, silently, at the first
    write that fails (a closed pipe). Each line is written verbatim; the source passes it to
    Printf as a format string, see PrintedAsWritten.
   */
  method PrintAuthorizedKeys(keys: seq<Key>, accepts: nat -> bool) returns (written: seq<string>)
    ensures written == EmittedFrom(keys, accepts, 0)
  {
    written := [];
    var i := 0;
    while i < |keys|
      invariant 0 <= i <= |keys|
      invariant EmittedFrom(keys, accepts, 0) == written + EmittedFrom(keys, accepts, i)
    {
      if !accepts(i) {
        break;
      }
      written := written + [AuthorizedKeysLine(keys[i])];
      i := i + 1;
    }
  }

  /**
    What is written is the first lines of the keys, in key order, and it is cut short only
    at a write that failed.
   */
  lemma {:induction false} EmittedPrefix(keys: seq<Key>, accepts: nat -> bool, i: nat)
    requires i <= |keys|
    ensures var e := EmittedFrom(keys, accepts, i);
            |e| <= |keys| - i
            && (forall j :: 0 <= j < |e| ==> e[j] == AuthorizedKeysLine(keys[i + j]) && accepts(i + j))
            && (i + |e| < |keys| ==> !accepts(i + |e|))
    decreases |keys| - i
  {
    if i < |keys| && accepts(i) {
      EmittedPrefix(keys, accepts, i + 1);
      var rest := EmittedFrom(keys, accepts, i + 1);
      var e := EmittedFrom(keys, accepts, i);
      assert e == [AuthorizedKeysLine(keys[i])] + rest;
      assert i + |e| == (i + 1) + |rest|;
      forall j | 0 <= j < |e|
        ensures e[j] == AuthorizedKeysLine(keys[i + j]) && accepts(i + j)
      {
        if j > 0 {
          var k := j - 1;
          assert e[j] == rest[k];
          assert i + j == (i + 1) + k;
        }
      }
    }
  }

  /** When every write succeeds, one line is written per key. */
  lemma EmittedAll(keys: seq<Key>, accepts: nat -> bool)
    requires forall j :: 0 <= j < |keys| ==> accepts(j)
    ensures |EmittedFrom(keys, accepts, 0)| == |keys|
  {
    EmittedPrefix(keys, accepts, 0);
  }

  /** The text fmt.Printf(line) writes, as printAuthorizedKeys calls it. */
  function PrintedAsWritten(k: Key): string
    requires Fmt.SimpleDirectives(AuthorizedKeysLine(k))
  {
    Fmt.PrintfNoOperands(AuthorizedKeysLine(k))
  }

  /**
    Lines without `%` are printed as they are, but a key whose options hold one `%` verb
    (say command="date +%s") is printed with that verb replaced by `%!s(MISSING)`.
   */
  lemma PrintfMangledOptions(k: Key, before: string, verb: char, after: string)
    requires k.sshOptions == before + ['%', verb] + after
    requires Fmt.NoPercent(before) && Fmt.NoPercent(after) && Fmt.NoPercent(k.publicKey)
    requires verb != '%' && !Fmt.IsModifier(verb)
    ensures Fmt.SimpleDirectives(AuthorizedKeysLine(k))
    ensures PrintedAsWritten(k) == before + "%!" + [verb] + "(MISSING)" + after + " " + k.publicKey + "\n"
    ensures PrintedAsWritten(k) != AuthorizedKeysLine(k)
  {
    var tail := after + " " + k.publicKey + "\n";
    assert Fmt.NoPercent(tail);
    assert AuthorizedKeysLine(k) == before + ['%', verb] + tail;
    Fmt.PrintfMissingOperand(before, verb, tail);
    assert before + "%!" + [verb] + "(MISSING)" + tail == before + "%!" + [verb] + "(MISSING)" + after + " " + k.publicKey + "\n";
  }

  lemma PrintfKeepsPlainLine(k: Key)
    requires Fmt.NoPercent(AuthorizedKeysLine(k))
    ensures Fmt.SimpleDirectives(AuthorizedKeysLine(k)) && PrintedAsWritten(k) == AuthorizedKeysLine(k)
  {
    Fmt.PrintfPlain(AuthorizedKeysLine(k));
  }

  // ---------------------------------------------------------------------------------------
  // Flags over configuration

  /** mustVerify: the flag can switch verification on, never off; otherwise the configuration decides. */
  function MustVerify(flags: Flags, config: Config): (r: bool)
    ensures r <==> flags.verify || config.verify
  {
    if flags.verify then true else config.verify
  }

  /**
    getPublicKeys: the flag's single path replaces the configured list. None stands for the
    exit with status 10 when verification is on but no key is configured.
   */
  function PublicKeys(flags: Flags, config: Config): (r: Option<seq<string>>)
    ensures r.None? <==> flags.publicKeyPath == "" && config.publicKey == []
    ensures r.Some? ==> |r.value| > 0
    ensures flags.publicKeyPath != "" ==> r == Some([flags.publicKeyPath])
    ensures flags.publicKeyPath == "" && r.Some? ==> r.value == config.publicKey
  {
    var publicKeys := if flags.publicKeyPath != "" then [flags.publicKeyPath] else config.publicKey;
    if |publicKeys| == 0 then None else Some(publicKeys)
  }

  /** The cache directory: the flag, else the configured one, else the built-in default. */
  function CacheDir(flags: Flags, config: Config, defaultCacheDir: string): (dir: string)
    ensures flags.cacheDirPath != "" ==> dir == flags.cacheDirPath
    ensures flags.cacheDirPath == "" && config.cachedir != "" ==> dir == config.cachedir
    ensures flags.cacheDirPath == "" && config.cachedir == "" ==> dir == defaultCacheDir
  {
    var dir := Override(flags.cacheDirPath, config.cachedir);
    if dir == "" then defaultCacheDir else dir
  }

  /** getUserFilename: a hidden JSON file per account in the cache directory. */
  function CacheFileName(dir: string, user: string): string {
    dir + "/." + user + ".json"
  }

  /** Two accounts never share a cache file. */
  lemma CacheFileNameInjective(dir: string, user1: string, user2: string)
    ensures CacheFileName(dir, user1) == CacheFileName(dir, user2) ==> user1 == user2
  {
    if CacheFileName(dir, user1) == CacheFileName(dir, user2) {
      var n := |dir + "/."|;
      var f1 := CacheFileName(dir, user1);
      var f2 := CacheFileName(dir, user2);
      assert |user1| == |user2|;
      assert f1[n..n + |user1|] == user1;
      assert f2[n..n + |user2|] == user2;
    }
  }

  /**
    loadHostname after os.Hostname succeeded: the prefix flag, else the configured prefix, goes
    in front. The suffix flag also goes in front; only the configured suffix is appended.
   */
  function Hostname(base: string, flags: Flags, config: Config): string {
    var hostname :=
      if flags.hostnamePrefix != "" then flags.hostnamePrefix + base
      else if config.hostnamePrefix != "" then config.hostnamePrefix + base
      else base;
    if flags.hostnameSuffix != "" then flags.hostnameSuffix + hostname
    else if config.hostnameSuffix != "" then hostname + config.hostnameSuffix
    else hostname
  }

  /** The host name in one piece: suffix flag, effective prefix, the machine's name, configured suffix unless the flag is set. */
  lemma HostnameShape(base: string, flags: Flags, config: Config)
    ensures Hostname(base, flags, config) ==
            flags.hostnameSuffix + Override(flags.hostnamePrefix, config.hostnamePrefix) + base
            + (if flags.hostnameSuffix == "" then config.hostnameSuffix else "")
  {
    var pre := Override(flags.hostnamePrefix, config.hostnamePrefix);
    if flags.hostnameSuffix == "" {
      assert flags.hostnameSuffix + pre == pre;
    } else {
      assert pre + base + "" == pre + base;
    }
  }

  /**
    loadHostname: the machine's name (None when os.Hostname fails, which Query turns into
    exit 6) with the prefix and suffix applied one reassignment at a time.
   */
  method LoadHostname(machine: Option<string>, flags: Flags, config: Config) returns (hostname: Option<string>)
    ensures hostname.None? <==> machine.None?
    ensures machine.Some? ==> hostname.value == Hostname(machine.value, flags, config)
    ensures machine.Some? ==>
              hostname.value == flags.hostnameSuffix + Override(flags.hostnamePrefix, config.hostnamePrefix)
                                + machine.value + (if flags.hostnameSuffix == "" then config.hostnameSuffix else "")
  {
    if machine.None? {
      return None;
    }
    var name := machine.value;
    if flags.hostnamePrefix != "" {
      name := flags.hostnamePrefix + name;
    } else {
      if config.hostnamePrefix != "" {
        name := config.hostnamePrefix + name;
      }
    }
    if flags.hostnameSuffix != "" {
      name := flags.hostnameSuffix + name;
    } else {
      if config.hostnameSuffix != "" {
        name := name + config.hostnameSuffix;
      }
    }
    HostnameShape(machine.value, flags, config);
    hostname := Some(name);
  }

  /** Setting the suffix flag never appends anything to the name: it always ends with the machine's name. */
  lemma HostnameSuffixFlagPrepends(base: string, flags: Flags, config: Config)
    requires flags.hostnameSuffix != ""
    ensures HasSuffix(Hostname(base, flags, config), base)
    ensures HasPrefix(Hostname(base, flags, config), flags.hostnameSuffix)
  {
    HostnameShape(base, flags, config);
    var h := Hostname(base, flags, config);
    assert h[|h| - |base|..] == base;
    assert h[..|flags.hostnameSuffix|] == flags.hostnameSuffix;
  }

  // ---------------------------------------------------------------------------------------
  // The request

  /** The query values: `f` with the fingerprint, `c` with the third of exactly four space-separated connection fields. */
  function QueryParams(flags: Flags): (q: map<string, string>)
    ensures "f" in q <==> flags.sshFingerprint != ""
    ensures "f" in q ==> q["f"] == flags.sshFingerprint
    ensures "c" in q <==> flags.sshConnection != "" && |Split(flags.sshConnection, ' ')| == 4
    ensures "c" in q ==> q["c"] == Split(flags.sshConnection, ' ')[2] && ' ' !in q["c"]
    ensures q.Keys <= {"f", "c"}
  {
    var q := if flags.sshFingerprint != "" then map["f" := flags.sshFingerprint] else map[];
    if flags.sshConnection != "" then
      var connectionParts := Split(flags.sshConnection, ' ');
      if |connectionParts| == 4 then q["c" := connectionParts[2]] else q
    else q
  }

  /** For an SSH_CONNECTION value "client-ip client-port server-ip server-port", `c` is the server address. */
  lemma ConnectionParameter(flags: Flags, clientIp: string, clientPort: string, serverIp: string, serverPort: string)
    requires ' ' !in clientIp && ' ' !in clientPort && ' ' !in serverIp && ' ' !in serverPort
    requires flags.sshConnection == clientIp + " " + clientPort + " " + serverIp + " " + serverPort
    ensures "c" in QueryParams(flags) && QueryParams(flags)["c"] == serverIp
  {
    var parts := [clientIp, clientPort, serverIp, serverPort];
    assert Join(parts[..3], " ") == clientIp + " " + clientPort + " " + serverIp by {
      assert parts[..3][..2] == parts[..2];
      assert parts[..2][..1] == parts[..1];
      JoinSnoc(parts[..1], clientPort, " ");
      assert parts[..1] + [clientPort] == parts[..2];
      JoinSnoc(parts[..2], serverIp, " ");
      assert parts[..2] + [serverIp] == parts[..3];
    }
    JoinSnoc(parts[..3], serverPort, " ");
    assert parts[..3] + [serverPort] == parts;
    SplitJoin(parts, ' ');
    assert |flags.sshConnection| > 0;
  }

  /** The context timeout: the configured one when positive, else 5000 ms. */
  function TimeoutMs(config: Config): (ms: int)
    ensures ms > 0
    ensures config.timeout > 0 ==> ms == config.timeout
    ensures config.timeout <= 0 ==> ms == DEFAULT_TIMEOUT_MS
  {
    if config.timeout > 0 then config.timeout else DEFAULT_TIMEOUT_MS
  }

  /** The request performQuery sends. */
  function RequestFor(w: World, flags: Flags, config: Config, url: string, token: string, hostname: string, user: string): (r: Request)
    ensures r.headers.Keys == {"User-Agent", "Authorization", "Accept"}
    ensures r.headers["Authorization"] == "Bearer " + token && r.headers["Accept"] == "application/json"
    ensures r.timeoutMs.Some? && r.timeoutMs.value > 0
    ensures r.headers["User-Agent"] == w.userAgent
    ensures r.baseUrl == url && r.hostname == hostname && r.user == user
    ensures r.query == QueryParams(flags) && r.timeoutMs == Some(TimeoutMs(config))
  {
    Request(url, hostname, user, QueryParams(flags),
      map["User-Agent" := w.userAgent, "Authorization" := "Bearer " + token, "Accept" := "application/json"],
      Some(TimeoutMs(config)))
  }

  /** performQuery: exit 6 without a host name, else the classified HTTP outcome. */
  function FetchOutcome(w: World, flags: Flags, config: Config, url: string, token: string, user: string): (r: Fetch)
    ensures r.HostnameUnavailable? <==> w.hostname.None?
    ensures r.FetchFailed? ==> r.code in {FETCH_BAD_REQUEST, FETCH_TRANSPORT, FETCH_AUTHORITY}
  {
    match w.hostname
    case None => HostnameUnavailable
    case Some(base) => Classify(w.http(RequestFor(w, flags, config, url, token, Hostname(base, flags, config), user)))
  }

  // ---------------------------------------------------------------------------------------
  // The cache

  /** writeCacheFile: the JSON of the keys replaces the cache file (status 0), or nothing changes (status 21). */
  function WriteCacheFile(json: KeyCodec, fs: FileSystem, path: string, keys: seq<Key>): (r: (FileSystem, int))
    ensures r.1 == EXIT_OK <==> path !in fs.readOnly
    ensures r.1 in {EXIT_OK, EXIT_CACHE_WRITE}
    ensures r.1 == EXIT_OK ==> ReadFile(r.0, path) == Some(json.marshal(keys))
                               && forall p :: p != path ==> ReadFile(r.0, p) == ReadFile(fs, p)
    ensures r.1 != EXIT_OK ==> r.0 == fs
  {
    match WriteFile(fs, path, json.marshal(keys))
    case None => (fs, EXIT_CACHE_WRITE)
    case Some(fs') => (fs', EXIT_OK)
  }

  /** loadCacheFile: the cached keys; a missing or undecodable file gives none (its status is always 0). */
  function LoadCacheFile(json: KeyCodec, fs: FileSystem, path: string): (keys: seq<Key>)
    ensures ReadFile(fs, path).None? ==> keys == []
    ensures ReadFile(fs, path).Some? && json.unmarshal(ReadFile(fs, path).value).None? ==> keys == []
  {
    match ReadFile(fs, path)
    case None => []
    case Some(data) =>
      match json.unmarshal(data)
      case None => []
      case Some(keys) => keys
  }

  /** With a codec that reads back what it writes, a successful cache write is loaded back unchanged. */
  lemma CacheRoundTrip(json: KeyCodec, fs: FileSystem, path: string, keys: seq<Key>)
    requires json.unmarshal(json.marshal(keys)) == Some(keys)
    requires path !in fs.readOnly
    ensures LoadCacheFile(json, WriteCacheFile(json, fs, path, keys).0, path) == keys
  {
  }

  // ---------------------------------------------------------------------------------------
  // The query

  /** The keys Query goes on with: fetched (and cached, with the cache status) or read from the cache; or an early exit. */
  datatype Obtained = Got(keys: seq<Key>, code: int, fs: FileSystem) | Halt(code: int)

  /** The keys handed to printAuthorizedKeys, with the exit status and the syslog line; or an exit before printing. */
  datatype Outcome = Deliver(keys: seq<Key>, code: int, fs: FileSystem, audit: Option<string>) | Exit(code: int, fs: FileSystem)

  /** One run of the agent: exit status, the lines written to standard output, the files afterwards, the syslog line. */
  datatype Run = Run(exit: int, stdout: seq<string>, fs: FileSystem, audit: Option<string>)

  /** The first half of Query: fetch, else fall back to the cache. */
  function Obtain(w: World, flags: Flags, config: Config, fs: FileSystem, path: string, user: string): (r: Obtained)
    ensures r.Halt? ==> r.code in {EXIT_HOSTNAME, EXIT_BAD_BODY}
    ensures r.Got? ==> r.code in {EXIT_OK, EXIT_CACHE_WRITE}
  {
    match FetchOutcome(w, flags, config, Override(flags.url, config.url), Override(flags.accessToken, config.token), user)
    case HostnameUnavailable => Halt(EXIT_HOSTNAME)
    case Fetched(body) =>
      (match w.json.unmarshal(body)
       case None => Halt(EXIT_BAD_BODY)
       case Some(keys) =>
         var written := WriteCacheFile(w.json, fs, path, keys);
         Got(keys, written.1, written.0))
    case FetchFailed(_) => Got(LoadCacheFile(w.json, fs, path), EXIT_OK, fs)
  }

  /** The keys that survive verification when it must be done; None for the exit with status 10. */
  function Trusted(w: World, flags: Flags, config: Config, fs: FileSystem, keys: seq<Key>): (r: Option<seq<Key>>)
    ensures !MustVerify(flags, config) ==> r == Some(keys)
    ensures r.None? <==> MustVerify(flags, config) && PublicKeys(flags, config).None?
  {
    if !MustVerify(flags, config) then Some(keys)
    else
      match PublicKeys(flags, config)
      case None => None
      case Some(specs) => Some(Verified(w.crypto, fs, specs, keys))
  }

  /** The keys printed from the trusted ones: all of them, or the one the fingerprint selects. */
  function Narrow(w: World, flags: Flags, fs: FileSystem, user: string, keys: seq<Key>, code: int): (o: Outcome)
    ensures flags.sshFingerprint == "" ==> o == Deliver(keys, code, fs, None)
    ensures o.fs == fs && (o.Exit? ==> o.code == EXIT_PANIC) && (o.Deliver? ==> o.code == code)
  {
    if flags.sshFingerprint == "" then Deliver(keys, code, fs, None)
    else
      match FilterOutcome(w.ssh, w.syslogAvailable, flags.sshFingerprint, user, keys)
      case Panicked => Exit(EXIT_PANIC, fs)
      case Filtered(kept, audit) => Deliver(kept, code, fs, audit)
  }

  /** The second half of Query: verification when it must be done, then the fingerprint filter when a fingerprint is given. */
  function Select(w: World, flags: Flags, config: Config, fs: FileSystem, user: string, keys: seq<Key>, code: int): (o: Outcome)
    ensures o.fs == fs && (o.Exit? ==> o.code in {EXIT_PANIC, EXIT_NO_PUBLIC_KEY}) && (o.Deliver? ==> o.code == code)
    ensures o == Exit(EXIT_NO_PUBLIC_KEY, fs) <==> MustVerify(flags, config) && PublicKeys(flags, config).None?
  {
    match Trusted(w, flags, config, fs, keys)
    case None => Exit(EXIT_NO_PUBLIC_KEY, fs)
    case Some(trusted) => Narrow(w, flags, fs, user, trusted, code)
  }

  function QueryOutcome(w: World, flags: Flags, fs: FileSystem, defaultCacheDir: string, user: string): (o: Outcome)
    ensures o.Exit? ==> o.code in {EXIT_PANIC, EXIT_CONFIG_UNREADABLE, EXIT_HOSTNAME, EXIT_CONFIG_MALFORMED, EXIT_BAD_BODY, EXIT_NO_PUBLIC_KEY}
    ensures o.Deliver? ==> o.code in {EXIT_OK, EXIT_CACHE_WRITE}
  {
    match w.config
    case ConfigUnreadable => Exit(EXIT_CONFIG_UNREADABLE, fs)
    case ConfigMalformed => Exit(EXIT_CONFIG_MALFORMED, fs)
    case ConfigOk(config) =>
      match Obtain(w, flags, config, fs, CacheFileName(CacheDir(flags, config, defaultCacheDir), user), user)
      case Halt(code) => Exit(code, fs)
      case Got(keys, code, fs') => Select(w, flags, config, fs', user, keys, code)
  }

  /** The run that ends in outcome `o`: nothing printed after an exit, the delivered keys' lines otherwise. */
  function Printed(o: Outcome, accepts: nat -> bool): (run: Run)
    ensures run.exit == o.code && run.fs == o.fs
    ensures o.Exit? ==> run.stdout == [] && run.audit.None?
  {
    match o
    case Exit(code, fs) => Run(code, [], fs, None)
    case Deliver(keys, code, fs, audit) => Run(code, EmittedFrom(keys, accepts, 0), fs, audit)
  }

  /** The reference behaviour of Query. */
  function QueryRun(w: World, flags: Flags, fs: FileSystem, defaultCacheDir: string, user: string): Run {
    Printed(QueryOutcome(w, flags, fs, defaultCacheDir, user), w.stdoutAccepts)
  }

  /**
    Query: the agent's run for one account, each os.Exit a return. The lines are written
    verbatim (see PrintAuthorizedKeys).
   */
  method Query(w: World, flags: Flags, fs: FileSystem, defaultCacheDir: string, user: string) returns (run: Run)
    ensures run == QueryRun(w, flags, fs, defaultCacheDir, user)
  {
    if w.config.ConfigUnreadable? {
      return Run(EXIT_CONFIG_UNREADABLE, [], fs, None);
    } else if w.config.ConfigMalformed? {
      return Run(EXIT_CONFIG_MALFORMED, [], fs, None);
    }
    var config := w.config.config;
    var theoUrl := config.url;
    if flags.url != "" {
      theoUrl := flags.url;
    }
    var theoToken := config.token;
    if flags.accessToken != "" {
      theoToken := flags.accessToken;
    }
    var hostname := LoadHostname(w.hostname, flags, config);
    if hostname.None? {
      return Run(EXIT_HOSTNAME, [], fs, None);
    }
    var fetched := Classify(w.http(RequestFor(w, flags, config, theoUrl, theoToken, hostname.value, user)));
    assert fetched == FetchOutcome(w, flags, config, theoUrl, theoToken, user);
    var userCacheFile := CacheFileName(CacheDir(flags, config, defaultCacheDir), user);
    ghost var obtained := Obtain(w, flags, config, fs, userCacheFile, user);
    assert QueryOutcome(w, flags, fs, defaultCacheDir, user) ==
           if obtained.Halt? then Exit(obtained.code, fs) else Select(w, flags, config, obtained.fs, user, obtained.keys, obtained.code);
    var keys: seq<Key>;
    var ret: int;
    var files := fs;
    if fetched.Fetched? {
      var parsed := w.json.unmarshal(fetched.body);
      if parsed.None? {
        return Run(EXIT_BAD_BODY, [], fs, None);
      }
      keys := parsed.value;
      var written := WriteCacheFile(w.json, fs, userCacheFile, keys);
      files, ret := written.0, written.1;
    } else {
      keys := LoadCacheFile(w.json, fs, userCacheFile);
      ret := EXIT_OK;
    }
    assert obtained == Got(keys, ret, files);
    if MustVerify(flags, config) {
      var publicKeys := PublicKeys(flags, config);
      if publicKeys.None? {
        return Run(EXIT_NO_PUBLIC_KEY, [], files, None);
      }
      keys := VerifyKeys(w.crypto, files, publicKeys.value, keys);
    }
    assert Trusted(w, flags, config, files, obtained.keys) == Some(keys);
    ghost var trusted := keys;
    var audit: Option<string> := None;
    if flags.sshFingerprint != "" {
      var filtered := FilterKeysByFingerprint(w.ssh, w.syslogAvailable, flags.sshFingerprint, user, keys);
      if filtered.Panicked? {
        return Run(EXIT_PANIC, [], files, None);
      }
      keys, audit := filtered.keys, filtered.audit;
    }
    assert Narrow(w, flags, files, user, trusted, ret) == Deliver(keys, ret, files, audit);
    var lines := PrintAuthorizedKeys(keys, w.stdoutAccepts);
    run := Run(ret, lines, files, audit);
  }

  // ---------------------------------------------------------------------------------------
  // Properties of a query

  /** The exit statuses a query can end with. */
  lemma QueryExitStatus(w: World, flags: Flags, fs: FileSystem, defaultCacheDir: string, user: string)
    ensures QueryRun(w, flags, fs, defaultCacheDir, user).exit in
            {EXIT_OK, EXIT_PANIC, EXIT_CONFIG_UNREADABLE, EXIT_HOSTNAME, EXIT_CONFIG_MALFORMED, EXIT_BAD_BODY, EXIT_NO_PUBLIC_KEY, EXIT_CACHE_WRITE}
    ensures QueryRun(w, flags, fs, defaultCacheDir, user).stdout != [] ==> QueryRun(w, flags, fs, defaultCacheDir, user).exit in {EXIT_OK, EXIT_CACHE_WRITE}
  {
  }

  /**
    A body that does not decode ends the run with status 9: nothing is printed, the cache is
    left as it was and it is not consulted either.
   */
  lemma BadBodyIsFinal(w: World, flags: Flags, fs: FileSystem, defaultCacheDir: string, user: string, body: string)
    requires w.config.ConfigOk?
    requires var config := w.config.config;
             FetchOutcome(w, flags, config, Override(flags.url, config.url), Override(flags.accessToken, config.token), user) == Fetched(body)
    requires w.json.unmarshal(body).None?
    ensures QueryRun(w, flags, fs, defaultCacheDir, user) == Run(EXIT_BAD_BODY, [], fs, None)
  {
  }

  /**
    A fetched and decoded key list is cached as fetched, before verification or filtering:
    even a run that then exits 10, because verification is required and no public key is
    named, has written the cache.
   */
  lemma FetchedKeysAreCached(w: World, flags: Flags, fs: FileSystem, defaultCacheDir: string, user: string, body: string, keys: seq<Key>)
    requires w.config.ConfigOk?
    requires var config := w.config.config;
             FetchOutcome(w, flags, config, Override(flags.url, config.url), Override(flags.accessToken, config.token), user) == Fetched(body)
    requires w.json.unmarshal(body) == Some(keys)
    ensures var config := w.config.config;
            var path := CacheFileName(CacheDir(flags, config, defaultCacheDir), user);
            var run := QueryRun(w, flags, fs, defaultCacheDir, user);
            (path !in fs.readOnly ==> ReadFile(run.fs, path) == Some(w.json.marshal(keys)))
            && (path in fs.readOnly ==> run.fs == fs && (run.exit == EXIT_CACHE_WRITE || run.stdout == []))
    ensures var config := w.config.config;
            var run := QueryRun(w, flags, fs, defaultCacheDir, user);
            MustVerify(flags, config) && PublicKeys(flags, config).None? ==>
              run.exit == EXIT_NO_PUBLIC_KEY && run.stdout == []
  {
  }

  /**
    When the authority cannot be reached or refuses, the cached keys are used, nothing is
    written, and the status is 0 unless a later step stops the run (10 or a panic).
   */
  lemma FallbackUsesCache(w: World, flags: Flags, fs: FileSystem, defaultCacheDir: string, user: string, code: int)
    requires w.config.ConfigOk?
    requires var config := w.config.config;
             FetchOutcome(w, flags, config, Override(flags.url, config.url), Override(flags.accessToken, config.token), user) == FetchFailed(code)
    ensures var config := w.config.config;
            var path := CacheFileName(CacheDir(flags, config, defaultCacheDir), user);
            QueryOutcome(w, flags, fs, defaultCacheDir, user) == Select(w, flags, config, fs, user, LoadCacheFile(w.json, fs, path), EXIT_OK)
    ensures var run := QueryRun(w, flags, fs, defaultCacheDir, user);
            run.fs == fs && run.exit in {EXIT_OK, EXIT_PANIC, EXIT_NO_PUBLIC_KEY}
  {
  }

  /** With the authority unreachable and no usable cache file, the run prints nothing and, unless verification lacks a key, exits 0. */
  lemma FallbackWithoutCache(w: World, flags: Flags, fs: FileSystem, defaultCacheDir: string, user: string, code: int)
    requires w.config.ConfigOk?
    requires var config := w.config.config;
             FetchOutcome(w, flags, config, Override(flags.url, config.url), Override(flags.accessToken, config.token), user) == FetchFailed(code)
    requires LoadCacheFile(w.json, fs, CacheFileName(CacheDir(flags, w.config.config, defaultCacheDir), user)) == []
    ensures var run := QueryRun(w, flags, fs, defaultCacheDir, user);
            run.stdout == [] && run.exit in {EXIT_OK, EXIT_NO_PUBLIC_KEY}
  {
    var config := w.config.config;
    if MustVerify(flags, config) && PublicKeys(flags, config).Some? {
      VerifiedWithoutKeys(w.crypto, fs, PublicKeys(flags, config).value);
    }
  }

  lemma VerifiedWithoutKeys(c: Crypto, fs: FileSystem, specs: seq<string>)
    ensures Verified(c, fs, specs, []) == []
  {
    forall i | 0 <= i < |specs|
      ensures Loaded(c, fs, specs)[i].None? || AcceptedBy(c, Loaded(c, fs, specs)[i].value, []) == []
    {
    }
    VerifiedWithEmptyKeys(c, Loaded(c, fs, specs));
  }

  lemma {:induction false} VerifiedWithEmptyKeys(c: Crypto, trust: seq<Option<Verifier>>)
    ensures VerifiedWith(c, trust, []) == []
    decreases |trust|
  {
    if trust != [] {
      VerifiedWithEmptyKeys(c, trust[..|trust| - 1]);
    }
  }

  /**
    With verification on, every key handed to the printer is one of the keys obtained and
    is accepted by the verifier of some trusted key.
   */
  lemma SelectOnlyTrusted(w: World, flags: Flags, config: Config, fs: FileSystem, user: string, keys: seq<Key>, code: int)
    requires MustVerify(flags, config)
    ensures var o := Select(w, flags, config, fs, user, keys, code);
            o.Deliver? ==>
              var trust := Loaded(w.crypto, fs, PublicKeys(flags, config).value);
              forall k :: k in o.keys ==> k in keys && exists i :: 0 <= i < |trust| && Vouches(w.crypto, trust[i], k)
  {
    var o := Select(w, flags, config, fs, user, keys, code);
    if o.Deliver? {
      var specs := PublicKeys(flags, config).value;
      var verified := Verified(w.crypto, fs, specs, keys);
      if flags.sshFingerprint != "" {
        FilterSkipsUnattributed(w.ssh, w.syslogAvailable, flags.sshFingerprint, user, verified);
      }
      assert forall k :: k in o.keys ==> k in verified;
      forall k | k in o.keys
        ensures k in keys && exists i :: 0 <= i < |Loaded(w.crypto, fs, specs)| && Vouches(w.crypto, Loaded(w.crypto, fs, specs)[i], k)
      {
        VerifiedMembership(w.crypto, fs, specs, keys, k);
      }
    }
  }

  /** With a fingerprint, at most one key is handed on, and it is attributed and matches. */
  lemma SelectByFingerprint(w: World, flags: Flags, config: Config, fs: FileSystem, user: string, keys: seq<Key>, code: int)
    requires flags.sshFingerprint != ""
    ensures var o := Select(w, flags, config, fs, user, keys, code);
            o.Deliver? ==> |o.keys| <= 1 && forall k :: k in o.keys ==> MatchesFingerprint(w.ssh, flags.sshFingerprint, k)
  {
    var verified := if MustVerify(flags, config) && PublicKeys(flags, config).Some? then Verified(w.crypto, fs, PublicKeys(flags, config).value, keys) else keys;
    FilterKeepsFirstMatch(w.ssh, w.syslogAvailable, flags.sshFingerprint, user, verified);
  }

  /** Without verification and without a fingerprint, every obtained key is handed on, in order. */
  lemma SelectPassesAll(w: World, flags: Flags, config: Config, fs: FileSystem, user: string, keys: seq<Key>, code: int)
    requires !MustVerify(flags, config) && flags.sshFingerprint == ""
    ensures Select(w, flags, config, fs, user, keys, code) == Deliver(keys, code, fs, None)
  {
  }

  /** What is printed is the lines of the delivered keys, in order, up to the first failed write; all of them when every write succeeds. */
  lemma PrintedDelivered(o: Outcome, accepts: nat -> bool)
    requires o.Deliver?
    ensures var run := Printed(o, accepts);
            |run.stdout| <= |o.keys| && run.audit == o.audit
            && (forall j :: 0 <= j < |run.stdout| ==> run.stdout[j] == AuthorizedKeysLine(o.keys[j]))
            && ((forall j :: 0 <= j < |o.keys| ==> accepts(j)) ==> |run.stdout| == |o.keys|)
  {
    EmittedPrefix(o.keys, accepts, 0);
  }
}
