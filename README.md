# theo-agent, modelled in Dafny

theo-agent is the program sshd runs as its `AuthorizedKeysCommand`. Given a user name, it:

1. asks a Theo server for that user's authorized keys;
2. caches the answer on disk;
3. falls back to the cache when the server cannot be reached;
4. optionally keeps only keys signed by a trusted public key (`-verify`);
5. optionally keeps only the key whose SHA-256 fingerprint sshd passed in (`-fingerprint`);
6. prints the result in `authorized_keys` format.

The installer edits `sshd_config` so that sshd calls the agent.

This project models three parts of the repository:

- `cmd/agent.go`: the current agent (module `CmdAgent`, file `cmd_agent.dfy`);
- `agent.go`: the older agent, which trusts one RSA key and works on the raw response body (module `LegacyAgent`, file `legacy_agent.dfy`);
- `install.go`: how the installer computes the sshd options, gates on the OpenSSH version, rewrites `sshd_config` and parses `sshd -v` output (module `Install`, file `install.dfy`).

Supporting modules:

- `Base` (`base.dfy`): `Option`.
- `Text` (`text.dfy`): the parts of Go's `strings` and `strconv` packages that the core uses (`Index`, `Trim`, `Split`, `Join`, `ParseInt`), each with its specification proved.
- `Fmt` (`fmt.dfy`): how `fmt.Printf` treats a format string when no operands are passed.
- `Platform` (`platform.dfy`): the file system, the crypto library, the HTTP client and the mapping from HTTP outcomes to `performQuery` return codes.

## How the environment is modelled

The environment enters the model as values:

- The file system is a map of paths to contents, plus a set of read-only paths.
- The configuration file, `os.Hostname`, the HTTP client, the JSON codec, PEM/PKIX decoding, signature checking and SSH key parsing and fingerprints are function-typed fields of a `World` value.
- `K_CACHE_PATH` is the parameter `defaultCacheDir`.
- In `CmdAgent`, the success of each stdout write is a parameter `accepts`. `LegacyAgent` takes its writes to stdout as succeeding (see "## Left out").
- The version tokens of `sshd -v` are the input of `ParseSSHDVersion`.

Each entry point returns what the process would do:

- `CmdAgent.Query` and `LegacyAgent.Query` return a `Run`: the exit status, what is printed, the new file system and (cmd only) the syslog audit line.
- `Install.DoEditSshdConfig` returns the file text written or the exit status.

Go panics are explicit outcomes, never preconditions:

- in `filterKeysByFingerprint`, `ParsePanic` is modelled as exit 2;
- in `parseSSHDVersion`, `IndexPanic` is an outcome.

Every loop of the source is a `method` proved against a specification function:

- `VerifyKeys`, `AppendAccepted`, `FilterKeysByFingerprint`, `PrintAuthorizedKeys`, `Query`;
- `Remove`, `MatchLine`, `ScanInPlace`, `AppendPending`, `EditLines`, `ParseSSHDVersion`.

The Go slices that `doEditSshdConfig` updates in place (`lines`, `sshconfigs`) are arrays. `remove` is the same swap-with-last and truncate on the array.

### Where the code and its description differ (the model follows the code)

One exception: the key lines printed by `CmdAgent.Query` are the corrected, verbatim ones, not the `fmt.Printf` output (see "## Findings").

- **cmd `verifyKeys` with no usable key.** When no trusted key can be loaded (every specifier is blank, unreadable, not PEM, or not RSA/Ed25519), it returns an empty list. It does not return an error (`VerifiedWithoutVerifier`, `VerifiedBlankSpecifiers`).
- **cmd keys trusted more than once.** A key accepted by several trusted keys is returned once per accepting key (`VerifiedMultiplicity`).
- **cmd fallback without a cache file.** On fallback, a missing or undecodable cache file gives an empty key list. Nothing is printed and the exit status is 0 (`FallbackWithoutCache`).
- **cmd exit 10.** With `-verify` set but no public key, the agent exits 10 only after the fetch and the cache write. The fetched keys are cached before they are verified, and the run then exits 10 with no output (`FetchedKeysAreCached`).
- **Legacy caching.** The legacy agent caches the body after verification. The printed text is that body plus a newline (`PrintedIsCached`).
- **Legacy missing cache.** The legacy agent exits 2 when the cache file is missing (`FallbackPrintsCache`).
- **cmd `-hostname-suffix` flag.** In cmd `loadHostname` the suffix flag is PREPENDED to the host name, and it suppresses the configured suffix (`HostnameSuffixFlagPrepends`). The model keeps this as written.
- **sshd_config matching.** `doEditSshdConfig` matches a line when the option name occurs anywhere in it (`strings.Index`). So a line holding `AuthorizedKeysCommandUser` also matches the pending `AuthorizedKeysCommand`, and is rewritten by whichever pending option comes first. Commented-out lines match too. The model keeps this: `ScanKeepsOrRewrites` states only "kept, or rewritten by an option whose name it contains".

## Model

| member | source | states |
|---|---|---|
| Text.IndexSpec | install.go:190 | `strings.Index` gives the first occurrence of the substring, or a negative value exactly when there is none |
| Text.TrimSpec | cmd/agent.go:380 | `strings.Trim(s, " ")` is the slice of s between a run of leading spaces and a run of trailing spaces, it neither starts nor ends with a space, and it is empty exactly when s is all spaces |
| Text.TrimKeepsKey | install.go:192 | trimming "key value" keeps a clean option name as the line's prefix |
| Text.Split | install.go:182 | splitting gives at least one piece, no piece holds the separator, and joining the pieces gives back the input |
| Text.SplitJoin | install.go:182 | splitting a join of separator-free pieces gives back the pieces (round trip) |
| Text.SplitAfterPiece | cmd/agent.go:221 | splitting is piecewise: the first separator-free piece comes first |
| Text.ParseIntNatToString | install.go:271-274 | `strconv.ParseInt` reads back every decimal rendering of a 64-bit non-negative value |
| Text.ParseInt | install.go:271 | a parsed value lies in the int64 range, and digits make up the input from its first or second character on |
| Text.ParseIntSpec | install.go:271 | `strconv.ParseInt(s, 10, 64)` accepts exactly digits, or `+` or `-` followed by digits, whose signed base-10 value lies in the int64 range, and returns that value |
| Fmt.PrintfNoOperands | cmd/agent.go:185 | `Printf` with no operands writes nothing exactly when the format is empty (PrintfPlain and PrintfMissingOperand state what it writes) |
| Fmt.PrintfMissingOperand | cmd/agent.go:185 | a `%` verb with no operand prints as `%!v(MISSING)`, so the output differs from the format |
| Fmt.PrintfPlain | cmd/agent.go:185 | a format without `%` prints unchanged |
| Platform.Classify | cmd/agent.go:208-265 | the body is returned exactly for a response with status at most 399 and a readable body; code 20 exactly for a status above 399 or an unreadable body; a request that cannot be built gives 8 and a transport error gives 9 |
| Platform.WriteFile | cmd/agent.go:268-278 | a write succeeds exactly when the path is writable, then reads back the data and leaves every other path unchanged |
| Platform.Override | cmd/agent.go:93-100 | a non-empty flag wins over the configured value |
| CmdAgent.NewVerifierFromKey | cmd/agent.go:451-474 | RSA and Ed25519 keys give a verifier of the matching scheme; any other algorithm gives none |
| CmdAgent.ParsePublicKey | cmd/agent.go:427-449 | a verifier comes from a "PUBLIC KEY" PEM block whose PKIX key is RSA or Ed25519, and every such block gives the verifier for its key |
| CmdAgent.LoadPublicKey | cmd/agent.go:416-425 | an unreadable key file gives no verifier; a readable one gives what its contents parse to |
| CmdAgent.LoadSpecifierCases | cmd/agent.go:380-392 | a trimmed specifier is skipped when blank, parsed inline when it starts with the PEM header, and otherwise read as a file path |
| CmdAgent.LoadAllAt | cmd/agent.go:378-392 | the i-th loaded verifier is the i-th specifier's |
| CmdAgent.LoadAllAppend | cmd/agent.go:378-392 | loading distributes over concatenated specifier lists |
| CmdAgent.VerifyKeys | cmd/agent.go:374-414 | the returned keys are, for each trusted key in order, the keys whose signature it accepts |
| CmdAgent.AppendAccepted | cmd/agent.go:395-410 | the inner loop appends exactly the accepted keys, in order |
| CmdAgent.AcceptedByCount | cmd/agent.go:395-410 | one trusted key keeps every copy of an accepted key and no copy of a rejected one |
| CmdAgent.VerifiedCount | cmd/agent.go:374-414 | a key's multiplicity in the result is (number of trusted keys accepting it) × (its multiplicity in the input) |
| CmdAgent.TrustCountPositive | cmd/agent.go:374-414 | that count is positive exactly when some trusted key accepts the key |
| CmdAgent.VerifiedMultiplicity | cmd/agent.go:374-414 | the multiplicity law, stated on the specifiers |
| CmdAgent.VerifiedMembership | cmd/agent.go:374-414 | a key is returned exactly when it was received and some loaded trusted key accepts its signature |
| CmdAgent.VerifiedAppend | cmd/agent.go:377-413 | verifying against specs1 ++ specs2 is the concatenation of the two results |
| CmdAgent.VerifiedWithoutVerifier | cmd/agent.go:374-414 | when no specifier loads, the result is empty (no error is raised) |
| CmdAgent.VerifiedBlankSpecifiers | cmd/agent.go:380-383 | blank specifiers alone give an empty result |
| CmdAgent.AcceptedByExtremes | cmd/agent.go:395-410 | all keys accepted keeps the list unchanged; none accepted gives an empty list |
| CmdAgent.VerifiedWithoutKeys | cmd/agent.go:374-414 | no received keys gives no verified keys |
| CmdAgent.SelectFrom | cmd/agent.go:163-180 | a selected index holds the first key whose fingerprint matches; a panic index holds an attributed key whose public key does not parse |
| CmdAgent.SelectFromFirst | cmd/agent.go:163-180 | every key before the stopping index is unattributed or does not match |
| CmdAgent.FilterKeysByFingerprint | cmd/agent.go:163-180 | the loop returns at most one key, matches the filter specification, and audits the matched key's account |
| CmdAgent.FilterKeepsFirstMatch | cmd/agent.go:163-180 | the result is empty, with no audit line, exactly when no key matches; otherwise it is the first match |
| CmdAgent.FilterSkipsUnattributed | cmd/agent.go:165-176 | only keys with an account, taken from the input, are ever returned |
| CmdAgent.SshOptionsPrefix | cmd/agent.go:196-201 | empty options give nothing; otherwise the options followed by one space |
| CmdAgent.AuthorizedKeysLineShape | cmd/agent.go:192-194 | an authorized_keys line is the options prefix, then the public key, then a newline |
| CmdAgent.OptionsOnlyChangePrefix | cmd/agent.go:192-201 | changing the options changes only the prefix; without options the line is the bare key |
| CmdAgent.PrintAuthorizedKeys | cmd/agent.go:182-190 | the lines written are the authorized_keys lines of the keys, in order, up to the first failed write |
| CmdAgent.EmittedPrefix | cmd/agent.go:182-190 | the j-th line written is the line of the j-th key and its write succeeded; the output stops early only at a write that failed |
| CmdAgent.EmittedAll | cmd/agent.go:182-190 | when every write succeeds, one line is written per key |
| CmdAgent.PrintfMangledOptions | cmd/agent.go:185 | as written, options holding a `%` verb are printed mangled |
| CmdAgent.PrintfKeepsPlainLine | cmd/agent.go:185 | as written, a line without `%` is printed intact |
| CmdAgent.MustVerify | cmd/agent.go:138-146 | verification is required exactly when the flag or the configuration asks for it |
| CmdAgent.PublicKeys | cmd/agent.go:148-161 | the -public-key flag wins over the configured list; none exists exactly when both are empty |
| CmdAgent.CacheDir | cmd/agent.go:280-292 | the flag, else the configured directory, else the default |
| CmdAgent.CacheFileNameInjective | cmd/agent.go:280-292 | different users get different cache files in one directory |
| CmdAgent.HostnameShape | cmd/agent.go:324-347 | the name is the suffix flag, then the prefix (flag or config), then the machine name, then the configured suffix when the flag is empty |
| CmdAgent.LoadHostname | cmd/agent.go:324-347 | fails exactly when os.Hostname does; otherwise gives the name of `HostnameShape`, the one `Query` sends in its request |
| CmdAgent.HostnameSuffixFlagPrepends | cmd/agent.go:337-339 | a non-empty suffix flag ends up at the FRONT of the name, and the name still ends with the machine name |
| CmdAgent.QueryParams | cmd/agent.go:216-226 | `f` is set exactly when a fingerprint is given; `c` is set exactly when SSH_CONNECTION has four space-separated fields, and holds the third |
| CmdAgent.ConnectionParameter | cmd/agent.go:219-225 | for "client-ip client-port server-ip server-port", `c` is the server IP |
| CmdAgent.TimeoutMs | cmd/agent.go:232-237 | the timeout is positive: the configured one when positive, and 5000 ms when the configured one is zero or negative |
| CmdAgent.RequestFor | cmd/agent.go:203-243 | the request goes to the given URL, host name and user; it carries the query parameters `QueryParams(flags)` (`f` and `c`), the timeout `TimeoutMs(config)`, and exactly the headers User-Agent (the agent's), a bearer Authorization and a JSON Accept |
| CmdAgent.FetchOutcome | cmd/agent.go:203-266 | the fetch fails on the host name exactly when os.Hostname fails; any other failure carries 8, 9 or 20 |
| CmdAgent.WriteCacheFile | cmd/agent.go:268-278 | success (0) exactly when the path is writable, and then the file holds the JSON of the keys and nothing else changes; otherwise 21 and no change |
| CmdAgent.LoadCacheFile | cmd/agent.go:294-308 | a missing or undecodable cache gives no keys |
| CmdAgent.CacheRoundTrip | cmd/agent.go:268-308 | keys written to the cache are read back unchanged |
| CmdAgent.Obtain | cmd/agent.go:101-121 | stops only on the host name (6) or a bad body (9); otherwise keys with status 0 or 21 |
| CmdAgent.Trusted | cmd/agent.go:122-128 | without verification the keys pass unchanged; no result exactly when verification is required and no public key is set |
| CmdAgent.Narrow | cmd/agent.go:129-131 | without a fingerprint the keys pass unchanged; the only failure is the panic |
| CmdAgent.Select | cmd/agent.go:122-131 | exits only with 2 or 10, and with 10 exactly when verification is required and neither flag nor configuration names a public key; otherwise keeps the status and the file system |
| CmdAgent.QueryOutcome | cmd/agent.go:86-136 | every exit status is one of the agent's codes; delivery happens only with 0 or 21 |
| CmdAgent.Printed | cmd/agent.go:132-135 | the exit status and file system pass through; an exit prints nothing |
| CmdAgent.Query | cmd/agent.go:86-136 | the query run is the composition of configuration, fetch or cache, verification, fingerprint filter and printing |
| CmdAgent.QueryExitStatus | cmd/agent.go:86-136 | exit codes are among {0,2,5,6,7,9,10,21}; output is printed only with 0 or 21 |
| CmdAgent.BadBodyIsFinal | cmd/agent.go:108-111 | an undecodable response body exits 9 with no output and no cache change |
| CmdAgent.FetchedKeysAreCached | cmd/agent.go:104-126 | fetched keys are written to the user's cache file (before verification) when it is writable; if verification is then required with no public key, the run exits 10 with no output |
| CmdAgent.FallbackUsesCache | cmd/agent.go:114-121 | a failed fetch serves the cached keys through the same selection, changing no file |
| CmdAgent.FallbackWithoutCache | cmd/agent.go:114-121 | a failed fetch with a missing or undecodable cache file prints nothing and exits 0 (or 10) |
| CmdAgent.SelectOnlyTrusted | cmd/agent.go:122-128 | under verification every delivered key was received and is vouched for by a loaded trusted key |
| CmdAgent.SelectByFingerprint | cmd/agent.go:129-131 | with a fingerprint at most one key is delivered, and it matches |
| CmdAgent.SelectPassesAll | cmd/agent.go:122-131 | without verification or fingerprint all keys are delivered |
| CmdAgent.PrintedDelivered | cmd/agent.go:132-135 | at most one line per delivered key, and the audit line is kept |
| LegacyAgent.Setting | agent.go:30-37 | a missing configuration key reads as "" |
| LegacyAgent.NewVerifierFromKey | agent.go:243-252 | only RSA keys give a verifier (PKCS#1 v1.5, SHA-256) |
| LegacyAgent.ParsePublicKey | agent.go:221-241 | a verifier comes only from a "PUBLIC KEY" PEM block holding an RSA PKIX key, and every such block gives the RSA verifier for its key |
| LegacyAgent.LoadPublicKey | agent.go:210-219 | an unreadable key file gives no verifier; a readable one gives what its contents parse to |
| LegacyAgent.CacheFileName | agent.go:121-123 | the cache file is named `<dir>/.<user>` |
| LegacyAgent.CacheFileNameInjective | agent.go:121-123 | different users get different cache files in one directory, and the user is the rest of the name |
| LegacyAgent.BufferShape | agent.go:188-205 | the verified body is a leading newline (when the first accepted key is not first) followed by the accepted public keys joined by newlines |
| LegacyAgent.AcceptedNoneBefore | agent.go:188-205 | an empty accepted list means every key was rejected and the body is empty |
| LegacyAgent.AcceptedKeysSound | agent.go:188-205 | every public key in the output belongs to a received key whose signature verifies |
| LegacyAgent.VerifiedBody | agent.go:175-208 | verification fails exactly when the body does not decode or the trusted key does not load |
| LegacyAgent.VerifyKeys | agent.go:175-208 | the loop builds the verified body of the specification |
| LegacyAgent.RequestFor | agent.go:64-84 | the request goes to the given URL, host name and user; `f` is set exactly when a fingerprint is given and then holds it; the headers are the agent's User-Agent, a bearer Authorization and, exactly with -verify, a JSON Accept; no timeout |
| LegacyAgent.FetchOutcome | agent.go:64-108 | the fetch fails on the host name exactly when os.Hostname fails |
| LegacyAgent.Delivered | agent.go:32-48 | verification stops only with 9 or 10, and with 10 exactly when -verify is set and the key path (flag, else `public_key` setting) is empty; without -verify the body passes unchanged |
| LegacyAgent.Query | agent.go:24-62 | the query run follows the specification of configuration, fetch, verification, print, cache and fallback |
| LegacyAgent.DirectQueryHasNoEffect | agent.go:56-59 | with url and token given, the query prints nothing and changes no file |
| LegacyAgent.PrintedIsCached | agent.go:50-53 | printed text ends in a newline; with exit 0 the cache holds the text without it, otherwise exit 21 and no change |
| LegacyAgent.FallbackPrintsCache | agent.go:54-55 | a failed fetch prints the cache file as it is (exit 0), or prints nothing and exits 2 |
| LegacyAgent.CacheCarriesOver | agent.go:24-62 | after a successful run, a run that cannot reach the server prints the same text |
| LegacyAgent.VerifyFailureIsFinal | agent.go:43-45 | an undecodable body or an unloadable key exits 9, printing nothing and caching nothing |
| LegacyAgent.VerifiedOutputIsTrusted | agent.go:32-53 | under -verify every printed key was received with a valid signature |
| Install.GetSshConfigs | install.go:20-34 | four options in order; the command carries the fingerprint options exactly when OpenSSH is 6.9 or later |
| Install.VersionGate | install.go:39-42 | installation proceeds (0) exactly when OpenSSH is 6.2 or later, otherwise exits 1 |
| Install.GateAndCommand | install.go:20-42 | the rendered AuthorizedKeysCommand line for versions before and from 6.9 |
| Install.SwapRemove | install.go:224-227 | removing shortens the list by one |
| Install.SwapRemoveSplit | install.go:224-227 | the removed element together with the remaining slice is the original slice, as a multiset |
| Install.SwapRemoveMultiset | install.go:224-227 | removing drops exactly the chosen element, as a multiset |
| Install.Remove | install.go:224-227 | the array prefix becomes the swap-removed list, and the removed element is left just past it |
| Install.RenderedShape | install.go:192 | a rendered option line has no surrounding spaces and starts with the option name |
| Install.FirstMatch | install.go:189-197 | the index is that of the first pending option whose name occurs in the line |
| Install.StepCases | install.go:186-198 | one line either matches nothing and is kept, or is rewritten by exactly one pending option, which is consumed |
| Install.ScanLines | install.go:185-199 | the scan keeps the number of lines and accounts for every pending option |
| Install.RenderAllAt | install.go:200-204 | the k-th appended line renders the k-th left-over option |
| Install.ScanAdvance | install.go:185-199 | one loop step moves one line from the pending part to the done part of the scan |
| Install.MatchLine | install.go:189-197 | the inner loop rewrites line i as the scan step specifies and removes the matched option |
| Install.ScanOne | install.go:186-198 | one pass of the outer loop rewrites line i and moves the scan invariant on by one line |
| Install.ScanInPlace | install.go:185-199 | the outer loop leaves the scanned lines in the array and the unmatched options in the prefix of the options array |
| Install.AppendPending | install.go:200-204 | the unmatched options are appended, rendered, in order |
| Install.EditLines | install.go:182-204 | the edited lines are the scan's lines followed by the rendered left-over options |
| Install.ScanAccounting | install.go:185-199 | matched and left-over options together are the pending options (multiset) |
| Install.ScanCovers | install.go:185-199 | every pending option ends up either used for a line or left over |
| Install.ScanLineAt | install.go:185-199 | every output line is the original line, or the rendering of an option whose name it contains |
| Install.ScanKeepsOrRewrites | install.go:185-199 | kept-or-rewritten for every line |
| Install.ScanKeepsUnmatched | install.go:185-199 | a line containing no option name is kept |
| Install.ScanUsedWritten | install.go:185-199 | every matched option's rendering appears in the output |
| Install.EditedLength | install.go:182-204 | the file grows by the number of unmatched options, between 0 and the number of options |
| Install.EveryOptionWritten | install.go:182-204 | every option's rendered line is in the edited file |
| Install.EditedLinesClean | install.go:182-204 | every output line is an original line kept in place, or has no surrounding spaces |
| Install.AgentKeysPresent | install.go:182-204 | every option the agent needs starts some line of the edited file |
| Install.DoEditSshdConfig | install.go:173-222 | read failure, write failure (21) or the joined edited text, as specified |
| Install.RewriteIsJoinOfEdited | install.go:182-215 | a readable, writable file is rewritten as the join of its edited lines, which number between the file's line count and that count plus four |
| Install.FirstOpenSsh | install.go:253-259 | the first token starting with "OpenSSH" |
| Install.ParseSSHDVersion | install.go:250-279 | the loop and slicing give the parse of the specification |
| Install.VersionRoundTrip | install.go:250-279 | a token "OpenSSH_M.mpX" after non-OpenSSH tokens parses to (M, m) |
| Install.NoOpenSshIsZero | install.go:250-279 | no OpenSSH token parses to 0.0, which the gate refuses |
| Install.MissingMinorPanics | install.go:265-273 | "OpenSSH_M" without a minor number panics on the index |

## Left out

- Cryptography: RSA PKCS#1 v1.5 and Ed25519 signature checking, PEM decoding, PKIX parsing and SSH key fingerprints are oracles. Their own correctness belongs to Go's libraries.
- JSON and YAML: the JSON codec of key lists and the configuration parser are oracles. Only their success or failure is modelled; `CacheRoundTrip` assumes the codec round-trips.
- HTTP: URL path and query escaping, the HTTP client and the context timeout are oracles. Only the request parameters and headers, and the status-to-code mapping, are modelled.
- The User-Agent string (`common/version.go`) is a parameter of `World`. common/version.go is not part of this model.
- Syslog: the audit line is returned. It is not written, and a syslog that cannot be opened only means no audit line.
- Debug output to stderr and the SIGPIPE setup have no effect on the model.
- `main.go`: flag parsing and command dispatch are not part of this model. The flags are a `Flags` value.
- `install.go` beyond the sshd core is not modelled: the interactive prompts (`askOnce`), directory creation, user lookup, writing the configuration YAML, `checkConfig`, and the manual instructions printed at install.go:50-57. All of these are terminal or file I/O.
- `getSSHDVersion` runs `sshd -v`; its output tokens are the input of `ParseSSHDVersion`.
- `K_CACHE_PATH`, a build-time constant, is the parameter `defaultCacheDir`.
- Fmt.PrintfNoOperands: models only directives made of `%` and one verb letter. Width, precision and flag modifiers (`%5s`, `%-x`, …) are excluded by `SimpleDirectives`.
- LegacyAgent.Query: in the direct mode (url and token given) the run prints nothing and changes no file. `performQuery` returns 0, 8, 9 or 20 to its caller instead of exiting, and the run records that code as its status; the caller is not part of this model. A host name failure is different: `loadHostname` ends the process with `os.Exit(6)` (agent.go:148-155), and the run records 6 as that exit status.
- LegacyAgent.Query: writes to stdout (`fmt.Println` at agent.go:51, `fmt.Print` at agent.go:133) are taken to succeed. The legacy agent installs no SIGPIPE handler, so a closed pipe ends the process before the cache file is written; that ending is not modelled.
- CmdAgent.Query: the model's stdout is the corrected, verbatim write of each key line (`PrintAuthorizedKeys`). What the source writes as-is is `PrintedAsWritten`, for lines whose `%` directives `Fmt` covers; see "## Findings".
- Strings are sequences of characters, while Go slices strings and measures `len` in bytes (install.go:261-267). The two agree on ASCII text; `ParseSSHDVersion` on a token holding a multi-byte character (`OpenSSH€7.4`) can differ from the source.
- CmdAgent.QueryOutcome: `loadHostname`'s `os.Exit(6)` inside `performQuery` is a `HostnameUnavailable` fetch outcome that Query maps to exit 6.
- Install.EditLines: the Go slice that `remove` re-slices is an array plus a length. Aliasing between `lines` and other slices does not arise in the source and is not modelled.
- Install.DoEditSshdConfig: the file is one value, read once and written once. Partial writes and the file mode are not modelled.
- Integers are unbounded except where the source bounds them: `ParseInt` checks the int64 range.

## Findings

| source | as written | input that shows it | evidently intended | confidence | as-written member | corrected member |
|---|---|---|---|---|---|---|
| cmd/agent.go:185 | `fmt.Printf(getAuthorizedKeysLine(...))` uses the key line as the FORMAT string | a key whose ssh_options are `command="echo %d"` prints `command="echo %!d(MISSING)" <key>` | print the line verbatim (`fmt.Print`) | high (not executed) | CmdAgent.PrintfMangledOptions | CmdAgent.PrintAuthorizedKeys |
