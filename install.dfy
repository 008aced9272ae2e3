/**
  The installer's sshd logic: which options the agent needs for a given OpenSSH version,
  how they are merged into an existing sshd_config, and how the version is read from the
  banner of `sshd -v`.
 */
module Install {
  import opened Base
  import opened Text

  /** One sshd_config option. */
  datatype SshConfig = SshConfig(key: string, value: string)

  const AGENT_COMMAND := "/usr/sbin/theo-agent"
  const FINGERPRINT_OPTIONS := "-fingerprint %f %u"
  const CACHED_KEYS_FILE := "/var/cache/theo-agent/%u"

  /** The version (major, minor) is older than (M, m). */
  predicate Before(major: int, minor: int, M: int, m: int) {
    major < M || (major == M && minor < m)
  }

  /**
    getSshConfigs: the four options, in a fixed order. The command is given the
    fingerprint and the user from OpenSSH 6.9 on, where sshd can pass them.
   */
  function GetSshConfigs(user: string, verify: bool, major: int, minor: int): (cs: seq<SshConfig>)
    ensures |cs| == 4
    ensures cs[0] == SshConfig("PasswordAuthentication", "no")
    ensures cs[1] == SshConfig("AuthorizedKeysFile", CACHED_KEYS_FILE)
    ensures cs[2].key == "AuthorizedKeysCommand" && HasPrefix(cs[2].value, AGENT_COMMAND + " ")
    ensures cs[2].value == AGENT_COMMAND + " " <==> Before(major, minor, 6, 9)
    ensures cs[3] == SshConfig("AuthorizedKeysCommandUser", user)
  {
    var commandOpts := if Before(major, minor, 6, 9) then "" else FINGERPRINT_OPTIONS;
    var command := AGENT_COMMAND + " " + commandOpts;
    assert command[..|AGENT_COMMAND + " "|] == AGENT_COMMAND + " ";
    [ SshConfig("PasswordAuthentication", "no"),
      SshConfig("AuthorizedKeysFile", CACHED_KEYS_FILE),
      SshConfig("AuthorizedKeysCommand", command),
      SshConfig("AuthorizedKeysCommandUser", user) ]
  }

  /** The gate in Install: status 1 for an OpenSSH older than 6.2, which has no AuthorizedKeysCommand; 0 to go on. */
  function VersionGate(major: int, minor: int): (exit: int)
    ensures exit == 0 <==> !Before(major, minor, 6, 2)
    ensures exit in {0, 1}
  {
    if major < 6 || (major == 6 && minor < 2) then 1 else 0
  }

  /** Every version the gate lets through is given a command; from 6.9 on it carries the fingerprint options. */
  lemma GateAndCommand(user: string, verify: bool, major: int, minor: int)
    requires VersionGate(major, minor) == 0
    ensures var cs := GetSshConfigs(user, verify, major, minor);
            Before(major, minor, 6, 9) ==> Rendered(cs[2]) == "AuthorizedKeysCommand " + AGENT_COMMAND
    ensures var cs := GetSshConfigs(user, verify, major, minor);
            !Before(major, minor, 6, 9) ==> Rendered(cs[2]) == "AuthorizedKeysCommand " + AGENT_COMMAND + " " + FINGERPRINT_OPTIONS
  {
    var cs := GetSshConfigs(user, verify, major, minor);
    if Before(major, minor, 6, 9) {
      var s := "AuthorizedKeysCommand " + AGENT_COMMAND + " ";
      var t := "AuthorizedKeysCommand " + AGENT_COMMAND;
      assert cs[2].key + " " + cs[2].value == s;
      assert TrimLeft(s) == s;
      assert s[..|s| - 1] == t;
      assert TrimRight(t) == t;
    } else {
      var s := "AuthorizedKeysCommand " + AGENT_COMMAND + " " + FINGERPRINT_OPTIONS;
      assert cs[2].key + " " + cs[2].value == s;
      TrimClean(s);
    }
  }

  // ---------------------------------------------------------------------------------------
  // remove

  /** remove(s, i): the last element takes the place of s[i], and the slice loses its last position. */
  function SwapRemove<T>(s: seq<T>, i: nat): (r: seq<T>)
    requires i < |s|
    ensures |r| == |s| - 1
  {
    s[i := s[|s| - 1]][..|s| - 1]
  }

  /** The removed element and the remaining ones together are the original elements. */
  lemma SwapRemoveSplit<T>(s: seq<T>, i: nat)
    requires i < |s|
    ensures multiset(s) == multiset(SwapRemove(s, i)) + multiset{s[i]}
  {
    var last := |s| - 1;
    var r := SwapRemove(s, i);
    if i == last {
      assert s == r + [s[i]];
    } else {
      var front, middle := s[..i], s[i + 1..last];
      assert s == front + [s[i]] + middle + [s[last]];
      assert r == front + [s[last]] + middle;
    }
  }

  /** remove drops exactly one copy of s[i]: everything else is kept, possibly reordered. */
  lemma SwapRemoveMultiset<T>(s: seq<T>, i: nat)
    requires i < |s|
    ensures multiset(SwapRemove(s, i)) == multiset(s) - multiset{s[i]}
    ensures multiset(SwapRemove(s, i)) + multiset{s[i]} == multiset(s)
    ensures forall c :: c in SwapRemove(s, i) ==> c in s
  {
    SwapRemoveSplit(s, i);
  }

  /** remove on the first n cells of an array: swap cell i with cell n-1; the pending slice is then n-1 long. */
  method Remove(a: array<SshConfig>, n: nat, i: nat) returns (m: nat)
    requires i < n <= a.Length
    modifies a
    ensures m == n - 1
    ensures a[..m] == SwapRemove(old(a[..n]), i)
    ensures a[m] == old(a[i]) && a[n..] == old(a[n..])
  {
    a[n - 1], a[i] := a[i], a[n - 1];
    m := n - 1;
    assert a[..m] == old(a[..n])[i := old(a[n - 1])][..n - 1];
  }

  // ---------------------------------------------------------------------------------------
  // The rewrite of sshd_config

  /** A line that neither starts nor ends with a space. */
  predicate Unpadded(line: string) {
    line == [] || (line[0] != ' ' && line[|line| - 1] != ' ')
  }

  /** The line written for an option: "key value" without surrounding spaces. */
  function Rendered(c: SshConfig): string {
    Trim(c.key + " " + c.value)
  }

  /** An option's line has no surrounding spaces, and starts with its key when the key has none. */
  lemma RenderedShape(c: SshConfig)
    ensures Unpadded(Rendered(c))
    ensures c.key != [] && c.key[0] != ' ' && c.key[|c.key| - 1] != ' ' ==> HasPrefix(Rendered(c), c.key)
  {
    TrimSpec(c.key + " " + c.value);
    if c.key != [] && c.key[0] != ' ' && c.key[|c.key| - 1] != ' ' {
      TrimKeepsKey(c.key, c.value);
    }
  }

  /** The first pending option, from position k on, whose key occurs in the line; |pending| when none does. */
  function FirstMatch(line: string, pending: seq<SshConfig>, k: nat): (j: nat)
    requires k <= |pending|
    ensures k <= j <= |pending|
    ensures j < |pending| ==> Contains(line, pending[j].key)
    ensures forall m :: k <= m < j ==> !Contains(line, pending[m].key)
    decreases |pending| - k
  {
    if k == |pending| then k
    else if Contains(line, pending[k].key) then k
    else FirstMatch(line, pending, k + 1)
  }

  /** The scan's result: the lines after rewriting, the options used (in line order), the options left pending. */
  datatype Scan = Scan(lines: seq<string>, used: seq<SshConfig>, left: seq<SshConfig>)

  /** A scan with lines and used options put in front. */
  function Prepend(lines: seq<string>, used: seq<SshConfig>, s: Scan): Scan {
    Scan(lines + s.lines, used + s.used, s.left)
  }

  /** The line the scan leaves in place of `line`: the first matching pending option's line, or `line` itself. */
  function NewLine(line: string, pending: seq<SshConfig>): string {
    var j := FirstMatch(line, pending, 0);
    if j < |pending| then Rendered(pending[j]) else line
  }

  /** The option the scan uses for `line`, if any. */
  function Taken(line: string, pending: seq<SshConfig>): seq<SshConfig> {
    var j := FirstMatch(line, pending, 0);
    if j < |pending| then [pending[j]] else []
  }

  /** The options still pending after `line`: remove takes out the one used. */
  function NextPending(line: string, pending: seq<SshConfig>): seq<SshConfig> {
    var j := FirstMatch(line, pending, 0);
    if j < |pending| then SwapRemove(pending, j) else pending
  }

  /**
    One line of the scan: with no pending key in the line, the line, the pending options and
    the used ones stay as they are; otherwise one pending option whose key occurs in the line
    rewrites it and moves from pending to used.
   */
  lemma StepCases(line: string, pending: seq<SshConfig>)
    ensures Taken(line, pending) == [] ==>
              NewLine(line, pending) == line && NextPending(line, pending) == pending
              && forall c :: c in pending ==> !Contains(line, c.key)
    ensures Taken(line, pending) != [] ==>
              |Taken(line, pending)| == 1 && Taken(line, pending)[0] in pending
              && Contains(line, Taken(line, pending)[0].key)
              && NewLine(line, pending) == Rendered(Taken(line, pending)[0])
    ensures multiset(Taken(line, pending)) + multiset(NextPending(line, pending)) == multiset(pending)
    ensures forall c :: c in NextPending(line, pending) ==> c in pending
  {
    var j := FirstMatch(line, pending, 0);
    if j < |pending| {
      SwapRemoveMultiset(pending, j);
    } else {
      forall c | c in pending ensures !Contains(line, c.key) {
        var m :| 0 <= m < |pending| && pending[m] == c;
      }
    }
  }

  /**
    The scan of doEditSshdConfig: a line in which the key of a pending option occurs is
    replaced by the first such option's line, and that option stops being pending.
   */
  function ScanLines(lines: seq<string>, pending: seq<SshConfig>): (r: Scan)
    ensures |r.lines| == |lines|
    ensures |r.used| + |r.left| == |pending|
    decreases |lines|
  {
    if lines == [] then Scan([], [], pending)
    else
      Prepend([NewLine(lines[0], pending)], Taken(lines[0], pending),
              ScanLines(lines[1..], NextPending(lines[0], pending)))
  }

  /** The lines of options in order. */
  function RenderAll(cs: seq<SshConfig>): (lines: seq<string>)
    ensures |lines| == |cs|
    decreases |cs|
  {
    if cs == [] then [] else RenderAll(cs[..|cs| - 1]) + [Rendered(cs[|cs| - 1])]
  }

  lemma {:induction false} RenderAllAt(cs: seq<SshConfig>, k: nat)
    requires k < |cs|
    ensures RenderAll(cs)[k] == Rendered(cs[k])
    decreases |cs|
  {
    if k < |cs| - 1 {
      RenderAllAt(cs[..|cs| - 1], k);
    }
  }

  /** The new sshd_config lines: the scanned lines, then a line for each option still pending. */
  function EditedConfig(lines: seq<string>, configs: seq<SshConfig>): seq<string> {
    var scan := ScanLines(lines, configs);
    scan.lines + RenderAll(scan.left)
  }

  lemma PrependPrepend(lines1: seq<string>, used1: seq<SshConfig>, lines2: seq<string>, used2: seq<SshConfig>, s: Scan)
    ensures Prepend(lines1, used1, Prepend(lines2, used2, s)) == Prepend(lines1 + lines2, used1 + used2, s)
  {
    assert lines1 + (lines2 + s.lines) == lines1 + lines2 + s.lines;
    assert used1 + (used2 + s.used) == used1 + used2 + s.used;
  }

  /** One more line of the scan, as the inner loop leaves it. */
  lemma ScanAdvance(lines0: seq<string>, i: nat, prefix: seq<string>, used: seq<SshConfig>, pending: seq<SshConfig>)
    requires i < |lines0|
    ensures Prepend(prefix, used, ScanLines(lines0[i..], pending))
         == Prepend(prefix + [NewLine(lines0[i], pending)], used + Taken(lines0[i], pending),
                    ScanLines(lines0[i + 1..], NextPending(lines0[i], pending)))
  {
    assert lines0[i..][1..] == lines0[i + 1..];
    PrependPrepend(prefix, used, [NewLine(lines0[i], pending)], Taken(lines0[i], pending),
                   ScanLines(lines0[i + 1..], NextPending(lines0[i], pending)));
  }

  /**
    The inner loop of the scan: the first pending option whose key occurs in lines[i]
    rewrites that line and is removed from the pending slice sshconfigs[..n].
   */
  method MatchLine(lines: array<string>, i: nat, sshconfigs: array<SshConfig>, n: nat) returns (n': nat)
    requires i < lines.Length && n <= sshconfigs.Length
    modifies lines, sshconfigs
    ensures n' <= n
    ensures lines[..] == old(lines[..])[i := NewLine(old(lines[i]), old(sshconfigs[..n]))]
    ensures sshconfigs[..n'] == NextPending(old(lines[i]), old(sshconfigs[..n]))
  {
    var line := lines[i];
    ghost var pending := sshconfigs[..n];
    ghost var j := FirstMatch(line, pending, 0);
    var ii := 0;
    n' := n;
    while ii < n'
      invariant 0 <= ii <= n' == n
      invariant lines[..] == old(lines[..]) && sshconfigs[..n] == pending
      invariant FirstMatch(line, pending, ii) == j
    {
      var p := Index(line, sshconfigs[ii].key);
      if p >= 0 {
        assert ii == j;
        lines[i] := Rendered(sshconfigs[ii]);
        n' := Remove(sshconfigs, n', ii);
        return;
      }
      ii := ii + 1;
    }
  }

  /** One step of the outer loop on the lines: the i-th line moves to the rewritten part. */
  lemma LinesStep(current: seq<string>, done: seq<string>, lines0: seq<string>, i: nat, x: string)
    requires i < |lines0| && |done| == i && current == done + lines0[i..]
    ensures current[i := x] == (done + [x]) + lines0[i + 1..]
  {
    assert lines0[i..] == [lines0[i]] + lines0[i + 1..];
  }

  /** The scan's invariant before the first line. */
  lemma ScanStart(lines0: seq<string>, configs0: seq<SshConfig>)
    ensures ScanLines(lines0, configs0) == Prepend([], [], ScanLines(lines0[0..], configs0))
  {
    assert lines0[0..] == lines0;
  }

  /** The scan's invariant after the last line: the lines done and the options still pending are the scan's result. */
  lemma ScanFinished(lines0: seq<string>, configs0: seq<SshConfig>, done: seq<string>, used: seq<SshConfig>, pending: seq<SshConfig>)
    requires ScanLines(lines0, configs0) == Prepend(done, used, ScanLines(lines0[|lines0|..], pending))
    ensures ScanLines(lines0, configs0).lines == done == done + lines0[|lines0|..]
    ensures ScanLines(lines0, configs0).left == pending
  {
    assert lines0[|lines0|..] == [];
  }

  /** One pass of the outer loop: line i is scanned, and the scan's invariant moves on by one line. */
  method ScanOne(lines: array<string>, sshconfigs: array<SshConfig>, i: nat, n: nat,
                 ghost lines0: seq<string>, ghost configs0: seq<SshConfig>, ghost done: seq<string>, ghost used: seq<SshConfig>)
    returns (n': nat, ghost done': seq<string>, ghost used': seq<SshConfig>)
    requires i < lines.Length == |lines0| && n <= sshconfigs.Length
    requires |done| == i && lines[..] == done + lines0[i..]
    requires ScanLines(lines0, configs0) == Prepend(done, used, ScanLines(lines0[i..], sshconfigs[..n]))
    modifies lines, sshconfigs
    ensures n' <= n
    ensures |done'| == i + 1 && lines[..] == done' + lines0[i + 1..]
    ensures ScanLines(lines0, configs0) == Prepend(done', used', ScanLines(lines0[i + 1..], sshconfigs[..n']))
  {
    ghost var pending := sshconfigs[..n];
    ghost var current := lines[..];
    assert lines[i] == current[i] == lines0[i];
    n' := MatchLine(lines, i, sshconfigs, n);
    done' := done + [NewLine(lines0[i], pending)];
    used' := used + Taken(lines0[i], pending);
    LinesStep(current, done, lines0, i, NewLine(lines0[i], pending));
    ScanAdvance(lines0, i, done, used, pending);
  }

  /** The scan of doEditSshdConfig in place: rewritten lines in `lines`, the options left pending in sshconfigs[..n]. */
  method ScanInPlace(lines: array<string>, sshconfigs: array<SshConfig>) returns (n: nat)
    modifies lines, sshconfigs
    ensures n <= sshconfigs.Length
    ensures ScanLines(old(lines[..]), old(sshconfigs[..])).lines == lines[..]
    ensures ScanLines(old(lines[..]), old(sshconfigs[..])).left == sshconfigs[..n]
  {
    ghost var lines0 := lines[..];
    ghost var configs0 := sshconfigs[..];
    n := sshconfigs.Length;
    ghost var done: seq<string> := [];
    ghost var used: seq<SshConfig> := [];
    assert sshconfigs[..n] == configs0;
    ScanStart(lines0, configs0);
    var i := 0;
    while i < lines.Length
      invariant 0 <= i <= lines.Length == |lines0|
      invariant 0 <= n <= sshconfigs.Length
      invariant |done| == i && lines[..] == done + lines0[i..]
      invariant ScanLines(lines0, configs0) == Prepend(done, used, ScanLines(lines0[i..], sshconfigs[..n]))
    {
      n, done, used := ScanOne(lines, sshconfigs, i, n, lines0, configs0, done, used);
      i := i + 1;
    }
    ScanFinished(lines0, configs0, done, used, sshconfigs[..n]);
  }

  /** The append loop of doEditSshdConfig: a line for each option still pending, in order. */
  method AppendPending(lines: seq<string>, pending: seq<SshConfig>) returns (out: seq<string>)
    ensures out == lines + RenderAll(pending)
  {
    out := lines;
    var ii := 0;
    while ii < |pending|
      invariant 0 <= ii <= |pending|
      invariant out == lines + RenderAll(pending[..ii])
    {
      assert pending[..ii + 1][..ii] == pending[..ii];
      out := out + [Rendered(pending[ii])];
      ii := ii + 1;
    }
    assert pending[..ii] == pending;
  }

  /**
    The scan and append of doEditSshdConfig: `lines` is rewritten in place, the pending
    options shrink through remove, and those still pending are appended at the end.
   */
  method EditLines(lines0: seq<string>, configs0: seq<SshConfig>) returns (out: seq<string>)
    ensures out == EditedConfig(lines0, configs0)
  {
    var lines := new string[|lines0|](k requires 0 <= k < |lines0| => lines0[k]);
    var sshconfigs := new SshConfig[|configs0|](k requires 0 <= k < |configs0| => configs0[k]);
    assert lines[..] == lines0 && sshconfigs[..] == configs0;
    var n := ScanInPlace(lines, sshconfigs);
    out := AppendPending(lines[..], sshconfigs[..n]);
  }

  /** Each option either rewrote a line or is still pending, exactly once. */
  lemma {:induction false} ScanAccounting(lines: seq<string>, pending: seq<SshConfig>)
    ensures var r := ScanLines(lines, pending);
            multiset(r.used) + multiset(r.left) == multiset(pending)
    decreases |lines|
  {
    if lines != [] {
      var taken := Taken(lines[0], pending);
      var rest := ScanLines(lines[1..], NextPending(lines[0], pending));
      StepCases(lines[0], pending);
      ScanAccounting(lines[1..], NextPending(lines[0], pending));
      assert multiset(taken + rest.used) == multiset(taken) + multiset(rest.used);
    }
  }

  /** Every pending option is either used by the scan or left over. */
  lemma ScanCovers(lines: seq<string>, pending: seq<SshConfig>)
    ensures var r := ScanLines(lines, pending);
            forall c :: c in pending ==> c in r.used || c in r.left
  {
    var r := ScanLines(lines, pending);
    ScanAccounting(lines, pending);
    forall c | c in pending
      ensures c in r.used || c in r.left
    {
      assert multiset(pending)[c] > 0;
    }
  }

  /** Line k is either kept or replaced by the line of an option whose key it contains. */
  lemma {:induction false} ScanLineAt(lines: seq<string>, pending: seq<SshConfig>, k: nat)
    requires k < |lines|
    ensures var out := ScanLines(lines, pending).lines[k];
            out == lines[k] || exists c :: c in pending && Contains(lines[k], c.key) && out == Rendered(c)
    decreases k
  {
    var r := ScanLines(lines, pending);
    var next := NextPending(lines[0], pending);
    var r' := ScanLines(lines[1..], next);
    StepCases(lines[0], pending);
    assert r.lines == [NewLine(lines[0], pending)] + r'.lines;
    if k == 0 {
      if Taken(lines[0], pending) != [] {
        var c := Taken(lines[0], pending)[0];
        assert c in pending && Contains(lines[0], c.key) && r.lines[0] == Rendered(c);
      }
    } else {
      ScanLineAt(lines[1..], next, k - 1);
      assert r.lines[k] == r'.lines[k - 1] && lines[k] == lines[1..][k - 1];
      if r.lines[k] != lines[k] {
        var c :| c in next && Contains(lines[k], c.key) && r.lines[k] == Rendered(c);
        assert c in pending;
      }
    }
  }

  /** Each line is either kept or replaced by the line of an option whose key it contains. */
  lemma ScanKeepsOrRewrites(lines: seq<string>, pending: seq<SshConfig>)
    ensures var r := ScanLines(lines, pending);
            forall k :: 0 <= k < |lines| ==>
              r.lines[k] == lines[k] || exists c :: c in pending && Contains(lines[k], c.key) && r.lines[k] == Rendered(c)
  {
    forall k | 0 <= k < |lines|
      ensures var out := ScanLines(lines, pending).lines[k];
              out == lines[k] || exists c :: c in pending && Contains(lines[k], c.key) && out == Rendered(c)
    {
      ScanLineAt(lines, pending, k);
    }
  }

  /** A line in which no option's key occurs is kept as it is. */
  lemma ScanKeepsUnmatched(lines: seq<string>, pending: seq<SshConfig>)
    ensures var r := ScanLines(lines, pending);
            forall k :: 0 <= k < |lines| && (forall c :: c in pending ==> !Contains(lines[k], c.key)) ==> r.lines[k] == lines[k]
  {
    forall k | 0 <= k < |lines| && (forall c :: c in pending ==> !Contains(lines[k], c.key))
      ensures ScanLines(lines, pending).lines[k] == lines[k]
    {
      ScanLineAt(lines, pending, k);
    }
  }

  /** Every option the scan used was written in place of a line. */
  lemma {:induction false} ScanUsedWritten(lines: seq<string>, pending: seq<SshConfig>)
    ensures var r := ScanLines(lines, pending);
            forall c :: c in r.used ==> Rendered(c) in r.lines
    decreases |lines|
  {
    if lines != [] {
      var r := ScanLines(lines, pending);
      var next := NextPending(lines[0], pending);
      var r' := ScanLines(lines[1..], next);
      StepCases(lines[0], pending);
      ScanUsedWritten(lines[1..], next);
      assert r.lines == [NewLine(lines[0], pending)] + r'.lines;
      assert r.used == Taken(lines[0], pending) + r'.used;
    }
  }

  /** The rewritten file has one line per original line plus one per option left pending. */
  lemma EditedLength(lines: seq<string>, configs: seq<SshConfig>)
    ensures |EditedConfig(lines, configs)| == |lines| + |ScanLines(lines, configs).left|
    ensures |lines| <= |EditedConfig(lines, configs)| <= |lines| + |configs|
  {
  }

  /** Every option's line is in the rewritten file: in place of a line, or appended. */
  lemma EveryOptionWritten(lines: seq<string>, configs: seq<SshConfig>)
    ensures forall c :: c in configs ==> Rendered(c) in EditedConfig(lines, configs)
  {
    var scan := ScanLines(lines, configs);
    ScanCovers(lines, configs);
    ScanUsedWritten(lines, configs);
    forall c | c in configs
      ensures Rendered(c) in EditedConfig(lines, configs)
    {
      if c in scan.used {
        assert Rendered(c) in scan.lines;
      } else {
        var k :| 0 <= k < |scan.left| && scan.left[k] == c;
        RenderAllAt(scan.left, k);
        assert EditedConfig(lines, configs)[|scan.lines| + k] == Rendered(c);
      }
    }
  }

  /** Every line of the rewritten file is an original line kept in place, or a line without surrounding spaces. */
  lemma EditedLinesClean(lines: seq<string>, configs: seq<SshConfig>)
    ensures var out := EditedConfig(lines, configs);
            forall k :: 0 <= k < |out| ==> (k < |lines| && out[k] == lines[k]) || Unpadded(out[k])
  {
    var scan := ScanLines(lines, configs);
    var out := EditedConfig(lines, configs);
    forall k | 0 <= k < |out|
      ensures (k < |lines| && out[k] == lines[k]) || Unpadded(out[k])
    {
      if k < |lines| {
        ScanLineAt(lines, configs, k);
        assert out[k] == scan.lines[k];
        if out[k] != lines[k] {
          var c :| c in configs && Contains(lines[k], c.key) && out[k] == Rendered(c);
          RenderedShape(c);
        }
      } else {
        RenderAllAt(scan.left, k - |lines|);
        RenderedShape(scan.left[k - |lines|]);
      }
    }
  }

  /** Every key the agent needs starts a line of the rewritten file. */
  lemma AgentKeysPresent(lines: seq<string>, user: string, verify: bool, major: int, minor: int)
    ensures var cs := GetSshConfigs(user, verify, major, minor);
            var out := EditedConfig(lines, cs);
            forall c :: c in cs ==> exists k :: 0 <= k < |out| && HasPrefix(out[k], c.key)
  {
    var cs := GetSshConfigs(user, verify, major, minor);
    var out := EditedConfig(lines, cs);
    EveryOptionWritten(lines, cs);
    forall c | c in cs
      ensures exists k :: 0 <= k < |out| && HasPrefix(out[k], c.key)
    {
      assert c.key != [] && c.key[0] != ' ' && c.key[|c.key| - 1] != ' ';
      RenderedShape(c);
      var k :| 0 <= k < |out| && out[k] == Rendered(c);
    }
  }

  /** What doEditSshdConfig does with the file: nothing when it cannot be read, exit 21 when it cannot be written, else the new text. */
  datatype EditOutcome = NotRead | WriteFailed | Written(text: string)

  const EXIT_WRITE_FAILED := 21

  /** The reference behaviour of doEditSshdConfig. */
  function EditResult(user: string, verify: bool, major: int, minor: int, file: Option<string>, writable: bool): EditOutcome {
    match file
    case None => NotRead
    case Some(data) =>
      if !writable then WriteFailed
      else Written(Join(EditedConfig(Split(data, '\n'), GetSshConfigs(user, verify, major, minor)), "\n"))
  }

  /** doEditSshdConfig: split the file into lines, rewrite them, and write them back joined by newlines. */
  method DoEditSshdConfig(user: string, verify: bool, major: int, minor: int, file: Option<string>, writable: bool)
    returns (r: EditOutcome)
    ensures r == EditResult(user, verify, major, minor, file, writable)
  {
    if file.None? {
      return NotRead;
    }
    var lines := Split(file.value, '\n');
    var sshconfigs := GetSshConfigs(user, verify, major, minor);
    var edited := EditLines(lines, sshconfigs);
    if !writable {
      return WriteFailed;
    }
    return Written(Join(edited, "\n"));
  }

  /**
    A readable, writable file is rewritten as the join of its edited lines, which keep every
    line of the file and add at most one line per option (four of them).
   */
  lemma RewriteIsJoinOfEdited(user: string, verify: bool, major: int, minor: int, data: string)
    ensures var r := EditResult(user, verify, major, minor, Some(data), true);
            var lines := Split(data, '\n');
            r.Written? && r.text == Join(EditedConfig(lines, GetSshConfigs(user, verify, major, minor)), "\n")
            && |lines| <= |EditedConfig(lines, GetSshConfigs(user, verify, major, minor))| <= |lines| + 4
  {
    EditedLength(Split(data, '\n'), GetSshConfigs(user, verify, major, minor));
  }

  // ---------------------------------------------------------------------------------------
  // parseSSHDVersion

  const OPENSSH := "OpenSSH"

  /** The version read from the banner, or the panic of an out-of-range slice or index. */
  datatype Parsed = Version(major: int, minor: int) | IndexPanic

  /** The first token from position i on that starts with "OpenSSH"; |tokens| when none does. */
  function FirstOpenSsh(tokens: seq<string>, i: nat): (j: nat)
    requires i <= |tokens|
    ensures i <= j <= |tokens|
    ensures j < |tokens| ==> HasPrefix(tokens[j], OPENSSH)
    ensures forall k :: i <= k < j ==> !HasPrefix(tokens[k], OPENSSH)
    decreases |tokens| - i
  {
    if i == |tokens| then i
    else if HasPrefix(tokens[i], OPENSSH) then i
    else FirstOpenSsh(tokens, i + 1)
  }

  /** The version text of a token "OpenSSH_X.Y...": drop 8 characters, a trailing comma, and anything from a 'p' after the start. */
  function VersionText(token: string): string
    requires |token| > 8
  {
    var version := token[8..];
    var version := if version[|version| - 1..] == "," then version[..|version| - 1] else version;
    var ppos := Index(version, "p");
    if ppos > 0 then version[..ppos] else version
  }

  /** "major.minor" as two 64-bit integers; (0, 0) when either does not parse; a panic when there is no second field. */
  function MajorMinor(version: string): Parsed {
    var majorMinor := Split(version, '.');
    match ParseInt(majorMinor[0])
    case None => Version(0, 0)
    case Some(major) =>
      if |majorMinor| < 2 then IndexPanic
      else
        match ParseInt(majorMinor[1])
        case None => Version(0, 0)
        case Some(minor) => Version(major, minor)
  }

  /** The reference behaviour of parseSSHDVersion. */
  function ParsedVersion(openssh: seq<string>): Parsed {
    var j := FirstOpenSsh(openssh, 0);
    if j == |openssh| then MajorMinor("0.0")
    else if |openssh[j]| <= 8 then IndexPanic
    else MajorMinor(VersionText(openssh[j]))
  }

  /** parseSSHDVersion over the space-separated fields of the banner's second line. */
  method ParseSSHDVersion(openssh: seq<string>) returns (r: Parsed)
    ensures r == ParsedVersion(openssh)
  {
    var version := "0.0";
    var i := 0;
    while i < |openssh|
      invariant 0 <= i <= |openssh|
      invariant FirstOpenSsh(openssh, 0) == FirstOpenSsh(openssh, i)
    {
      if HasPrefix(openssh[i], OPENSSH) {
        version := openssh[i];
        break;
      }
      i := i + 1;
    }
    if version != "0.0" {
      assert version[0] == 'O';
      if |version| < 8 {
        return IndexPanic;    // version[8:]
      }
      version := version[8..];
      if |version| == 0 {
        return IndexPanic;    // version[len(version)-1:]
      }
      if version[|version| - 1..] == "," {
        version := version[..|version| - 1];
      }
      var ppos := Index(version, "p");
      if ppos > 0 {
        version := version[..ppos];
      }
    }
    var majorMinor := Split(version, '.');
    var major := ParseInt(majorMinor[0]);
    if major.Some? {
      if |majorMinor| < 2 {
        return IndexPanic;    // majorMinor[1]
      }
      var minor := ParseInt(majorMinor[1]);
      if minor.Some? {
        return Version(major.value, minor.value);
      }
    }
    return Version(0, 0);
  }

  /** The search for the OpenSSH token stops at the first token carrying the prefix. */
  lemma FirstOpenSshAt(before: seq<string>, token: string, after: seq<string>)
    requires forall k :: 0 <= k < |before| ==> !HasPrefix(before[k], OPENSSH)
    requires HasPrefix(token, OPENSSH)
    ensures FirstOpenSsh(before + [token] + after, 0) == |before|
  {
    var tokens := before + [token] + after;
    var j := FirstOpenSsh(tokens, 0);
    assert tokens[|before|] == token;
  }

  /** The version digits rendered as sshd prints them. */
  function Dotted(major: nat, minor: nat): string {
    NatToString(major) + "." + NatToString(minor)
  }

  /** The first 'p' after a text without one is found right after that text. */
  lemma FirstP(d: string, rest: string)
    requires forall k :: 0 <= k < |d| ==> d[k] != 'p'
    ensures Index(d + "p" + rest, "p") == |d|
  {
    var v := d + "p" + rest;
    IndexSpec(v, "p");
    assert OccursAt(v, "p", |d|);
    forall k | 0 <= k < |d| ensures !OccursAt(v, "p", k) {
      assert v[k..k + 1][0] == v[k] == d[k];
    }
  }

  /** From "OpenSSH_M.mp..." the 8-character prefix, a trailing comma and the portable suffix are cut, leaving "M.m". */
  lemma VersionTextOf(major: nat, minor: nat, rest: string)
    ensures VersionText("OpenSSH_" + Dotted(major, minor) + "p" + rest) == Dotted(major, minor)
  {
    var d := Dotted(major, minor);
    var a := NatToString(major);
    var b := NatToString(minor);
    forall k | 0 <= k < |d| ensures d[k] != 'p' {
      if k < |a| { assert d[k] == a[k]; }
      else if k > |a| { assert d[k] == b[k - |a| - 1]; }
    }
    var v := ("OpenSSH_" + d + "p" + rest)[8..];
    assert v == d + "p" + rest;
    if rest != [] && rest[|rest| - 1] == ',' {
      assert v[|v| - 1..] == ",";
      assert v[..|v| - 1] == d + "p" + rest[..|rest| - 1];
      FirstP(d, rest[..|rest| - 1]);
      assert (d + "p" + rest[..|rest| - 1])[..|d|] == d;
    } else {
      assert v[|v| - 1..] == [v[|v| - 1]];
      if rest == [] {
        assert v[|v| - 1] == 'p';
      } else {
        assert v[|v| - 1] == rest[|rest| - 1];
      }
      FirstP(d, rest);
      assert v[..|d|] == d;
    }
  }

  /** "M.m" splits into its two numbers, which parse back. */
  lemma MajorMinorOf(major: nat, minor: nat)
    requires major <= MAX_INT64 && minor <= MAX_INT64
    ensures MajorMinor(Dotted(major, minor)) == Version(major, minor)
  {
    var a := NatToString(major);
    var b := NatToString(minor);
    assert '.' !in a && '.' !in b by {
      assert forall k :: 0 <= k < |a| ==> IsDigit(a[k]);
      assert forall k :: 0 <= k < |b| ==> IsDigit(b[k]);
    }
    SplitAfterPiece(a, '.', b);
    SplitNoSeparator(b, '.');
    assert Split(Dotted(major, minor), '.') == [a, b];
    ParseIntNatToString(major);
    ParseIntNatToString(minor);
  }

  /**
    The version sshd reports is read back: the first token "OpenSSH_M.mp..." (with or without
    a trailing comma), after tokens that do not start with "OpenSSH", gives (M, m).
   */
  lemma VersionRoundTrip(before: seq<string>, major: nat, minor: nat, rest: string, after: seq<string>)
    requires major <= MAX_INT64 && minor <= MAX_INT64
    requires forall k :: 0 <= k < |before| ==> !HasPrefix(before[k], OPENSSH)
    ensures ParsedVersion(before + ["OpenSSH_" + Dotted(major, minor) + "p" + rest] + after) == Version(major, minor)
  {
    var token := "OpenSSH_" + Dotted(major, minor) + "p" + rest;
    assert token[..|OPENSSH|] == OPENSSH;
    FirstOpenSshAt(before, token, after);
    assert (before + [token] + after)[|before|] == token;
    VersionTextOf(major, minor, rest);
    MajorMinorOf(major, minor);
  }

  /** With no OpenSSH token the version is (0, 0), which the gate refuses. */
  lemma NoOpenSshIsZero(tokens: seq<string>)
    requires forall k :: 0 <= k < |tokens| ==> !HasPrefix(tokens[k], OPENSSH)
    ensures ParsedVersion(tokens) == Version(0, 0)
    ensures VersionGate(ParsedVersion(tokens).major, ParsedVersion(tokens).minor) == 1
  {
    assert Dotted(0, 0) == "0.0";
    MajorMinorOf(0, 0);
  }

  /** A token "OpenSSH_" followed by digits only leaves those digits as the version text. */
  lemma DigitsVersionText(a: string)
    requires a != [] && AllDigits(a)
    ensures VersionText("OpenSSH_" + a) == a
  {
    var v := ("OpenSSH_" + a)[8..];
    assert v == a;
    assert v[|v| - 1..] == [a[|a| - 1]];
    assert IsDigit(a[|a| - 1]);
    IndexSpec(a, "p");
  }

  /** A token without the minor number ("OpenSSH_8") reaches the index of a missing second field. */
  lemma MissingMinorPanics(major: nat)
    requires major <= MAX_INT64
    ensures ParsedVersion(["OpenSSH_" + NatToString(major)]) == IndexPanic
  {
    var a := NatToString(major);
    var token := "OpenSSH_" + a;
    assert token[..|OPENSSH|] == OPENSSH;
    DigitsVersionText(a);
    assert '.' !in a by {
      assert forall k :: 0 <= k < |a| ==> IsDigit(a[k]);
    }
    SplitNoSeparator(a, '.');
    ParseIntNatToString(major);
  }
}
