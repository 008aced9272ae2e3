/**
  The string functions of Go's standard library that the agent and the installer call
  (package strings and strconv.ParseInt), with their Go semantics.
 */
module Text {
  import opened Base

  predicate HasPrefix(s: string, prefix: string) {
    |prefix| <= |s| && s[..|prefix|] == prefix
  }

  predicate HasSuffix(s: string, suffix: string) {
    |suffix| <= |s| && s[|s| - |suffix|..] == suffix
  }

  /** `sub` occurs in `s` at position `k`. */
  predicate OccursAt(s: string, sub: string, k: int) {
    0 <= k && k + |sub| <= |s| && s[k..k + |sub|] == sub
  }

  /** strings.Index: the first position at which `sub` occurs in `s`, or -1 (see IndexSpec). */
  function Index(s: string, sub: string): (r: int)
    ensures -1 <= r <= |s|
  {
    IndexFrom(s, sub, 0)
  }

  function IndexFrom(s: string, sub: string, from: nat): (r: int)
    requires from <= |s|
    ensures r == -1 || from <= r <= |s|
    decreases |s| - from
  {
    if from + |sub| > |s| then -1
    else if s[from..from + |sub|] == sub then from
    else if from == |s| then -1
    else IndexFrom(s, sub, from + 1)
  }

  /** The search from `from` on finds the first occurrence at or after `from`, and -1 only when there is none. */
  lemma {:induction false} IndexFromSpec(s: string, sub: string, from: nat)
    requires from <= |s|
    ensures var r := IndexFrom(s, sub, from);
            r >= 0 ==> OccursAt(s, sub, r) && forall k :: from <= k < r ==> !OccursAt(s, sub, k)
    ensures IndexFrom(s, sub, from) < 0 ==> forall k :: from <= k ==> !OccursAt(s, sub, k)
    decreases |s| - from
  {
    if from + |sub| <= |s| && s[from..from + |sub|] != sub && from < |s| {
      IndexFromSpec(s, sub, from + 1);
    }
  }

  /** Index finds the first occurrence of `sub`, and reports -1 exactly when `sub` does not occur. */
  lemma IndexSpec(s: string, sub: string)
    ensures var r := Index(s, sub);
            r >= 0 ==> OccursAt(s, sub, r) && forall k :: 0 <= k < r ==> !OccursAt(s, sub, k)
    ensures Index(s, sub) < 0 <==> forall k :: !OccursAt(s, sub, k)
  {
    IndexFromSpec(s, sub, 0);
  }

  /** strings.Contains, through strings.Index as the installer writes it. */
  predicate Contains(s: string, sub: string) {
    Index(s, sub) >= 0
  }

  predicate AllSpaces(s: string) {
    forall i :: 0 <= i < |s| ==> s[i] == ' '
  }

  /** `s` without its leading spaces (see TrimLeftSpec). */
  function TrimLeft(s: string): (r: string)
    ensures |r| <= |s|
  {
    if s != [] && s[0] == ' ' then TrimLeft(s[1..]) else s
  }

  /** `s` without its trailing spaces (see TrimRightSpec). */
  function TrimRight(s: string): (r: string)
    ensures |r| <= |s|
  {
    if s != [] && s[|s| - 1] == ' ' then TrimRight(s[..|s| - 1]) else s
  }

  /** TrimLeft keeps a suffix that does not start with a space, cuts only spaces, and is empty only for a blank string. */
  lemma {:induction false} TrimLeftSpec(s: string)
    ensures var r := TrimLeft(s);
            r == s[|s| - |r|..] && AllSpaces(s[..|s| - |r|]) && (r == [] || r[0] != ' ') && (r == [] <==> AllSpaces(s))
  {
    if s != [] && s[0] == ' ' {
      var t := s[1..];
      TrimLeftSpec(t);
      var r := TrimLeft(t);
      var cut := s[..|s| - |r|];
      forall i | 0 <= i < |cut| ensures cut[i] == ' ' {
        if i > 0 { assert cut[i] == t[..|t| - |r|][i - 1]; }
      }
      if AllSpaces(t) {
        forall i | 0 <= i < |s| ensures s[i] == ' ' {
          if i > 0 { assert s[i] == t[i - 1]; }
        }
      }
    } else {
      assert s[..|s| - |s|] == [];
    }
  }

  /** TrimRight keeps a prefix that does not end with a space, cuts only spaces, and is empty only for a blank string. */
  lemma {:induction false} TrimRightSpec(s: string)
    ensures var r := TrimRight(s);
            r == s[..|r|] && AllSpaces(s[|r|..]) && (r == [] || r[|r| - 1] != ' ') && (r == [] <==> AllSpaces(s))
  {
    if s != [] && s[|s| - 1] == ' ' {
      var t := s[..|s| - 1];
      TrimRightSpec(t);
      var r := TrimRight(t);
      assert s[|r|..] == t[|r|..] + [' '];
      if AllSpaces(t) {
        forall i | 0 <= i < |s| ensures s[i] == ' ' {
          if i < |t| { assert s[i] == t[i]; }
        }
      }
    } else {
      assert s[|s|..] == [];
    }
  }

  /** strings.Trim(s, " "): `s` without its leading and trailing spaces (see TrimSpec). */
  function Trim(s: string): string {
    TrimRight(TrimLeft(s))
  }

  /**
    The trimmed text is the part of `s` between a run of leading spaces and a run of trailing
    spaces; it neither starts nor ends with a space, and is empty exactly for a blank string.
   */
  lemma TrimSpec(s: string)
    ensures var a := |s| - |TrimLeft(s)|;
            var b := a + |Trim(s)|;
            a <= b <= |s| && Trim(s) == s[a..b] && AllSpaces(s[..a]) && AllSpaces(s[b..])
    ensures var r := Trim(s); r == [] || (r[0] != ' ' && r[|r| - 1] != ' ')
    ensures Trim(s) == [] <==> AllSpaces(s)
  {
    var l := TrimLeft(s);
    TrimLeftSpec(s);
    TrimRightSpec(l);
    var a := |s| - |l|;
    var r := Trim(s);
    assert s[a..a + |r|] == l[..|r|];
    assert s[a + |r|..] == l[|r|..];
  }

  /** Trimming leaves a string alone when it neither starts nor ends with a space. */
  lemma TrimClean(s: string)
    requires s == [] || (s[0] != ' ' && s[|s| - 1] != ' ')
    ensures Trim(s) == s
  {
    assert TrimLeft(s) == s;
    assert TrimRight(s) == s;
  }

  /**
    A key that neither starts nor ends with a space survives, as a prefix, the trimming of
    "key value": only the value's trailing spaces (and the separator, when the value is blank)
    can be cut.
   */
  lemma TrimKeepsKey(key: string, value: string)
    requires key != [] && key[0] != ' ' && key[|key| - 1] != ' '
    ensures HasPrefix(Trim(key + " " + value), key)
  {
    var s := key + " " + value;
    assert s[0] == key[0];
    assert TrimLeft(s) == s;
    TrimRightSpec(s);
    var r := TrimRight(s);
    assert s[|key| - 1] == key[|key| - 1];
    assert r[..|key|] == s[..|key|] == key;
  }

  /** strings.Join. */
  function Join(parts: seq<string>, sep: string): string {
    if parts == [] then ""
    else if |parts| == 1 then parts[0]
    else parts[0] + sep + Join(parts[1..], sep)
  }

  lemma {:induction false} JoinSnoc(parts: seq<string>, last: string, sep: string)
    ensures Join(parts + [last], sep) == if parts == [] then last else Join(parts, sep) + sep + last
  {
    if |parts| > 1 {
      assert (parts + [last])[1..] == parts[1..] + [last];
      JoinSnoc(parts[1..], last, sep);
    } else if |parts| == 1 {
      assert (parts + [last])[1..] == [last];
    }
  }

  /**
    strings.Split(s, sep) for a one-character separator: the pieces between the separators,
    which joined back with the separator give `s` again.
   */
  function Split(s: string, sep: char): (parts: seq<string>)
    ensures |parts| >= 1
    ensures forall p :: p in parts ==> sep !in p
    ensures Join(parts, [sep]) == s
  {
    if s == [] then [""]
    else
      var rest := Split(s[1..], sep);
      if s[0] == sep then
        assert Join([""] + rest, [sep]) == [sep] + Join(rest, [sep]) by {
          assert ([""] + rest)[1..] == rest;
        }
        [""] + rest
      else
        var parts := [[s[0]] + rest[0]] + rest[1..];
        assert Join(parts, [sep]) == [s[0]] + Join(rest, [sep]) by {
          if |rest| > 1 {
            assert parts[1..] == rest[1..];
          }
        }
        assert forall p :: p in parts ==> sep !in p by {
          forall p | p in parts ensures sep !in p {
            if p != parts[0] {
              assert p in rest;
            }
          }
        }
        parts
  }

  lemma {:induction false} SplitNoSeparator(s: string, sep: char)
    requires sep !in s
    ensures Split(s, sep) == [s]
  {
    if s != [] {
      SplitNoSeparator(s[1..], sep);
    }
  }

  lemma {:induction false} SplitAfterPiece(piece: string, sep: char, rest: string)
    requires sep !in piece
    ensures Split(piece + [sep] + rest, sep) == [piece] + Split(rest, sep)
  {
    var s := piece + [sep] + rest;
    if piece == [] {
      assert s[1..] == rest;
    } else {
      assert s[1..] == piece[1..] + [sep] + rest;
      SplitAfterPiece(piece[1..], sep, rest);
      var tail := Split(s[1..], sep);
      assert tail[0] == piece[1..] && tail[1..] == Split(rest, sep);
      assert [s[0]] + piece[1..] == piece;
    }
  }

  /** Splitting undoes joining when no piece contains the separator. */
  lemma {:induction false} SplitJoin(parts: seq<string>, sep: char)
    requires |parts| >= 1
    requires forall p :: p in parts ==> sep !in p
    ensures Split(Join(parts, [sep]), sep) == parts
  {
    if |parts| == 1 {
      SplitNoSeparator(parts[0], sep);
    } else {
      SplitJoin(parts[1..], sep);
      SplitAfterPiece(parts[0], sep, Join(parts[1..], [sep]));
    }
  }

  predicate IsDigit(c: char) {
    '0' <= c <= '9'
  }

  predicate AllDigits(s: string) {
    forall i :: 0 <= i < |s| ==> IsDigit(s[i])
  }

  /** The number that a string of decimal digits denotes. */
  function DigitsValue(s: string): nat
    requires AllDigits(s)
  {
    if s == [] then 0 else DigitsValue(s[..|s| - 1]) * 10 + (s[|s| - 1] as int - '0' as int)
  }

  const MIN_INT64: int := -0x8000_0000_0000_0000
  const MAX_INT64: int := 0x7fff_ffff_ffff_ffff

  /**
    strconv.ParseInt(s, 10, 64): an optional sign and at least one decimal digit, whose value
    must fit in 64 bits; anything else is an error.
   */
  function ParseInt(s: string): (r: Option<int>)
    ensures r.Some? ==> MIN_INT64 <= r.value <= MAX_INT64
    ensures r.Some? ==> exists i :: 0 <= i <= 1 && i < |s| && AllDigits(s[i..])
  {
    if s == [] then None
    else
      var signed := s[0] == '+' || s[0] == '-';
      var digits := if signed then s[1..] else s;
      if digits == [] || !AllDigits(digits) then None
      else
        var v: int := if s[0] == '-' then -(DigitsValue(digits) as int) else DigitsValue(digits);
        if MIN_INT64 <= v <= MAX_INT64 then
          assert AllDigits(s[if signed then 1 else 0..]);
          Some(v)
        else None
  }

  /** The decimal rendering of a natural number, without leading zeros. */
  function NatToString(n: nat): (s: string)
    ensures s != [] && AllDigits(s)
  {
    var d := ['0' + ((n % 10) as char)];
    if n < 10 then d else NatToString(n / 10) + d
  }

  lemma {:induction false} NatToStringValue(n: nat)
    ensures DigitsValue(NatToString(n)) == n
  {
    var s := NatToString(n);
    if n >= 10 {
      NatToStringValue(n / 10);
      assert s[..|s| - 1] == NatToString(n / 10);
    }
  }

  /**
    What ParseInt accepts and the value it gives: digits alone, or `+` or `-` followed by digits,
    read in base 10 and kept only when the (signed) value lies in the int64 range.
   */
  lemma ParseIntSpec(s: string)
    ensures s != [] && AllDigits(s) ==>
              ParseInt(s) == if DigitsValue(s) <= MAX_INT64 then Some(DigitsValue(s) as int) else None
    ensures |s| >= 2 && s[0] == '+' && AllDigits(s[1..]) ==>
              ParseInt(s) == if DigitsValue(s[1..]) <= MAX_INT64 then Some(DigitsValue(s[1..]) as int) else None
    ensures |s| >= 2 && s[0] == '-' && AllDigits(s[1..]) ==>
              ParseInt(s) == if DigitsValue(s[1..]) <= -MIN_INT64 then Some(-(DigitsValue(s[1..]) as int)) else None
    ensures ParseInt(s).Some? ==>
              (s != [] && AllDigits(s)) || (|s| >= 2 && (s[0] == '+' || s[0] == '-') && AllDigits(s[1..]))
  {
    if s == [] {
    } else if s[0] == '+' || s[0] == '-' {
      assert !IsDigit(s[0]);
    } else {
      assert ParseInt(s).Some? <==> AllDigits(s) && DigitsValue(s) <= MAX_INT64;
    }
  }

  /** ParseInt reads back every decimal rendering that fits in 64 bits. */
  lemma ParseIntNatToString(n: nat)
    requires n <= MAX_INT64
    ensures ParseInt(NatToString(n)) == Some(n)
  {
    var s := NatToString(n);
    NatToStringValue(n);
    assert IsDigit(s[0]);
  }
}
