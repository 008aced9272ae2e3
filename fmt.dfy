/**
  What Go's fmt.Printf writes when it is given a format string and no operands, for format
  strings whose directives are all a `%` followed directly by the verb (no flags, width,
  precision or argument index), `%%`, or a lone `%` at the very end.
 */
module Fmt {

  /** Characters that, right after `%`, start a flag, a width, a precision or an argument index. */
  predicate IsModifier(c: char) {
    c in "#0+- 123456789.*["
  }

  predicate NoPercent(s: string) {
    '%' !in s
  }

  /** Every directive is a bare verb, `%%`, or a trailing `%`. */
  predicate SimpleDirectives(f: string)
    decreases |f|
  {
    if f == [] then true
    else if f[0] != '%' then SimpleDirectives(f[1..])
    else if |f| == 1 then true
    else !IsModifier(f[1]) && SimpleDirectives(f[2..])
  }

  /**
    The text Printf(f) writes with no operands: `%%` becomes `%`, a verb with no operand left
    becomes `%!<verb>(MISSING)`, and a `%` with nothing after it becomes `%!(NOVERB)`.
   */
  function PrintfNoOperands(f: string): (r: string)
    requires SimpleDirectives(f)
    ensures r == [] <==> f == []
    decreases |f|
  {
    if f == [] then ""
    else if f[0] != '%' then [f[0]] + PrintfNoOperands(f[1..])
    else if |f| == 1 then "%!(NOVERB)"
    else if f[1] == '%' then "%" + PrintfNoOperands(f[2..])
    else "%!" + [f[1]] + "(MISSING)" + PrintfNoOperands(f[2..])
  }

  /** Text without `%` passes through Printf unchanged, and in front of anything else. */
  lemma {:induction false} PrintfPlainPrefix(plain: string, rest: string)
    requires NoPercent(plain) && SimpleDirectives(rest)
    ensures SimpleDirectives(plain + rest)
    ensures PrintfNoOperands(plain + rest) == plain + PrintfNoOperands(rest)
  {
    if plain == [] {
      assert plain + rest == rest;
    } else {
      assert (plain + rest)[0] == plain[0] != '%';
      assert (plain + rest)[1..] == plain[1..] + rest;
      PrintfPlainPrefix(plain[1..], rest);
    }
  }

  /** A format string without `%` is written verbatim. */
  lemma PrintfPlain(plain: string)
    requires NoPercent(plain)
    ensures SimpleDirectives(plain) && PrintfNoOperands(plain) == plain
  {
    PrintfPlainPrefix(plain, "");
    assert plain + "" == plain;
  }

  /**
    One verb in otherwise plain text is replaced by `%!<verb>(MISSING)`, so the text written
    differs from the text given.
   */
  lemma PrintfMissingOperand(before: string, verb: char, after: string)
    requires NoPercent(before) && NoPercent(after) && verb != '%' && !IsModifier(verb)
    ensures SimpleDirectives(before + ['%', verb] + after)
    ensures PrintfNoOperands(before + ['%', verb] + after) == before + "%!" + [verb] + "(MISSING)" + after
    ensures PrintfNoOperands(before + ['%', verb] + after) != before + ['%', verb] + after
  {
    PrintfPlain(after);
    var tail := ['%', verb] + after;
    var missing := "%!" + [verb] + "(MISSING)";
    assert tail[0] == '%' && tail[1] == verb && tail[2..] == after;
    assert PrintfNoOperands(tail) == missing + after;
    PrintfPlainPrefix(before, tail);
    assert before + ['%', verb] + after == before + tail;
    assert before + "%!" + [verb] + "(MISSING)" + after == before + (missing + after);
    assert |before + (missing + after)| != |before + tail|;
  }
}
