/** String operations of Python's `str` that the converter relies on:
    `strip()`, `strip(chars)`, `startswith`, `endswith`, `in` and `join`. */
module Text {

  /** Python's `str.isspace()` for a single character: the ASCII whitespace
      and separator controls plus the Unicode space separators. */
  predicate IsSpace(c: char) {
    c == ' ' || ('\t' <= c <= '\r') || ('\U{1c}' <= c <= '\U{1f}')
    || c == '\U{85}' || c == '\U{a0}' || c == '\U{1680}'
    || ('\U{2000}' <= c <= '\U{200a}') || c == '\U{2028}' || c == '\U{2029}'
    || c == '\U{202f}' || c == '\U{205f}' || c == '\U{3000}'
  }

  /** Drops the longest prefix whose characters all satisfy `drop`. */
  function TrimStart(s: string, drop: char -> bool): string
    decreases |s|
  {
    if s != [] && drop(s[0]) then TrimStart(s[1..], drop) else s
  }

  /** Drops the longest suffix whose characters all satisfy `drop`. */
  function TrimEnd(s: string, drop: char -> bool): string
    decreases |s|
  {
    if s != [] && drop(s[|s| - 1]) then TrimEnd(s[..|s| - 1], drop) else s
  }

  /** Python's `s.strip(chars)`, with the character set given as a predicate. */
  function Trim(s: string, drop: char -> bool): string {
    TrimEnd(TrimStart(s, drop), drop)
  }

  /** Python's `s.strip()` with no argument. */
  function Strip(s: string): string {
    Trim(s, IsSpace)
  }

  /** Python's `s.endswith(suffix)`. (`s.startswith(p)` is Dafny's prefix test `p <= s`.) */
  predicate EndsWith(s: string, suffix: string) {
    |suffix| <= |s| && s[|s| - |suffix|..] == suffix
  }

  /** Python's substring test `t in s`. */
  predicate Contains(s: string, t: string)
    decreases |s|
  {
    t <= s || (s != [] && Contains(s[1..], t))
  }

  /** Python's `sep.join(parts)`. */
  function Join(sep: string, parts: seq<string>): string
    decreases |parts|
  {
    if parts == [] then "" else if |parts| == 1 then parts[0] else parts[0] + sep + Join(sep, parts[1..])
  }

  function AllSatisfy(s: string, p: char -> bool): bool {
    forall i :: 0 <= i < |s| ==> p(s[i])
  }

  /** Trimming a prefix made only of dropped characters leaves exactly the rest. */
  lemma {:induction false} TrimStartPadded(pad: string, rest: string, drop: char -> bool)
    requires AllSatisfy(pad, drop)
    requires rest == [] || !drop(rest[0])
    ensures TrimStart(pad + rest, drop) == rest
    decreases |pad|
  {
    if pad != [] {
      assert (pad + rest)[1..] == pad[1..] + rest;
      TrimStartPadded(pad[1..], rest, drop);
    } else {
      assert pad + rest == rest;
    }
  }

  /** Trimming a suffix made only of dropped characters leaves exactly the rest. */
  lemma {:induction false} TrimEndPadded(rest: string, pad: string, drop: char -> bool)
    requires AllSatisfy(pad, drop)
    requires rest == [] || !drop(rest[|rest| - 1])
    ensures TrimEnd(rest + pad, drop) == rest
    decreases |pad|
  {
    if pad != [] {
      assert (rest + pad)[..|rest + pad| - 1] == rest + pad[..|pad| - 1];
      TrimEndPadded(rest, pad[..|pad| - 1], drop);
    } else {
      assert rest + pad == rest;
    }
  }

  /** `Trim` removes padding on both sides and keeps the text in between intact. */
  lemma TrimPadded(left: string, body: string, right: string, drop: char -> bool)
    requires AllSatisfy(left, drop) && AllSatisfy(right, drop)
    requires body == [] || (!drop(body[0]) && !drop(body[|body| - 1]))
    ensures Trim(left + body + right, drop) == body
  {
    if body == [] {
      assert left + body + right == left + right;
      TrimStartPadded(left + right, [], drop);
      assert left + right + [] == left + right;
    } else {
      assert left + body + right == left + (body + right);
      TrimStartPadded(left, body + right, drop);
      TrimEndPadded(body, right, drop);
    }
  }
}
