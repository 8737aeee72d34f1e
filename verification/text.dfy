/** Characters and strings as the generator sees them: a per-character case
    mapping, the start padding and the rolling context of a word. */
module Text {

  /** The start sentinel, repeated `order` times in front of every word. */
  const StartMark: char := '^'

  /** The end sentinel, appended once to every word. */
  const EndMark: char := '$'

  /** Lower-case mapping of one character: ASCII letters, the Latin-1
      capitals (except the multiplication sign) and the capitals of `š`,
      `ž` and `ÿ`; every other character maps to itself. */
  function Lower(c: char): char
  {
    if 'A' <= c <= 'Z' then (c as int + 32) as char
    else if '\U{00C0}' <= c <= '\U{00DE}' && c != '\U{00D7}' then (c as int + 32) as char
    else if c == '\U{0160}' || c == '\U{017D}' then (c as int + 1) as char
    else if c == '\U{0178}' then '\U{00FF}'
    else c
  }

  /** Upper-case mapping of one character, the inverse of `Lower` on the
      letters that `Lower` produces. */
  function Upper(c: char): char
  {
    if 'a' <= c <= 'z' then (c as int - 32) as char
    else if '\U{00E0}' <= c <= '\U{00FE}' && c != '\U{00F7}' then (c as int - 32) as char
    else if c == '\U{0161}' || c == '\U{017E}' then (c as int - 1) as char
    else if c == '\U{00FF}' then '\U{0178}'
    else c
  }

  /** A character that lower-casing leaves alone. */
  predicate IsLower(c: char)
  {
    Lower(c) == c
  }

  /** Lower-casing is idempotent, and upper-casing a lower-case letter can
      be undone. */
  lemma LowerUpper(c: char)
    ensures IsLower(Lower(c))
    ensures IsLower(c) ==> Lower(Upper(c)) == c
  {
  }

  /** `str.lower`, one character at a time. */
  function LowerStr(s: string): (t: string)
    ensures |t| == |s|
    ensures forall i :: 0 <= i < |s| ==> t[i] == Lower(s[i])
  {
    seq(|s|, i requires 0 <= i < |s| => Lower(s[i]))
  }

  /** `str.capitalize`: the first character upper-cased, the rest lower-cased.
      On a word that is already lower-case only the first character changes. */
  function Capitalize(s: string): (t: string)
    ensures |t| == |s|
    ensures |s| > 0 ==> t[0] == Upper(s[0])
    ensures |s| > 0 && (forall i :: 0 <= i < |s| ==> IsLower(s[i])) ==> t[1..] == s[1..]
  {
    if |s| == 0 then s else [Upper(s[0])] + LowerStr(s[1..])
  }

  /** Lower-casing a capitalized lower-case word gives the word back. */
  lemma LowerCapitalize(s: string)
    requires forall i :: 0 <= i < |s| ==> IsLower(s[i])
    ensures LowerStr(Capitalize(s)) == s
  {
    if |s| > 0 {
      LowerUpper(s[0]);
    }
  }

  /** `"^" * n`. */
  function Carets(n: nat): (r: string)
    ensures |r| == n
    ensures forall i :: 0 <= i < n ==> r[i] == StartMark
  {
    seq(n, i => StartMark)
  }

  /** The last `order` characters of `"^" * order + prefix`: the context in
      which the character after `prefix` is chosen. */
  function Context(order: nat, prefix: string): (ctx: string)
    ensures |ctx| == order
  {
    (Carets(order) + prefix)[|prefix|..]
  }

  /** Sliding the context one character forward: drop its first character
      and append the new one. */
  lemma ContextSlide(order: nat, prefix: string, c: char)
    requires order >= 1
    ensures Context(order, prefix + [c]) == Context(order, prefix)[1..] + [c]
  {
    assert Carets(order) + (prefix + [c]) == (Carets(order) + prefix) + [c];
  }

  /** The context before any character is the bare start padding. */
  lemma ContextOfEmpty(order: nat)
    ensures Context(order, "") == Carets(order)
  {
    assert Carets(order) + "" == Carets(order);
  }
}
