/** The state of a brand-name generator: an order-N character Markov model
    made of three weight tables and a table of per-letter penalty factors. */
module Markov {
  import opened Tables
  import opened Text

  /** One generator.
      - `order`: length of the context that predicts the next character.
      - `transitions[ctx][c]`: weight of seeing `c` right after the context `ctx`.
      - `starts[ctx]`: weight of words that begin with the context `ctx`.
      - `totalCounts[ctx]`: running total of the weights leaving `ctx`.
      - `letterPenalties[c]`: factor applied to the weight of drawing `c`. */
  datatype Generator = Generator(
    order: nat,
    transitions: map<string, map<char, real>>,
    starts: map<string, real>,
    totalCounts: map<string, real>,
    letterPenalties: map<char, real>)

  /** The penalty table every new generator starts with: strong penalties for
      `ä`, `š`, `ö` and the hyphen, milder ones for a few consonants, and a
      bonus for `r`. */
  const DefaultPenalties: map<char, real> := map[
    '\U{00E4}' := 0.2,  // ä
    '\U{0161}' := 0.2,  // š
    '\U{00F6}' := 0.2,  // ö
    '-' := 0.2,
    'x' := 0.3,
    'g' := 0.3,
    'b' := 0.4,
    'q' := 0.4,
    'z' := 0.5,
    'v' := 0.7,
    'w' := 0.8,
    'r' := 2.0
  ]

  /** The next-character table of a context; empty when the context was never seen. */
  function Row(g: Generator, ctx: string): map<char, real>
  {
    if ctx in g.transitions then g.transitions[ctx] else map[]
  }

  /** `transitions[ctx][c]`, reading a missing entry as zero. */
  function Count(g: Generator, ctx: string, c: char): real
  {
    Get(Row(g, ctx), c)
  }

  /** Whether `transitions[ctx][c]` exists at all. */
  predicate HasEntry(g: Generator, ctx: string, c: char)
  {
    ctx in g.transitions && c in g.transitions[ctx]
  }

  /** `total_counts[ctx]` is the sum of the weights leaving `ctx`, for every
      context that has been seen, and no other context has a total. */
  ghost predicate TotalsMatch(g: Generator)
  {
    && g.totalCounts.Keys == g.transitions.Keys
    && forall ctx :: ctx in g.transitions ==> g.totalCounts[ctx] == Sum(g.transitions[ctx])
  }

  /** The shape training gives the tables: start contexts are the bare
      padding, every context has length `order`, and every recorded next
      character is already lower-case. */
  ghost predicate Shaped(g: Generator)
  {
    && (forall k :: k in g.starts ==> k == Carets(g.order))
    && (forall ctx :: ctx in g.transitions ==> |ctx| == g.order)
    && (forall ctx, c :: HasEntry(g, ctx, c) ==> IsLower(c))
  }

  /** No weight and no penalty factor is negative. */
  ghost predicate NonNegative(g: Generator)
  {
    && (forall k :: k in g.starts ==> g.starts[k] >= 0.0)
    && (forall ctx, c :: HasEntry(g, ctx, c) ==> g.transitions[ctx][c] >= 0.0)
    && (forall c :: c in g.letterPenalties ==> g.letterPenalties[c] >= 0.0)
  }

  /** Everything a generator built by `Init` and trained with non-negative
      weights satisfies. */
  ghost predicate Valid(g: Generator)
  {
    && g.order >= 1
    && TotalsMatch(g)
    && Shaped(g)
    && NonNegative(g)
  }

  /** `BrandNameGenerator(order)`: empty tables and the default penalties. */
  function Init(order: nat): (g: Generator)
    requires order >= 1
    ensures Valid(g)
    ensures g.order == order && g.starts == map[]
    ensures g.transitions == map[] && g.totalCounts == map[] && g.letterPenalties == DefaultPenalties
  {
    Generator(order, map[], map[], map[], DefaultPenalties)
  }

  /** The factor `apply_penalties` multiplies by: the table's entry for `c`,
      or 1 when `c` has none. */
  function Factor(penalties: map<char, real>, c: char): real
  {
    if c in penalties then penalties[c] else 1.0
  }

  /** `apply_penalties(current_word, next_char, base_weight)`: the weight of
      drawing `nextChar`, after the letter penalty. The word built so far is
      passed but not looked at. */
  function ApplyPenalties(penalties: map<char, real>, currentWord: string, nextChar: char, baseWeight: real): (r: real)
    ensures nextChar !in penalties ==> r == baseWeight
    ensures nextChar in penalties ==> r == baseWeight * penalties[nextChar]
  {
    baseWeight * Factor(penalties, nextChar)
  }

  /** A factor of zero forbids a letter whatever its weight. */
  lemma ZeroFactorForbids(penalties: map<char, real>, word: string, c: char, w: real)
    requires c in penalties && penalties[c] == 0.0
    ensures ApplyPenalties(penalties, word, c, w) == 0.0
  {
  }

  /** The penalised weight does not depend on the word built so far. */
  lemma PenaltyIgnoresWord(penalties: map<char, real>, word1: string, word2: string, c: char, w: real)
    ensures ApplyPenalties(penalties, word1, c, w) == ApplyPenalties(penalties, word2, c, w)
  {
  }

  /** With non-negative factors, the penalised weight of a non-negative
      weight is positive exactly when the weight is positive and the letter
      is not forbidden. */
  lemma PenaltyKeepsSign(penalties: map<char, real>, word: string, c: char, w: real)
    requires forall d :: d in penalties ==> penalties[d] >= 0.0
    requires w >= 0.0
    ensures ApplyPenalties(penalties, word, c, w) >= 0.0
    ensures ApplyPenalties(penalties, word, c, w) > 0.0 <==> w > 0.0 && Factor(penalties, c) > 0.0
  {
  }

  /** No letter is forbidden by default, so the default table only ever
      re-weights. */
  lemma DefaultPenaltiesPositive()
    ensures forall c :: c in DefaultPenalties ==> DefaultPenalties[c] > 0.0
    ensures Factor(DefaultPenalties, 'r') == 2.0
  {
  }
}
