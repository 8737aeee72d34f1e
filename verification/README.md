# Brand-name generator: a Dafny model

`BrandNameGenerator` (in `main.py`) learns an order-N character Markov model
from a list of words and samples new, brand-like words from it. This project
models its four operations and proves properties of them:

- the constructor (`Markov.Init`): an order, empty tables and the default
  letter-penalty table;
- `train` (`Training.Train`): each word is lower-cased and padded to
  `"^" * order + word + "$"`. Its start context gains the weight once.
  Every window of `order` characters gains the weight for the character
  that follows it, in `transitions` and in `total_counts`;
- `apply_penalties` (`Markov.ApplyPenalties`): the base weight times the
  letter's penalty factor, or times 1 when the letter has no factor;
- `generate_word` (`Generation.GenerateWord`): a walk from the start
  padding. At each step one character is drawn among those with a positive
  penalised weight. A drawn end mark stops the walk once the word is long
  enough and is redrawn otherwise. The walk also stops at a dead end or at
  `max_length`, and the result is capitalized.

Files:

- `tables.dfy`: zero-default weight tables and their sums.
- `text.dfy`: case mapping, the padding and the rolling context.
- `markov.dfy`: the generator state, its well-formedness invariant, the
  constructor and the penalties.
- `training.dfy`: training, plus an entry-by-entry characterisation of what
  it records. Monotonicity, frame, additivity and invariant preservation
  are proved from that characterisation.
- `generation.dfy`: the generation walk and what every outcome satisfies.

Weights are exact `real`s. The random draws are left open: `GenerateWord`
uses a non-deterministic choice among the drawable characters, so its
contract holds for every sequence of draws `generate_word` can make. Its
outcome is one of the following:

- `Returned(word, body)`: a word was returned.
- `Diverges(body)`: `generate_word` would redraw forever.
- `OutOfRedraws(body)`: the model's bound on rejected end marks ran out.
- `ChoiceRaises`: the weighted start choice fails because every start
  weight is zero.

`Markov.Valid` is the invariant of every reachable generator. It holds for
`Init` and is kept by `Train` with a non-negative weight. It says:

- the order is at least 1;
- every `total_counts` entry is the sum of its row;
- the only start context is `"^" * order`;
- every context has length `order`;
- every recorded next character is lower-case;
- no weight or factor is negative.

Generation takes `Valid` as its precondition.

## Model

| member | source | states |
|---|---|---|
| `Markov.Init` | main.py:7-27 | A new generator keeps the given order. It has empty start, transition and total tables and the default penalty table, and it satisfies the well-formedness invariant. |
| `Markov.DefaultPenaltiesPositive` | main.py:14-27 | No default factor is zero, so the defaults only re-weight letters. `r` gets the bonus factor 2. |
| `Markov.ApplyPenalties` | main.py:47-57 | A letter without a factor keeps its base weight. A letter with a factor gets its base weight times that factor. |
| `Markov.ZeroFactorForbids` | main.py:54-57 | A factor of zero gives weight zero, whatever the base weight. |
| `Markov.PenaltyIgnoresWord` | main.py:47-57 | The penalised weight does not depend on the word built so far. |
| `Markov.PenaltyKeepsSign` | main.py:51-57 | Given non-negative factors and a non-negative weight, the penalised weight is non-negative. It is positive exactly when the weight and the letter's factor are both positive. |
| `Text.ContextSlide` | main.py:101 | Appending a character to the word moves the rolling context: its first character is dropped and the new one appended. |
| `Text.ContextOfEmpty` | main.py:72 | Before any character, the rolling context is exactly the padding `"^" * order`. |
| `Text.Capitalize` | main.py:103 | Capitalizing keeps the length and upper-cases the first character. On a lower-case word nothing after the first character changes. |
| `Text.LowerStr` | main.py:35 | `word.lower()` keeps the length and lower-cases each character with the model's `Lower`. |
| `Text.Context` | main.py:72-101 | The rolling state `current` after the prefix built so far always has length `order`. `Text.ContextOfEmpty` and `Text.ContextSlide` state how it starts and how it moves. |
| `Text.LowerCapitalize` | main.py:35 | Lower-casing a capitalized lower-case word gives it back, so training on a generated word sees the word that was generated. This does not hold when the first letter is `µ` or `ß`; see the Case mapping line under Left out. |
| `Training.Windows` | main.py:41-43 | The observations of one padded word. `Training.PaddedWindows` states their number, contexts and next characters. |
| `Training.Record` | main.py:44-45 | One observation adds the weight to `transitions[ctx][c]` and to `total_counts[ctx]`. `Training.TrainRecorded` states the effect of all observations entry by entry. |
| `Training.Train` | main.py:29-45 | `train(words, weight)`. Its effect is stated by `Training.TrainStartsExact` on the start table and by `Training.TrainRecorded` on the transition and total tables. |
| `Training.Pad` | main.py:35 | The padded word is `order` start marks, then the lower-cased word, then one end mark. |
| `Training.PaddedWindows` | main.py:41-43 | A word of length n yields n + 1 observations. The i-th context is the rolling context after the first i lower-cased characters. The observed characters spell the lower-cased word and then the end mark. |
| `Training.PaddedWindowsShaped` | main.py:41-43 | Every observation has a context of length `order` and a lower-case next character. |
| `Training.TrainStartsExact` | main.py:37-39 | Training on k words adds the weight k times to the start entry `"^" * order` and leaves every other start entry alone. |
| `Training.TrainStarts` | main.py:37-39 | The only start context training can add is `"^" * order`. It is present after training on a non-empty list, and it gains the weight once per word. |
| `Training.InitTrainStarts` | main.py:37-39 | A new generator trained on k words has exactly one start context when k > 0, with weight k times the training weight, and none when k = 0. |
| `Training.TrainRecorded` | main.py:37-45 | After training, each transition entry equals its old value plus the weight once per occurrence of that (context, next character) pair in the padded words. Each context's total likewise gains the weight once per observation made in it. An entry exists exactly when it existed before or was observed. Order and penalties are unchanged. |
| `Training.TrainCounts` | main.py:41-45 | Counts each `transitions[ctx][c]` and `total_counts[ctx]` as the old value plus the weight times the number of observations. |
| `Training.TrainMonotone` | main.py:37-45 | With a non-negative weight, no start weight, transition count or total decreases. |
| `Training.TrainFrameStarts` | main.py:37-39 | Start contexts other than the padding keep their presence and weight. The order and the penalty table are unchanged. |
| `Training.TrainFrameEntries` | main.py:41-44 | A transition entry that the padded words never observe keeps its presence and its weight. |
| `Training.TrainFrameContexts` | main.py:41-45 | A context in which no observation is made keeps its whole row, its presence and its total. |
| `Training.TrainConcat` | main.py:37 | Training on `a + b` is training on `a` and then on `b`. |
| `Training.TrainTwice` | main.py:29-45 | Training twice on the same words with weight w gives the same generator as training once with weight 2w. |
| `Training.TrainKeepsTotals` | main.py:44-45 | Training, with any weight, keeps every `total_counts` entry equal to the sum of its row and adds no total without a row. |
| `Training.TrainKeepsValid` | main.py:29-45 | Training with a non-negative weight keeps the whole well-formedness invariant. |
| `Training.InitTrainValid` | main.py:29-45 | A new generator trained with a non-negative weight is well formed. |
| `Generation.Viable` | main.py:80-88 | The characters that can be drawn: the penalised weight is positive, so `any(weights)` holds for them after the temperature power. `Generation.ViableIff` characterises the set. |
| `Generation.ViableIff` | main.py:80-88 | A character can be drawn exactly when its transition count is positive and its penalty factor is positive. |
| `Generation.PathExtend` | main.py:91-101 | Appending a drawable character to a walk gives a walk. |
| `Generation.ForbiddenNeverDrawn` | main.py:54-55 | A letter whose factor is zero never occurs in a generated word. |
| `Generation.GenerateWord` | main.py:59-103 | For every sequence of draws: an untrained generator returns `""`; it raises exactly when every start weight is zero; otherwise the body is a walk of drawable characters, at most `max_length` long and free of the end mark; a returned word is the body capitalized; a shorter body stopped for a reason in `Stops`; it diverges only when the end mark is the only choice below `min_length`, and in that state it never runs out of redraws, so divergence is its only outcome there. |
| `Generation.SingleLetterTables` | main.py:35-45 | Training a new order-1 generator on `["a"]` gives the transitions `^ → a` and `a → $`, each with weight 1, and the single start entry `^` with weight 1. |
| `Generation.WalksOfA` | main.py:91-101 | In a generator with those tables, the only walks without the end mark are the empty word and `a`. |
| `Generation.SingleLetterDiverges` | main.py:95-98 | In that generator, the walk `a` is reachable and afterwards only the end mark can be drawn. |
| `Generation.SingleLetterNeverReturns` | main.py:95-98 | `generate_word` with `min_length` 3 and `max_length` 12 on that generator never returns, for any sequence of draws: its only outcome is the endless redraw after `a`. |
| `Generation.GenerateWordGuarded` | main.py:95-98 | The corrected walk never diverges. A word shorter than `max_length` ended for one of the reasons in `Stops`, or because only the end mark was left. |

In more detail, `Generation.GenerateWord` states, for every sequence of draws:

- An untrained generator returns `""`.
- It raises exactly when the start table has entries whose weights are all zero.
- In every other outcome the body is a walk: each character was drawable in its context when it was drawn.
- The body is at most `max_length` long and never contains the end mark.
- A returned word is the body capitalized, and only its first character differs from the body.
- A returned body shorter than `max_length` stopped for one of three reasons: its context has no row, nothing is drawable, or the end mark is drawable and the body has reached `min_length`.
- Divergence happens only in a state where the only drawable character is the end mark and the body is below `min_length`. Running out of redraws never happens in that state, so there divergence is the only outcome.

## Left out

- Temperature: each weight is raised to `1 / temperature`. For a positive temperature this keeps zero at zero and positive weights positive, and the model keeps only that distinction. Which characters can be drawn is modelled; how likely each one is is not. A temperature of zero or below, which makes Python raise or changes the exponent's sign, is not modelled. Python also raises `OverflowError` when the power exceeds the float range, for example a weight of 10000 at temperature 0.01 (`10000.0 ** 100`). The model has no outcome for that exception.
- Generation.GenerateWord: states what every possible run satisfies, not the probability distribution of `random.choices`. It also bounds the number of rejected end marks by `maxRedraws`. That rejection loop ends with probability 1 whenever another character is drawable, and the `OutOfRedraws` outcome stands for runs that reject more often than the bound.
- Training.TrainTwice: holds for exact reals. With Python floats the two sides can differ by rounding. The same applies to `Training.TrainCounts` and `Training.TrainKeepsTotals`.
- Floating point in general: all weights are exact `real`s, and float underflow of a tiny penalised weight to zero is not modelled.
- Case mapping: `str.lower` and `str.capitalize` are modelled for ASCII letters, the Latin-1 letters with a one-character case partner (including `ÿ`/`Ÿ`), and `š`/`ž`. Two Latin-1 letters are exceptions. `µ` (U+00B5) capitalizes to `Μ` (U+039C) in Python but is left unchanged by the model. `ß` capitalizes to the two characters `Ss` in Python but is also left unchanged. The rest of the Unicode tables, multi-character mappings and title case are not part of this model.
- Order validation: the constructor in `main.py` accepts any order. The model requires an order of at least 1 and states that as the precondition of `Markov.Init`, rather than modelling the unchecked behaviour of order 0 or a negative order.
- Generation is modelled on well-formed generators only, that is, those `Init` and `Train` can produce with non-negative weights. Start tables with other keys, contexts of other lengths and negative weights cannot arise through these operations.
- Training with a negative weight is modelled, and `TrainCounts`, `TrainRecorded`, `TrainTwice` and `TrainKeepsTotals` cover it. Generation after it is not.
- A trained generator can still return `""`. Examples are training on the empty word and generating with `min_length` 0, or a zero penalty on every possible first letter. The model states this behaviour of the code.
- `general_corpus` (reading a CSV file with pandas) and the example block under `__main__` are I/O around the core and are not part of this model.
- `defaultdict` mechanics are modelled only by their effect: a missing entry reads as zero and `+=` creates the entry.

## Findings

| source | as written | input that shows it | evidently intended | confidence | as-written member | corrected member |
|---|---|---|---|---|---|---|
| main.py:95-98 | A drawn end mark below `min_length` is rejected and redrawn even when it is the only drawable character, so the loop never ends. | An order-1 generator trained on `["a"]`, then `generate_word()` with `min_length` 3. After `a`, only `$` can be drawn. | Return the word built so far when the end mark is the only choice, so that generation always ends. | not executed | `Generation.SingleLetterNeverReturns` | `Generation.GenerateWordGuarded` |
