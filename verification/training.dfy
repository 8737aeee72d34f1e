/** `BrandNameGenerator.train`: every word is lower-cased and padded, its
    start context gains the weight once, and every window of `order`
    characters gains the weight for the character that follows it. */
module Training {
  import opened Tables
  import opened Text
  import opened Markov

  /** `"^" * order + word.lower() + "$"`. */
  function Pad(order: nat, word: string): (p: string)
    ensures |p| == order + |word| + 1
    ensures p[..order] == Carets(order)
    ensures p[order..] == LowerStr(word) + [EndMark]
  {
    Carets(order) + LowerStr(word) + [EndMark]
  }

  /** One observation: the character `next` seen right after `context`. */
  datatype Window = Window(context: string, next: char)

  /** The observations of one padded word, left to right: for every
      position `i` in `range(len(p) - order)`, the context `p[i:i+order]` and
      the character `p[i+order]`. */
  function Windows(p: string, order: nat): seq<Window>
  {
    if |p| <= order then []
    else seq(|p| - order, i requires 0 <= i < |p| - order => Window(p[i..i + order], p[i + order]))
  }

  /** The observations of a list of words, word after word. */
  function AllWindows(order: nat, words: seq<string>): seq<Window>
    decreases |words|
  {
    if words == [] then [] else Windows(Pad(order, words[0]), order) + AllWindows(order, words[1..])
  }

  /** `transitions[ctx][c] += w` and `total_counts[ctx] += w` for one
      observation. */
  function Record(g: Generator, x: Window, w: real): Generator
  {
    g.(transitions := g.transitions[x.context := Add(Row(g, x.context), x.next, w)],
       totalCounts := Add(g.totalCounts, x.context, w))
  }

  /** Records a sequence of observations in order. */
  function RecordAll(g: Generator, wins: seq<Window>, w: real): Generator
    decreases |wins|
  {
    if wins == [] then g else RecordAll(Record(g, wins[0], w), wins[1..], w)
  }

  /** The body of `train`'s loop for one word. */
  function TrainWord(g: Generator, word: string, w: real): Generator
  {
    var p := Pad(g.order, word);
    RecordAll(g.(starts := Add(g.starts, p[..g.order], w)), Windows(p, g.order), w)
  }

  /** `train(words, weight)`. */
  function Train(g: Generator, words: seq<string>, w: real): Generator
    decreases |words|
  {
    if words == [] then g else Train(TrainWord(g, words[0], w), words[1..], w)
  }

  // ---------------------------------------------------------------------
  // The observations of one padded word.
  // ---------------------------------------------------------------------

  /** A word of length n yields n + 1 observations. The context of the i-th
      is the rolling context after the first i lower-cased characters (so it
      has length `order`), and the observed characters, in order, spell the
      lower-cased word followed by the end mark. */
  lemma PaddedWindows(order: nat, word: string)
    ensures |Windows(Pad(order, word), order)| == |word| + 1
    ensures forall i :: 0 <= i <= |word| ==>
      Windows(Pad(order, word), order)[i].context == Context(order, LowerStr(word)[..i])
    ensures forall i :: 0 <= i <= |word| ==>
      Windows(Pad(order, word), order)[i].next == (LowerStr(word) + [EndMark])[i]
  {
    var p := Pad(order, word);
    var l := LowerStr(word);
    var ws := Windows(p, order);
    assert p == Carets(order) + l + [EndMark];
    forall i | 0 <= i <= |word|
      ensures ws[i].context == Context(order, l[..i])
    {
      var q := Carets(order) + l[..i];
      assert Context(order, l[..i]) == q[i..];
      forall j | 0 <= j < order
        ensures p[i..i + order][j] == q[i..][j]
      {
        if i + j >= order {
          assert p[i + j] == l[i + j - order];
        }
      }
    }
  }

  /** Every observation of a padded word has a context of length `order` and
      a lower-case next character. */
  lemma PaddedWindowsShaped(order: nat, word: string)
    ensures forall x :: x in Windows(Pad(order, word), order) ==>
      |x.context| == order && IsLower(x.next)
  {
    var p := Pad(order, word);
    var l := LowerStr(word);
    forall k | order <= k < |p|
      ensures IsLower(p[k])
    {
      assert p[order..] == l + [EndMark];
      assert p[k] == (l + [EndMark])[k - order];
      if k - order < |l| {
        LowerUpper(word[k - order]);
      }
    }
  }

  // ---------------------------------------------------------------------
  // What training adds, entry by entry.
  // ---------------------------------------------------------------------

  /** `w` added `n` times: what an entry gains from `n` observations of
      weight `w`. */
  function Scaled(w: real, n: nat): real
  {
    if n == 0 then 0.0 else w + Scaled(w, n - 1)
  }

  lemma {:induction false} ScaledAdd(w: real, a: nat, b: nat)
    ensures Scaled(w, a + b) == Scaled(w, a) + Scaled(w, b)
    decreases b
  {
    if b > 0 {
      ScaledAdd(w, a, b - 1);
    }
  }

  lemma {:induction false} ScaledDouble(w: real, n: nat)
    ensures Scaled(w, n + n) == Scaled(2.0 * w, n)
    decreases n
  {
    if n > 0 {
      ScaledDouble(w, n - 1);
      ScaledAdd(w, n, n);
      ScaledAdd(w, n - 1, n - 1);
    }
  }

  lemma {:induction false} ScaledNonNegative(w: real, n: nat)
    requires w >= 0.0
    ensures Scaled(w, n) >= 0.0
    decreases n
  {
    if n > 0 {
      ScaledNonNegative(w, n - 1);
    }
  }

  /** How many times `x` was observed. */
  function Occ(wins: seq<Window>, x: Window): nat
  {
    multiset(wins)[x]
  }

  /** How many observations were made in `ctx`. */
  function ContextCount(wins: seq<Window>, ctx: string): nat
    decreases |wins|
  {
    if wins == [] then 0
    else (if wins[0].context == ctx then 1 else 0) + ContextCount(wins[1..], ctx)
  }

  lemma {:induction false} ContextCountConcat(a: seq<Window>, b: seq<Window>, ctx: string)
    ensures ContextCount(a + b, ctx) == ContextCount(a, ctx) + ContextCount(b, ctx)
    decreases |a|
  {
    if a == [] {
      assert a + b == b;
    } else {
      assert (a + b)[1..] == a[1..] + b;
      ContextCountConcat(a[1..], b, ctx);
    }
  }

  /** An observation counts towards its context. */
  lemma {:induction false} ContextCountOcc(wins: seq<Window>, x: Window)
    ensures Occ(wins, x) <= ContextCount(wins, x.context)
    decreases |wins|
  {
    if wins != [] {
      assert wins == [wins[0]] + wins[1..];
      assert multiset(wins) == multiset([wins[0]]) + multiset(wins[1..]);
      ContextCountOcc(wins[1..], x);
    }
  }

  /** Every transition entry of `r` is that of `g` plus `w` per observation,
      and exists exactly when it existed in `g` or was observed. */
  ghost predicate EntriesRecorded(g: Generator, r: Generator, wins: seq<Window>, w: real)
  {
    && (forall ctx, c :: HasEntry(r, ctx, c) <==> HasEntry(g, ctx, c) || Occ(wins, Window(ctx, c)) > 0)
    && (forall ctx, c :: Count(r, ctx, c) == Count(g, ctx, c) + Scaled(w, Occ(wins, Window(ctx, c))))
  }

  /** Every context of `r` is a context of `g` or an observed one, and its
      total is that of `g` plus `w` per observation made in it. */
  ghost predicate TotalsRecorded(g: Generator, r: Generator, wins: seq<Window>, w: real)
  {
    && (forall ctx :: ctx in r.transitions <==> ctx in g.transitions || ContextCount(wins, ctx) > 0)
    && (forall ctx :: ctx in r.totalCounts <==> ctx in g.totalCounts || ContextCount(wins, ctx) > 0)
    && (forall ctx :: Get(r.totalCounts, ctx) == Get(g.totalCounts, ctx) + Scaled(w, ContextCount(wins, ctx)))
  }

  /** The transition and total tables of `r` are those of `g` after
      observing `wins` with weight `w`; the order and the penalties are
      unchanged. */
  ghost predicate Recorded(g: Generator, r: Generator, wins: seq<Window>, w: real)
  {
    && r.order == g.order
    && r.letterPenalties == g.letterPenalties
    && EntriesRecorded(g, r, wins, w)
    && TotalsRecorded(g, r, wins, w)
  }

  lemma RecordedNothing(g: Generator, r: Generator, w: real)
    requires r == g.(starts := r.starts)
    ensures Recorded(g, r, [], w)
  {
    assert forall x :: Occ([], x) == 0;
    assert forall ctx :: ContextCount([], ctx) == 0;
  }

  lemma RecordEntries(g: Generator, x: Window, w: real)
    ensures EntriesRecorded(g, Record(g, x, w), [x], w)
  {
    var r := Record(g, x, w);
    assert forall y :: Occ([x], y) == if y == x then 1 else 0;
    assert forall ctx :: Row(r, ctx) == if ctx == x.context then Add(Row(g, ctx), x.next, w) else Row(g, ctx);
  }

  lemma RecordTotals(g: Generator, x: Window, w: real)
    ensures TotalsRecorded(g, Record(g, x, w), [x], w)
  {
    assert forall ctx :: ContextCount([x], ctx) == if x.context == ctx then 1 else 0;
  }

  lemma EntriesCompose(g: Generator, r1: Generator, r2: Generator, a: seq<Window>, b: seq<Window>, w: real)
    requires EntriesRecorded(g, r1, a, w) && EntriesRecorded(r1, r2, b, w)
    ensures EntriesRecorded(g, r2, a + b, w)
  {
    forall ctx, c
      ensures Occ(a + b, Window(ctx, c)) == Occ(a, Window(ctx, c)) + Occ(b, Window(ctx, c))
      ensures Count(r2, ctx, c) == Count(g, ctx, c) + Scaled(w, Occ(a + b, Window(ctx, c)))
    {
      var x := Window(ctx, c);
      assert multiset(a + b) == multiset(a) + multiset(b);
      ScaledAdd(w, Occ(a, x), Occ(b, x));
    }
  }

  lemma TotalsCompose(g: Generator, r1: Generator, r2: Generator, a: seq<Window>, b: seq<Window>, w: real)
    requires TotalsRecorded(g, r1, a, w) && TotalsRecorded(r1, r2, b, w)
    ensures TotalsRecorded(g, r2, a + b, w)
  {
    forall ctx
      ensures ContextCount(a + b, ctx) == ContextCount(a, ctx) + ContextCount(b, ctx)
      ensures Get(r2.totalCounts, ctx) == Get(g.totalCounts, ctx) + Scaled(w, ContextCount(a + b, ctx))
    {
      ContextCountConcat(a, b, ctx);
      ScaledAdd(w, ContextCount(a, ctx), ContextCount(b, ctx));
    }
  }

  /** Recording `a` and then `b` is recording `a + b`. */
  lemma RecordedCompose(g: Generator, r1: Generator, r2: Generator, a: seq<Window>, b: seq<Window>, w: real)
    requires Recorded(g, r1, a, w)
    requires Recorded(r1, r2, b, w)
    ensures Recorded(g, r2, a + b, w)
  {
    EntriesCompose(g, r1, r2, a, b, w);
    TotalsCompose(g, r1, r2, a, b, w);
  }

  /** Two generators with the same start table that recorded observations
      into `g` with the same presence and the same total weight per entry
      are equal. */
  lemma RecordedUnique(g: Generator, r1: Generator, r2: Generator,
                       a: seq<Window>, b: seq<Window>, w1: real, w2: real)
    requires Recorded(g, r1, a, w1)
    requires Recorded(g, r2, b, w2)
    requires r1.starts == r2.starts
    requires forall x :: (Occ(a, x) > 0 <==> Occ(b, x) > 0)
    requires forall x :: Scaled(w1, Occ(a, x)) == Scaled(w2, Occ(b, x))
    requires forall ctx :: (ContextCount(a, ctx) > 0 <==> ContextCount(b, ctx) > 0)
    requires forall ctx :: Scaled(w1, ContextCount(a, ctx)) == Scaled(w2, ContextCount(b, ctx))
    ensures r1 == r2
  {
    assert r1.totalCounts == r2.totalCounts by {
      forall ctx | ctx in r1.totalCounts
        ensures r1.totalCounts[ctx] == r2.totalCounts[ctx]
      {
        assert Get(r1.totalCounts, ctx) == Get(r2.totalCounts, ctx);
      }
    }
    assert r1.transitions == r2.transitions by {
      forall ctx | ctx in r1.transitions
        ensures r1.transitions[ctx] == r2.transitions[ctx]
      {
        var row1, row2 := r1.transitions[ctx], r2.transitions[ctx];
        assert forall c :: c in row1 <==> HasEntry(r1, ctx, c);
        assert forall c :: c in row2 <==> HasEntry(r2, ctx, c);
        forall c | c in row1
          ensures row1[c] == row2[c]
        {
          assert Count(r1, ctx, c) == Count(r2, ctx, c);
        }
      }
    }
  }

  lemma {:induction false} RecordAllRecorded(g: Generator, wins: seq<Window>, w: real)
    ensures Recorded(g, RecordAll(g, wins, w), wins, w)
    ensures RecordAll(g, wins, w).starts == g.starts
    decreases |wins|
  {
    if wins == [] {
      RecordedNothing(g, g, w);
    } else {
      var g1 := Record(g, wins[0], w);
      RecordEntries(g, wins[0], w);
      RecordTotals(g, wins[0], w);
      RecordAllRecorded(g1, wins[1..], w);
      RecordedCompose(g, g1, RecordAll(g, wins, w), [wins[0]], wins[1..], w);
      assert [wins[0]] + wins[1..] == wins;
    }
  }

  lemma TrainWordRecorded(g: Generator, word: string, w: real)
    ensures Recorded(g, TrainWord(g, word, w), Windows(Pad(g.order, word), g.order), w)
  {
    var p := Pad(g.order, word);
    var g1 := g.(starts := Add(g.starts, Carets(g.order), w));
    RecordedNothing(g, g1, w);
    RecordAllRecorded(g1, Windows(p, g.order), w);
    RecordedCompose(g, g1, TrainWord(g, word, w), [], Windows(p, g.order), w);
    assert [] + Windows(p, g.order) == Windows(p, g.order);
  }

  /** The exact effect of `train(words, w)` on the transition and total
      tables: one increment per observation of the padded words. */
  lemma {:induction false} TrainRecorded(g: Generator, words: seq<string>, w: real)
    ensures Recorded(g, Train(g, words, w), AllWindows(g.order, words), w)
    decreases |words|
  {
    var t := Train(g, words, w);
    var all := AllWindows(g.order, words);
    if words == [] {
      assert t == g && all == [];
      RecordedNothing(g, g, w);
    } else {
      var g1 := TrainWord(g, words[0], w);
      var a := Windows(Pad(g.order, words[0]), g.order);
      var b := AllWindows(g.order, words[1..]);
      assert all == a + b;
      assert t == Train(g1, words[1..], w);
      TrainWordRecorded(g, words[0], w);
      TrainRecorded(g1, words[1..], w);
      RecordedCompose(g, g1, t, a, b, w);
    }
  }

  /** Recording observations leaves the start table, the order and the
      penalties alone. */
  lemma {:induction false} RecordAllKeeps(g: Generator, wins: seq<Window>, w: real)
    ensures RecordAll(g, wins, w).starts == g.starts
    ensures RecordAll(g, wins, w).order == g.order
    ensures RecordAll(g, wins, w).letterPenalties == g.letterPenalties
    decreases |wins|
  {
    if wins != [] {
      RecordAllKeeps(Record(g, wins[0], w), wins[1..], w);
    }
  }

  lemma TrainWordStarts(g: Generator, word: string, w: real)
    ensures TrainWord(g, word, w).starts == Add(g.starts, Carets(g.order), w)
    ensures TrainWord(g, word, w).order == g.order
  {
    var p := Pad(g.order, word);
    RecordAllKeeps(g.(starts := Add(g.starts, p[..g.order], w)), Windows(p, g.order), w);
  }

  /** `starts[key] += w`, `n` times over. */
  function AddStart(starts: map<string, real>, key: string, n: nat, w: real): map<string, real>
  {
    if n == 0 then starts else starts[key := Get(starts, key) + Scaled(w, n)]
  }

  /** One increment followed by `n - 1` more is `n` increments. */
  lemma AddStartStep(starts: map<string, real>, key: string, n: nat, w: real)
    requires n >= 1
    ensures AddStart(Add(starts, key, w), key, n - 1, w) == AddStart(starts, key, n, w)
  {
    assert Scaled(w, n) == w + Scaled(w, n - 1);
    assert Scaled(w, 0) == 0.0;
  }

  /** The exact effect of `train(words, w)` on the start table: the bare
      padding gains `w` once per word. */
  lemma {:induction false} TrainStartsExact(g: Generator, words: seq<string>, w: real)
    ensures Train(g, words, w).starts == AddStart(g.starts, Carets(g.order), |words|, w)
    ensures Train(g, words, w).order == g.order
    decreases |words|
  {
    if words != [] {
      var g1 := TrainWord(g, words[0], w);
      TrainWordStarts(g, words[0], w);
      TrainStartsExact(g1, words[1..], w);
      AddStartStep(g.starts, Carets(g.order), |words|, w);
    }
  }

  // ---------------------------------------------------------------------
  // Properties of `train`.
  // ---------------------------------------------------------------------

  /** The only start context training ever adds is the bare padding, and it
      gains the weight once per word. */
  lemma TrainStarts(g: Generator, words: seq<string>, w: real)
    ensures forall k :: k in Train(g, words, w).starts ==> k in g.starts || k == Carets(g.order)
    ensures |words| > 0 ==> Carets(g.order) in Train(g, words, w).starts
    ensures Get(Train(g, words, w).starts, Carets(g.order)) == Get(g.starts, Carets(g.order)) + Scaled(w, |words|)
  {
    TrainStartsExact(g, words, w);
  }

  /** `w` added `n` times is `n * w`. */
  lemma {:induction false} ScaledProduct(w: real, n: nat)
    ensures Scaled(w, n) == n as real * w
    decreases n
  {
    if n > 0 {
      ScaledProduct(w, n - 1);
      assert (n - 1) as real * w + w == n as real * w;
    }
  }

  /** `transitions[ctx][c]` gains the weight once for every time `c`
      follows `ctx` in the padded words, and `total_counts[ctx]` once for
      every observation made in `ctx`. */
  lemma TrainCounts(g: Generator, words: seq<string>, w: real)
    ensures forall ctx, c ::
      Count(Train(g, words, w), ctx, c) == Count(g, ctx, c) + Scaled(w, Occ(AllWindows(g.order, words), Window(ctx, c)))
    ensures forall ctx ::
      Get(Train(g, words, w).totalCounts, ctx) == Get(g.totalCounts, ctx) + Scaled(w, ContextCount(AllWindows(g.order, words), ctx))
  {
    TrainRecorded(g, words, w);
  }

  /** With a non-negative weight no start, transition or total decreases. */
  lemma TrainMonotone(g: Generator, words: seq<string>, w: real)
    requires w >= 0.0
    ensures forall k :: Get(Train(g, words, w).starts, k) >= Get(g.starts, k)
    ensures forall ctx, c :: Count(Train(g, words, w), ctx, c) >= Count(g, ctx, c)
    ensures forall ctx :: Get(Train(g, words, w).totalCounts, ctx) >= Get(g.totalCounts, ctx)
  {
    TrainStartsExact(g, words, w);
    ScaledNonNegative(w, |words|);
    TrainRecorded(g, words, w);
    var a := AllWindows(g.order, words);
    forall ctx, c
      ensures Scaled(w, Occ(a, Window(ctx, c))) >= 0.0
    {
      ScaledNonNegative(w, Occ(a, Window(ctx, c)));
    }
    forall ctx
      ensures Scaled(w, ContextCount(a, ctx)) >= 0.0
    {
      ScaledNonNegative(w, ContextCount(a, ctx));
    }
  }

  /** Start contexts other than the bare padding keep their presence and
      weight; so do the penalty table and the order. */
  lemma TrainFrameStarts(g: Generator, words: seq<string>, w: real)
    ensures Train(g, words, w).order == g.order
    ensures Train(g, words, w).letterPenalties == g.letterPenalties
    ensures forall k :: k != Carets(g.order) ==>
      (k in Train(g, words, w).starts <==> k in g.starts) && Get(Train(g, words, w).starts, k) == Get(g.starts, k)
  {
    TrainStartsExact(g, words, w);
    TrainRecorded(g, words, w);
  }

  /** Transition entries the padded words do not observe keep their
      presence and weight. */
  lemma TrainFrameEntries(g: Generator, words: seq<string>, w: real)
    ensures forall ctx, c :: Window(ctx, c) !in AllWindows(g.order, words) ==>
      (HasEntry(Train(g, words, w), ctx, c) <==> HasEntry(g, ctx, c))
      && Count(Train(g, words, w), ctx, c) == Count(g, ctx, c)
  {
    TrainRecorded(g, words, w);
    assert Scaled(w, 0) == 0.0;
  }

  /** A context without observations keeps its whole row, its presence and
      its total. */
  lemma RecordedFrameContexts(g: Generator, t: Generator, a: seq<Window>, w: real)
    requires Recorded(g, t, a, w)
    ensures forall ctx :: ContextCount(a, ctx) == 0 ==>
      (ctx in t.transitions <==> ctx in g.transitions)
      && Row(t, ctx) == Row(g, ctx)
      && (ctx in t.totalCounts <==> ctx in g.totalCounts)
      && Get(t.totalCounts, ctx) == Get(g.totalCounts, ctx)
  {
    assert Scaled(w, 0) == 0.0;
    forall ctx | ContextCount(a, ctx) == 0
      ensures Row(t, ctx) == Row(g, ctx)
    {
      forall c ensures Occ(a, Window(ctx, c)) == 0 {
        ContextCountOcc(a, Window(ctx, c));
      }
      assert forall c :: c in Row(t, ctx) <==> HasEntry(t, ctx, c);
      assert forall c :: c in Row(g, ctx) <==> HasEntry(g, ctx, c);
      forall c | c in Row(t, ctx)
        ensures Row(t, ctx)[c] == Row(g, ctx)[c]
      {
        assert Count(t, ctx, c) == Count(g, ctx, c);
      }
    }
  }

  /** A context in which the padded words make no observation keeps its
      whole row, its presence and its total. */
  lemma TrainFrameContexts(g: Generator, words: seq<string>, w: real)
    ensures forall ctx :: ContextCount(AllWindows(g.order, words), ctx) == 0 ==>
      (ctx in Train(g, words, w).transitions <==> ctx in g.transitions)
      && Row(Train(g, words, w), ctx) == Row(g, ctx)
      && (ctx in Train(g, words, w).totalCounts <==> ctx in g.totalCounts)
      && Get(Train(g, words, w).totalCounts, ctx) == Get(g.totalCounts, ctx)
  {
    TrainRecorded(g, words, w);
    RecordedFrameContexts(g, Train(g, words, w), AllWindows(g.order, words), w);
  }

  /** Training on `a + b` is training on `a`, then on `b`. */
  lemma {:induction false} TrainConcat(g: Generator, a: seq<string>, b: seq<string>, w: real)
    ensures Train(g, a + b, w) == Train(Train(g, a, w), b, w)
    decreases |a|
  {
    if a == [] {
      assert a + b == b;
    } else {
      assert (a + b)[0] == a[0];
      assert (a + b)[1..] == a[1..] + b;
      TrainConcat(TrainWord(g, a[0], w), a[1..], b, w);
    }
  }

  /** `n` increments by `w`, twice, are `n` increments by `2w`. */
  lemma AddStartTwice(starts: map<string, real>, key: string, n: nat, w: real)
    ensures AddStart(AddStart(starts, key, n, w), key, n, w) == AddStart(starts, key, n, 2.0 * w)
  {
    ScaledDouble(w, n);
    ScaledAdd(w, n, n);
  }

  lemma DoubledObservations(a: seq<Window>, w: real)
    ensures forall x :: (Occ(a + a, x) > 0 <==> Occ(a, x) > 0)
    ensures forall x :: Scaled(w, Occ(a + a, x)) == Scaled(2.0 * w, Occ(a, x))
  {
    assert multiset(a + a) == multiset(a) + multiset(a);
    forall x
      ensures Scaled(w, Occ(a + a, x)) == Scaled(2.0 * w, Occ(a, x))
    {
      ScaledDouble(w, Occ(a, x));
    }
  }

  lemma DoubledContexts(a: seq<Window>, w: real)
    ensures forall ctx :: (ContextCount(a + a, ctx) > 0 <==> ContextCount(a, ctx) > 0)
    ensures forall ctx :: Scaled(w, ContextCount(a + a, ctx)) == Scaled(2.0 * w, ContextCount(a, ctx))
  {
    forall ctx
      ensures ContextCount(a + a, ctx) == ContextCount(a, ctx) + ContextCount(a, ctx)
      ensures Scaled(w, ContextCount(a + a, ctx)) == Scaled(2.0 * w, ContextCount(a, ctx))
    {
      ContextCountConcat(a, a, ctx);
      ScaledDouble(w, ContextCount(a, ctx));
    }
  }

  /** Observing `a` twice with weight `w` is observing it once with `2w`. */
  lemma RecordedTwice(g: Generator, t1: Generator, t2: Generator, t3: Generator, a: seq<Window>, w: real, w2: real)
    requires Recorded(g, t1, a, w) && Recorded(t1, t2, a, w) && Recorded(g, t3, a, w2)
    requires w2 == 2.0 * w
    requires t2.starts == t3.starts
    ensures t2 == t3
  {
    RecordedCompose(g, t1, t2, a, a, w);
    DoubledObservations(a, w);
    DoubledContexts(a, w);
    RecordedUnique(g, t2, t3, a + a, a, w, w2);
  }

  lemma TwiceStarts(g: Generator, words: seq<string>, w: real, w2: real)
    requires w2 == 2.0 * w
    ensures Train(Train(g, words, w), words, w).starts == Train(g, words, w2).starts
  {
    var t1 := Train(g, words, w);
    TrainStartsExact(g, words, w);
    TrainStartsExact(t1, words, w);
    TrainStartsExact(g, words, w2);
    AddStartTwice(g.starts, Carets(g.order), |words|, w);
  }

  /** Training twice on the same words with weight `w` leaves exactly the
      tables that training once with weight `w2 = 2w` leaves. */
  lemma TrainTwice(g: Generator, words: seq<string>, w: real, w2: real)
    requires w2 == 2.0 * w
    ensures Train(Train(g, words, w), words, w) == Train(g, words, w2)
  {
    var t1 := Train(g, words, w);
    var t2 := Train(t1, words, w);
    var t3 := Train(g, words, w2);
    TrainRecorded(g, words, w);
    TrainRecorded(t1, words, w);
    TrainRecorded(g, words, w2);
    TwiceStarts(g, words, w, w2);
    RecordedTwice(g, t1, t2, t3, AllWindows(g.order, words), w, w2);
  }

  // ---------------------------------------------------------------------
  // Training keeps the generator well formed.
  // ---------------------------------------------------------------------

  /** One observation keeps `total_counts` equal to the row sums. */
  lemma RecordKeepsTotals(g: Generator, x: Window, w: real)
    requires TotalsMatch(g)
    ensures TotalsMatch(Record(g, x, w))
  {
    var r := Record(g, x, w);
    SumAdd(Row(g, x.context), x.next, w);
    if x.context !in g.transitions {
      SumEmpty(Row(g, x.context));
    }
  }

  lemma {:induction false} RecordAllKeepsTotals(g: Generator, wins: seq<Window>, w: real)
    requires TotalsMatch(g)
    ensures TotalsMatch(RecordAll(g, wins, w))
    decreases |wins|
  {
    if wins != [] {
      RecordKeepsTotals(g, wins[0], w);
      RecordAllKeepsTotals(Record(g, wins[0], w), wins[1..], w);
    }
  }

  /** After any number of `train` calls, with any weights, every context's
      `total_counts` entry is the sum of its `transitions` entries. */
  lemma {:induction false} TrainKeepsTotals(g: Generator, words: seq<string>, w: real)
    requires TotalsMatch(g)
    ensures TotalsMatch(Train(g, words, w))
    decreases |words|
  {
    if words != [] {
      var p := Pad(g.order, words[0]);
      var g1 := g.(starts := Add(g.starts, p[..g.order], w));
      RecordAllKeepsTotals(g1, Windows(p, g.order), w);
      TrainKeepsTotals(TrainWord(g, words[0], w), words[1..], w);
    }
  }

  /** One well-shaped observation with a non-negative weight keeps the
      generator valid. */
  lemma RecordKeepsValid(g: Generator, x: Window, w: real)
    requires Valid(g)
    requires |x.context| == g.order && IsLower(x.next) && w >= 0.0
    ensures Valid(Record(g, x, w))
  {
    var r := Record(g, x, w);
    RecordKeepsTotals(g, x, w);
    forall ctx, c | HasEntry(r, ctx, c)
      ensures IsLower(c) && r.transitions[ctx][c] >= 0.0
    {
      if ctx != x.context || c != x.next {
        assert HasEntry(g, ctx, c);
      }
    }
  }

  lemma {:induction false} RecordAllKeepsValid(g: Generator, wins: seq<Window>, w: real)
    requires Valid(g) && w >= 0.0
    requires forall x :: x in wins ==> |x.context| == g.order && IsLower(x.next)
    ensures Valid(RecordAll(g, wins, w))
    decreases |wins|
  {
    if wins != [] {
      RecordKeepsValid(g, wins[0], w);
      RecordAllKeepsValid(Record(g, wins[0], w), wins[1..], w);
    }
  }

  /** Training with a non-negative weight keeps every invariant of `Valid`:
      totals match, a single start context, contexts of length `order`,
      lower-case next characters, no negative weight. */
  lemma {:induction false} TrainKeepsValid(g: Generator, words: seq<string>, w: real)
    requires Valid(g) && w >= 0.0
    ensures Valid(Train(g, words, w))
    decreases |words|
  {
    if words != [] {
      var p := Pad(g.order, words[0]);
      var g1 := g.(starts := Add(g.starts, p[..g.order], w));
      assert p[..g.order] == Carets(g.order);
      forall k | k in g1.starts
        ensures k == Carets(g.order) && g1.starts[k] >= 0.0
      {
        assert k in g.starts || k == Carets(g.order);
      }
      forall ctx, c | HasEntry(g1, ctx, c)
        ensures IsLower(c) && g1.transitions[ctx][c] >= 0.0
      {
        assert HasEntry(g, ctx, c);
      }
      PaddedWindowsShaped(g.order, words[0]);
      RecordAllKeepsValid(g1, Windows(p, g.order), w);
      TrainKeepsValid(TrainWord(g, words[0], w), words[1..], w);
    }
  }

  /** A generator built by `BrandNameGenerator(order)` and trained on any
      list of words has at most one start context, the bare padding, and
      its weight is the number of words times the weight. */
  lemma InitTrainStarts(order: nat, words: seq<string>, w: real)
    requires order >= 1
    ensures Train(Init(order), words, w).starts ==
      if words == [] then map[] else map[Carets(order) := |words| as real * w]
  {
    FreshTrainStarts(Init(order), words, w);
  }

  lemma FreshTrainStarts(g: Generator, words: seq<string>, w: real)
    requires g.starts == map[]
    ensures Train(g, words, w).starts ==
      if words == [] then map[] else map[Carets(g.order) := |words| as real * w]
  {
    TrainStartsExact(g, words, w);
    ScaledProduct(w, |words|);
    if words != [] {
      assert Get(g.starts, Carets(g.order)) + Scaled(w, |words|) == |words| as real * w;
      assert AddStart(g.starts, Carets(g.order), |words|, w) == map[Carets(g.order) := |words| as real * w];
    }
  }

  /** Such a generator satisfies every invariant of `Valid` when the weight
      is not negative. */
  lemma InitTrainValid(order: nat, words: seq<string>, w: real)
    requires order >= 1 && w >= 0.0
    ensures Valid(Train(Init(order), words, w))
  {
    TrainKeepsValid(Init(order), words, w);
  }
}
