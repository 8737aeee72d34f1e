/** `BrandNameGenerator.generate_word`: a walk through the transition table
    that starts at the bare padding, draws one character at a time among
    those whose penalised weight is positive, and stops at the end mark, at
    a dead end or at the length limit.

    The random draws are left open: the method below may take any draw the
    Python code can take, so its contract holds for every sequence of draws. */
module Generation {
  import opened Tables
  import opened Text
  import opened Markov
  import opened Training

  /** The characters that can be drawn after `ctx` while `word` has been
      built: those of the context's row whose penalised weight is positive.
      `generate_word` raises each weight to the power `1 / temperature`, which
      for a positive temperature keeps zero at zero and, over the reals, a
      positive weight positive, so only this set matters to what can happen
      (float overflow and underflow of the power are not modelled). */
  function Viable(g: Generator, word: string, ctx: string): set<char>
  {
    set c | c in Row(g, ctx).Keys && ApplyPenalties(g.letterPenalties, word, c, Row(g, ctx)[c]) > 0.0
  }

  /** A character is viable exactly when its transition entry has a
      positive count and the penalty table does not forbid it; the word
      built so far plays no part. */
  lemma ViableIff(g: Generator, word: string, ctx: string, c: char)
    requires NonNegative(g)
    ensures c in Viable(g, word, ctx) <==>
      HasEntry(g, ctx, c) && Count(g, ctx, c) > 0.0 && Factor(g.letterPenalties, c) > 0.0
  {
    if HasEntry(g, ctx, c) {
      PenaltyKeepsSign(g.letterPenalties, word, c, Count(g, ctx, c));
    }
  }

  /** Every character of `s` was viable in the context and after the prefix
      that preceded it: `s` is a string the walk can spell. */
  ghost predicate IsPath(g: Generator, s: string)
  {
    forall i :: 0 <= i < |s| ==> s[i] in Viable(g, s[..i], Context(g.order, s[..i]))
  }

  /** One step of a walk. */
  lemma PathAt(g: Generator, s: string, i: nat)
    requires IsPath(g, s) && i < |s|
    ensures s[i] in Viable(g, s[..i], Context(g.order, s[..i]))
  {
  }

  /** Extending a walk by a character that is viable after it. */
  lemma PathExtend(g: Generator, s: string, c: char)
    requires IsPath(g, s)
    requires c in Viable(g, s, Context(g.order, s))
    ensures IsPath(g, s + [c])
  {
    var t := s + [c];
    forall i | 0 <= i < |t|
      ensures t[i] in Viable(g, t[..i], Context(g.order, t[..i]))
    {
      if i < |s| {
        assert t[..i] == s[..i];
      } else {
        assert t[..i] == s;
      }
    }
  }

  /** A character the penalty table gives factor zero is never part of a
      generated word, whatever the counts. */
  lemma ForbiddenNeverDrawn(g: Generator, s: string, c: char)
    requires NonNegative(g) && IsPath(g, s)
    requires c in g.letterPenalties && g.letterPenalties[c] == 0.0
    ensures c !in s
  {
    if c in s {
      var i :| 0 <= i < |s| && s[i] == c;
      ViableIff(g, s[..i], Context(g.order, s[..i]), c);
    }
  }

  /** Why a walk of length below `maxLength` ended with a word: its context
      has no row, no character of the row is viable, or the end mark is
      viable and the word is already long enough. */
  ghost predicate Stops(g: Generator, body: string, minLength: nat)
  {
    var ctx := Context(g.order, body);
    || ctx !in g.transitions
    || Viable(g, body, ctx) == {}
    || (EndMark in Viable(g, body, ctx) && |body| >= minLength)
  }

  /** The outcome of one call.
      - `Returned(word, body)`: `word` is returned; it is `body` capitalized.
      - `Diverges(body)`: the only viable character is the end mark and
        `body` is still too short, so `generate_word` redraws forever.
      - `OutOfRedraws(body)`: the end mark was drawn and rejected more times
        than the model allows (`generate_word` would keep drawing).
      - `ChoiceRaises`: the start table has keys but no positive weight, so
        the weighted choice of a start raises an error. */
  datatype Generated =
    | Returned(word: string, body: string)
    | Diverges(body: string)
    | OutOfRedraws(body: string)
    | ChoiceRaises

  /** `generate_word(min_length, max_length, temperature)`, for a positive
      temperature and for every sequence of draws, with at most `maxRedraws`
      rejected end marks. */
  method GenerateWord(g: Generator, minLength: nat, maxLength: nat, maxRedraws: nat) returns (o: Generated)
    requires Valid(g)
    ensures g.starts == map[] ==> o == Returned("", "")
    ensures o.ChoiceRaises? <==> g.starts != map[] && forall k :: k in g.starts ==> g.starts[k] == 0.0
    ensures !o.ChoiceRaises? ==> |o.body| <= maxLength && EndMark !in o.body && IsPath(g, o.body)
    ensures o.Returned? ==> o.word == Capitalize(o.body) && (|o.body| > 0 ==> o.word[1..] == o.body[1..])
    ensures o.Returned? && g.starts != map[] && |o.body| < maxLength ==> Stops(g, o.body, minLength)
    ensures o.Diverges? ==>
      |o.body| < minLength && |o.body| < maxLength && Viable(g, o.body, Context(g.order, o.body)) == {EndMark}
    ensures o.OutOfRedraws? ==>
      |o.body| < minLength && |o.body| < maxLength && EndMark in Viable(g, o.body, Context(g.order, o.body))
      && Viable(g, o.body, Context(g.order, o.body)) != {EndMark}
  {
    if g.starts == map[] {
      return Returned("", "");
    }
    if forall k :: k in g.starts ==> g.starts[k] == 0.0 {
      return ChoiceRaises;
    }
    var start :| start in g.starts && g.starts[start] > 0.0;
    var current := start;
    var result := current[g.order..];
    ContextOfEmpty(g.order);
    var redraws := maxRedraws;
    while |result| < maxLength
      invariant current == Context(g.order, result)
      invariant IsPath(g, result)
      invariant EndMark !in result
      invariant |result| <= maxLength
      invariant forall i :: 0 <= i < |result| ==> IsLower(result[i])
      decreases maxLength - |result|, redraws
    {
      var state := current[|current| - g.order..];
      if state !in g.transitions {
        return Returned(Capitalize(result), result);
      }
      var viable := Viable(g, result, state);
      if viable == {} {
        return Returned(Capitalize(result), result);
      }
      if viable == {EndMark} && |result| < minLength {
        return Diverges(result);
      }
      var c :| c in viable;
      if c == EndMark {
        if |result| >= minLength {
          return Returned(Capitalize(result), result);
        }
        if redraws == 0 {
          return OutOfRedraws(result);
        }
        redraws := redraws - 1;
      } else {
        ViableIff(g, result, state, c);
        PathExtend(g, result, c);
        ContextSlide(g.order, result, c);
        result := result + [c];
        current := current[1..] + [c];
      }
    }
    return Returned(Capitalize(result), result);
  }

  /** The observations of the padded word `^a$` at order 1. */
  lemma SingleLetterWindows()
    ensures Windows(Pad(1, "a"), 1) == [Window("^", 'a'), Window("a", EndMark)]
  {
    var p := Pad(1, "a");
    assert p == "^a$";
    assert p[0..1] == "^" && p[1..2] == "a";
    var ws := Windows(p, 1);
    assert |ws| == 2 && ws[0] == Window("^", 'a') && ws[1] == Window("a", EndMark);
  }

  /** The generator `BrandNameGenerator(1)` trained on the single word `a`:
      the padding `^` leads to `a`, and `a` leads only to the end mark. */
  lemma SingleLetterTables()
    ensures Train(Init(1), ["a"], 1.0).transitions == map["^" := map['a' := 1.0], "a" := map[EndMark := 1.0]]
    ensures Train(Init(1), ["a"], 1.0).starts == map["^" := 1.0]
    ensures Train(Init(1), ["a"], 1.0).letterPenalties == DefaultPenalties
    ensures Train(Init(1), ["a"], 1.0).order == 1
  {
    var g0 := Init(1);
    SingleLetterWindows();
    assert Train(g0, ["a"], 1.0) == TrainWord(g0, "a", 1.0);
    RecordTwo(g0.(starts := Add(g0.starts, Pad(1, "a")[..1], 1.0)), Window("^", 'a'), Window("a", EndMark), 1.0);
    InitTrainStarts(1, ["a"], 1.0);
    assert Carets(1) == "^";
  }

  /** Recording two observations in a generator without transitions. */
  lemma RecordTwo(g: Generator, x: Window, y: Window, w: real)
    requires g.transitions == map[] && x.context != y.context
    ensures RecordAll(g, [x, y], w).transitions == map[x.context := map[x.next := w], y.context := map[y.next := w]]
  {
    var g1 := Record(g, x, w);
    assert Row(g, x.context) == map[] && Get(map[], x.next) == 0.0;
    assert g1.transitions == map[x.context := map[x.next := w]];
    assert Row(g1, y.context) == map[] && Get(map[], y.next) == 0.0;
    assert [x, y][1..] == [y];
    assert [y][1..] == [];
    assert RecordAll(g, [x, y], w) == RecordAll(g1, [y], w);
    assert RecordAll(g1, [y], w) == RecordAll(Record(g1, y, w), [], w);
  }

  /** `generate_word` rejects a drawn end mark below `min_length` and draws
      again, even when the end mark is the only character it can draw. In
      the generator above the walk can spell `a`, after which only the end
      mark is viable. `SingleLetterNeverReturns` draws the consequence. */
  lemma SingleLetterDiverges()
    ensures Valid(Train(Init(1), ["a"], 1.0))
    ensures IsPath(Train(Init(1), ["a"], 1.0), "a")
    ensures Viable(Train(Init(1), ["a"], 1.0), "a", Context(1, "a")) == {EndMark}
  {
    InitTrainValid(1, ["a"], 1.0);
    SingleLetterTables();
    OnlyEndAfterA(Train(Init(1), ["a"], 1.0));
  }

  /** `generate_word(min_length=3, max_length=12)` on that generator, for
      any bound on rejected end marks: after `a` every draw is the rejected
      end mark, so the only outcome is the endless redraw and
      `generate_word` never returns. */
  method SingleLetterNeverReturns(maxRedraws: nat) returns (o: Generated)
    ensures o.Diverges? && o.body == "a"
  {
    var g := Train(Init(1), ["a"], 1.0);
    InitTrainValid(1, ["a"], 1.0);
    SingleLetterTables();
    o := GenerateWord(g, 3, 12, maxRedraws);
    OnlyEndAfterA(g);
    if !o.ChoiceRaises? {
      WalksOfA(g, o.body);
    }
  }

  /** The walk in any generator with those tables. */
  lemma OnlyEndAfterA(g: Generator)
    requires g.order == 1 && g.letterPenalties == DefaultPenalties
    requires g.transitions == map["^" := map['a' := 1.0], "a" := map[EndMark := 1.0]]
    ensures IsPath(g, "a")
    ensures Context(1, "") == "^" && Context(1, "a") == "a"
    ensures Viable(g, "", "^") == {'a'}
    ensures Viable(g, "a", "a") == {EndMark}
  {
    ContextOfEmpty(1);
    assert Context(1, "") == "^";
    assert Context(1, "a") == "a";
    assert ApplyPenalties(g.letterPenalties, "", 'a', 1.0) == 1.0;
    assert 'a' in Viable(g, "", "^");
    assert ApplyPenalties(g.letterPenalties, "a", EndMark, 1.0) == 1.0;
    assert EndMark in Viable(g, "a", "a");
    assert "a"[..0] == "";
  }

  /** In such a generator the only walks without the end mark are the empty
      word and `a`. */
  lemma WalksOfA(g: Generator, s: string)
    requires g.order == 1 && g.letterPenalties == DefaultPenalties
    requires g.transitions == map["^" := map['a' := 1.0], "a" := map[EndMark := 1.0]]
    requires IsPath(g, s) && EndMark !in s
    ensures s == "" || s == "a"
  {
    OnlyEndAfterA(g);
    if |s| > 0 {
      assert s[..0] == "";
      assert s[0] == 'a';
      if |s| > 1 {
        PathAt(g, s, 1);
        assert false;
      }
      assert s == "a";
    }
  }

  /** `generate_word` with the evident intent restored: when the end mark
      is the only viable character, the word built so far is returned
      instead of redrawing forever. */
  method GenerateWordGuarded(g: Generator, minLength: nat, maxLength: nat, maxRedraws: nat) returns (o: Generated)
    requires Valid(g)
    ensures !o.Diverges?
    ensures g.starts == map[] ==> o == Returned("", "")
    ensures o.ChoiceRaises? <==> g.starts != map[] && forall k :: k in g.starts ==> g.starts[k] == 0.0
    ensures !o.ChoiceRaises? ==> |o.body| <= maxLength && EndMark !in o.body && IsPath(g, o.body)
    ensures o.Returned? ==> o.word == Capitalize(o.body)
    ensures o.Returned? && g.starts != map[] && |o.body| < maxLength ==>
      Stops(g, o.body, minLength) || Viable(g, o.body, Context(g.order, o.body)) == {EndMark}
  {
    o := GenerateWord(g, minLength, maxLength, maxRedraws);
    if o.Diverges? {
      o := Returned(Capitalize(o.body), o.body);
    }
  }
}
