// The greedy staged solver: each round takes the candidate move that lowers the model's weight
// the most, until the weight reaches zero or nothing lowers it.
module Stages {
  import opened Wrappers
  import opened Best

  /** A stage, with the source's abstract classes as functions: `transform` and `makeModel` of
      the stage, the actions `getActions()` yields, and of a model its `getCube()`,
      `transform()` and `weigh()`; of an action its `alterModel` and `alterCube`. `perform`
      is the consumer applying the actions the stage yields to the cube. */
  datatype Stage<!C, !M, !A, !E> = Stage(
    transform: C -> seq<C>,
    makeModel: C -> M,
    actions: seq<A>,
    getCube: M -> C,
    models: M -> seq<M>,
    weigh: M -> int,
    alterModel: (A, M) -> M,
    alterCube: (A, C) -> seq<E>,
    perform: (C, seq<E>) -> C)

  /** What `runStage` produces: the actions yielded, the error it throws (if any), and the
      number of rounds it took. */
  datatype Outcome<E> = Outcome(emitted: seq<E>, error: Option<string>, rounds: nat)

  /** Where the rounds end: their outcome, and the last model with the weight it was last given. */
  datatype Ended<M, E> = Ended(outcome: Outcome<E>, model: M, weight: int)

  const IncorrectWeight := "Internal Error: Incorrect weight"

  // Choosing a candidate.

  /** The candidate pairs in the order `runStage` weighs them: actions outer, models inner. */
  function Candidates<M, A>(actions: seq<A>, models: seq<M>): (ps: seq<(M, A)>)
    ensures |ps| == |actions| * |models|
  {
    if |actions| == 0 then []
    else
      var n := |actions| - 1;
      Candidates(actions[..n], models) + Row(models, actions[n])
  }

  /** One action against each of the models, in order. */
  function Row<M, A>(models: seq<M>, action: A): (ps: seq<(M, A)>)
    ensures |ps| == |models| && forall k :: 0 <= k < |models| ==> ps[k] == (models[k], action)
  {
    seq(|models|, k requires 0 <= k < |models| => (models[k], action))
  }

  /** The weight predicted for a candidate: the weight of the model the action would leave. */
  function Predicted<C, M, A, E>(st: Stage<C, M, A, E>, p: (M, A)): int
  {
    st.weigh(st.alterModel(p.1, p.0))
  }

  /** The chooser's state: the option kept so far and its weight. */
  type Chosen<M, A> = (Option<(M, A)>, Weight)

  /** `best.consider([model, action], weight)` on the chooser's state. */
  function ConsiderStep<C, M, A, E>(st: Stage<C, M, A, E>, s: Chosen<M, A>, p: (M, A)): Chosen<M, A>
  {
    var w := Predicted(st, p);
    if Below(Finite(w), s.1) then (Some(p), Finite(w)) else s
  }

  /** Considering the candidates in order. */
  function ConsiderAll<C, M, A, E>(st: Stage<C, M, A, E>, s: Chosen<M, A>, ps: seq<(M, A)>): Chosen<M, A>
  {
    if |ps| == 0 then s else ConsiderStep(st, ConsiderAll(st, s, ps[..|ps| - 1]), ps[|ps| - 1])
  }

  /** The option one round of `runStage` chooses from `base`, starting at its weight. */
  function Choose<C, M, A, E>(st: Stage<C, M, A, E>, base: M, baseWeight: int): Chosen<M, A>
  {
    ConsiderAll(st, (None, Finite(baseWeight)), Candidates(st.actions, st.models(base)))
  }

  /** The chooser keeps the first candidate of least predicted weight below the threshold, and
      nothing when none is below it. */
  lemma {:induction false} ConsiderAllFirstMinimum<C, M, A, E>(st: Stage<C, M, A, E>, ps: seq<(M, A)>, threshold: int)
    ensures var s := ConsiderAll(st, (None, Finite(threshold)), ps);
      && (s.0.None? <==> forall j :: 0 <= j < |ps| ==> Predicted(st, ps[j]) >= threshold)
      && (s.0.None? ==> s.1 == Finite(threshold))
      && (s.0.Some? ==>
            && s.1.Finite? && s.1.value < threshold
            && (forall j :: 0 <= j < |ps| ==> Predicted(st, ps[j]) >= s.1.value)
            && exists i :: 0 <= i < |ps| && ps[i] == s.0.value && Predicted(st, ps[i]) == s.1.value
                 && forall j :: 0 <= j < i ==> Predicted(st, ps[j]) > s.1.value)
  {
    if |ps| > 0 {
      var init := ps[..|ps| - 1];
      ConsiderAllFirstMinimum(st, init, threshold);
      var s := ConsiderAll(st, (None, Finite(threshold)), init);
      var last := ps[|ps| - 1];
      assert forall j :: 0 <= j < |init| ==> init[j] == ps[j];
      if s.0.Some? {
        var i :| 0 <= i < |init| && init[i] == s.0.value && Predicted(st, init[i]) == s.1.value
          && forall j :: 0 <= j < i ==> Predicted(st, init[j]) > s.1.value;
        if Predicted(st, last) < s.1.value {
          assert ps[|ps| - 1] == last;
        } else {
          assert ps[i] == s.0.value;
        }
      }
    }
  }

  /** A chosen option always lies strictly below the weight the round started from. */
  lemma ChooseLowers<C, M, A, E>(st: Stage<C, M, A, E>, base: M, baseWeight: int)
    ensures var s := Choose(st, base, baseWeight);
      s.0.Some? ==> s.1.Finite? && s.1.value < baseWeight
  {
    ConsiderAllFirstMinimum(st, Candidates(st.actions, st.models(base)), baseWeight);
  }

  // The rounds.

  /** The rounds of `runStage` from a model of weight `weight`, with the actions yielded so far:
      what they yield, and the model and weight they stop at. */
  function Rounds<C, M, A, E>(st: Stage<C, M, A, E>, model: M, weight: int, out: seq<E>, rounds: nat): Ended<M, E>
    decreases if weight > 0 then weight else 0
  {
    if weight <= 0 then Ended(Outcome(out, None, rounds), model, weight)
    else
      var s := Choose(st, model, weight);
      if s.0.None? then Ended(Outcome(out, None, rounds), model, weight)
      else
        ChooseLowers(st, model, weight);
        var cube := st.getCube(s.0.value.0);
        var emitted := st.alterCube(s.0.value.1, cube);
        var next := st.makeModel(st.perform(cube, emitted));
        var nextWeight := st.weigh(next);
        if Finite(nextWeight) != s.1 then Ended(Outcome(out + emitted, Some(IncorrectWeight), rounds + 1), next, nextWeight)
        else Rounds(st, next, nextWeight, out + emitted, rounds + 1)
  }

  /** The loop of `runStage` is finished at a model of weight `weight`: the weight is zero or
      below, or no candidate lowers it. */
  predicate Stopped<C, M, A, E>(st: Stage<C, M, A, E>, model: M, weight: int)
  {
    weight <= 0 || Choose(st, model, weight).0.None?
  }

  /** What `runStage(baseCube)` produces: nothing when `transform` yields no cube, otherwise the
      rounds from the model of the first cube it yields. */
  function Run<C, M, A, E>(st: Stage<C, M, A, E>, baseCube: C): Outcome<E>
  {
    var cubes := st.transform(baseCube);
    if |cubes| == 0 then Outcome([], None, 0)
    else
      var model := st.makeModel(cubes[0]);
      Rounds(st, model, st.weigh(model), [], 0).outcome
  }

  /** `BestOption`: the option of least weight considered so far, below a starting threshold. */
  class BestOption<T> {
    var option: Option<T>
    var weight: Weight

    constructor (weight: Weight)
      ensures this.option == None && this.weight == weight
    {
      this.option := None;
      this.weight := weight;
    }

    /** `consider(option, weight)`: only a strictly smaller weight replaces the kept option. */
    method Consider(option: T, weight: int)
      modifies this
      ensures Below(Finite(weight), old(this.weight)) ==> this.option == Some(option) && this.weight == Finite(weight)
      ensures !Below(Finite(weight), old(this.weight)) ==> this.option == old(this.option) && this.weight == old(this.weight)
    {
      if Below(Finite(weight), this.weight) {
        this.option := Some(option);
        this.weight := Finite(weight);
      }
    }
  }

  /** One round's choice: every action against every transformed model, through `BestOption`. */
  method ChooseOption<C, M, A, E>(st: Stage<C, M, A, E>, base: M, baseWeight: int) returns (option: Option<(M, A)>, weight: Weight)
    ensures (option, weight) == Choose(st, base, baseWeight)
  {
    var best := new BestOption<(M, A)>(Finite(baseWeight));
    var models := st.models(base);
    ghost var init: Chosen<M, A> := (None, Finite(baseWeight));
    for a := 0 to |st.actions|
      invariant (best.option, best.weight) == ConsiderAll(st, init, Candidates(st.actions[..a], models))
    {
      ghost var before := Candidates(st.actions[..a], models);
      RowNext(before, models, st.actions[a], 0);
      for m := 0 to |models|
        invariant (best.option, best.weight) == ConsiderAll(st, init, before + Row(models[..m], st.actions[a]))
      {
        var pair := (models[m], st.actions[a]);
        var w := st.weigh(st.alterModel(st.actions[a], models[m]));
        RowNext(before, models, st.actions[a], m);
        ConsiderNext(st, init, before + Row(models[..m], st.actions[a]), pair);
        best.Consider(pair, w);
      }
      CandidatesNext(st.actions, models, a);
    }
    assert st.actions[..|st.actions|] == st.actions;
    option, weight := best.option, best.weight;
  }

  /** The candidates of the next model in a row come after the earlier ones. */
  lemma RowNext<M, A>(before: seq<(M, A)>, models: seq<M>, action: A, m: int)
    requires 0 <= m <= |models|
    ensures m == 0 ==> before + Row(models[..m], action) == before
    ensures m < |models| ==>
      before + Row(models[..m + 1], action) == (before + Row(models[..m], action)) + [(models[m], action)]
  {
    if m < |models| {
      assert Row(models[..m + 1], action) == Row(models[..m], action) + [(models[m], action)];
    }
  }

  /** Considering one more candidate is one more `consider` step. */
  lemma ConsiderNext<C, M, A, E>(st: Stage<C, M, A, E>, s: Chosen<M, A>, ps: seq<(M, A)>, p: (M, A))
    ensures ConsiderAll(st, s, ps + [p]) == ConsiderStep(st, ConsiderAll(st, s, ps), p)
  {
    assert (ps + [p])[..|ps|] == ps;
  }

  /** A finished row completes the candidates of one more action. */
  lemma CandidatesNext<M, A>(actions: seq<A>, models: seq<M>, a: int)
    requires 0 <= a < |actions|
    ensures Candidates(actions[..a], models) + Row(models[..|models|], actions[a]) == Candidates(actions[..a + 1], models)
  {
    assert actions[..a + 1][..a] == actions[..a];
    assert models[..|models|] == models;
  }

  /** `runStage(baseCube)`: while the weight is positive, choose the best candidate, yield its
      actions (the consumer applies them), and weigh the cube again; stop when no candidate
      lowers the weight, and throw when the new weight is not the predicted one. */
  method RunStage<C, M, A, E>(st: Stage<C, M, A, E>, baseCube: C) returns (emitted: seq<E>, error: Option<string>)
    ensures emitted == Run(st, baseCube).emitted && error == Run(st, baseCube).error
    ensures error.None? && |st.transform(baseCube)| > 0 ==>
      Stopped(st, RunFinal(st, baseCube), st.weigh(RunFinal(st, baseCube)))
  {
    if |st.transform(baseCube)| > 0 {
      RunStops(st, baseCube);
    }
    var cubes := st.transform(baseCube);
    if |cubes| == 0 {
      return [], None;
    }
    var baseModel := st.makeModel(cubes[0]);
    var baseWeight := st.weigh(baseModel);
    emitted, error := [], None;
    ghost var rounds: nat := 0;
    while baseWeight > 0
      invariant Rounds(st, baseModel, baseWeight, emitted, rounds).outcome == Run(st, baseCube)
      decreases baseWeight
    {
      var option, weight := ChooseOption(st, baseModel, baseWeight);
      if option.None? {
        break;
      }
      ChooseLowers(st, baseModel, baseWeight);
      var (model, action) := option.value;
      var cube := st.getCube(model);
      var out := st.alterCube(action, cube);
      emitted := emitted + out;
      cube := st.perform(cube, out);
      baseModel := st.makeModel(cube);
      baseWeight := st.weigh(baseModel);
      rounds := rounds + 1;
      if Finite(baseWeight) != weight {
        return emitted, Some(IncorrectWeight);
      }
    }
  }

  // What the rounds promise.

  /** No cube from `transform`: nothing is yielded. */
  lemma EmptyTransform<C, M, A, E>(st: Stage<C, M, A, E>, baseCube: C)
    requires |st.transform(baseCube)| == 0
    ensures Run(st, baseCube) == Outcome([], None, 0)
  {
  }

  /** A cube that already weighs nothing (or less): nothing is yielded. */
  lemma AlreadyDone<C, M, A, E>(st: Stage<C, M, A, E>, baseCube: C)
    requires |st.transform(baseCube)| > 0 && st.weigh(st.makeModel(st.transform(baseCube)[0])) <= 0
    ensures Run(st, baseCube) == Outcome([], None, 0)
  {
  }

  /** Every round lowers the weight by at least one, so there are at most as many rounds as
      the starting weight. */
  lemma {:induction false} RoundsBounded<C, M, A, E>(st: Stage<C, M, A, E>, model: M, weight: int, out: seq<E>, rounds: nat)
    ensures Rounds(st, model, weight, out, rounds).outcome.rounds <= rounds + (if weight > 0 then weight else 0)
    decreases if weight > 0 then weight else 0
  {
    if weight > 0 {
      var s := Choose(st, model, weight);
      if s.0.Some? {
        ChooseLowers(st, model, weight);
        var cube := st.getCube(s.0.value.0);
        var emitted := st.alterCube(s.0.value.1, cube);
        var next := st.makeModel(st.perform(cube, emitted));
        var nextWeight := st.weigh(next);
        if Finite(nextWeight) == s.1 {
          RoundsBounded(st, next, nextWeight, out + emitted, rounds + 1);
        }
      }
    }
  }

  lemma RunBounded<C, M, A, E>(st: Stage<C, M, A, E>, baseCube: C)
    requires |st.transform(baseCube)| > 0
    ensures var w := st.weigh(st.makeModel(st.transform(baseCube)[0]));
      Run(st, baseCube).rounds <= if w > 0 then w else 0
  {
    var model := st.makeModel(st.transform(baseCube)[0]);
    RoundsBounded(st, model, st.weigh(model), [], 0);
  }

  /** The rounds only add to what was yielded before, and a finished run without error ends at
      a model of weight zero or below, or at one no candidate improves on. */
  lemma {:induction false} RoundsEnd<C, M, A, E>(st: Stage<C, M, A, E>, model: M, weight: int, out: seq<E>, rounds: nat)
    ensures var o := Rounds(st, model, weight, out, rounds).outcome;
      |out| <= |o.emitted| && o.emitted[..|out|] == out && rounds <= o.rounds
    ensures var o := Rounds(st, model, weight, out, rounds).outcome;
      o.error.Some? ==> o.error == Some(IncorrectWeight)
    ensures var e := Rounds(st, model, weight, out, rounds);
      e.outcome.error.None? ==> Stopped(st, e.model, e.weight)
    ensures var e := Rounds(st, model, weight, out, rounds);
      weight == st.weigh(model) ==> e.weight == st.weigh(e.model)
    decreases if weight > 0 then weight else 0
  {
    if weight > 0 {
      var s := Choose(st, model, weight);
      if s.0.Some? {
        ChooseLowers(st, model, weight);
        var cube := st.getCube(s.0.value.0);
        var emitted := st.alterCube(s.0.value.1, cube);
        var next := st.makeModel(st.perform(cube, emitted));
        var nextWeight := st.weigh(next);
        assert (out + emitted)[..|out|] == out;
        if Finite(nextWeight) == s.1 {
          RoundsEnd(st, next, nextWeight, out + emitted, rounds + 1);
          var o := Rounds(st, next, nextWeight, out + emitted, rounds + 1).outcome;
          assert o.emitted[..|out|] == o.emitted[..|out + emitted|][..|out|];
        }
      }
    }
  }

  /** The model `runStage(baseCube)` stops at: the last one the rounds reach from the first
      transformed cube. */
  function RunFinal<C, M, A, E>(st: Stage<C, M, A, E>, baseCube: C): M
    requires |st.transform(baseCube)| > 0
  {
    var model := st.makeModel(st.transform(baseCube)[0]);
    Rounds(st, model, st.weigh(model), [], 0).model
  }

  /** A run that throws nothing ends at a model weighing zero or below, or at one no candidate
      improves on. */
  lemma RunStops<C, M, A, E>(st: Stage<C, M, A, E>, baseCube: C)
    requires |st.transform(baseCube)| > 0
    ensures var f := RunFinal(st, baseCube);
      Run(st, baseCube).error.None? ==> Stopped(st, f, st.weigh(f))
  {
    var model := st.makeModel(st.transform(baseCube)[0]);
    RoundsEnd(st, model, st.weigh(model), [], 0);
  }
}
