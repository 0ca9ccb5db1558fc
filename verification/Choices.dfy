/**
 Weighted random choice of the load generator's next action, over the reals.
 */
module Choices {

  datatype Action = CreatePod | CreateVol | DeletePod | DeletePVC | DeletePV

  datatype Choice = Choice(action: Action, p: real)

  function Total(choices: seq<Choice>): real {
    if choices == [] then 0.0 else Total(choices[..|choices| - 1]) + choices[|choices| - 1].p
  }

  predicate NonNegative(choices: seq<Choice>) {
    forall c :: c in choices ==> c.p >= 0.0
  }

  lemma {:induction false} TotalScaled(choices: seq<Choice>, scaled: seq<Choice>, divisor: real)
    requires divisor > 0.0 && |scaled| == |choices|
    requires forall i :: 0 <= i < |choices| ==> scaled[i].p == choices[i].p / divisor
    ensures Total(scaled) == Total(choices) / divisor
  {
    if choices != [] {
      TotalScaled(choices[..|choices| - 1], scaled[..|scaled| - 1], divisor);
      var a, b := Total(choices[..|choices| - 1]), choices[|choices| - 1].p;
      assert a / divisor + b / divisor == (a + b) / divisor;
    }
  }

  /** Rescales the weights so that they sum to one. */
  method RecalculateProbabilities(choices: seq<Choice>) returns (scaled: seq<Choice>)
    requires Total(choices) > 0.0
    ensures |scaled| == |choices| && Total(scaled) == 1.0
    ensures forall i :: 0 <= i < |choices| ==> scaled[i] == Choice(choices[i].action, choices[i].p / Total(choices))
  {
    var total := 0.0;
    for i := 0 to |choices|
      invariant total == Total(choices[..i])
    {
      assert choices[..i + 1][..i] == choices[..i];
      total := total + choices[i].p;
    }
    assert choices[..|choices|] == choices;
    SelfShare(total);
    scaled := [];
    for i := 0 to |choices|
      invariant |scaled| == i
      invariant forall k :: 0 <= k < i ==> scaled[k] == Choice(choices[k].action, choices[k].p / total)
    {
      scaled := scaled + [Choice(choices[i].action, choices[i].p / total)];
    }
    TotalScaled(choices, scaled, total);
  }

  lemma SelfShare(total: real)
    requires total > 0.0
    ensures total / total == 1.0
  {
  }

  /** The cumulative scan always picks a choice, and one with a positive weight, for any draw. */
  method Pick(choices: seq<Choice>, n: real) returns (picked: int)
    requires Total(choices) == 1.0 && 0.0 <= n < 1.0
    ensures 0 <= picked < |choices| && choices[picked].p > 0.0
    ensures Total(choices[..picked]) <= n < Total(choices[..picked]) + choices[picked].p
  {
    assert choices[..|choices|] == choices;
    picked := -1;
    var cumulative := 0.0;
    for i := 0 to |choices|
      invariant picked == -1 && cumulative == Total(choices[..i]) <= n
    {
      if choices[i].p + cumulative > n {
        picked := i;
        break;
      }
      assert choices[..i + 1][..i] == choices[..i];
      cumulative := cumulative + choices[i].p;
    }
  }

  /** Only one choice fits a draw, so the scan is determined by the weights. */
  lemma PickIsUnique(choices: seq<Choice>, n: real, i: nat, j: nat)
    requires i < j < |choices| && NonNegative(choices)
    requires n < Total(choices[..i]) + choices[i].p
    ensures !(Total(choices[..j]) <= n)
  {
    TotalGrows(choices, i + 1, j);
    assert choices[..i + 1][..i] == choices[..i];
  }

  lemma {:induction false} TotalGrows(choices: seq<Choice>, i: nat, j: nat)
    requires i <= j <= |choices| && NonNegative(choices)
    ensures Total(choices[..i]) <= Total(choices[..j])
  {
    if i < j {
      TotalGrows(choices, i, j - 1);
      assert choices[..j][..j - 1] == choices[..j - 1];
      assert choices[j - 1] in choices;
    }
  }

  // ------------------------------------------------------------------ the weights

  /** The chance that a creation is that of a pod: the share of claims among pods and claims. */
  function PodCreateProbability(pods: nat, claims: nat): real {
    if pods + claims == 0 then 0.0 else claims as real / (pods + claims) as real
  }

  function CreateChoices(pods: nat, claims: nat, maxPods: nat, maxPVCs: nat): seq<Choice> {
    (if pods < maxPods then [Choice(CreatePod, PodCreateProbability(pods, claims))] else [])
    + (if claims < maxPVCs then [Choice(CreateVol, 1.0 - PodCreateProbability(pods, claims))] else [])
  }

  /** `n` of `total`. */
  function PartOf(n: nat, total: nat): real
    requires total > 0
  {
    n as real / total as real
  }

  lemma PartMeans(n: nat, total: nat)
    requires total > 0
    ensures PartOf(n, total) * total as real == n as real
    ensures n > 0 ==> PartOf(n, total) > 0.0
  {
  }

  /** Each type by its share of the objects. */
  function DeleteChoices(pods: nat, claims: nat, volumes: nat): seq<Choice>
    requires pods + claims + volumes > 0
  {
    var total := pods + claims + volumes;
    (if pods > 0 then [Choice(DeletePod, PartOf(pods, total))] else [])
    + (if claims > 0 then [Choice(DeletePVC, PartOf(claims, total))] else [])
    + (if volumes > 0 then [Choice(DeletePV, PartOf(volumes, total))] else [])
  }

  lemma TotalOne(c: Choice)
    ensures Total([c]) == c.p
  {
    assert [c][..0] == [];
  }

  lemma TotalTwo(c: Choice, d: Choice)
    ensures Total([c, d]) == c.p + d.p
  {
    assert [c, d][..1] == [c];
    TotalOne(c);
  }

  /**
   Exactly when creating has weights that can be rescaled: not when pods are ruled out from the start while there
   are claims, for then the one remaining choice, a volume, has weight zero and the rescaling divides by zero.
   */
  lemma CreateWeightIff(pods: nat, claims: nat, maxPods: nat, maxPVCs: nat)
    requires pods <= maxPods <= maxPVCs && claims <= maxPVCs
    requires CreateChoices(pods, claims, maxPods, maxPVCs) != []
    ensures Total(CreateChoices(pods, claims, maxPods, maxPVCs)) > 0.0 <==> !(maxPods == 0 && claims > 0)
    ensures NonNegative(CreateChoices(pods, claims, maxPods, maxPVCs))
  {
    var p := PodCreateProbability(pods, claims);
    Share(pods, claims);
    var c, d := Choice(CreatePod, p), Choice(CreateVol, 1.0 - p);
    if pods < maxPods && claims < maxPVCs {
      assert CreateChoices(pods, claims, maxPods, maxPVCs) == [c, d];
      TotalTwo(c, d);
    } else if pods < maxPods {
      assert CreateChoices(pods, claims, maxPods, maxPVCs) == [c];
      TotalOne(c);
    } else {
      assert CreateChoices(pods, claims, maxPods, maxPVCs) == [d];
      TotalOne(d);
    }
  }

  lemma Share(pods: nat, claims: nat)
    ensures 0.0 <= PodCreateProbability(pods, claims) <= 1.0
    ensures claims > 0 ==> PodCreateProbability(pods, claims) > 0.0
    ensures claims == 0 ==> PodCreateProbability(pods, claims) == 0.0
    ensures pods > 0 ==> PodCreateProbability(pods, claims) < 1.0
    ensures pods == 0 && claims > 0 ==> PodCreateProbability(pods, claims) == 1.0
  {
    if pods + claims > 0 {
      var a, b := claims as real, (pods + claims) as real;
      assert 0.0 <= a <= b && b > 0.0;
      assert a / b * b == a;
    }
  }

  /** Positive weights have a positive total. */
  lemma {:induction false} TotalPositive(choices: seq<Choice>)
    requires choices != [] && forall c :: c in choices ==> c.p > 0.0
    ensures Total(choices) > 0.0
  {
    var front := choices[..|choices| - 1];
    assert choices[|choices| - 1] in choices;
    if front != [] {
      TotalPositive(front);
    }
  }

  function Without(choices: seq<Choice>, i: nat): seq<Choice>
    requires i < |choices|
  {
    choices[..i] + choices[i + 1..]
  }

  /** `rest` is what remains after the i-th choice is taken, each weight divided by what all weighed. */
  ghost predicate Taken(choices: seq<Choice>, i: nat, rest: seq<Choice>)
    requires i < |choices| && Total(choices) > 0.0
  {
    && |rest| == |choices| - 1
    && forall k :: 0 <= k < |rest| ==> Rescaled(choices[if k < i then k else k + 1], rest[k], Total(choices))
  }

  predicate Rescaled(c: Choice, d: Choice, total: real)
    requires total > 0.0
  {
    d.action == c.action && d.p * total == c.p
  }

  /** The draw falls into the share of the i-th choice, the shares laid one after the other. */
  ghost predicate Drawn(choices: seq<Choice>, i: nat, n: real)
    requires i < |choices|
  {
    Total(choices[..i]) <= n * Total(choices) < Total(choices[..i]) + choices[i].p
  }

  lemma ScaledBack(a: real, total: real)
    requires total > 0.0
    ensures a / total * total == a
  {
  }

  lemma LessScaled(a: real, b: real, total: real)
    requires total > 0.0 && a < b
    ensures a * total < b * total
  {
  }

  lemma ScaledTaken(choices: seq<Choice>, scaled: seq<Choice>, i: nat)
    requires Total(choices) > 0.0 && |scaled| == |choices| && i < |choices|
    requires forall k :: 0 <= k < |choices| ==> scaled[k] == Choice(choices[k].action, choices[k].p / Total(choices))
    ensures Taken(choices, i, Without(scaled, i))
    ensures scaled[i].p > 0.0 ==> choices[i].p > 0.0
  {
    var rest := Without(scaled, i);
    forall k | 0 <= k < |rest| ensures Rescaled(choices[if k < i then k else k + 1], rest[k], Total(choices)) {
      ScaledBack(choices[if k < i then k else k + 1].p, Total(choices));
    }
    SameSign(choices[i].p, Total(choices));
  }

  lemma AtMostScaled(a: real, b: real, total: real)
    requires total > 0.0 && a <= b
    ensures a * total <= b * total
  {
  }

  lemma SumScaled(a: real, b: real, total: real)
    ensures (a + b) * total == a * total + b * total
  {
  }

  lemma Between(before: real, own: real, total: real, n: real)
    requires total > 0.0 && before / total <= n < before / total + own / total
    ensures before <= n * total < before + own
  {
    var a, b := before / total, own / total;
    ScaledBack(before, total);
    ScaledBack(own, total);
    AtMostScaled(a, n, total);
    LessScaled(n, a + b, total);
    SumScaled(a, b, total);
  }

  /** A pick among the scaled weights is a draw among the weights. */
  lemma ScaledDrawn(choices: seq<Choice>, scaled: seq<Choice>, i: nat, n: real)
    requires Total(choices) > 0.0 && |scaled| == |choices| && i < |choices|
    requires forall k :: 0 <= k < |choices| ==> scaled[k] == Choice(choices[k].action, choices[k].p / Total(choices))
    requires Total(scaled[..i]) <= n < Total(scaled[..i]) + scaled[i].p
    ensures Drawn(choices, i, n)
  {
    hide Total;
    TotalScaled(choices[..i], scaled[..i], Total(choices));
    Between(Total(choices[..i]), choices[i].p, Total(choices), n);
  }

  lemma SameSign(p: real, total: real)
    requires total > 0.0
    ensures p > 0.0 <==> p / total > 0.0
  {
    assert p / total * total == p;
  }

  lemma RescaledSign(c: Choice, d: Choice, total: real)
    requires total > 0.0 && Rescaled(c, d, total)
    ensures d.action == c.action && (c.p > 0.0 ==> d.p > 0.0)
  {
  }

  /** Deletions only, all of them possible, the sure one among them. */
  ghost predicate Offers(choices: seq<Choice>, sure: Action) {
    && (forall c :: c in choices ==> c.p > 0.0 && (c.action.DeletePod? || c.action.DeletePVC? || c.action.DeletePV?))
    && exists i :: 0 <= i < |choices| && choices[i].action == sure
  }

  /** Taking another choice than the sure one leaves the sure one. */
  lemma TakenOffers(choices: seq<Choice>, rest: seq<Choice>, action: Action, sure: Action)
    requires Offers(choices, sure)
    requires Total(choices) > 0.0
    requires exists i :: 0 <= i < |choices| && choices[i].action == action && choices[i].p > 0.0 && Taken(choices, i, rest)
    ensures |rest| < |choices| && (action.DeletePod? || action.DeletePVC? || action.DeletePV?)
    ensures action != sure ==> Offers(rest, sure)
  {
    hide Rescaled, Total;
    var i :| 0 <= i < |choices| && choices[i].action == action && Taken(choices, i, rest);
    assert choices[i] in choices;
    forall c | c in rest ensures c.p > 0.0 && (c.action.DeletePod? || c.action.DeletePVC? || c.action.DeletePV?) {
      var k :| 0 <= k < |rest| && rest[k] == c;
      var from := choices[if k < i then k else k + 1];
      assert Rescaled(from, c, Total(choices)) && from in choices;
      RescaledSign(from, c, Total(choices));
    }
    if action != sure {
      var j :| 0 <= j < |choices| && choices[j].action == sure;
      var k := if j < i then j else j - 1;
      assert Rescaled(choices[if k < i then k else k + 1], rest[k], Total(choices));
      RescaledSign(choices[if k < i then k else k + 1], rest[k], Total(choices));
      assert rest[k].action == sure;
    }
  }

  /** Pods can always be deleted, claims once no pod is left, volumes once no claim is. */
  function SureAction(pods: nat, claims: nat): Action {
    if pods > 0 then DeletePod else if claims > 0 then DeletePVC else DeletePV
  }

  /** The delete mode starts with the sure type among its choices, and no choice of weight zero. */
  lemma DeletionsOffered(pods: nat, claims: nat, volumes: nat)
    requires pods + claims + volumes > 0
    ensures Offers(DeleteChoices(pods, claims, volumes), SureAction(pods, claims))
  {
    hide PartOf;
    PartMeans(pods, pods + claims + volumes);
    PartMeans(claims, pods + claims + volumes);
    PartMeans(volumes, pods + claims + volumes);
    var choices := DeleteChoices(pods, claims, volumes);
    assert choices[0].action == SureAction(pods, claims);
  }

  /** What the create mode may do is what there is room for. */
  lemma CreationsOffered(pods: nat, claims: nat, maxPods: nat, maxPVCs: nat, i: nat)
    requires i < |CreateChoices(pods, claims, maxPods, maxPVCs)|
    ensures var action := CreateChoices(pods, claims, maxPods, maxPVCs)[i].action;
      (action == CreatePod && pods < maxPods) || (action == CreateVol && claims < maxPVCs)
  {
  }

  // ------------------------------------------------------------------ the chances

  /** Exactly what the create mode offers, and at what odds: a pod by the claims there are, a claim by the pods. */
  lemma CreateShares(pods: nat, claims: nat, maxPods: nat, maxPVCs: nat)
    ensures var choices := CreateChoices(pods, claims, maxPods, maxPVCs);
      && |choices| == (if pods < maxPods then 1 else 0) + (if claims < maxPVCs then 1 else 0)
      && (pods < maxPods ==> choices[0].action == CreatePod && choices[0].p * (pods + claims) as real == claims as real)
      && (claims < maxPVCs ==> choices[|choices| - 1].action == CreateVol)
      && (claims < maxPVCs && pods + claims > 0 ==> choices[|choices| - 1].p * (pods + claims) as real == pods as real)
      && (claims < maxPVCs && pods + claims == 0 ==> choices[|choices| - 1].p == 1.0)
  {
    if pods + claims > 0 {
      var a, b := claims as real, (pods + claims) as real;
      ScaledBack(a, b);
      assert (1.0 - a / b) * b == b - a / b * b;
    }
  }

  /** How many objects of the type of a deletion there are. */
  function CountFor(action: Action, pods: nat, claims: nat, volumes: nat): nat {
    match action
    case DeletePod => pods
    case DeletePVC => claims
    case DeletePV => volumes
    case _ => 0
  }

  /** The choices of the delete mode have the shares of their types among all objects. */
  lemma DeleteShares(pods: nat, claims: nat, volumes: nat, c: Choice)
    requires pods + claims + volumes > 0 && c in DeleteChoices(pods, claims, volumes)
    ensures c.p * (pods + claims + volumes) as real == CountFor(c.action, pods, claims, volumes) as real
  {
    hide PartOf;
    PartMeans(pods, pods + claims + volumes);
    PartMeans(claims, pods + claims + volumes);
    PartMeans(volumes, pods + claims + volumes);
  }

  function ActionsOf(choices: seq<Choice>): (r: seq<Action>)
    ensures |r| == |choices|
  {
    seq(|choices|, i requires 0 <= i < |choices| => choices[i].action)
  }

  /** It offers each type that there is, once, in this order. */
  lemma DeletesOffered(pods: nat, claims: nat, volumes: nat)
    requires pods + claims + volumes > 0
    ensures ActionsOf(DeleteChoices(pods, claims, volumes))
      == (if pods > 0 then [DeletePod] else []) + (if claims > 0 then [DeletePVC] else []) + (if volumes > 0 then [DeletePV] else [])
  {
    hide PartOf;
  }

  /** The chance that an action deletes: the objects there are, of all that there may be. */
  function DeleteChance(objects: nat, capacity: nat): real
    requires capacity > 0
  {
    PartOf(objects, capacity)
  }

  /** The draw, as a share of the capacity, is below the number of objects. */
  predicate Below(draw: real, objects: nat, capacity: nat) {
    draw * capacity as real < objects as real
  }

  lemma ChanceMeans(draw: real, objects: nat, capacity: nat)
    requires capacity > 0
    ensures draw < DeleteChance(objects, capacity) <==> draw * capacity as real < objects as real
    ensures Below(draw, objects, capacity) <==> draw * capacity as real < objects as real
  {
    var a, b := objects as real, capacity as real;
    ScaledBack(a, b);
    if draw < a / b {
      LessScaled(draw, a / b, b);
    } else if a / b < draw {
      LessScaled(a / b, draw, b);
    }
  }

  lemma EmptyNeverDeletes(draw: real, capacity: nat)
    requires 0.0 <= draw && capacity > 0
    ensures !(draw < DeleteChance(0, capacity))
  {
  }

  /** A full cluster deletes at every draw, and a draw that deletes still does with one more object of any type. */
  lemma FullerDeletesMore(draw: real, objects: nat, capacity: nat)
    requires 0.0 <= draw < 1.0 && capacity > 0
    ensures draw < DeleteChance(capacity, capacity)
    ensures draw < DeleteChance(objects, capacity) ==> draw < DeleteChance(objects + 1, capacity)
  {
    LessScaled(draw, 1.0, capacity as real);
    ChanceMeans(draw, capacity, capacity);
    ChanceMeans(draw, objects, capacity);
    ChanceMeans(draw, objects + 1, capacity);
  }

  /** And some draw does then that did not before. */
  lemma SomeDrawDecides(objects: nat, capacity: nat) returns (draw: real)
    requires objects < capacity
    ensures 0.0 <= draw < 1.0
    ensures !(draw < DeleteChance(objects, capacity)) && draw < DeleteChance(objects + 1, capacity)
  {
    draw := objects as real / capacity as real;
    ScaledBack(objects as real, capacity as real);
    ChanceMeans(draw, objects, capacity);
    ChanceMeans(draw, objects + 1, capacity);
    if draw >= 1.0 {
      AtMostScaled(1.0, draw, capacity as real);
      assert false;
    }
  }
}
