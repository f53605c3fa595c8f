/**
 The one-shot recompute of one finished assessment: answers are filed into nested
 dictionaries, folded by loops, and the result rows are updated or inserted.
 */
module Recompute {
  import opened Common
  import opened FiniteSums
  import opened RecomputeSpec
  import T = RecomputeTheorems

  // ----- Filing the answers

  type ByIndicator = map<Id, seq<real>>
  type ByLevel = map<Id, ByIndicator>
  type ByRole = map<Id, ByLevel>
  type ByCompetence = map<Id, ByRole>

  function Get<K, V>(m: map<K, V>, k: K, default: V): V {
    if k in m then m[k] else default
  }

  function ValuesAt(s: seq<Scored>, k: Key): seq<real> {
    if s == [] then []
    else
      var before := ValuesAt(s[..|s| - 1], k);
      if s[|s| - 1].key == k then before + [s[|s| - 1].value] else before
  }

  // Each dictionary has exactly the keys answered so far, and each list its values in order.

  ghost predicate FiledScores(d: ByIndicator, s: seq<Scored>, c: Id, r: Id, l: Id) {
    d.Keys == Indicators(multiset(s), c, r, l) && forall i :: Get(d, i, []) == ValuesAt(s, Key(c, r, l, i))
  }

  ghost predicate FiledLevels(d: ByLevel, s: seq<Scored>, c: Id, r: Id) {
    d.Keys == Levels(multiset(s), c, r) && forall l :: FiledScores(Get(d, l, map[]), s, c, r, l)
  }

  ghost predicate FiledRoles(d: ByRole, s: seq<Scored>, c: Id) {
    d.Keys == Roles(multiset(s), c) && forall r :: FiledLevels(Get(d, r, map[]), s, c, r)
  }

  ghost predicate Filed(d: ByCompetence, s: seq<Scored>) {
    forall c :: FiledRoles(Get(d, c, map[]), s, c)
  }

  function AddScore(d: ByIndicator, k: Key, v: real): ByIndicator {
    d[k.indicator := Get(d, k.indicator, []) + [v]]
  }

  function AddToLevel(d: ByLevel, k: Key, v: real): ByLevel {
    d[k.level := AddScore(Get(d, k.level, map[]), k, v)]
  }

  function AddToRole(d: ByRole, k: Key, v: real): ByRole {
    d[k.role := AddToLevel(Get(d, k.role, map[]), k, v)]
  }

  /** `raw[competence][role][level][indicator].append(v)` on dictionaries that create missing entries. */
  function Append(d: ByCompetence, k: Key, v: real): ByCompetence {
    d[k.competence := AddToRole(Get(d, k.competence, map[]), k, v)]
  }

  lemma GrowingKeys(s: seq<Scored>, x: Scored, c: Id, r: Id, l: Id)
    ensures var m, n, k := multiset(s), multiset(s + [x]), x.key;
            && Roles(n, c) == Roles(m, c) + (if k.competence == c then {k.role} else {})
            && Levels(n, c, r) == Levels(m, c, r) + (if k.competence == c && k.role == r then {k.level} else {})
            && Indicators(n, c, r, l) == Indicators(m, c, r, l) +
                 (if k.competence == c && k.role == r && k.level == l then {k.indicator} else {})
  {
    var m, n := multiset(s), multiset(s + [x]);
    assert n == m + multiset{x};
    T.AddedKey(m, x);
    assert x.key in Keys(n);
  }

  lemma AddScoreFiles(d: ByIndicator, s: seq<Scored>, x: Scored, c: Id, r: Id, l: Id)
    requires FiledScores(d, s, c, r, l)
    ensures var here := x.key.competence == c && x.key.role == r && x.key.level == l;
            FiledScores(if here then AddScore(d, x.key, x.value) else d, s + [x], c, r, l)
  {
    GrowingKeys(s, x, c, r, l);
    hide Indicators;
    assert (s + [x])[..|s + [x]| - 1] == s;
  }

  lemma AddToLevelFiles(d: ByLevel, s: seq<Scored>, x: Scored, c: Id, r: Id)
    requires FiledLevels(d, s, c, r)
    ensures var here := x.key.competence == c && x.key.role == r;
            FiledLevels(if here then AddToLevel(d, x.key, x.value) else d, s + [x], c, r)
  {
    GrowingKeys(s, x, c, r, r);
    hide FiledScores, AddScore, Roles, Levels, Indicators;
    var next := if x.key.competence == c && x.key.role == r then AddToLevel(d, x.key, x.value) else d;
    forall l ensures FiledScores(Get(next, l, map[]), s + [x], c, r, l) {
      AddScoreFiles(Get(d, l, map[]), s, x, c, r, l);
    }
  }

  lemma AddToRoleFiles(d: ByRole, s: seq<Scored>, x: Scored, c: Id)
    requires FiledRoles(d, s, c)
    ensures FiledRoles(if x.key.competence == c then AddToRole(d, x.key, x.value) else d, s + [x], c)
  {
    GrowingKeys(s, x, c, c, c);
    hide FiledLevels, AddToLevel, Roles, Levels, Indicators;
    var next := if x.key.competence == c then AddToRole(d, x.key, x.value) else d;
    forall r ensures FiledLevels(Get(next, r, map[]), s + [x], c, r) {
      AddToLevelFiles(Get(d, r, map[]), s, x, c, r);
    }
  }

  lemma AppendFiles(d: ByCompetence, s: seq<Scored>, x: Scored)
    requires Filed(d, s)
    ensures Filed(Append(d, x.key, x.value), s + [x])
  {
    forall c ensures FiledRoles(Get(Append(d, x.key, x.value), c, map[]), s + [x], c) {
      AddToRoleFiles(Get(d, c, map[]), s, x, c);
    }
  }

  method FileAnswers(a: Assessment, answers: seq<Answer>) returns (raw: ByCompetence)
    ensures Filed(raw, Contributions(a, answers))
  {
    raw := map[];
    for n := 0 to |answers|
      invariant Filed(raw, Contributions(a, answers[..n]))
    {
      assert answers[..n + 1][..n] == answers[..n];
      match Contribution(a, answers[n])
      case None =>
      case Some(x) =>
        AppendFiles(raw, Contributions(a, answers[..n]), x);
        raw := Append(raw, x.key, x.value);
    }
    assert answers[..|answers|] == answers;
  }

  // ----- The nested averages

  function SeqSum(xs: seq<real>): real {
    if xs == [] then 0.0 else SeqSum(xs[..|xs| - 1]) + xs[|xs| - 1]
  }

  lemma SeqSumAppend(xs: seq<real>, x: real)
    ensures SeqSum(xs + [x]) == SeqSum(xs) + x
  {
    assert (xs + [x])[..|xs + [x]| - 1] == xs;
  }

  /** A list of filed values has the multiset's total and tally. */
  lemma {:induction false} FiledTotal(s: seq<Scored>, k: Key)
    ensures SeqSum(ValuesAt(s, k)) == Total(multiset(s), k)
    ensures |ValuesAt(s, k)| as real == Tally(multiset(s), k)
  {
    if s == [] {
      assert Cell(multiset(s), k) == {};
    } else {
      var before, x := s[..|s| - 1], s[|s| - 1];
      FiledTotal(before, k);
      AddOne(multiset(before), x, k);
      assert s == before + [x];
      assert multiset(s) == multiset(before) + multiset{x};
      SeqSumAppend(ValuesAt(before, k), x.value);
    }
  }

  function ListMean(xs: seq<real>): real
    requires xs != []
  {
    SeqSum(xs) / |xs| as real
  }

  /** The elements of `s`, each once, in the order of visit `order`. */
  ghost predicate Visits(order: seq<Id>, s: set<Id>) {
    && (forall i, j :: 0 <= i < j < |order| ==> order[i] != order[j])
    && (forall x :: x in order <==> x in s)
  }

  /** Summing a list made by visiting a set is summing over the set. */
  lemma {:induction false} VisitSum(order: seq<Id>, s: set<Id>, f: Id -> real, xs: seq<real>)
    requires Visits(order, s) && |xs| == |order|
    requires forall i :: 0 <= i < |xs| ==> xs[i] == f(order[i])
    ensures SeqSum(xs) == Sum(s, f) && |xs| == |s|
  {
    if order == [] {
      assert s == {} by {
        assert forall x :: x in s ==> x in order;
      }
    } else {
      hide Sum;
      var n := |order| - 1;
      var x := order[n];
      forall y ensures y in order[..n] <==> y in s - {x} {
        if y in s - {x} {
          var i :| 0 <= i < |order| && order[i] == y;
          assert order[..n][i] == y;
        }
      }
      VisitSum(order[..n], s - {x}, f, xs[..n]);
      Pick(s, f, x);
    }
  }

  method LevelSums(a: Assessment, scores: ByIndicator, ghost mean: Id -> real)
    returns (weightedSum: real, weightSum: real)
    requires forall i :: i in scores ==> scores[i] != [] && ListMean(scores[i]) == mean(i)
    ensures weightedSum == Sum(scores.Keys, Product(mean, Weights(a)))
    ensures weightSum == Sum(scores.Keys, Weights(a))
  {
    hide Sum, Product, Weights, IsTerm, WeightOf, ListMean;
    weightedSum, weightSum := 0.0, 0.0;
    var todo := scores.Keys;
    ghost var order: seq<Id>, terms: seq<real>, weights: seq<real> := [], [], [];
    while todo != {}
      invariant todo <= scores.Keys && Visits(order, scores.Keys - todo)
      invariant |terms| == |weights| == |order|
      invariant forall n :: 0 <= n < |order| ==> IsTerm(a, mean, order[n], terms[n], weights[n])
      invariant weightedSum == SeqSum(terms) && weightSum == SeqSum(weights)
    {
      var i := Next(todo);
      var weight := WeightOf(a.indicators, i);
      var term := ListMean(scores[i]) * weight;
      weightedSum := weightedSum + term;
      weightSum := weightSum + weight;
      TermIs(a, scores, mean, i, term, weight);
      SeqSumAppend(terms, term);
      SeqSumAppend(weights, weight);
      todo := todo - {i};
      order, terms, weights := order + [i], terms + [term], weights + [weight];
    }
    TermSums(a, mean, order, scores.Keys, terms, weights);
  }

  ghost predicate IsTerm(a: Assessment, mean: Id -> real, i: Id, term: real, weight: real) {
    weight == Weights(a)(i) && term == Product(mean, Weights(a))(i)
  }

  lemma TermIs(a: Assessment, scores: ByIndicator, mean: Id -> real, i: Id, term: real, weight: real)
    requires i in scores && scores[i] != [] && ListMean(scores[i]) == mean(i)
    requires weight == WeightOf(a.indicators, i) && term == ListMean(scores[i]) * weight
    ensures IsTerm(a, mean, i, term, weight)
  {
    hide ListMean, WeightOf;
  }

  lemma TermSums(a: Assessment, mean: Id -> real, order: seq<Id>, s: set<Id>, terms: seq<real>, weights: seq<real>)
    requires Visits(order, s) && |terms| == |weights| == |order|
    requires forall n :: 0 <= n < |order| ==> IsTerm(a, mean, order[n], terms[n], weights[n])
    ensures SeqSum(terms) == Sum(s, Product(mean, Weights(a)))
    ensures SeqSum(weights) == Sum(s, Weights(a))
  {
    VisitSum(order, s, Product(mean, Weights(a)), terms);
    VisitSum(order, s, Weights(a), weights);
  }

  /** One level of one role; nothing when its weights cancel out. */
  method LevelResult(a: Assessment, top: real, scores: ByIndicator, ghost s: seq<Scored>, ghost c: Id, ghost r: Id,
                     ghost l: Id)
    returns (percent: Option<real>)
    requires top != 0.0 && FiledScores(scores, s, c, r, l)
    ensures percent == if LevelWeight(Weights(a), multiset(s), c, r, l) == 0.0 then None
                       else Some(LevelPercent(Weights(a), top, multiset(s), c, r)(l))
  {
    ghost var m := multiset(s);
    forall i | i in scores ensures scores[i] != [] && ListMean(scores[i]) == Means(m, c, r, l)(i) {
      assert Get(scores, i, []) == ValuesAt(s, Key(c, r, l, i));
      FiledTotal(s, Key(c, r, l, i));
      T.IndicatorAnswered(m, c, r, l, i);
    }
    var weightedSum, weightSum := LevelSums(a, scores, Means(m, c, r, l));
    if weightSum == 0.0 {
      return None;
    }
    return Some(PercentOfTop(weightedSum / weightSum, top));
  }

  /** `sum(percents) / len(percents)` over the levels that count. */
  method RoleAverage(a: Assessment, top: real, levels: ByLevel, ghost s: seq<Scored>, ghost c: Id, ghost r: Id)
    returns (average: Option<real>)
    requires top != 0.0 && FiledLevels(levels, s, c, r)
    ensures average == if CountedLevels(Weights(a), multiset(s), c, r) == {} then None
                       else Some(RolePercent(Weights(a), top, multiset(s), c)(r))
  {
    hide Sum, LevelPercent, FiledScores;
    ghost var counted, f := CountedLevels(Weights(a), multiset(s), c, r),
                            LevelPercent(Weights(a), top, multiset(s), c, r);
    var percents: seq<real> := [];
    var todo := levels.Keys;
    ghost var order: seq<Id> := [];
    while todo != {}
      invariant todo <= levels.Keys && Visits(order, counted - todo) && |percents| == |order|
      invariant forall n :: 0 <= n < |order| ==> percents[n] == f(order[n])
    {
      var l := Next(todo);
      assert FiledScores(Get(levels, l, map[]), s, c, r, l);
      var percent := LevelResult(a, top, levels[l], s, c, r, l);
      todo := todo - {l};
      if percent.Some? {
        percents := percents + [percent.value];
        order := order + [l];
      }
    }
    VisitSum(order, counted, f, percents);
    average := if percents == [] then None else Some(SeqSum(percents) / |percents| as real);
  }

  method CompetencePercent(a: Assessment, top: real, roles: ByRole, ghost s: seq<Scored>, ghost c: Id)
    returns (final: Option<real>)
    requires top != 0.0 && FiledRoles(roles, s, c)
    ensures final == FinalPercent(Weights(a), top, multiset(s), c)
  {
    hide Sum, RolePercent, FiledLevels;
    ghost var counted, f := CountedRoles(Weights(a), multiset(s), c), RolePercent(Weights(a), top, multiset(s), c);
    var percents: seq<real> := [];
    var todo := roles.Keys;
    ghost var order: seq<Id> := [];
    while todo != {}
      invariant todo <= roles.Keys && Visits(order, counted - todo) && |percents| == |order|
      invariant forall n :: 0 <= n < |order| ==> percents[n] == f(order[n])
    {
      var r := Next(todo);
      assert FiledLevels(Get(roles, r, map[]), s, c, r);
      var average := RoleAverage(a, top, roles[r], s, c, r);
      todo := todo - {r};
      if average.Some? {
        percents := percents + [average.value];
        order := order + [r];
      }
    }
    VisitSum(order, counted, f, percents);
    final := if percents == [] then None else Some(SeqSum(percents) / |percents| as real);
  }

  // ----- The top weight of the scale

  predicate Weighs(a: Assessment, o: Id) {
    o in a.options && !a.options[o].neutral && a.options[o].weight.Some?
  }

  method TopWeight(a: Assessment) returns (top: Option<int>)
    ensures top.None? <==> forall o :: !Weighs(a, o)
    ensures top.Some? ==> exists o :: Weighs(a, o) && a.options[o].weight == top
    ensures top.Some? ==> forall o :: Weighs(a, o) ==> a.options[o].weight.value <= top.value
    ensures forall o :: o in a.options && !a.options[o].neutral && a.options[o].weight.Some? ==>
              top.Some? && a.options[o].weight.value <= top.value
    ensures top.Some? ==> exists o :: o in a.options && !a.options[o].neutral && a.options[o].weight == top
  {
    top := None;
    var todo := a.options.Keys;
    while todo != {}
      invariant todo <= a.options.Keys
      invariant top.None? <==> forall o :: o !in todo ==> !Weighs(a, o)
      invariant top.Some? ==> exists o :: Weighs(a, o) && a.options[o].weight == top
      invariant top.Some? ==> forall o :: o !in todo && Weighs(a, o) ==> a.options[o].weight.value <= top.value
    {
      var o := Next(todo);
      todo := todo - {o};
      if Weighs(a, o) && (top.None? || a.options[o].weight.value > top.value) {
        top := a.options[o].weight;
      }
    }
    assert forall o :: o in a.options && !a.options[o].neutral && a.options[o].weight.Some? ==> Weighs(a, o);
  }
}
