/** What indicator weights do to a percent: the numbers of the rows, and what a weight stands for. */
module RecomputeWeights {
  import opened Common
  import opened FiniteSums
  import opened RecomputeSpec
  import T = RecomputeTheorems

  // ----- Read off the rows

  predicate IsScored(a: Assessment, x: Answer) {
    match x.option
    case Some(o) => o in a.options && !a.options[o].neutral && a.options[o].weight.Some?
    case None => x.score.Some?
  }

  /** The weight of the chosen option, or where none was chosen the score given. */
  function Points(a: Assessment, x: Answer): real
    requires IsScored(a, x)
  {
    match x.option
    case Some(o) => a.options[o].weight.value as real
    case None => x.score.value
  }

  function PointsOn(a: Assessment, answers: seq<Answer>, i: Id): real
    requires forall x :: x in answers ==> IsScored(a, x)
  {
    if answers == [] then 0.0
    else
      var x := answers[|answers| - 1];
      PointsOn(a, answers[..|answers| - 1], i) + if x.indicator == i then Points(a, x) else 0.0
  }

  function RepliesOn(answers: seq<Answer>, i: Id): nat {
    if answers == [] then 0
    else RepliesOn(answers[..|answers| - 1], i) + if answers[|answers| - 1].indicator == i then 1 else 0
  }

  /** Scored answers of one role to two indicators. */
  predicate OnTwo(a: Assessment, answers: seq<Answer>, r: Id, i: Id, j: Id) {
    forall x :: x in answers ==>
      x.participant in a.roles && a.roles[x.participant] == r && (x.indicator == i || x.indicator == j)
      && IsScored(a, x)
  }

  predicate Filing(a: Assessment, i: Id, weight: int, l: Id, c: Id) {
    i in a.indicators && a.indicators[i] == Indicator(Some(weight), l, c)
  }

  lemma CountedMore(a: Assessment, answers: seq<Answer>)
    requires answers != []
    ensures var before, x := Counted(a, answers[..|answers| - 1]), Contribution(a, answers[|answers| - 1]);
            Counted(a, answers) == if x.Some? then before + multiset{x.value} else before
  {
  }

  lemma {:induction false} Tallied(a: Assessment, answers: seq<Answer>, c: Id, r: Id, l: Id, i: Id, j: Id)
    requires i in a.indicators && a.indicators[i].level == l && a.indicators[i].competence == c
    requires j in a.indicators && a.indicators[j].level == l && a.indicators[j].competence == c
    requires OnTwo(a, answers, r, i, j)
    ensures Tally(Counted(a, answers), Key(c, r, l, i)) == RepliesOn(answers, i) as real
    ensures Total(Counted(a, answers), Key(c, r, l, i)) == PointsOn(a, answers, i)
    ensures forall k :: k in Keys(Counted(a, answers)) ==> k == Key(c, r, l, i) || k == Key(c, r, l, j)
  {
    hide Tally, Total, Counted, Keys;
    var k := Key(c, r, l, i);
    if answers == [] {
      assert Keys(Counted(a, answers)) == {} && Counted(a, answers) == multiset{} by { NothingCounted(a); }
      T.NothingFiled(multiset{}, k);
    } else {
      var before, x := answers[..|answers| - 1], answers[|answers| - 1];
      assert x in answers;
      Tallied(a, before, c, r, l, i, j);
      CountedMore(a, answers);
      var filed := Contribution(a, x).value;
      assert filed == Scored(Key(c, r, l, x.indicator), Points(a, x));
      AddOne(Counted(a, before), filed, k);
      T.AddedKey(Counted(a, before), filed);
    }
  }

  lemma NothingCounted(a: Assessment)
    ensures Counted(a, []) == multiset{} && Keys(Counted(a, [])) == {}
  {
  }

  /** The groups of answers under two keys that differ in the indicator. */
  lemma TwoKeys(m: multiset<Scored>, c: Id, r: Id, l: Id, i: Id, j: Id)
    requires Keys(m) == {Key(c, r, l, i), Key(c, r, l, j)}
    ensures Roles(m, c) == {r} && Levels(m, c, r) == {l} && Indicators(m, c, r, l) == {i, j}
  {
    var p, q := Key(c, r, l, i), Key(c, r, l, j);
    hide Keys;
    assert p in Keys(m) && q in Keys(m);
  }

  lemma SumOfTwo(f: Id -> real, i: Id, j: Id)
    requires i != j
    ensures Sum({i, j}, f) == f(i) + f(j)
  {
    Pick({i, j}, f, i);
    assert {i, j} - {i} == {j};
    Pick({j}, f, j);
    assert {j} - {j} == {};
  }

  /** A competence with one answered level of one role has that level's percent, unless the weights cancel out. */
  lemma OneLevel(w: Id -> real, top: real, m: multiset<Scored>, c: Id, r: Id, l: Id)
    requires top != 0.0 && Roles(m, c) == {r} && Levels(m, c, r) == {l}
    ensures FinalPercent(w, top, m, c) ==
            if LevelWeight(w, m, c, r, l) == 0.0 then None else Some(LevelPercent(w, top, m, c, r)(l))
  {
    hide LevelWeight, LevelPercent;
    if LevelWeight(w, m, c, r, l) == 0.0 {
      assert CountedLevels(w, m, c, r) == {};
      assert CountedRoles(w, m, c) == {};
    } else {
      assert l in CountedLevels(w, m, c, r);
      assert CountedLevels(w, m, c, r) == {l};
      assert r in CountedRoles(w, m, c);
      assert CountedRoles(w, m, c) == {r};
      AverageOfOne(LevelPercent(w, top, m, c, r), l);
      AverageOfOne(RolePercent(w, top, m, c), r);
    }
  }

  function MeanOn(a: Assessment, answers: seq<Answer>, i: Id): real
    requires (forall x :: x in answers ==> IsScored(a, x)) && RepliesOn(answers, i) > 0
  {
    PointsOn(a, answers, i) / RepliesOn(answers, i) as real
  }

  function Blend(mi: real, wi: real, mj: real, wj: real): real
    requires wi + wj != 0.0
  {
    (mi * wi + mj * wj) / (wi + wj)
  }

  /** The percent that two means of weights `wi` and `wj` come to. */
  function PercentOfTwo(mi: real, wi: real, mj: real, wj: real, top: real): real
    requires wi + wj != 0.0 && top != 0.0
  {
    Blend(mi, wi, mj, wj) / top * 100.0
  }

  lemma WeightedTwo(f: Id -> real, w: Id -> real, i: Id, j: Id)
    requires i != j
    ensures Sum({i, j}, w) == w(i) + w(j)
    ensures w(i) + w(j) != 0.0 ==> WeightedAverage({i, j}, f, w) == Blend(f(i), w(i), f(j), w(j))
  {
    SumOfTwo(w, i, j);
    SumOfTwo(Product(f, w), i, j);
    hide Sum;
  }

  lemma TwoMeans(w: Id -> real, top: real, m: multiset<Scored>, c: Id, r: Id, l: Id, i: Id, j: Id)
    requires i != j && top != 0.0 && Indicators(m, c, r, l) == {i, j}
    ensures LevelWeight(w, m, c, r, l) == w(i) + w(j)
    ensures w(i) + w(j) != 0.0 ==>
              LevelPercent(w, top, m, c, r)(l) ==
              PercentOfTwo(Mean(m, Key(c, r, l, i)), w(i), Mean(m, Key(c, r, l, j)), w(j), top)
  {
    hide Sum, Mean, Indicators, WeightedAverage, Blend;
    WeightedTwo(Means(m, c, r, l), w, i, j);
  }

  /**
   From the rows to the result: where one role answered two indicators of one level, the competence's
   percent is the mean of the indicators' plain means, each counted with the weight in its row, as a
   share of the top weight; rounded, rounded to four places, and looked up in the bands. Weights that
   cancel out leave it without a result.
   */
  lemma TwoIndicators(a: Assessment, answers: seq<Answer>, top: real, c: Id, r: Id, l: Id,
                      i: Id, wi: int, j: Id, wj: int)
    requires top != 0.0 && i != j && wi != 0 && wj != 0 && Filing(a, i, wi, l, c) && Filing(a, j, wj, l, c)
    requires OnTwo(a, answers, r, i, j) && RepliesOn(answers, i) > 0 && RepliesOn(answers, j) > 0
    ensures var score := CompetenceScore(a, answers, top, c);
            if wi as real + wj as real == 0.0 then score == Score(0.0, None, None)
            else IsScoreOf(score, a.bands, PercentOfTwo(MeanOn(a, answers, i), wi as real,
                                                        MeanOn(a, answers, j), wj as real, top))
  {
    var w := Weights(a);
    assert w(i) == wi as real && w(j) == wj as real;
    TwoAnswered(a, answers, c, r, l, i, j);
    PercentOfKeys(w, top, Counted(a, answers), c, r, l, i, j);
    hide *;
    ScoreOfPercent(a, answers, top, c);
  }

  /** The percent rounded, a hundredth of it rounded to four places, and the first band that holds it. */
  predicate IsScoreOf(score: Score, bands: seq<Band>, percent: real) {
    && score.percent == Some(RoundHalfEven(percent))
    && score.average == RoundHalfEven(percent * 100.0) as real / 10000.0
    && score.band == FirstBand(bands, RoundHalfEven(percent))
  }

  lemma ScoreOfPercent(a: Assessment, answers: seq<Answer>, top: real, c: Id)
    ensures var score, final := CompetenceScore(a, answers, top, c),
                                FinalPercent(Weights(a), top, Counted(a, answers), c);
            match final
            case None => score == Score(0.0, None, None)
            case Some(p) => IsScoreOf(score, a.bands, p)
  {
    hide Weights, Counted, FinalPercent, RoundHalfEven, FirstBand;
    var final := FinalPercent(Weights(a), top, Counted(a, answers), c);
    if final.Some? {
      assert final.value / 100.0 * 10000.0 == final.value * 100.0;
    }
  }

  lemma PercentOfKeys(w: Id -> real, top: real, m: multiset<Scored>, c: Id, r: Id, l: Id, i: Id, j: Id)
    requires i != j && top != 0.0 && Keys(m) == {Key(c, r, l, i), Key(c, r, l, j)}
    ensures FinalPercent(w, top, m, c) ==
            if w(i) + w(j) == 0.0 then None
            else Some(PercentOfTwo(Mean(m, Key(c, r, l, i)), w(i), Mean(m, Key(c, r, l, j)), w(j), top))
  {
    hide *;
    TwoKeys(m, c, r, l, i, j);
    OneLevel(w, top, m, c, r, l);
    TwoMeans(w, top, m, c, r, l, i, j);
  }

  lemma TwoAnswered(a: Assessment, answers: seq<Answer>, c: Id, r: Id, l: Id, i: Id, j: Id)
    requires i in a.indicators && a.indicators[i].level == l && a.indicators[i].competence == c
    requires j in a.indicators && a.indicators[j].level == l && a.indicators[j].competence == c
    requires OnTwo(a, answers, r, i, j) && RepliesOn(answers, i) > 0 && RepliesOn(answers, j) > 0
    ensures var m := Counted(a, answers);
            && Keys(m) == {Key(c, r, l, i), Key(c, r, l, j)}
            && Mean(m, Key(c, r, l, i)) == MeanOn(a, answers, i) && Mean(m, Key(c, r, l, j)) == MeanOn(a, answers, j)
  {
    hide Tally, Total, Counted, Keys, RepliesOn, PointsOn;
    Tallied(a, answers, c, r, l, i, j);
    Tallied(a, answers, c, r, l, j, i);
    BothAnswered(Counted(a, answers), c, r, l, i, j);
  }

  lemma BothAnswered(m: multiset<Scored>, c: Id, r: Id, l: Id, i: Id, j: Id)
    requires Tally(m, Key(c, r, l, i)) > 0.0 && Tally(m, Key(c, r, l, j)) > 0.0
    requires forall k :: k in Keys(m) ==> k == Key(c, r, l, i) || k == Key(c, r, l, j)
    ensures Keys(m) == {Key(c, r, l, i), Key(c, r, l, j)}
  {
    if Key(c, r, l, i) !in Keys(m) {
      T.NothingFiled(m, Key(c, r, l, i));
    }
    if Key(c, r, l, j) !in Keys(m) {
      T.NothingFiled(m, Key(c, r, l, j));
    }
    hide Keys, Tally;
  }

  // ----- What a weight stands for

  /** Two collections of answers, each with its weights, agree level by level. */
  ghost predicate SameLevels(w: Id -> real, m: multiset<Scored>, v: Id -> real, n: multiset<Scored>, top: real, c: Id) {
    && Roles(m, c) == Roles(n, c)
    && forall r :: Levels(m, c, r) == Levels(n, c, r)
         && forall l :: LevelWeight(w, m, c, r, l) == LevelWeight(v, n, c, r, l)
              && LevelPercent(w, top, m, c, r)(l) == LevelPercent(v, top, n, c, r)(l)
  }

  lemma SameFinal(w: Id -> real, m: multiset<Scored>, v: Id -> real, n: multiset<Scored>, top: real, c: Id)
    requires SameLevels(w, m, v, n, top, c)
    ensures FinalPercent(w, top, m, c) == FinalPercent(v, top, n, c)
  {
    hide Roles, Levels, LevelWeight, LevelPercent, Sum;
    forall r ensures CountedLevels(w, m, c, r) == CountedLevels(v, n, c, r) {
      assert Levels(m, c, r) == Levels(n, c, r);
      assert forall l :: LevelWeight(w, m, c, r, l) == LevelWeight(v, n, c, r, l);
    }
    assert CountedRoles(w, m, c) == CountedRoles(v, n, c);
    forall r ensures RolePercent(w, top, m, c)(r) == RolePercent(v, top, n, c)(r) {
      assert Levels(m, c, r) == Levels(n, c, r);
      assert forall l :: LevelPercent(w, top, m, c, r)(l) == LevelPercent(v, top, n, c, r)(l);
      Congruent(CountedLevels(w, m, c, r), LevelPercent(w, top, m, c, r), LevelPercent(v, top, n, c, r));
    }
    Congruent(CountedRoles(w, m, c), RolePercent(w, top, m, c), RolePercent(v, top, n, c));
  }

  lemma SameWeights(w: Id -> real, v: Id -> real, m: multiset<Scored>, top: real, c: Id)
    requires forall i :: w(i) == v(i)
    ensures FinalPercent(w, top, m, c) == FinalPercent(v, top, m, c)
  {
    hide Sum, Roles, Levels, Indicators, Mean;
    forall r, l
      ensures LevelWeight(w, m, c, r, l) == LevelWeight(v, m, c, r, l)
      ensures LevelPercent(w, top, m, c, r)(l) == LevelPercent(v, top, m, c, r)(l)
    {
      var inds, f := Indicators(m, c, r, l), Means(m, c, r, l);
      Congruent(inds, w, v);
      Congruent(inds, Product(f, w), Product(f, v));
    }
    SameFinal(w, m, v, m, top, c);
  }

  /** Only the weights of the indicators differ. */
  ghost predicate SameRows(a: Assessment, b: Assessment) {
    && b == a.(indicators := b.indicators) && a.indicators.Keys == b.indicators.Keys
    && forall i :: i in a.indicators ==> b.indicators[i] == a.indicators[i].(weight := b.indicators[i].weight)
  }

  lemma {:induction false} WeightsDoNotFile(a: Assessment, b: Assessment, answers: seq<Answer>)
    requires SameRows(a, b)
    ensures Contributions(a, answers) == Contributions(b, answers)
  {
    if answers != [] {
      WeightsDoNotFile(a, b, answers[..|answers| - 1]);
      assert Contribution(a, answers[|answers| - 1]) == Contribution(b, answers[|answers| - 1]);
    }
  }

  function Reweighed(a: Assessment, i: Id, weight: int): Assessment
    requires i in a.indicators
  {
    a.(indicators := a.indicators[i := a.indicators[i].(weight := Some(weight))])
  }

  /** An indicator without a weight, or of weight zero, counts as one of weight one. */
  lemma NoWeightIsOne(a: Assessment, answers: seq<Answer>, top: real, i: Id, c: Id)
    requires i in a.indicators && (a.indicators[i].weight.None? || a.indicators[i].weight == Some(0))
    ensures CompetenceScore(Reweighed(a, i, 1), answers, top, c) == CompetenceScore(a, answers, top, c)
  {
    var b := Reweighed(a, i, 1);
    WeightsDoNotFile(a, b, answers);
    assert forall k :: Weights(a)(k) == Weights(b)(k);
    hide Weights, FinalPercent, Contributions;
    SameWeights(Weights(a), Weights(b), Counted(a, answers), top, c);
  }

  /** The answers to `i`, given to `j` as well. */
  function Mirrored(answers: seq<Answer>, i: Id, j: Id): seq<Answer> {
    if answers == [] then []
    else
      var x := answers[|answers| - 1];
      Mirrored(answers[..|answers| - 1], i, j) + if x.indicator == i then [x.(indicator := j)] else []
  }

  function Source(k: Key, i: Id, j: Id): Key {
    if k.indicator == j then k.(indicator := i) else k
  }

  /** `q` holds what `m` holds under `i`, filed under `j`. */
  ghost predicate Mirrors(m: multiset<Scored>, q: multiset<Scored>, i: Id, j: Id) {
    forall k: Key ::
      if k.indicator == j then Tally(q, k) == Tally(m, Source(k, i, j)) && Total(q, k) == Total(m, Source(k, i, j))
      else Tally(q, k) == 0.0 && Total(q, k) == 0.0
  }

  lemma MirrorOne(m: multiset<Scored>, q: multiset<Scored>, x: Scored, i: Id, j: Id)
    requires i != j && Mirrors(m, q, i, j) && x.key.indicator == i
    ensures Mirrors(m + multiset{x}, q + multiset{x.(key := x.key.(indicator := j))}, i, j)
  {
    var y := x.(key := x.key.(indicator := j));
    hide Tally, Total;
    forall k: Key
      ensures if k.indicator == j
              then Tally(q + multiset{y}, k) == Tally(m + multiset{x}, Source(k, i, j))
                   && Total(q + multiset{y}, k) == Total(m + multiset{x}, Source(k, i, j))
              else Tally(q + multiset{y}, k) == 0.0 && Total(q + multiset{y}, k) == 0.0
    {
      AddOne(q, y, k);
      AddOne(m, x, Source(k, i, j));
      assert y.key == k <==> k.indicator == j && x.key == Source(k, i, j);
    }
  }

  lemma MirrorOther(m: multiset<Scored>, q: multiset<Scored>, x: Scored, i: Id, j: Id)
    requires i != j && Mirrors(m, q, i, j) && x.key.indicator != i
    ensures Mirrors(m + multiset{x}, q, i, j)
  {
    hide Tally, Total;
    forall k: Key | k.indicator == j
      ensures Tally(q, k) == Tally(m + multiset{x}, Source(k, i, j))
      ensures Total(q, k) == Total(m + multiset{x}, Source(k, i, j))
    {
      AddOne(m, x, Source(k, i, j));
    }
  }

  ghost predicate Twins(a: Assessment, i: Id, j: Id) {
    && i != j && i in a.indicators && j in a.indicators
    && a.indicators[j].level == a.indicators[i].level && a.indicators[j].competence == a.indicators[i].competence
  }

  lemma CountedOneMore(a: Assessment, answers: seq<Answer>, x: Answer)
    ensures Counted(a, answers + [x]) ==
            if Contribution(a, x).Some? then Counted(a, answers) + multiset{Contribution(a, x).value}
            else Counted(a, answers)
  {
    assert (answers + [x])[..|answers|] == answers;
  }

  lemma TwinContributes(a: Assessment, x: Answer, i: Id, j: Id)
    requires Twins(a, i, j) && x.indicator == i
    ensures var p, q := Contribution(a, x), Contribution(a, x.(indicator := j));
            && (p.Some? <==> q.Some?)
            && (p.Some? ==> p.value.key.indicator == i && q.value == p.value.(key := p.value.key.(indicator := j)))
  {
  }

  lemma MirrorStep(a: Assessment, before: seq<Answer>, kept: seq<Answer>, x: Answer, i: Id, j: Id)
    requires Twins(a, i, j) && Mirrors(Counted(a, before), Counted(a, kept), i, j)
    ensures Mirrors(Counted(a, before + [x]),
                    Counted(a, kept + if x.indicator == i then [x.(indicator := j)] else []), i, j)
  {
    CountedOneMore(a, before, x);
    if x.indicator == i {
      TwinContributes(a, x, i, j);
      CountedOneMore(a, kept, x.(indicator := j));
      hide Mirrors, Counted, Contribution;
      if Contribution(a, x).Some? {
        MirrorOne(Counted(a, before), Counted(a, kept), Contribution(a, x).value, i, j);
      }
    } else {
      assert kept + [] == kept;
      hide Mirrors, Counted;
      if Contribution(a, x).Some? {
        MirrorOther(Counted(a, before), Counted(a, kept), Contribution(a, x).value, i, j);
      }
    }
  }

  lemma {:induction false} MirroredCounts(a: Assessment, answers: seq<Answer>, i: Id, j: Id)
    requires Twins(a, i, j)
    ensures Mirrors(Counted(a, answers), Counted(a, Mirrored(answers, i, j)), i, j)
  {
    hide Mirrors, Counted, Twins;
    if answers == [] {
      NothingMirrors(a, i, j);
    } else {
      var before, x := answers[..|answers| - 1], answers[|answers| - 1];
      MirroredCounts(a, before, i, j);
      MirrorStep(a, before, Mirrored(before, i, j), x, i, j);
      assert answers == before + [x];
    }
  }

  lemma NothingMirrors(a: Assessment, i: Id, j: Id)
    ensures Mirrors(Counted(a, []), Counted(a, Mirrored([], i, j)), i, j)
  {
    NothingCounted(a);
    forall k: Key ensures Tally(multiset{}, k) == 0.0 && Total(multiset{}, k) == 0.0 {
      T.NothingFiled(multiset{}, k);
    }
  }

  lemma FiledIsTallied(m: multiset<Scored>, k: Key)
    ensures k in Keys(m) <==> Tally(m, k) > 0.0
  {
    if k in Keys(m) {
      TallyPositive(m, k);
    } else {
      T.NothingFiled(m, k);
    }
  }

  /** With the twin's answers added, every mean under the twin is its source's, and all others are as before. */
  lemma DoubledMeans(m: multiset<Scored>, q: multiset<Scored>, i: Id, j: Id, k: Key)
    requires i != j && Mirrors(m, q, i, j) && forall k :: k in Keys(m) ==> k.indicator != j
    ensures Mean(m + q, k) == Mean(m, Source(k, i, j))
    ensures k in Keys(m + q) <==> Source(k, i, j) in Keys(m)
  {
    T.AddAll(m, q, k);
    FiledIsTallied(m + q, k);
    FiledIsTallied(m, Source(k, i, j));
    if k.indicator == j {
      T.NothingFiled(m, k);
    }
    hide Tally, Total, Keys;
  }

  /** The same groups are answered, and the twin wherever the indicator is. */
  lemma DoubledGroups(m: multiset<Scored>, n: multiset<Scored>, i: Id, j: Id, c: Id, r: Id, l: Id)
    requires i != j && forall k :: k in Keys(m) ==> k.indicator != j
    requires forall k :: k in Keys(n) <==> Source(k, i, j) in Keys(m)
    ensures Roles(n, c) == Roles(m, c) && Levels(n, c, r) == Levels(m, c, r)
    ensures Indicators(n, c, r, l) ==
            Indicators(m, c, r, l) + if i in Indicators(m, c, r, l) then {j} else {}
    ensures j !in Indicators(m, c, r, l)
  {
    hide Keys;
    assert forall k :: k in Keys(m) ==> Source(k, i, j) == k && k in Keys(n);
    assert forall k :: k in Keys(n) ==> Source(k, i, j) in Keys(m);
    assert Source(Key(c, r, l, j), i, j) == Key(c, r, l, i);
  }

  /** A sum in which one term takes over that of an element left out. */
  lemma TakenOver(s: set<Id>, f: Id -> real, g: Id -> real, i: Id, j: Id)
    requires i in s && j !in s && g(i) == f(i) + f(j) && forall k :: k in s && k != i ==> g(k) == f(k)
    ensures Sum(s + {j}, f) == Sum(s, g)
  {
    Grow(s, f, j);
    ChangeOne(s, f, g, i);
  }

  lemma ProductsTakenOver(s: set<Id>, f: Id -> real, g: Id -> real, w: Id -> real, v: Id -> real, i: Id, j: Id)
    requires i in s && j !in s && v(i) == w(i) + w(j) && forall k :: k in s && k != i ==> v(k) == w(k)
    requires g(j) == f(i) && forall k :: k in s ==> g(k) == f(k)
    ensures Sum(s + {j}, Product(g, w)) == Sum(s, Product(f, v))
  {
    ProductAt(g, w, i);
    ProductAt(g, w, j);
    ProductAt(f, v, i);
    TimesLeft(w(i), w(j), f(i));
    forall k | k in s && k != i ensures Product(f, v)(k) == Product(g, w)(k) {
      ProductAt(f, v, k);
      ProductAt(g, w, k);
    }
    hide Product, FiniteSums.Times, Sum;
    TakenOver(s, Product(g, w), Product(f, v), i, j);
  }

  lemma TimesLeft(a: real, b: real, x: real)
    ensures FiniteSums.Times(a + b, x) == FiniteSums.Times(a, x) + FiniteSums.Times(b, x)
  {
  }

  lemma SumsDoubled(s: set<Id>, f: Id -> real, g: Id -> real, w: Id -> real, v: Id -> real, i: Id, j: Id)
    requires j !in s && v(i) == w(i) + w(j) && forall k :: k != i ==> v(k) == w(k)
    requires g(j) == f(i) && forall k :: k != j ==> g(k) == f(k)
    ensures var more := s + if i in s then {j} else {};
            Sum(more, w) == Sum(s, v) && Sum(more, Product(g, w)) == Sum(s, Product(f, v))
  {
    hide Sum;
    if i in s {
      TakenOver(s, w, v, i, j);
      ProductsTakenOver(s, f, g, w, v, i, j);
    } else {
      assert s + {} == s;
      Congruent(s, w, v);
      Congruent(s, Product(g, w), Product(f, v));
    }
  }

  lemma MeansDoubled(m: multiset<Scored>, n: multiset<Scored>, i: Id, j: Id, c: Id, r: Id, l: Id)
    requires i != j && forall k: Key :: Mean(n, k) == Mean(m, Source(k, i, j))
    ensures var f, g := Means(m, c, r, l), Means(n, c, r, l); g(j) == f(i) && forall k :: k != j ==> g(k) == f(k)
  {
    hide Mean;
    assert forall k :: k != j ==> Source(Key(c, r, l, k), i, j) == Key(c, r, l, k);
    assert Source(Key(c, r, l, j), i, j) == Key(c, r, l, i);
  }

  lemma DoubledLevel(m: multiset<Scored>, n: multiset<Scored>, w: Id -> real, v: Id -> real, i: Id, j: Id,
                     top: real, c: Id, r: Id, l: Id)
    requires i != j && v(i) == w(i) + w(j) && forall k :: k != i ==> v(k) == w(k)
    requires Indicators(n, c, r, l) == Indicators(m, c, r, l) + if i in Indicators(m, c, r, l) then {j} else {}
    requires j !in Indicators(m, c, r, l)
    requires forall k: Key :: Mean(n, k) == Mean(m, Source(k, i, j))
    ensures LevelWeight(w, n, c, r, l) == LevelWeight(v, m, c, r, l)
    ensures LevelPercent(w, top, n, c, r)(l) == LevelPercent(v, top, m, c, r)(l)
  {
    MeansDoubled(m, n, i, j, c, r, l);
    hide Mean, Indicators, Sum, Means, Product, Source;
    SumsDoubled(Indicators(m, c, r, l), Means(m, c, r, l), Means(n, c, r, l), w, v, i, j);
  }

  /**
   A weight stands for that many indicators: an indicator of weight `n` with a twin of weight `k`, of
   the same level and competence and answered by everybody the same, counts in every competence as the
   indicator alone does with weight `n + k`. Every indicator of weight `k` is thus as good as `k` of
   weight one.
   */
  lemma TwinsAddUp(a: Assessment, answers: seq<Answer>, top: real, i: Id, n: int, j: Id, k: int, c: Id)
    requires Twins(a, i, j) && a.indicators[i].weight == Some(n) && a.indicators[j].weight == Some(k)
    requires n != 0 && k != 0 && n + k != 0
    requires forall x :: x in answers ==> x.indicator != j
    ensures CompetenceScore(a, answers + Mirrored(answers, i, j), top, c) ==
            CompetenceScore(Reweighed(a, i, n + k), answers, top, c)
  {
    var b := Reweighed(a, i, n + k);
    var m, q := Counted(a, answers), Counted(a, Mirrored(answers, i, j));
    var w, v := Weights(a), Weights(b);
    assert v(i) == w(i) + w(j) && forall x :: x != i ==> v(x) == w(x);
    WeightsDoNotFile(a, b, answers);
    T.ContributionsSplit(a, answers, Mirrored(answers, i, j));
    MirroredCounts(a, answers, i, j);
    NotFiledUnder(a, answers, j);
    hide *;
    DoubledFinal(m, q, w, v, i, j, top, c);
    SameScore(a, answers + Mirrored(answers, i, j), b, answers, top, c);
  }

  lemma SameScore(a: Assessment, answers: seq<Answer>, b: Assessment, others: seq<Answer>, top: real, c: Id)
    requires a.bands == b.bands
    requires FinalPercent(Weights(a), top, Counted(a, answers), c) ==
             FinalPercent(Weights(b), top, Counted(b, others), c)
    ensures CompetenceScore(a, answers, top, c) == CompetenceScore(b, others, top, c)
  {
    hide FinalPercent, Weights, Counted, ScoreOf;
  }

  lemma {:induction false} NotFiledUnder(a: Assessment, answers: seq<Answer>, j: Id)
    requires forall x :: x in answers ==> x.indicator != j
    ensures forall k :: k in Keys(Counted(a, answers)) ==> k.indicator != j
  {
    forall s | s in Counted(a, answers) ensures s.key.indicator != j {
      assert s in Contributions(a, answers);
      T.CountedFrom(a, answers, s);
    }
  }

  lemma DoubledFinal(m: multiset<Scored>, q: multiset<Scored>, w: Id -> real, v: Id -> real, i: Id, j: Id,
                     top: real, c: Id)
    requires i != j && Mirrors(m, q, i, j) && forall k :: k in Keys(m) ==> k.indicator != j
    requires v(i) == w(i) + w(j) && forall x :: x != i ==> v(x) == w(x)
    ensures FinalPercent(w, top, m + q, c) == FinalPercent(v, top, m, c)
  {
    forall k: Key
      ensures Mean(m + q, k) == Mean(m, Source(k, i, j))
      ensures k in Keys(m + q) <==> Source(k, i, j) in Keys(m)
    {
      DoubledMeans(m, q, i, j, k);
    }
    hide Mirrors, Mean, Keys, Roles, Levels, Indicators, LevelWeight, LevelPercent, FinalPercent;
    forall r, l
      ensures Roles(m + q, c) == Roles(m, c) && Levels(m + q, c, r) == Levels(m, c, r)
      ensures LevelWeight(w, m + q, c, r, l) == LevelWeight(v, m, c, r, l)
      ensures LevelPercent(w, top, m + q, c, r)(l) == LevelPercent(v, top, m, c, r)(l)
    {
      DoubledGroups(m, m + q, i, j, c, r, l);
      DoubledLevel(m, m + q, w, v, i, j, top, c, r, l);
    }
    DoubledGroups(m, m + q, i, j, c, c, c);
    SameFinal(w, m + q, v, m, top, c);
  }
}
