/** What the recompute promises about every assessment. */
module RecomputeTheorems {
  import opened Common
  import opened FiniteSums
  import opened RecomputeSpec

  // ----- Rounding

  /** `round` is the nearest integer, and on a tie the even neighbour: nothing else qualifies. */
  lemma RoundIsNearest(x: real, n: int)
    ensures n == RoundHalfEven(x) <==>
            (-0.5 < n as real - x < 0.5 || ((n as real - x == 0.5 || n as real - x == -0.5) && n % 2 == 0))
  {
    var below := x.Floor;
    assert below as real <= x < below as real + 1.0;
    if -0.5 <= n as real - x <= 0.5 {
      assert n == below || n == below + 1;
    }
  }

  lemma RoundMonotone(x: real, y: real)
    requires x <= y
    ensures RoundHalfEven(x) <= RoundHalfEven(y)
  {
    assert x.Floor <= y.Floor;
  }

  lemma RoundBetween(x: real, lo: int, hi: int)
    requires lo as real <= x <= hi as real
    ensures lo <= RoundHalfEven(x) <= hi
  {
    assert (lo as real).Floor == lo && (hi as real).Floor == hi;
    RoundMonotone(lo as real, x);
    RoundMonotone(x, hi as real);
  }

  // ----- The order of the answers does not matter

  lemma {:induction false} ContributionsSplit(a: Assessment, xs: seq<Answer>, ys: seq<Answer>)
    ensures Counted(a, xs + ys) == Counted(a, xs) + Counted(a, ys)
  {
    if ys == [] {
      assert xs + ys == xs;
    } else {
      var zs := ys[..|ys| - 1];
      ContributionsSplit(a, xs, zs);
      assert (xs + ys)[..|xs + ys| - 1] == xs + zs;
      assert (xs + ys)[|xs + ys| - 1] == ys[|ys| - 1];
    }
  }

  lemma CountedWithout(a: Assessment, xs: seq<Answer>, j: nat)
    requires j < |xs|
    ensures Counted(a, xs) == Counted(a, xs[..j] + xs[j + 1..]) + Counted(a, [xs[j]])
  {
    assert xs == xs[..j] + ([xs[j]] + xs[j + 1..]);
    ContributionsSplit(a, xs[..j], [xs[j]] + xs[j + 1..]);
    ContributionsSplit(a, [xs[j]], xs[j + 1..]);
    ContributionsSplit(a, xs[..j], xs[j + 1..]);
  }

  lemma TakeOut<T>(xs: seq<T>, j: nat)
    requires j < |xs|
    ensures multiset(xs) == multiset(xs[..j] + xs[j + 1..]) + multiset{xs[j]}
  {
    assert xs == xs[..j] + [xs[j]] + xs[j + 1..];
  }

  lemma {:induction false} CountedIgnoresOrder(a: Assessment, xs: seq<Answer>, ys: seq<Answer>)
    requires multiset(xs) == multiset(ys)
    ensures Counted(a, xs) == Counted(a, ys)
  {
    hide Counted;
    if xs == [] {
      assert |multiset(ys)| == 0;
    } else {
      assert xs[0] in multiset(ys);
      var j :| 0 <= j < |ys| && ys[j] == xs[0];
      SameRest(xs, ys, j);
      CountedIgnoresOrder(a, xs[1..], ys[..j] + ys[j + 1..]);
      assert xs[..0] + xs[1..] == xs[1..];
      CountedWithout(a, xs, 0);
      CountedWithout(a, ys, j);
    }
  }

  lemma CancelOne<T>(a: multiset<T>, b: multiset<T>, x: T)
    requires a + multiset{x} == b + multiset{x}
    ensures a == b
  {
    assert a == a + multiset{x} - multiset{x};
    assert b == b + multiset{x} - multiset{x};
  }

  lemma SameRest<T>(xs: seq<T>, ys: seq<T>, j: nat)
    requires xs != [] && multiset(xs) == multiset(ys) && j < |ys| && ys[j] == xs[0]
    ensures multiset(xs[1..]) == multiset(ys[..j] + ys[j + 1..])
  {
    assert multiset(xs) == multiset(xs[1..]) + multiset{xs[0]} by {
      assert xs == [xs[0]] + xs[1..];
    }
    TakeOut(ys, j);
    CancelOne(multiset(xs[1..]), multiset(ys[..j] + ys[j + 1..]), xs[0]);
  }

  /** Shuffling the answers changes no competence's percent, average or band. */
  lemma OrderIsIrrelevant(a: Assessment, answers: seq<Answer>, shuffled: seq<Answer>, top: real, c: Id)
    requires multiset(shuffled) == multiset(answers)
    ensures CompetenceScore(a, shuffled, top, c) == CompetenceScore(a, answers, top, c)
  {
    CountedIgnoresOrder(a, shuffled, answers);
  }

  // ----- Repeating one role's answers

  ghost function Copies(p: multiset<Scored>, k: nat): multiset<Scored> {
    if k == 0 then multiset{} else Copies(p, k - 1) + p
  }

  lemma {:induction false} AddAll(m: multiset<Scored>, p: multiset<Scored>, key: Key)
    ensures Tally(m + p, key) == Tally(m, key) + Tally(p, key)
    ensures Total(m + p, key) == Total(m, key) + Total(p, key)
    decreases |p|
  {
    if p == multiset{} {
      assert m + p == m;
      assert Cell(p, key) == {};
    } else {
      var x :| x in p;
      var rest := p - multiset{x};
      assert p == rest + multiset{x};
      assert m + p == m + rest + multiset{x};
      AddAll(m, rest, key);
      AddOne(m + rest, x, key);
      AddOne(rest, x, key);
    }
  }

  lemma {:induction false} CopiesOfSum(f: multiset<Scored> -> real, p: multiset<Scored>, k: nat)
    requires f(multiset{}) == 0.0
    requires forall m, n :: f(m + n) == f(m) + f(n)
    ensures f(Copies(p, k)) == k as real * f(p)
  {
    if k > 0 {
      CopiesOfSum(f, p, k - 1);
      assert Copies(p, k) == Copies(p, k - 1) + p;
      assert (k - 1) as real * f(p) + f(p) == k as real * f(p);
    }
  }

  lemma CopiesTally(p: multiset<Scored>, k: nat, key: Key)
    ensures Tally(Copies(p, k), key) == k as real * Tally(p, key)
  {
    hide Tally, Total;
    var f: multiset<Scored> -> real := m => Tally(m, key);
    NothingFiled(multiset{}, key);
    forall m, n ensures f(m + n) == f(m) + f(n) {
      AddAll(m, n, key);
    }
    CopiesOfSum(f, p, k);
  }

  lemma CopiesTotal(p: multiset<Scored>, k: nat, key: Key)
    ensures Total(Copies(p, k), key) == k as real * Total(p, key)
  {
    hide Tally, Total;
    var f: multiset<Scored> -> real := m => Total(m, key);
    NothingFiled(multiset{}, key);
    forall m, n ensures f(m + n) == f(m) + f(n) {
      AddAll(m, n, key);
    }
    CopiesOfSum(f, p, k);
  }

  lemma CopiesMean(p: multiset<Scored>, k: nat, key: Key)
    requires k > 0
    ensures Mean(Copies(p, k), key) == Mean(p, key)
  {
    CopiesTally(p, k, key);
    CopiesTotal(p, k, key);
    RatioScaled(Total(p, key), Tally(p, key), k as real);
  }

  lemma CopiesKeys(p: multiset<Scored>, k: nat)
    requires k > 0
    ensures Keys(Copies(p, k)) == Keys(p)
    decreases k
  {
    if k > 1 {
      CopiesKeys(p, k - 1);
      UnionKeys(Copies(p, k - 1), p);
    } else {
      assert Copies(p, 1) == Copies(p, 0) + p == p;
    }
  }

  lemma UnionKeys(m: multiset<Scored>, n: multiset<Scored>)
    ensures Keys(m + n) == Keys(m) + Keys(n)
  {
    forall k | k in Keys(m) + Keys(n) ensures k in Keys(m + n) {
      var s :| (s in m || s in n) && s.key == k;
      assert s in m + n;
    }
  }

  lemma NothingFiled(m: multiset<Scored>, key: Key)
    requires key !in Keys(m)
    ensures Tally(m, key) == 0.0 && Total(m, key) == 0.0
  {
    assert Cell(m, key) == {};
  }

  lemma RatioScaled(x: real, n: real, k: real)
    requires k > 0.0
    ensures Ratio(k * x, k * n) == Ratio(x, n)
  {
    if n != 0.0 {
      var q := x / n;
      assert k * x == q * (k * n);
    }
  }

  lemma RepeatedMean(p: multiset<Scored>, q: multiset<Scored>, k: nat, key: Key)
    requires k > 0 && Keys(p) !! Keys(q)
    ensures Mean(Copies(p, k) + q, key) == Mean(p + q, key)
  {
    AddAll(p, q, key);
    AddAll(Copies(p, k), q, key);
    if key in Keys(p) {
      NothingFiled(q, key);
      CopiesMean(p, k, key);
    } else {
      CopiesKeys(p, k);
      NothingFiled(p, key);
      NothingFiled(Copies(p, k), key);
    }
  }

  lemma CopiesOfARole(w: Id -> real, top: real, p: multiset<Scored>, q: multiset<Scored>, r: Id, k: nat, c: Id)
    requires k > 0
    requires forall s :: s in p ==> s.key.role == r
    requires forall s :: s in q ==> s.key.role != r
    ensures FinalPercent(w, top, Copies(p, k) + q, c) == FinalPercent(w, top, p + q, c)
  {
    UnionKeys(p, q);
    UnionKeys(Copies(p, k), q);
    CopiesKeys(p, k);
    forall key: Key ensures Mean(p + q, key) == Mean(Copies(p, k) + q, key) {
      RepeatedMean(p, q, k, key);
    }
    EqualMeans(w, top, p + q, Copies(p, k) + q, c);
  }

  predicate SpeaksFor(a: Assessment, x: Answer, r: Id) {
    x.participant in a.roles && a.roles[x.participant] == r
  }

  /** The answers whose participant does (`own`) or does not speak for role `r`. */
  function RoleAnswers(a: Assessment, xs: seq<Answer>, r: Id, own: bool): seq<Answer> {
    if xs == [] then []
    else
      var x := xs[|xs| - 1];
      var before := RoleAnswers(a, xs[..|xs| - 1], r, own);
      if SpeaksFor(a, x, r) == own then before + [x] else before
  }

  function Repeated(xs: seq<Answer>, k: nat): seq<Answer> {
    if k == 0 then [] else Repeated(xs, k - 1) + xs
  }

  lemma {:induction false} RolesPartition(a: Assessment, xs: seq<Answer>, r: Id)
    ensures multiset(xs) == multiset(RoleAnswers(a, xs, r, true)) + multiset(RoleAnswers(a, xs, r, false))
  {
    if xs != [] {
      RolesPartition(a, xs[..|xs| - 1], r);
      assert xs == xs[..|xs| - 1] + [xs[|xs| - 1]];
    }
  }

  lemma {:induction false} RoleAnswersSpeak(a: Assessment, xs: seq<Answer>, r: Id, own: bool)
    ensures forall x :: x in RoleAnswers(a, xs, r, own) ==> SpeaksFor(a, x, r) == own
  {
    if xs != [] {
      RoleAnswersSpeak(a, xs[..|xs| - 1], r, own);
    }
  }

  /** Every counted score comes from one of the answers. */
  lemma {:induction false} CountedFrom(a: Assessment, xs: seq<Answer>, s: Scored)
    requires s in Contributions(a, xs)
    ensures exists x :: x in xs && Contribution(a, x) == Some(s)
  {
    var n := |xs| - 1;
    if Contribution(a, xs[n]) == Some(s) {
      assert xs[n] in xs;
    } else {
      CountedFrom(a, xs[..n], s);
      var x :| x in xs[..n] && Contribution(a, x) == Some(s);
      assert x in xs;
    }
  }

  lemma CountedKeys(a: Assessment, xs: seq<Answer>, r: Id, own: bool)
    ensures forall s :: s in Counted(a, RoleAnswers(a, xs, r, own)) ==> (s.key.role == r <==> own)
  {
    var ys := RoleAnswers(a, xs, r, own);
    RoleAnswersSpeak(a, xs, r, own);
    hide RoleAnswers, Contributions;
    forall s | s in Counted(a, ys) ensures s.key.role == r <==> own {
      assert s in Contributions(a, ys);
      CountedFrom(a, ys, s);
      var x :| x in ys && Contribution(a, x) == Some(s);
      assert SpeaksFor(a, x, r) == own;
    }
  }

  lemma CountedByRole(a: Assessment, xs: seq<Answer>, r: Id)
    ensures Counted(a, xs) == Counted(a, RoleAnswers(a, xs, r, true)) + Counted(a, RoleAnswers(a, xs, r, false))
    ensures forall s :: s in Counted(a, RoleAnswers(a, xs, r, true)) ==> s.key.role == r
    ensures forall s :: s in Counted(a, RoleAnswers(a, xs, r, false)) ==> s.key.role != r
  {
    var own, others := RoleAnswers(a, xs, r, true), RoleAnswers(a, xs, r, false);
    RolesPartition(a, xs, r);
    assert multiset(own + others) == multiset(own) + multiset(others);
    CountedIgnoresOrder(a, xs, own + others);
    ContributionsSplit(a, own, others);
    CountedKeys(a, xs, r, true);
    CountedKeys(a, xs, r, false);
    hide RoleAnswers, Counted;
  }

  lemma {:induction false} CountedRepeated(a: Assessment, xs: seq<Answer>, k: nat)
    ensures Counted(a, Repeated(xs, k)) == Copies(Counted(a, xs), k)
  {
    if k > 0 {
      CountedRepeated(a, xs, k - 1);
      ContributionsSplit(a, Repeated(xs, k - 1), xs);
    }
  }

  /**
   A role that gives all its answers `k` times weighs no more than one that gives them once:
   every competence keeps its percent, average and band, wherever the repeats are filed.
   */
  lemma RepeatingARoleChangesNothing(a: Assessment, answers: seq<Answer>, more: seq<Answer>, r: Id, k: nat,
                                     top: real, c: Id)
    requires k > 0
    requires multiset(more) ==
             multiset(RoleAnswers(a, answers, r, false) + Repeated(RoleAnswers(a, answers, r, true), k))
    ensures CompetenceScore(a, more, top, c) == CompetenceScore(a, answers, top, c)
  {
    var own, others := RoleAnswers(a, answers, r, true), RoleAnswers(a, answers, r, false);
    CountedByRole(a, answers, r);
    CountedIgnoresOrder(a, more, others + Repeated(own, k));
    ContributionsSplit(a, others, Repeated(own, k));
    CountedRepeated(a, own, k);
    CopiesOfARole(Weights(a), top, Counted(a, own), Counted(a, others), r, k, c);
    assert Counted(a, more) == Copies(Counted(a, own), k) + Counted(a, others);
  }

  // ----- Raising one answer

  ghost predicate NoNegativeWeights(a: Assessment) {
    forall i :: i in a.indicators && a.indicators[i].weight.Some? ==> a.indicators[i].weight.value >= 0
  }

  /** `heavier` is `answer` with another choice that counts at least as much; both count. */
  ghost predicate Raises(a: Assessment, answer: Answer, heavier: Answer) {
    && heavier.participant == answer.participant && heavier.indicator == answer.indicator
    && Contribution(a, answer).Some? && Contribution(a, heavier).Some?
    && Contribution(a, answer).value.value <= Contribution(a, heavier).value.value
  }

  lemma AddedKey(base: multiset<Scored>, x: Scored)
    ensures Keys(base + multiset{x}) == Keys(base) + {x.key}
  {
    var m := base + multiset{x};
    assert forall s :: s in m <==> s in base || s == x;
    forall k | k in Keys(base) + {x.key} ensures k in Keys(m) {
      if k == x.key {
        assert x in m;
      } else {
        var s :| s in base && s.key == k;
        assert s in m;
      }
    }
  }

  lemma IndicatorAnswered(m: multiset<Scored>, c: Id, r: Id, l: Id, i: Id)
    requires i in Indicators(m, c, r, l)
    ensures Tally(m, Key(c, r, l, i)) > 0.0
  {
    TallyPositive(m, Key(c, r, l, i));
  }

  lemma RaisedMeans(base: multiset<Scored>, x: Scored, y: Scored)
    requires x.key == y.key && x.value <= y.value
    ensures Keys(base + multiset{x}) == Keys(base + multiset{y})
    ensures forall k :: Mean(base + multiset{x}, k) <= Mean(base + multiset{y}, k)
    ensures forall k :: k != x.key ==> Mean(base + multiset{x}, k) == Mean(base + multiset{y}, k)
  {
    var m, n := base + multiset{x}, base + multiset{y};
    AddedKey(base, x);
    AddedKey(base, y);
    forall k
      ensures Mean(m, k) <= Mean(n, k)
      ensures k != x.key ==> Mean(m, k) == Mean(n, k)
    {
      AddOne(base, x, k);
      AddOne(base, y, k);
      if k == x.key {
        TallyPositive(m, k);
        DivideMonotone(Total(m, k), Total(n, k), Tally(m, k));
      }
    }
  }

  /**
   Replacing one counted answer by a heavier one never lowers its competence's rounded
   percent and leaves every other competence's result as it was.
   */
  lemma RaisingAnAnswerNeverLowers(a: Assessment, answers: seq<Answer>, j: nat, heavier: Answer, top: real, c: Id)
    requires j < |answers| && Raises(a, answers[j], heavier)
    requires top > 0.0 && NoNegativeWeights(a)
    ensures var before := CompetenceScore(a, answers, top, c);
            var after := CompetenceScore(a, answers[j := heavier], top, c);
            if c == a.indicators[heavier.indicator].competence
            then before.percent.Some? && after.percent.Some? && before.percent.value <= after.percent.value
            else before == after
  {
    var raised := answers[j := heavier];
    var x, y := Contribution(a, answers[j]).value, Contribution(a, heavier).value;
    var base := Counted(a, answers[..j] + answers[j + 1..]);
    CountedWithout(a, answers, j);
    CountedWithout(a, raised, j);
    assert raised[..j] + raised[j + 1..] == answers[..j] + answers[j + 1..];
    SingleAnswer(a, answers[j]);
    SingleAnswer(a, heavier);
    var m, n := base + multiset{x}, base + multiset{y};
    RaisedMeans(base, x, y);
    var w := Weights(a);
    if c == x.key.competence {
      HigherMeans(w, top, m, n, c);
      AnsweredCounts(w, top, m, x);
      RoundMonotone(FinalPercent(w, top, m, c).value, FinalPercent(w, top, n, c).value);
    } else {
      EqualMeans(w, top, m, n, c);
    }
  }

  lemma SingleAnswer(a: Assessment, answer: Answer)
    requires Contribution(a, answer).Some?
    ensures Counted(a, [answer]) == multiset{Contribution(a, answer).value}
  {
    assert [answer][..0] == [];
    assert Contributions(a, [answer]) == [] + [Contribution(a, answer).value];
  }

  /** A competence with one counted answer gets a percent. */
  lemma AnsweredCounts(w: Id -> real, top: real, m: multiset<Scored>, x: Scored)
    requires forall i :: w(i) > 0.0
    requires x in m
    ensures FinalPercent(w, top, m, x.key.competence).Some?
  {
    var k := x.key;
    assert k in Keys(m);
    assert k.indicator in Indicators(m, k.competence, k.role, k.level);
    Positive(Indicators(m, k.competence, k.role, k.level), w);
    assert k.level in CountedLevels(w, m, k.competence, k.role);
    assert k.role in CountedRoles(w, m, k.competence);
  }

  /**
   An answer that did not count is another matter: a participant who moves from a neutral option
   of weight 0 to one of weight 1 can take the percent from 100 down to 75.
   */
  lemma RaisingANeutralAnswerCanLower() returns (a: Assessment, answers: seq<Answer>, heavier: Answer, c: Id)
    ensures |answers| == 2 && NoNegativeWeights(a)
    ensures heavier == answers[1].(option := heavier.option)
    ensures Contribution(a, answers[1]).None? && Contribution(a, heavier).Some?
    ensures CompetenceScore(a, answers, 2.0, c).percent == Some(100)
    ensures CompetenceScore(a, answers[1 := heavier], 2.0, c).percent == Some(75)
  {
    hide CompetenceScore;
    var options := map[Id(0) := AnswerOption(Some(2), false), Id(1) := AnswerOption(Some(0), true),
                       Id(2) := AnswerOption(Some(1), false)];
    var best, neutral, low := Answer(Id(0), Id(7), Some(Id(0)), None), Answer(Id(1), Id(7), Some(Id(1)), None),
                              Answer(Id(1), Id(7), Some(Id(2)), None);
    heavier, c := low, Id(9);
    a := Assessment(options, [], [c], map[Id(0) := Id(5), Id(1) := Id(5)], map[Id(7) := Indicator(None, Id(3), c)]);
    answers := [best, neutral];
    var k := Key(c, Id(5), Id(3), Id(7));
    assert Effective(a, best) == Some(2.0) && Effective(a, neutral).None? && Effective(a, low) == Some(1.0);
    assert Contribution(a, best) == Some(Scored(k, 2.0)) && Contribution(a, neutral).None?
        && Contribution(a, low) == Some(Scored(k, 1.0)) && NoNegativeWeights(a);
    hide *;
    BestAlone(a, best, neutral, k);
    BestAndHalf(a, best, low, k);
    assert answers[1 := low] == [best, low];
  }

  lemma CountedBest(a: Assessment, best: Answer, neutral: Answer)
    requires Contribution(a, best).Some? && Contribution(a, neutral).None?
    ensures Counted(a, [best, neutral]) == multiset{Contribution(a, best).value}
  {
    SingleAnswer(a, best);
    ContributionsSplit(a, [best], [neutral]);
    assert [best, neutral] == [best] + [neutral] && [neutral][..0] == [];
  }

  lemma CountedBoth(a: Assessment, best: Answer, low: Answer)
    requires Contribution(a, best).Some? && Contribution(a, low).Some?
    ensures Counted(a, [best, low]) == multiset{Contribution(a, best).value} + multiset{Contribution(a, low).value}
  {
    SingleAnswer(a, best);
    SingleAnswer(a, low);
    ContributionsSplit(a, [best], [low]);
    assert [best, low] == [best] + [low];
    hide Contributions;
  }

  lemma OneFiled(x: Scored)
    ensures Tally(multiset{x}, x.key) == 1.0 && Total(multiset{x}, x.key) == x.value
  {
    NothingFiled(multiset{}, x.key);
    AddOne(multiset{}, x, x.key);
    assert multiset{} + multiset{x} == multiset{x};
    hide Tally, Total;
  }

  lemma BestAlone(a: Assessment, best: Answer, neutral: Answer, k: Key)
    requires NoNegativeWeights(a)
    requires Contribution(a, best) == Some(Scored(k, 2.0)) && Contribution(a, neutral).None?
    ensures CompetenceScore(a, [best, neutral], 2.0, k.competence).percent == Some(100)
  {
    var x := Scored(k, 2.0);
    CountedBest(a, best, neutral);
    OneFiled(x);
    hide Counted, Tally, Total, FinalPercent, NoNegativeWeights, Contribution;
    PercentOfOneKey(a, multiset{x}, k, x, 2.0, 100.0);
  }

  lemma BestAndHalf(a: Assessment, best: Answer, low: Answer, k: Key)
    requires NoNegativeWeights(a)
    requires Contribution(a, best) == Some(Scored(k, 2.0)) && Contribution(a, low) == Some(Scored(k, 1.0))
    ensures CompetenceScore(a, [best, low], 2.0, k.competence).percent == Some(75)
  {
    var x, y := Scored(k, 2.0), Scored(k, 1.0);
    CountedBoth(a, best, low);
    OneFiled(x);
    AddOne(multiset{x}, y, k);
    hide Counted, Tally, Total, FinalPercent, NoNegativeWeights, Contribution;
    PercentOfOneKey(a, multiset{x} + multiset{y}, k, x, 1.5, 75.0);
  }

  lemma PercentOfOneKey(a: Assessment, m: multiset<Scored>, k: Key, x: Scored, mean: real, percent: real)
    requires NoNegativeWeights(a) && x in m && x.key == k
    requires forall s :: s in m ==> s.key == k
    requires Mean(m, k) == mean && percent * 2.0 == mean * 100.0
    ensures FinalPercent(Weights(a), 2.0, m, k.competence) == Some(percent)
  {
    AnsweredCounts(Weights(a), 2.0, m, x);
    hide FinalPercent, Mean, WeightOf;
    assert forall j :: j in Keys(m) ==> j == k;
    hide Keys;
    FinalBetween(Weights(a), 2.0, m, k.competence, mean, mean, percent, percent);
  }

  // ----- The range of a percent, and its band

  ghost predicate ScoresWithin(a: Assessment, answers: seq<Answer>, top: real) {
    forall s :: s in Counted(a, answers) ==> 0.0 <= s.value <= top
  }

  /** Scores between zero and the top weight give a percent in 0..100 and an average in 0..1. */
  lemma PercentInRange(a: Assessment, answers: seq<Answer>, top: real, c: Id)
    requires top > 0.0 && NoNegativeWeights(a) && ScoresWithin(a, answers, top)
    ensures var score := CompetenceScore(a, answers, top, c);
            (score.percent.Some? ==> 0 <= score.percent.value <= 100) && 0.0 <= score.average <= 1.0
  {
    var m := Counted(a, answers);
    forall k | k in Keys(m) ensures 0.0 <= Mean(m, k) <= top {
      MeanBetween(m, k, 0.0, top);
    }
    FinalBetween(Weights(a), top, m, c, 0.0, top, 0.0, 100.0);
    ScoreInRange(FinalPercent(Weights(a), top, m, c), a.bands);
  }

  lemma ScoreInRange(final: Option<real>, bands: seq<Band>)
    requires final.Some? ==> 0.0 <= final.value <= 100.0
    ensures var score := ScoreOf(final, bands);
            (score.percent.Some? ==> 0 <= score.percent.value <= 100) && 0.0 <= score.average <= 1.0
  {
    if final.Some? {
      RoundBetween(final.value, 0, 100);
      FourDecimals(final.value / 100.0);
    }
  }

  lemma FourDecimals(x: real)
    requires 0.0 <= x <= 1.0
    ensures 0.0 <= RoundTo4(x) <= 1.0
  {
    RoundBetween(x * 10000.0, 0, 10000);
  }

  ghost predicate SomeBandHolds(bands: seq<Band>, p: int) {
    exists i :: 0 <= i < |bands| && Holds(bands[i], p)
  }

  /** Every percent from 0 to 100 lies in exactly one band, and no band reaches outside. */
  ghost predicate Partition(bands: seq<Band>) {
    && (forall i :: 0 <= i < |bands| ==> 0 <= bands[i].low <= bands[i].high <= 100)
    && (forall p :: 0 <= p <= 100 ==> SomeBandHolds(bands, p))
    && (forall i, j, p :: 0 <= i < j < |bands| && Holds(bands[i], p) ==> !Holds(bands[j], p))
  }

  lemma {:induction false} FirstBandHolds(bands: seq<Band>, p: int, i: nat)
    requires i < |bands| && Holds(bands[i], p)
    requires forall j :: 0 <= j < i ==> !Holds(bands[j], p)
    ensures FirstBand(bands, p) == Some(bands[i].id)
  {
    if i > 0 {
      FirstBandHolds(bands[1..], p, i - 1);
    }
  }

  /** With bands that partition 0..100, every percent has one band and the lookup answers it. */
  lemma BandIsTheOneContaining(bands: seq<Band>, p: int, i: nat)
    requires Partition(bands) && 0 <= p <= 100 && i < |bands|
    ensures Holds(bands[i], p) ==> FirstBand(bands, p) == Some(bands[i].id)
    ensures exists j :: 0 <= j < |bands| && Holds(bands[j], p) && FirstBand(bands, p) == Some(bands[j].id)
  {
    assert SomeBandHolds(bands, p);
    var j :| 0 <= j < |bands| && Holds(bands[j], p);
    FirstBandHolds(bands, p, j);
    if Holds(bands[i], p) {
      FirstBandHolds(bands, p, i);
    }
  }

  /** A higher percent never lands in a lower band. */
  lemma BandsAreMonotone(bands: seq<Band>, p: int, q: int, i: nat, j: nat)
    requires Partition(bands) && i < |bands| && j < |bands|
    requires Holds(bands[i], p) && Holds(bands[j], q) && p <= q
    ensures i == j || bands[i].high < bands[j].low
  {
    if i != j && bands[j].low <= bands[i].high {
      var both := if bands[i].low <= bands[j].low then bands[j].low else bands[i].low;
      assert Holds(bands[i], both) && Holds(bands[j], both);
      assert false;
    }
  }
}
