/** What one more counted answer does to a percent: which way it moves, and the mark that decides. */
module RecomputeRaise {
  import opened Common
  import opened FiniteSums
  import opened RecomputeSpec
  import T = RecomputeTheorems

  /**
   The percent of the smallest answered group that a key falls into: its indicator, else its level,
   else its role, else its competence.
   */
  ghost function Mark(w: Id -> real, top: real, m: multiset<Scored>, k: Key): Option<real>
    requires top != 0.0
  {
    if k in Keys(m) then Some(PercentOfTop(Mean(m, k), top))
    else if k.level in Levels(m, k.competence, k.role) then Some(LevelPercent(w, top, m, k.competence, k.role)(k.level))
    else if k.role in Roles(m, k.competence) then Some(RolePercent(w, top, m, k.competence)(k.role))
    else FinalPercent(w, top, m, k.competence)
  }

  ghost predicate Positives(w: Id -> real) {
    forall i :: w(i) > 0.0
  }

  // ----- The answered groups

  lemma GroupsGrow(m: multiset<Scored>, x: Scored)
    ensures var n, k := m + multiset{x}, x.key;
            && Roles(n, k.competence) == Roles(m, k.competence) + {k.role}
            && Levels(n, k.competence, k.role) == Levels(m, k.competence, k.role) + {k.level}
            && Indicators(n, k.competence, k.role, k.level) ==
               Indicators(m, k.competence, k.role, k.level) + {k.indicator}
            && (forall r :: r != k.role ==> Levels(n, k.competence, r) == Levels(m, k.competence, r))
            && (forall r, l :: r != k.role || l != k.level ==>
                  Indicators(n, k.competence, r, l) == Indicators(m, k.competence, r, l))
            && (forall c :: c != k.competence ==> SameKeys(m, n, c))
  {
    var n, k := m + multiset{x}, x.key;
    T.AddedKey(m, x);
    assert k in Keys(n);
    hide Keys;
    assert forall r :: r != k.role ==> Levels(n, k.competence, r) == Levels(m, k.competence, r);
  }

  lemma InGroups(m: multiset<Scored>, k: Key)
    ensures k in Keys(m) <==> k.indicator in Indicators(m, k.competence, k.role, k.level)
    ensures Indicators(m, k.competence, k.role, k.level) != {} <==> k.level in Levels(m, k.competence, k.role)
    ensures Levels(m, k.competence, k.role) != {} <==> k.role in Roles(m, k.competence)
  {
    hide Keys;
    if k.level in Levels(m, k.competence, k.role) {
      var j :| j in Keys(m) && j.competence == k.competence && j.role == k.role && j.level == k.level;
      assert j.indicator in Indicators(m, k.competence, k.role, k.level);
    }
    if k.role in Roles(m, k.competence) {
      var j :| j in Keys(m) && j.competence == k.competence && j.role == k.role;
      assert j.level in Levels(m, k.competence, k.role);
    }
  }

  /** Without negative weights every answered level and role counts. */
  lemma AllCount(w: Id -> real, m: multiset<Scored>, c: Id)
    requires Positives(w)
    ensures forall r, l :: l in Levels(m, c, r) ==> LevelWeight(w, m, c, r, l) > 0.0
    ensures forall r :: CountedLevels(w, m, c, r) == Levels(m, c, r)
    ensures CountedRoles(w, m, c) == Roles(m, c)
  {
    forall r, l | l in Levels(m, c, r) ensures LevelWeight(w, m, c, r, l) > 0.0 {
      var k :| k in Keys(m) && k.competence == c && k.role == r && k.level == l;
      InGroups(m, k);
      Positive(Indicators(m, c, r, l), w);
    }
    hide LevelWeight, Indicators;
    forall r ensures CountedLevels(w, m, c, r) == Levels(m, c, r) && (Levels(m, c, r) != {} <==> r in Roles(m, c)) {
      InGroups(m, Key(c, r, c, c));
    }
  }

  // ----- One indicator

  lemma MeanMoves(m: multiset<Scored>, x: Scored)
    ensures var n := m + multiset{x};
            && (x.key in Keys(m) ==> SameWay(Mean(m, x.key), Mean(n, x.key), Mean(m, x.key), x.value))
            && (x.key !in Keys(m) ==> Mean(n, x.key) == x.value)
            && (forall k :: k != x.key ==> Mean(n, k) == Mean(m, k))
  {
    var k, n := x.key, m + multiset{x};
    forall k ensures k != x.key ==> Mean(n, k) == Mean(m, k) {
      AddOne(m, x, k);
    }
    AddOne(m, x, k);
    if k in Keys(m) {
      TallyPositive(m, k);
      hide Tally, Total, SameWay;
      QuotientTowards(Total(m, k), Tally(m, k), Total(n, k), Tally(n, k), x.value, 1.0, x.value);
    } else {
      T.NothingFiled(m, k);
    }
  }

  lemma PercentWay(x: real, x': real, a: real, b: real, top: real)
    requires SameWay(x, x', a, b) && top > 0.0
    ensures SameWay(PercentOfTop(x, top), PercentOfTop(x', top), PercentOfTop(a, top), PercentOfTop(b, top))
  {
    PercentStrict(x, x', top);
    PercentStrict(a, b, top);
    hide PercentOfTop;
  }

  lemma PercentStrict(x: real, y: real, top: real)
    requires top > 0.0
    ensures SameWay(PercentOfTop(x, top), PercentOfTop(y, top), x, y)
  {
    assert PercentOfTop(y, top) - PercentOfTop(x, top) == (y - x) / top * 100.0;
    if y - x > 0.0 {
      assert (y - x) / top > 0.0;
    } else if y - x < 0.0 {
      assert (x - y) / top > 0.0;
      assert (y - x) / top == -((x - y) / top);
    }
  }

  // ----- One level

  lemma OtherLevels(w: Id -> real, top: real, m: multiset<Scored>, x: Scored, r: Id, l: Id)
    requires r != x.key.role || l != x.key.level
    ensures LevelPercent(w, top, m + multiset{x}, x.key.competence, r)(l) ==
            LevelPercent(w, top, m, x.key.competence, r)(l)
  {
    var n, c := m + multiset{x}, x.key.competence;
    GroupsGrow(m, x);
    MeanMoves(m, x);
    hide Mean, Indicators, Sum;
    if LevelWeight(w, m, c, r, l) != 0.0 {
      WeightedAverageCongruent(Indicators(m, c, r, l), Means(m, c, r, l), Means(n, c, r, l), w);
    }
  }

  lemma LevelMoves(w: Id -> real, top: real, m: multiset<Scored>, x: Scored)
    requires Positives(w) && top > 0.0
    ensures var n, c, r, l := m + multiset{x}, x.key.competence, x.key.role, x.key.level;
            var before, after := LevelPercent(w, top, m, c, r)(l), LevelPercent(w, top, n, c, r)(l);
            if l in Levels(m, c, r)
            then SameWay(before, after, Mark(w, top, m, x.key).value, PercentOfTop(x.value, top))
            else after == PercentOfTop(x.value, top)
  {
    var n, k := m + multiset{x}, x.key;
    var c, r, l, i := k.competence, k.role, k.level, k.indicator;
    var f, g := Means(m, c, r, l), Means(n, c, r, l);
    var inds, more := Indicators(m, c, r, l), Indicators(n, c, r, l);
    GroupsGrow(m, x);
    InGroups(m, k);
    InGroups(n, k);
    MeanMoves(m, x);
    Positive(more, w);
    if inds != {} {
      Positive(inds, w);
    }
    var mark := if k in Keys(m) then Mean(m, k) else if inds != {} then WeightedAverage(inds, f, w) else x.value;
    assert inds != {} ==> Mark(w, top, m, k).value == PercentOfTop(mark, top);
    hide *;
    WeightedAverageMoves(inds, f, g, w, i, mark, x.value);
    if inds != {} {
      PercentWay(WeightedAverage(inds, f, w), WeightedAverage(more, g, w), mark, x.value, top);
    }
  }

  // ----- One role

  lemma OtherRoles(w: Id -> real, top: real, m: multiset<Scored>, x: Scored, r: Id)
    requires Positives(w) && r != x.key.role
    ensures RolePercent(w, top, m + multiset{x}, x.key.competence)(r) == RolePercent(w, top, m, x.key.competence)(r)
  {
    var n, c := m + multiset{x}, x.key.competence;
    GroupsGrow(m, x);
    AllCount(w, m, c);
    AllCount(w, n, c);
    forall l ensures LevelPercent(w, top, n, c, r)(l) == LevelPercent(w, top, m, c, r)(l) {
      OtherLevels(w, top, m, x, r, l);
    }
    hide LevelPercent, Sum, Levels, Roles, Indicators, CountedLevels, LevelWeight;
    if Levels(m, c, r) != {} {
      Congruent(Levels(m, c, r), LevelPercent(w, top, m, c, r), LevelPercent(w, top, n, c, r));
    }
  }

  lemma RoleIsAverage(w: Id -> real, top: real, m: multiset<Scored>, c: Id, r: Id)
    requires Positives(w)
    ensures RolePercent(w, top, m, c)(r) ==
            if Levels(m, c, r) == {} then 0.0 else Average(Levels(m, c, r), LevelPercent(w, top, m, c, r))
  {
    AllCount(w, m, c);
    hide LevelPercent, Average, Levels, CountedLevels;
  }

  /** Where the mark comes from, once it is not the indicator or level itself. */
  lemma MarkAbove(w: Id -> real, top: real, m: multiset<Scored>, k: Key)
    requires top != 0.0
    ensures k.level !in Levels(m, k.competence, k.role) && k.role in Roles(m, k.competence) ==>
              Mark(w, top, m, k) == Some(RolePercent(w, top, m, k.competence)(k.role))
    ensures k.role !in Roles(m, k.competence) ==> Mark(w, top, m, k) == FinalPercent(w, top, m, k.competence)
    ensures k.role in Roles(m, k.competence) ==> Mark(w, top, m, k).Some?
  {
    InGroups(m, k);
    hide LevelPercent, RolePercent, FinalPercent, Mean, Levels, Roles, Keys, Indicators, PercentOfTop;
  }

  lemma RoleMoves(w: Id -> real, top: real, m: multiset<Scored>, x: Scored)
    requires Positives(w) && top > 0.0
    ensures var n, c, r := m + multiset{x}, x.key.competence, x.key.role;
            var before, after := RolePercent(w, top, m, c)(r), RolePercent(w, top, n, c)(r);
            var mark, own := Mark(w, top, m, x.key), PercentOfTop(x.value, top);
            && (r in Roles(m, c) ==> mark.Some? && SameWay(before, after, mark.value, own))
            && (r !in Roles(m, c) ==> after == own)
  {
    var n, c, r, l := m + multiset{x}, x.key.competence, x.key.role, x.key.level;
    var f, g := LevelPercent(w, top, m, c, r), LevelPercent(w, top, n, c, r);
    var levels := Levels(m, c, r);
    GroupsGrow(m, x);
    InGroups(m, x.key);
    RoleIsAverage(w, top, m, c, r);
    RoleIsAverage(w, top, n, c, r);
    MarkAbove(w, top, m, x.key);
    LevelMoves(w, top, m, x);
    forall l' | l' != l ensures g(l') == f(l') {
      OtherLevels(w, top, m, x, r, l');
    }
    hide *;
    AverageMoves(levels, f, g, l, Mark(w, top, m, x.key).GetOr(0.0), PercentOfTop(x.value, top));
  }

  // ----- The competence

  lemma FinalIsAverage(w: Id -> real, top: real, m: multiset<Scored>, c: Id)
    requires Positives(w)
    ensures FinalPercent(w, top, m, c) ==
            if Roles(m, c) == {} then None else Some(Average(Roles(m, c), RolePercent(w, top, m, c)))
  {
    AllCount(w, m, c);
    hide RolePercent, Average, Roles, CountedRoles;
  }

  /**
   One more counted answer moves its competence's percent towards the answer: from the mark, the
   percent of the smallest answered group it falls into, the way up or down to the answer's own.
   Where nothing was answered the answer's own percent is the result.
   */
  lemma AnswerMovesPercent(w: Id -> real, top: real, m: multiset<Scored>, x: Scored)
    requires Positives(w) && top > 0.0
    ensures var before, after := FinalPercent(w, top, m, x.key.competence),
                                 FinalPercent(w, top, m + multiset{x}, x.key.competence);
            var mark, own := Mark(w, top, m, x.key), PercentOfTop(x.value, top);
            && after.Some? && (mark.Some? <==> before.Some?)
            && if before.Some? then SameWay(before.value, after.value, mark.value, own) else after.value == own
  {
    var n, c, r := m + multiset{x}, x.key.competence, x.key.role;
    var f, g := RolePercent(w, top, m, c), RolePercent(w, top, n, c);
    GroupsGrow(m, x);
    FinalIsAverage(w, top, m, c);
    FinalIsAverage(w, top, n, c);
    MarkAbove(w, top, m, x.key);
    RoleMoves(w, top, m, x);
    forall r' | r' != r ensures g(r') == f(r') {
      OtherRoles(w, top, m, x, r');
    }
    hide *;
    AverageMoves(Roles(m, c), f, g, r, Mark(w, top, m, x.key).GetOr(0.0), PercentOfTop(x.value, top));
  }

  lemma AnswerLeavesOthers(w: Id -> real, top: real, m: multiset<Scored>, x: Scored, c: Id)
    requires c != x.key.competence
    ensures FinalPercent(w, top, m + multiset{x}, c) == FinalPercent(w, top, m, c)
  {
    GroupsGrow(m, x);
    MeanMoves(m, x);
    hide Mean, FinalPercent, SameKeys;
    EqualMeans(w, top, m, m + multiset{x}, c);
  }

  // ----- An answer that begins to count

  /** The answer at place `j`, which did not count, is replaced by one that does. */
  ghost predicate BeginsToCount(a: Assessment, answers: seq<Answer>, j: nat, counted: Answer) {
    j < |answers| && Contribution(a, answers[j]).None? && Contribution(a, counted).Some?
  }

  lemma OneMoreCounted(a: Assessment, answers: seq<Answer>, j: nat, counted: Answer)
    requires BeginsToCount(a, answers, j, counted)
    ensures Counted(a, answers[j := counted]) == Counted(a, answers) + multiset{Contribution(a, counted).value}
  {
    var changed := answers[j := counted];
    T.CountedWithout(a, answers, j);
    T.CountedWithout(a, changed, j);
    assert changed[..j] + changed[j + 1..] == answers[..j] + answers[j + 1..];
    T.SingleAnswer(a, counted);
    assert Counted(a, [answers[j]]) == multiset{} by {
      assert [answers[j]][..0] == [];
    }
  }

  /**
   When an answer begins to count, as on leaving a neutral option, its competence's percent drops if
   and only if the answer's own percent of the top weight is below the mark, and rises if and only
   if it is above. With nothing answered there is no mark and no drop.
   */
  lemma DropsBelowTheMark(a: Assessment, answers: seq<Answer>, j: nat, counted: Answer, top: real)
    requires BeginsToCount(a, answers, j, counted) && top > 0.0 && T.NoNegativeWeights(a)
    ensures var x, w, m := Contribution(a, counted).value, Weights(a), Counted(a, answers);
            var before, after := FinalPercent(w, top, m, x.key.competence),
                                 FinalPercent(w, top, Counted(a, answers[j := counted]), x.key.competence);
            var mark, own := Mark(w, top, m, x.key), PercentOfTop(x.value, top);
            && after.Some? && (mark.Some? <==> before.Some?)
            && (before.Some? ==>
                  && (after.value < before.value <==> own < mark.value)
                  && (after.value > before.value <==> own > mark.value))
            && (before.None? ==> after.value == own)
  {
    OneMoreCounted(a, answers, j, counted);
    AnswerMovesPercent(Weights(a), top, Counted(a, answers), Contribution(a, counted).value);
    hide Counted, FinalPercent, Mark, PercentOfTop, Contribution;
  }

  /**
   The other way round, when an answer stops counting, its competence's percent drops if and only if
   the answer's own percent is above the mark of the answers that remain, rises if and only if it is
   below, and is lost when none remains.
   */
  lemma DropsFromAboveTheMark(a: Assessment, answers: seq<Answer>, j: nat, uncounted: Answer, top: real)
    requires j < |answers| && Contribution(a, answers[j]).Some? && Contribution(a, uncounted).None?
    requires top > 0.0 && T.NoNegativeWeights(a)
    ensures var x, w, m := Contribution(a, answers[j]).value, Weights(a), Counted(a, answers[j := uncounted]);
            var before, after := FinalPercent(w, top, Counted(a, answers), x.key.competence),
                                 FinalPercent(w, top, m, x.key.competence);
            var mark, own := Mark(w, top, m, x.key), PercentOfTop(x.value, top);
            && before.Some? && (after.None? <==> mark.None?)
            && (after.Some? ==>
                  && (after.value < before.value <==> own > mark.value)
                  && (after.value > before.value <==> own < mark.value))
            && (after.None? ==> before.value == own)
  {
    var changed := answers[j := uncounted];
    assert changed[j := answers[j]] == answers;
    hide Counted, FinalPercent, Mark, PercentOfTop, Contribution, T.NoNegativeWeights;
    DropsBelowTheMark(a, changed, j, answers[j], top);
  }

  /**
   The rounded percent follows: it never drops from the mark upwards, never rises from the mark
   downwards, and no other competence's result changes.
   */
  lemma RoundedFollowsTheMark(a: Assessment, answers: seq<Answer>, j: nat, counted: Answer, top: real, c: Id)
    requires BeginsToCount(a, answers, j, counted) && top > 0.0 && T.NoNegativeWeights(a)
    ensures var x := Contribution(a, counted).value;
            var mark, own := Mark(Weights(a), top, Counted(a, answers), x.key), PercentOfTop(x.value, top);
            var before, after := CompetenceScore(a, answers, top, c), CompetenceScore(a, answers[j := counted], top, c);
            if c != x.key.competence then before == after
            else
              && after.percent.Some? && (mark.Some? <==> before.percent.Some?)
              && (mark.None? ==> after.percent.value == RoundHalfEven(own))
              && (mark.Some? && own >= mark.value ==> after.percent.value >= before.percent.value)
              && (mark.Some? && own <= mark.value ==> after.percent.value <= before.percent.value)
  {
    var x, w := Contribution(a, counted).value, Weights(a);
    OneMoreCounted(a, answers, j, counted);
    if c != x.key.competence {
      AnswerLeavesOthers(w, top, Counted(a, answers), x, c);
    } else {
      DropsBelowTheMark(a, answers, j, counted, top);
      var before, after := FinalPercent(w, top, Counted(a, answers), c),
                           FinalPercent(w, top, Counted(a, answers[j := counted]), c);
      hide Counted, FinalPercent, Mark, PercentOfTop, Contribution, RoundHalfEven, FirstBand, RoundTo4;
      if before.Some? {
        if after.value >= before.value {
          T.RoundMonotone(before.value, after.value);
        }
        if after.value <= before.value {
          T.RoundMonotone(after.value, before.value);
        }
      }
    }
    hide Counted, FinalPercent, Mark, PercentOfTop, Contribution, RoundHalfEven, FirstBand, RoundTo4;
  }
}
