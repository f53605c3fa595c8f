/**
 What the role-mean recompute of an assessment computes, stated on the multiset of
 scored answers: a mean per indicator, a weighted mean per skill level, a mean over
 levels, a mean over roles, half-even rounding and a band lookup. Numbers are exact.
 */
module RecomputeSpec {
  import opened Common
  import opened FiniteSums

  datatype AnswerOption = AnswerOption(weight: Option<int>, neutral: bool)
  datatype Band = Band(id: Id, low: int, high: int)
  datatype Indicator = Indicator(weight: Option<int>, level: Id, competence: Id)
  datatype Answer = Answer(participant: Id, indicator: Id, option: Option<Id>, score: Option<real>)

  /** The rows one recompute reads beside the answers. `roles` maps a participant to its role. */
  datatype Assessment = Assessment(
    options: map<Id, AnswerOption>,
    bands: seq<Band>,
    competences: seq<Id>,
    roles: map<Id, Id>,
    indicators: map<Id, Indicator>)

  /** Where an answer is filed, and one filed answer. */
  datatype Key = Key(competence: Id, role: Id, level: Id, indicator: Id)
  datatype Scored = Scored(key: Key, value: real)

  // ----- From answers to scored answers

  /** The weight of a chosen option wins over a free score; a neutral one counts as no answer. */
  function Effective(a: Assessment, answer: Answer): Option<real> {
    match answer.option
    case Some(o) =>
      if o in a.options && !a.options[o].neutral && a.options[o].weight.Some?
      then Some(a.options[o].weight.value as real)
      else None
    case None => answer.score
  }

  function Contribution(a: Assessment, answer: Answer): Option<Scored> {
    if answer.indicator in a.indicators && answer.participant in a.roles && Effective(a, answer).Some? then
      var ind := a.indicators[answer.indicator];
      Some(Scored(Key(ind.competence, a.roles[answer.participant], ind.level, answer.indicator),
                  Effective(a, answer).value))
    else None
  }

  /** All answers that count, in the order they were read. */
  function Contributions(a: Assessment, answers: seq<Answer>): seq<Scored> {
    if answers == [] then []
    else
      var before := Contributions(a, answers[..|answers| - 1]);
      match Contribution(a, answers[|answers| - 1])
      case Some(s) => before + [s]
      case None => before
  }

  ghost function Counted(a: Assessment, answers: seq<Answer>): multiset<Scored> {
    multiset(Contributions(a, answers))
  }

  /** A missing or zero indicator weight counts as one. */
  function WeightOf(indicators: map<Id, Indicator>, i: Id): real {
    if i in indicators && indicators[i].weight.Some? && indicators[i].weight.value != 0
    then indicators[i].weight.value as real
    else 1.0
  }

  ghost function Weights(a: Assessment): Id -> real {
    i => WeightOf(a.indicators, i)
  }

  // ----- The four means

  ghost function Keys(m: multiset<Scored>): set<Key> {
    set s | s in m :: s.key
  }

  ghost function Roles(m: multiset<Scored>, c: Id): set<Id> {
    set k | k in Keys(m) && k.competence == c :: k.role
  }

  ghost function Levels(m: multiset<Scored>, c: Id, r: Id): set<Id> {
    set k | k in Keys(m) && k.competence == c && k.role == r :: k.level
  }

  ghost function Indicators(m: multiset<Scored>, c: Id, r: Id, l: Id): set<Id> {
    set k | k in Keys(m) && k.competence == c && k.role == r && k.level == l :: k.indicator
  }

  ghost function Cell(m: multiset<Scored>, k: Key): set<Scored> {
    set s | s in m && s.key == k
  }

  ghost function Times(m: multiset<Scored>): Scored -> real {
    (s: Scored) => m[s] as real
  }

  ghost function Value(): Scored -> real {
    (s: Scored) => s.value
  }

  /** How many answers are filed under `k`, and their sum; repeated ones included. */
  ghost function Tally(m: multiset<Scored>, k: Key): real {
    Sum(Cell(m, k), Times(m))
  }

  ghost function Total(m: multiset<Scored>, k: Key): real {
    Sum(Cell(m, k), Product(Value(), Times(m)))
  }

  ghost function Mean(m: multiset<Scored>, k: Key): real {
    Ratio(Total(m, k), Tally(m, k))
  }

  function Ratio(x: real, n: real): real {
    if n == 0.0 then 0.0 else x / n
  }

  ghost function Means(m: multiset<Scored>, c: Id, r: Id, l: Id): Id -> real {
    i => Mean(m, Key(c, r, l, i))
  }

  ghost function LevelWeight(w: Id -> real, m: multiset<Scored>, c: Id, r: Id, l: Id): real {
    Sum(Indicators(m, c, r, l), w)
  }

  ghost function LevelPercent(w: Id -> real, top: real, m: multiset<Scored>, c: Id, r: Id): Id -> real {
    l => if LevelWeight(w, m, c, r, l) == 0.0 || top == 0.0 then 0.0
         else PercentOfTop(WeightedAverage(Indicators(m, c, r, l), Means(m, c, r, l), w), top)
  }

  function PercentOfTop(x: real, top: real): real
    requires top != 0.0
  {
    x / top * 100.0
  }

  /** Levels whose weights do not cancel out; all of them when no weight is negative. */
  ghost function CountedLevels(w: Id -> real, m: multiset<Scored>, c: Id, r: Id): set<Id> {
    set l | l in Levels(m, c, r) && LevelWeight(w, m, c, r, l) != 0.0
  }

  ghost function RolePercent(w: Id -> real, top: real, m: multiset<Scored>, c: Id): Id -> real {
    r => if CountedLevels(w, m, c, r) == {} then 0.0
         else Average(CountedLevels(w, m, c, r), LevelPercent(w, top, m, c, r))
  }

  ghost function CountedRoles(w: Id -> real, m: multiset<Scored>, c: Id): set<Id> {
    set r | r in Roles(m, c) && CountedLevels(w, m, c, r) != {}
  }

  ghost function FinalPercent(w: Id -> real, top: real, m: multiset<Scored>, c: Id): Option<real> {
    var roles := CountedRoles(w, m, c);
    if roles == {} then None else Some(Average(roles, RolePercent(w, top, m, c)))
  }

  // ----- Rounding and bands

  /** Python's `round`: to the nearest integer, a tie to the even one. */
  function RoundHalfEven(x: real): int {
    var below := x.Floor;
    var rest := x - below as real;
    if rest < 0.5 || (rest == 0.5 && below % 2 == 0) then below else below + 1
  }

  function RoundTo4(x: real): real {
    RoundHalfEven(x * 10000.0) as real / 10000.0
  }

  predicate Holds(b: Band, percent: int) {
    b.low <= percent <= b.high
  }

  function FirstBand(bands: seq<Band>, percent: int): Option<Id> {
    if bands == [] then None
    else if Holds(bands[0], percent) then Some(bands[0].id)
    else FirstBand(bands[1..], percent)
  }

  /** What one result row is given. */
  datatype Score = Score(average: real, percent: Option<int>, band: Option<Id>)

  function ScoreOf(final: Option<real>, bands: seq<Band>): Score {
    match final
    case None => Score(0.0, None, None)
    case Some(x) =>
      Score(RoundTo4(x / 100.0), Some(RoundHalfEven(x)), FirstBand(bands, RoundHalfEven(x)))
  }

  /** The score a recompute of `a` gives competence `c`, for a scale whose top weight is `top`. */
  ghost function CompetenceScore(a: Assessment, answers: seq<Answer>, top: real, c: Id): Score {
    ScoreOf(FinalPercent(Weights(a), top, Counted(a, answers), c), a.bands)
  }

  // ----- Adding one scored answer

  lemma AddToCell(m: multiset<Scored>, x: Scored, k: Key, f: Scored -> real, g: Scored -> real, d: real)
    requires forall s :: s != x ==> f(s) == g(s)
    requires g(x) == (if x in m then f(x) else 0.0) + d
    ensures Sum(Cell(m + multiset{x}, k), g) == Sum(Cell(m, k), f) + (if x.key == k then d else 0.0)
  {
    var n := m + multiset{x};
    if x.key != k {
      assert Cell(n, k) == Cell(m, k);
      Congruent(Cell(m, k), f, g);
    } else if x in m {
      assert Cell(n, k) == Cell(m, k);
      ChangeOne(Cell(m, k), f, g, x);
    } else {
      assert Cell(n, k) - {x} == Cell(m, k);
      Pick(Cell(n, k), g, x);
      Congruent(Cell(m, k), f, g);
    }
  }

  lemma TimesGrow(m: multiset<Scored>, x: Scored)
    ensures var n := m + multiset{x};
            && (forall s :: s != x ==> Times(m)(s) == Times(n)(s))
            && Times(n)(x) == (if x in m then Times(m)(x) else 0.0) + 1.0
  {
  }

  lemma OneTermMore(v: real, k: real)
    ensures v * (k + 1.0) == v * k + v && v * 0.0 == 0.0
  {
  }

  lemma ValueAt(m: multiset<Scored>, s: Scored)
    ensures Product(Value(), Times(m))(s) == s.value * Times(m)(s)
  {
  }

  lemma ValuesGrow(m: multiset<Scored>, x: Scored)
    ensures var n := m + multiset{x};
            && (forall s :: s != x ==> Product(Value(), Times(m))(s) == Product(Value(), Times(n))(s))
            && Product(Value(), Times(n))(x) == (if x in m then Product(Value(), Times(m))(x) else 0.0) + x.value
  {
    var n := m + multiset{x};
    TimesGrow(m, x);
    hide Product, Times;
    forall s | s != x ensures Product(Value(), Times(m))(s) == Product(Value(), Times(n))(s) {
      ValueAt(m, s);
      ValueAt(n, s);
    }
    ValueAt(m, x);
    ValueAt(n, x);
    OneTermMore(x.value, if x in m then Times(m)(x) else 0.0);
  }

  lemma AddOne(m: multiset<Scored>, x: Scored, k: Key)
    ensures Tally(m + multiset{x}, k) == Tally(m, k) + (if x.key == k then 1.0 else 0.0)
    ensures Total(m + multiset{x}, k) == Total(m, k) + (if x.key == k then x.value else 0.0)
  {
    var n := m + multiset{x};
    TimesGrow(m, x);
    ValuesGrow(m, x);
    hide Sum, Cell, Product, Times, Value;
    AddToCell(m, x, k, Times(m), Times(n), 1.0);
    AddToCell(m, x, k, Product(Value(), Times(m)), Product(Value(), Times(n)), x.value);
  }

  lemma TallyPositive(m: multiset<Scored>, k: Key)
    requires k in Keys(m)
    ensures Tally(m, k) > 0.0
  {
    var s :| s in m && s.key == k;
    assert s in Cell(m, k);
    Positive(Cell(m, k), Times(m));
  }

  // ----- Comparing two collections of answers

  /** The same keys are answered for competence `c`. */
  ghost predicate SameKeys(m: multiset<Scored>, n: multiset<Scored>, c: Id) {
    forall k: Key :: k.competence == c ==> (k in Keys(m) <==> k in Keys(n))
  }

  lemma SameGroups(m: multiset<Scored>, n: multiset<Scored>, c: Id)
    requires SameKeys(m, n, c)
    ensures Roles(m, c) == Roles(n, c)
    ensures forall r :: Levels(m, c, r) == Levels(n, c, r)
    ensures forall r, l :: Indicators(m, c, r, l) == Indicators(n, c, r, l)
  {
    hide Keys;
  }

  lemma SameCounted(w: Id -> real, m: multiset<Scored>, n: multiset<Scored>, c: Id)
    requires SameKeys(m, n, c)
    ensures forall r :: CountedLevels(w, m, c, r) == CountedLevels(w, n, c, r)
    ensures CountedRoles(w, m, c) == CountedRoles(w, n, c)
  {
    SameGroups(m, n, c);
    hide Roles, Levels, Indicators, SameKeys;
    assert forall r, l :: LevelWeight(w, m, c, r, l) == LevelWeight(w, n, c, r, l);
    forall r ensures CountedLevels(w, m, c, r) == CountedLevels(w, n, c, r) {
      assert forall l :: LevelWeight(w, m, c, r, l) == LevelWeight(w, n, c, r, l);
    }
  }

  lemma EqualMeans(w: Id -> real, top: real, m: multiset<Scored>, n: multiset<Scored>, c: Id)
    requires SameKeys(m, n, c)
    requires forall k: Key :: k.competence == c ==> Mean(m, k) == Mean(n, k)
    ensures FinalPercent(w, top, m, c) == FinalPercent(w, top, n, c)
  {
    SameGroups(m, n, c);
    hide Roles, Levels, Indicators, Mean, Sum;
    SameCounted(w, m, n, c);
    forall r ensures RolePercent(w, top, m, c)(r) == RolePercent(w, top, n, c)(r) {
      forall l ensures LevelPercent(w, top, m, c, r)(l) == LevelPercent(w, top, n, c, r)(l) {
        if LevelWeight(w, m, c, r, l) != 0.0 {
          WeightedAverageCongruent(Indicators(m, c, r, l), Means(m, c, r, l), Means(n, c, r, l), w);
        }
      }
      Congruent(CountedLevels(w, m, c, r), LevelPercent(w, top, m, c, r), LevelPercent(w, top, n, c, r));
    }
    Congruent(CountedRoles(w, m, c), RolePercent(w, top, m, c), RolePercent(w, top, n, c));
  }

  lemma PercentMonotone(x: real, y: real, top: real)
    requires x <= y && top > 0.0
    ensures PercentOfTop(x, top) <= PercentOfTop(y, top)
  {
    DivideMonotone(x, y, top);
  }

  lemma PercentBetween(x: real, top: real, low: real, high: real, lo: real, hi: real)
    requires top > 0.0
    requires lo * top == low * 100.0 && hi * top == high * 100.0
    requires low <= x <= high
    ensures lo <= PercentOfTop(x, top) <= hi
  {
    assert low == lo / 100.0 * top && high == hi / 100.0 * top;
    QuotientBetween(x, top, lo / 100.0, hi / 100.0);
  }

  /** Better or equal indicator means give a better or equal final percent. */
  lemma HigherMeans(w: Id -> real, top: real, m: multiset<Scored>, n: multiset<Scored>, c: Id)
    requires Keys(m) == Keys(n) && top > 0.0
    requires forall i :: w(i) > 0.0
    requires forall k: Key :: k.competence == c ==> Mean(m, k) <= Mean(n, k)
    ensures FinalPercent(w, top, m, c).Some? == FinalPercent(w, top, n, c).Some?
    ensures FinalPercent(w, top, m, c).Some? ==>
              FinalPercent(w, top, m, c).value <= FinalPercent(w, top, n, c).value
  {
    hide Sum, LevelPercent, Mean;
    SameCounted(w, m, n, c);
    forall r ensures RolePercent(w, top, m, c)(r) <= RolePercent(w, top, n, c)(r) {
      forall l ensures LevelPercent(w, top, m, c, r)(l) <= LevelPercent(w, top, n, c, r)(l) {
        HigherLevel(w, top, m, n, c, r, l);
      }
      if CountedLevels(w, m, c, r) != {} {
        AverageMonotone(CountedLevels(w, m, c, r), LevelPercent(w, top, m, c, r), LevelPercent(w, top, n, c, r));
      }
    }
    if CountedRoles(w, m, c) != {} {
      AverageMonotone(CountedRoles(w, m, c), RolePercent(w, top, m, c), RolePercent(w, top, n, c));
    }
  }

  lemma HigherLevel(w: Id -> real, top: real, m: multiset<Scored>, n: multiset<Scored>, c: Id, r: Id, l: Id)
    requires Keys(m) == Keys(n) && top > 0.0
    requires forall i :: w(i) > 0.0
    requires forall k: Key :: k.competence == c ==> Mean(m, k) <= Mean(n, k)
    ensures LevelPercent(w, top, m, c, r)(l) <= LevelPercent(w, top, n, c, r)(l)
  {
    var inds := Indicators(m, c, r, l);
    if inds != {} {
      Positive(inds, w);
      var f, g := Means(m, c, r, l), Means(n, c, r, l);
      WeightedAverageMonotone(inds, f, g, w);
      PercentMonotone(WeightedAverage(inds, f, w), WeightedAverage(inds, g, w), top);
    }
  }

  /** Indicator means from `low` to `high` keep the final percent between the percents they stand for. */
  lemma FinalBetween(w: Id -> real, top: real, m: multiset<Scored>, c: Id, low: real, high: real, lo: real, hi: real)
    requires top > 0.0
    requires lo * top == low * 100.0 && hi * top == high * 100.0
    requires forall i :: w(i) > 0.0
    requires forall k :: k in Keys(m) ==> low <= Mean(m, k) <= high
    ensures FinalPercent(w, top, m, c).Some? ==> lo <= FinalPercent(w, top, m, c).value <= hi
  {
    forall r | r in CountedRoles(w, m, c) ensures lo <= RolePercent(w, top, m, c)(r) <= hi {
      var levels := CountedLevels(w, m, c, r);
      forall l | l in levels ensures lo <= LevelPercent(w, top, m, c, r)(l) <= hi {
        LevelBetween(w, top, m, c, r, l, low, high, lo, hi);
      }
      AverageBetween(levels, LevelPercent(w, top, m, c, r), lo, hi);
    }
    var roles := CountedRoles(w, m, c);
    if roles != {} {
      AverageBetween(roles, RolePercent(w, top, m, c), lo, hi);
    }
  }

  lemma LevelBetween(w: Id -> real, top: real, m: multiset<Scored>, c: Id, r: Id, l: Id,
                     low: real, high: real, lo: real, hi: real)
    requires top > 0.0
    requires lo * top == low * 100.0 && hi * top == high * 100.0
    requires forall i :: w(i) > 0.0
    requires forall k :: k in Keys(m) ==> low <= Mean(m, k) <= high
    requires Indicators(m, c, r, l) != {}
    ensures lo <= LevelPercent(w, top, m, c, r)(l) <= hi
  {
    var inds := Indicators(m, c, r, l);
    Positive(inds, w);
    forall i | i in inds ensures low <= Means(m, c, r, l)(i) <= high {
      assert Key(c, r, l, i) in Keys(m);
    }
    WeightedAverageBetween(inds, Means(m, c, r, l), w, low, high);
    PercentBetween(WeightedAverage(inds, Means(m, c, r, l), w), top, low, high, lo, hi);
  }

  lemma MeanBetween(m: multiset<Scored>, k: Key, low: real, high: real)
    requires k in Keys(m)
    requires forall s :: s in m && s.key == k ==> low <= s.value <= high
    ensures low <= Mean(m, k) <= high
  {
    TallyPositive(m, k);
    WeightedAverageBetween(Cell(m, k), Value(), Times(m), low, high);
  }
}
