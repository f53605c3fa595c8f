/** The recompute as a whole: one run over one assessment, and what it leaves in the result table. */
module RecomputeRun {
  import opened Common
  import opened RecomputeSpec
  import opened Recompute
  import T = RecomputeTheorems

  /** A result row; `calibrated` is a column the recompute never touches. */
  datatype ResultRow = ResultRow(id: Id, assessment: Id, competence: Id, score: Score, calibrated: Option<real>)

  // ----- Update or insert

  predicate BelongsTo(row: ResultRow, assessment: Id, c: Id) {
    row.assessment == assessment && row.competence == c
  }

  /** The row id the run finds for each competence: a later row of the query wins. */
  function Existing(rows: seq<ResultRow>, assessment: Id): map<Id, Id> {
    if rows == [] then map[]
    else
      var before := Existing(rows[..|rows| - 1], assessment);
      var row := rows[|rows| - 1];
      if row.assessment == assessment then before[row.competence := row.id] else before
  }

  function Update(rows: seq<ResultRow>, id: Id, score: Score): seq<ResultRow> {
    seq(|rows|, i requires 0 <= i < |rows| => if rows[i].id == id then rows[i].(score := score) else rows[i])
  }

  function Put(rows: seq<ResultRow>, existing: map<Id, Id>, assessment: Id, c: Id, score: Score,
               newId: nat): seq<ResultRow>
  {
    if c in existing then Update(rows, existing[c], score)
    else rows + [ResultRow(Id(newId), assessment, c, score, None)]
  }

  /** All listed competences in turn; the n-th insert would take the id `next + n`. */
  ghost function PutAll(rows: seq<ResultRow>, existing: map<Id, Id>, assessment: Id, cs: seq<Id>, score: Id -> Score,
                        next: nat): seq<ResultRow> {
    if cs == [] then rows
    else
      var n := |cs| - 1;
      Put(PutAll(rows, existing, assessment, cs[..n], score, next), existing, assessment, cs[n], score(cs[n]), next + n)
  }

  class Results {
    var rows: seq<ResultRow>
    var nextId: nat

    constructor (rows: seq<ResultRow>, nextId: nat)
      ensures this.rows == rows && this.nextId == nextId
    {
      this.rows, this.nextId := rows, nextId;
    }
  }

  ghost predicate Recomputes(scale: bool, a: Assessment) {
    scale && a.competences != [] && exists o :: Weighs(a, o)
  }

  ghost predicate IsTopWeight(a: Assessment, top: int) {
    && (exists o :: Weighs(a, o) && a.options[o].weight == Some(top))
    && (forall o :: Weighs(a, o) ==> a.options[o].weight.value <= top)
  }

  /** Some answer of competence `c` counts, so that it gets a percent. */
  ghost predicate Answered(a: Assessment, answers: seq<Answer>, c: Id) {
    FinalPercent(Weights(a), 0.0, Counted(a, answers), c).Some?
  }

  ghost predicate SomeAnswered(a: Assessment, answers: seq<Answer>, cs: seq<Id>) {
    exists c :: c in cs && Answered(a, answers, c)
  }

  /**
   One assessment. A scale without a scored option, or no competences, ends the run with nothing
   written; a top weight of zero divides by zero at the first answered competence, which aborts
   the migration's transaction (`ok` is false).
   */
  method RecomputeOne(db: Results, assessment: Id, scale: bool, a: Assessment, answers: seq<Answer>)
    returns (ok: bool, ghost top: int)
    modifies db
    ensures !Recomputes(scale, a) ==> ok && db.rows == old(db.rows)
    ensures Recomputes(scale, a) ==> IsTopWeight(a, top)
    ensures Recomputes(scale, a) ==> (ok <==> !(top == 0 && SomeAnswered(a, answers, a.competences)))
    ensures Recomputes(scale, a) && ok ==>
              db.rows == PutAll(old(db.rows), Existing(old(db.rows), assessment), assessment, a.competences,
                                c => CompetenceScore(a, answers, top as real, c), old(db.nextId))
    ensures !ok ==> db.rows == old(db.rows)
  {
    hide CompetenceScore, Existing, Put, Answered, Filed, Contributions;
    ok, top := true, 0;
    var max := TopWeight(a);
    if !scale || max.None? || a.competences == [] {
      return;
    }
    top := max.value;
    var raw := FileAnswers(a, answers);
    ghost var score := c => CompetenceScore(a, answers, top as real, c);
    var existing := Existing(db.rows, assessment);
    var rows := db.rows;
    for n := 0 to |a.competences|
      invariant db.rows == old(db.rows) && db.nextId == old(db.nextId)
      invariant max.value == 0 ==> !SomeAnswered(a, answers, a.competences[..n])
      invariant rows == PutAll(db.rows, existing, assessment, a.competences[..n], score, db.nextId)
    {
      hide *;
      var c := a.competences[n];
      var final := OneCompetence(a, max.value, raw, c, answers);
      NextCompetence(a, answers, a.competences, n);
      if max.value == 0 && final.Some? {
        return false, top;
      }
      ScoreIs(a, answers, top, c, final);
      NextPut(db.rows, existing, assessment, a.competences, score, db.nextId, n);
      rows := Put(rows, existing, assessment, c, ScoreOf(final, a.bands), db.nextId + n);
    }
    assert a.competences[..|a.competences|] == a.competences;
    db.rows, db.nextId := rows, db.nextId + |a.competences|;
  }

  /** The percent of one competence; with a zero top weight, only whether it has one. */
  method OneCompetence(a: Assessment, top: int, raw: ByCompetence, c: Id, ghost answers: seq<Answer>)
    returns (final: Option<real>)
    requires Filed(raw, Contributions(a, answers))
    ensures top != 0 ==> final == FinalPercent(Weights(a), top as real, Counted(a, answers), c)
    ensures final.Some? <==> Answered(a, answers, c)
  {
    assert FiledRoles(Get(raw, c, map[]), Contributions(a, answers), c);
    final := CompetencePercent(a, if top == 0 then 1.0 else top as real, Get(raw, c, map[]),
                               Contributions(a, answers), c);
  }

  lemma NextCompetence(a: Assessment, answers: seq<Answer>, cs: seq<Id>, n: nat)
    requires n < |cs|
    ensures SomeAnswered(a, answers, cs[..n + 1]) <==> SomeAnswered(a, answers, cs[..n]) || Answered(a, answers, cs[n])
    ensures Answered(a, answers, cs[n]) ==> SomeAnswered(a, answers, cs)
  {
    hide Answered;
    assert cs[..n + 1] == cs[..n] + [cs[n]];
  }

  lemma ScoreIs(a: Assessment, answers: seq<Answer>, top: int, c: Id, final: Option<real>)
    requires top != 0 ==> final == FinalPercent(Weights(a), top as real, Counted(a, answers), c)
    requires top == 0 ==> final.None?
    requires final.Some? <==> Answered(a, answers, c)
    ensures ScoreOf(final, a.bands) == CompetenceScore(a, answers, top as real, c)
  {
  }

  lemma NextPut(rows: seq<ResultRow>, existing: map<Id, Id>, assessment: Id, cs: seq<Id>, score: Id -> Score, next: nat,
                n: nat)
    requires n < |cs|
    ensures PutAll(rows, existing, assessment, cs[..n + 1], score, next) ==
            Put(PutAll(rows, existing, assessment, cs[..n], score, next), existing, assessment, cs[n], score(cs[n]),
                next + n)
  {
    assert cs[..n + 1][..n] == cs[..n];
  }

  // ----- What a run leaves in the table

  /** Row ids, the primary key, are unique and below the next free one. Nothing else is asked of the table. */
  ghost predicate UniqueIds(rows: seq<ResultRow>, next: nat) {
    && (forall i :: 0 <= i < |rows| ==> rows[i].id.number < next)
    && (forall i, j :: 0 <= i < j < |rows| ==> rows[i].id != rows[j].id)
  }

  /** How many rows the assessment has for competence `c`. */
  function RowsOf(rows: seq<ResultRow>, assessment: Id, c: Id): nat {
    if rows == [] then 0
    else RowsOf(rows[..|rows| - 1], assessment, c) + if BelongsTo(rows[|rows| - 1], assessment, c) then 1 else 0
  }

  /** Row `k` is the one a run finds for `c`: the last of the assessment's rows for it. */
  ghost predicate IsFound(rows: seq<ResultRow>, assessment: Id, c: Id, k: int) {
    && 0 <= k < |rows| && BelongsTo(rows[k], assessment, c)
    && forall j :: k < j < |rows| ==> !BelongsTo(rows[j], assessment, c)
  }

  lemma {:induction false} ExistingFinds(rows: seq<ResultRow>, assessment: Id, c: Id) returns (k: int)
    ensures c in Existing(rows, assessment) <==> RowsOf(rows, assessment, c) > 0
    ensures c in Existing(rows, assessment) ==>
            IsFound(rows, assessment, c, k) && Existing(rows, assessment)[c] == rows[k].id
  {
    k := -1;
    if rows != [] {
      var n := |rows| - 1;
      k := ExistingFinds(rows[..n], assessment, c);
      if BelongsTo(rows[n], assessment, c) {
        k := n;
      }
    }
  }

  /** The competences among `cs` that have no row yet, in order and as often as they are listed. */
  function Unfound(existing: map<Id, Id>, cs: seq<Id>): seq<Id> {
    if cs == [] then []
    else Unfound(existing, cs[..|cs| - 1]) + if cs[|cs| - 1] in existing then [] else [cs[|cs| - 1]]
  }

  function Rescored(row: ResultRow, existing: map<Id, Id>, assessment: Id, cs: seq<Id>, score: Id -> Score): ResultRow {
    if row.assessment == assessment && row.competence in cs && row.competence in existing
       && existing[row.competence] == row.id
    then row.(score := score(row.competence))
    else row
  }

  /**
   The whole table after a run: the old rows in place, of which those found for a listed competence
   are rescored, and then one new row for each listing of a competence that had none.
   */
  ghost predicate Written(rows: seq<ResultRow>, after: seq<ResultRow>, existing: map<Id, Id>, assessment: Id,
                          cs: seq<Id>, score: Id -> Score)
  {
    var unfound := Unfound(existing, cs);
    && |after| == |rows| + |unfound|
    && (forall i :: 0 <= i < |rows| ==> after[i] == Rescored(rows[i], existing, assessment, cs, score))
    && (forall i :: 0 <= i < |unfound| ==>
          after[|rows| + i] == ResultRow(after[|rows| + i].id, assessment, unfound[i], score(unfound[i]), None))
  }

  lemma {:induction false} PutAllWrites(rows: seq<ResultRow>, assessment: Id, cs: seq<Id>, score: Id -> Score,
                                        next: nat)
    requires UniqueIds(rows, next)
    ensures var existing := Existing(rows, assessment);
            var after := PutAll(rows, existing, assessment, cs, score, next);
            UniqueIds(after, next + |cs|) && Written(rows, after, existing, assessment, cs, score)
  {
    hide Existing, Put;
    var existing := Existing(rows, assessment);
    if cs != [] {
      hide UniqueIds, Written;
      var n := |cs| - 1;
      PutAllWrites(rows, assessment, cs[..n], score, next);
      var mid := PutAll(rows, existing, assessment, cs[..n], score, next);
      assert cs == cs[..n] + [cs[n]];
      if cs[n] in existing {
        PutUpdated(rows, mid, assessment, cs[..n], cs[n], score, next + n);
      } else {
        PutInserted(rows, mid, assessment, cs[..n], cs[n], score, next + n);
      }
    }
  }

  lemma PutUpdated(rows: seq<ResultRow>, mid: seq<ResultRow>, assessment: Id, done: seq<Id>, c: Id, score: Id -> Score,
                   newId: nat)
    requires UniqueIds(mid, newId) && c in Existing(rows, assessment)
    requires Written(rows, mid, Existing(rows, assessment), assessment, done, score)
    ensures var existing := Existing(rows, assessment);
            var after := Put(mid, existing, assessment, c, score(c), newId);
            UniqueIds(after, newId + 1) && Written(rows, after, existing, assessment, done + [c], score)
  {
    var existing := Existing(rows, assessment);
    var k := ExistingFinds(rows, assessment, c);
    hide Existing;
    assert mid[k].id == rows[k].id;
    assert Update(mid, existing[c], score(c)) == mid[k := mid[k].(score := score(c))];
    assert (done + [c])[..|done|] == done;
    assert forall d :: d in done + [c] <==> d in done || d == c;
  }

  lemma PutInserted(rows: seq<ResultRow>, mid: seq<ResultRow>, assessment: Id, done: seq<Id>, c: Id, score: Id -> Score,
                    newId: nat)
    requires UniqueIds(mid, newId) && c !in Existing(rows, assessment)
    requires Written(rows, mid, Existing(rows, assessment), assessment, done, score)
    ensures var existing := Existing(rows, assessment);
            var after := Put(mid, existing, assessment, c, score(c), newId);
            UniqueIds(after, newId + 1) && Written(rows, after, existing, assessment, done + [c], score)
  {
    hide Existing;
    assert (done + [c])[..|done|] == done;
    assert forall d :: d in done + [c] <==> d in done || d == c;
  }

  // ----- How many rows a competence ends with

  lemma {:induction false} RowsOfSplit(a: seq<ResultRow>, b: seq<ResultRow>, assessment: Id, c: Id)
    ensures RowsOf(a + b, assessment, c) == RowsOf(a, assessment, c) + RowsOf(b, assessment, c)
  {
    if b == [] {
      assert a + b == a;
    } else {
      var n := |b| - 1;
      RowsOfSplit(a, b[..n], assessment, c);
      assert (a + b)[..|a + b| - 1] == a + b[..n];
    }
  }

  lemma {:induction false} RowsOfSame(a: seq<ResultRow>, b: seq<ResultRow>, assessment: Id, c: Id)
    requires |a| == |b|
    requires forall i :: 0 <= i < |a| ==> a[i].assessment == b[i].assessment && a[i].competence == b[i].competence
    ensures RowsOf(a, assessment, c) == RowsOf(b, assessment, c)
  {
    if a != [] {
      RowsOfSame(a[..|a| - 1], b[..|b| - 1], assessment, c);
    }
  }

  lemma {:induction false} RowsOfNew(rows: seq<ResultRow>, cs: seq<Id>, assessment: Id, c: Id)
    requires |rows| == |cs|
             && forall i :: 0 <= i < |rows| ==> rows[i].assessment == assessment && rows[i].competence == cs[i]
    ensures RowsOf(rows, assessment, c) == multiset(cs)[c]
  {
    if rows != [] {
      var n := |rows| - 1;
      RowsOfNew(rows[..n], cs[..n], assessment, c);
      assert cs == cs[..n] + [cs[n]];
    }
  }

  lemma ListedAfter(done: seq<Id>, added: seq<Id>, c: Id)
    ensures multiset(done + added)[c] == multiset(done)[c] + multiset(added)[c]
  {
  }

  lemma UnfoundMore(existing: map<Id, Id>, done: seq<Id>, last: Id)
    ensures Unfound(existing, done + [last]) == Unfound(existing, done) + if last in existing then [] else [last]
  {
    assert (done + [last])[..|done|] == done;
  }

  lemma UnfoundOnceMore(existing: map<Id, Id>, done: seq<Id>, last: Id, c: Id)
    requires multiset(Unfound(existing, done))[c] == if c in existing then 0 else multiset(done)[c]
    ensures multiset(Unfound(existing, done + [last]))[c] == if c in existing then 0 else multiset(done + [last])[c]
  {
    hide *;
    UnfoundMore(existing, done, last);
    ListedAfter(Unfound(existing, done), if last in existing then [] else [last], c);
    ListedAfter(done, [last], c);
  }

  lemma Split(cs: seq<Id>) returns (done: seq<Id>, last: Id)
    requires cs != []
    ensures cs == done + [last]
  {
    done, last := cs[..|cs| - 1], cs[|cs| - 1];
  }

  lemma {:induction false} UnfoundTimes(existing: map<Id, Id>, cs: seq<Id>, c: Id)
    ensures multiset(Unfound(existing, cs))[c] == if c in existing then 0 else multiset(cs)[c]
    decreases |cs|
  {
    if cs != [] {
      hide *;
      var done, last := Split(cs);
      UnfoundTimes(existing, done, c);
      UnfoundOnceMore(existing, done, last, c);
    }
  }

  /** Afterwards a competence has the rows it had, or, where it had none, one for each time it is listed. */
  lemma RowsAfter(rows: seq<ResultRow>, assessment: Id, cs: seq<Id>, score: Id -> Score, next: nat, c: Id)
    requires UniqueIds(rows, next)
    ensures var after := PutAll(rows, Existing(rows, assessment), assessment, cs, score, next);
            RowsOf(after, assessment, c) ==
            if RowsOf(rows, assessment, c) > 0 then RowsOf(rows, assessment, c) else multiset(cs)[c]
  {
    hide *;
    PutAllWrites(rows, assessment, cs, score, next);
    var _ := ExistingFinds(rows, assessment, c);
    UnfoundTimes(Existing(rows, assessment), cs, c);
    RowsWritten(rows, PutAll(rows, Existing(rows, assessment), assessment, cs, score, next), Existing(rows, assessment),
                assessment, cs, score, c);
  }

  lemma RowsWritten(rows: seq<ResultRow>, after: seq<ResultRow>, existing: map<Id, Id>, assessment: Id, cs: seq<Id>,
                    score: Id -> Score, c: Id)
    requires Written(rows, after, existing, assessment, cs, score)
    ensures RowsOf(after, assessment, c) == RowsOf(rows, assessment, c) + multiset(Unfound(existing, cs))[c]
  {
    hide RowsOf, Unfound;
    var kept, added := after[..|rows|], after[|rows|..];
    assert after == kept + added;
    RowsOfSplit(kept, added, assessment, c);
    RowsOfSame(kept, rows, assessment, c);
    forall i | 0 <= i < |added|
      ensures added[i].assessment == assessment && added[i].competence == Unfound(existing, cs)[i]
    {
      var d := Unfound(existing, cs)[i];
      assert added[i] == ResultRow(after[|rows| + i].id, assessment, d, score(d), None);
    }
    RowsOfNew(added, Unfound(existing, cs), assessment, c);
  }

  ghost predicate OnlyRow(rows: seq<ResultRow>, assessment: Id, c: Id, score: Score) {
    exists i :: 0 <= i < |rows| && BelongsTo(rows[i], assessment, c) && rows[i].score == score
                && forall j :: 0 <= j < |rows| && BelongsTo(rows[j], assessment, c) ==> j == i
  }

  lemma {:induction false} RowsOfOne(rows: seq<ResultRow>, assessment: Id, c: Id, i: int)
    requires 0 <= i < |rows| && BelongsTo(rows[i], assessment, c)
    ensures RowsOf(rows, assessment, c) >= 1
    ensures RowsOf(rows, assessment, c) == 1 <==>
            forall j :: 0 <= j < |rows| && BelongsTo(rows[j], assessment, c) ==> j == i
  {
    var n := |rows| - 1;
    if i < n {
      RowsOfOne(rows[..n], assessment, c, i);
      assert forall j :: 0 <= j < n ==> rows[..n][j] == rows[j];
    } else {
      RowsOfNone(rows[..n], assessment, c);
      assert forall j :: 0 <= j < n ==> rows[..n][j] == rows[j];
    }
  }

  lemma {:induction false} RowsOfNone(rows: seq<ResultRow>, assessment: Id, c: Id)
    ensures RowsOf(rows, assessment, c) == 0 <==> forall j :: 0 <= j < |rows| ==> !BelongsTo(rows[j], assessment, c)
  {
    if rows != [] {
      var n := |rows| - 1;
      RowsOfNone(rows[..n], assessment, c);
      assert forall j :: 0 <= j < n ==> rows[..n][j] == rows[j];
    }
  }

  /** The last row of a listed competence carries its score. */
  lemma LastRowIsScored(rows: seq<ResultRow>, assessment: Id, cs: seq<Id>, score: Id -> Score, next: nat, c: Id, k: int)
    requires UniqueIds(rows, next) && c in cs
    requires IsFound(PutAll(rows, Existing(rows, assessment), assessment, cs, score, next), assessment, c, k)
    ensures PutAll(rows, Existing(rows, assessment), assessment, cs, score, next)[k].score == score(c)
  {
    hide PutAll, Existing;
    var existing := Existing(rows, assessment);
    var after := PutAll(rows, existing, assessment, cs, score, next);
    PutAllWrites(rows, assessment, cs, score, next);
    var f := ExistingFinds(rows, assessment, c);
    if k < |rows| {
      assert BelongsTo(rows[k], assessment, c);
      RowsOfNone(rows, assessment, c);
      assert BelongsTo(after[f], assessment, c);
    } else {
      var d := Unfound(existing, cs)[k - |rows|];
      assert after[k] == ResultRow(after[k].id, assessment, d, score(d), None);
    }
  }

  /**
   A listed competence ends with exactly one row, carrying its score, if and only if it had exactly
   one before, or had none and is listed once. What the run finds is read once, so a competence
   listed twice that had no row gets two, and rows that were there twice stay.
   */
  lemma OneRowPerCompetence(rows: seq<ResultRow>, assessment: Id, cs: seq<Id>, score: Id -> Score, next: nat, c: Id)
    requires UniqueIds(rows, next) && c in cs
    ensures OnlyRow(PutAll(rows, Existing(rows, assessment), assessment, cs, score, next), assessment, c, score(c)) <==>
            RowsOf(rows, assessment, c) == 1 || (RowsOf(rows, assessment, c) == 0 && multiset(cs)[c] == 1)
  {
    hide PutAll, Existing;
    var after := PutAll(rows, Existing(rows, assessment), assessment, cs, score, next);
    RowsAfter(rows, assessment, cs, score, next, c);
    RowsOfNone(after, assessment, c);
    hide RowsOf;
    assert multiset(cs)[c] > 0;
    var i :| 0 <= i < |after| && BelongsTo(after[i], assessment, c);
    RowsOfOne(after, assessment, c, i);
    if RowsOf(after, assessment, c) == 1 {
      LastRowIsScored(rows, assessment, cs, score, next, c, i);
    }
  }

  /** A competence listed twice without a row ends with two. */
  lemma ListedTwiceGetsTwoRows(assessment: Id, c: Id, score: Id -> Score, next: nat)
    ensures var after := PutAll([], Existing([], assessment), assessment, [c, c], score, next);
            RowsOf(after, assessment, c) == 2 && !OnlyRow(after, assessment, c, score(c))
  {
    RowsAfter([], assessment, [c, c], score, next, c);
    OneRowPerCompetence([], assessment, [c, c], score, next, c);
    assert RowsOf([], assessment, c) == 0 && multiset([c, c])[c] == 2;
    hide *;
  }

  /** Rows of other assessments and competences, earlier duplicates and every calibrated score are as they were. */
  lemma OtherRowsStay(rows: seq<ResultRow>, assessment: Id, cs: seq<Id>, score: Id -> Score, next: nat, i: nat)
    requires UniqueIds(rows, next) && i < |rows|
    ensures var after := PutAll(rows, Existing(rows, assessment), assessment, cs, score, next);
            && |rows| <= |after| && rows[i] == after[i].(score := rows[i].score)
            && (!(rows[i].competence in cs && IsFound(rows, assessment, rows[i].competence, i)) ==> rows[i] == after[i])
  {
    hide PutAll, Existing;
    PutAllWrites(rows, assessment, cs, score, next);
    var k := ExistingFinds(rows, assessment, rows[i].competence);
  }

  // ----- A second run

  lemma UpdateSame(rows: seq<ResultRow>, next: nat, k: nat)
    requires UniqueIds(rows, next) && k < |rows|
    ensures Update(rows, rows[k].id, rows[k].score) == rows
  {
    assert rows[k].(score := rows[k].score) == rows[k];
  }

  lemma {:induction false} Rewriting(rows: seq<ResultRow>, assessment: Id, cs: seq<Id>, n: nat, score: Id -> Score,
                                     next: nat)
    requires UniqueIds(rows, next) && n <= |cs|
    requires forall c :: c in cs ==> c in Existing(rows, assessment)
    requires forall c, k :: c in cs && IsFound(rows, assessment, c, k) ==> rows[k].score == score(c)
    ensures PutAll(rows, Existing(rows, assessment), assessment, cs[..n], score, next) == rows
  {
    if n > 0 {
      Rewriting(rows, assessment, cs, n - 1, score, next);
      NextPut(rows, Existing(rows, assessment), assessment, cs, score, next, n - 1);
      var c := cs[n - 1];
      var k := ExistingFinds(rows, assessment, c);
      assert rows[k].score == score(c);
      hide PutAll, Existing, RowsOf, IsFound;
      UpdateSame(rows, next, k);
    }
  }

  /** A second run over the same answers changes nothing, duplicates or not. */
  lemma SecondRunChangesNothing(rows: seq<ResultRow>, assessment: Id, cs: seq<Id>, score: Id -> Score, next: nat)
    requires UniqueIds(rows, next)
    ensures var after := PutAll(rows, Existing(rows, assessment), assessment, cs, score, next);
            PutAll(after, Existing(after, assessment), assessment, cs, score, next + |cs|) == after
  {
    hide PutAll, Existing, RowsOf, UniqueIds, Written;
    PutAllWrites(rows, assessment, cs, score, next);
    var after := PutAll(rows, Existing(rows, assessment), assessment, cs, score, next);
    forall c | c in cs ensures c in Existing(after, assessment) {
      RowsAfter(rows, assessment, cs, score, next, c);
      var _ := ExistingFinds(after, assessment, c);
    }
    forall c, k | c in cs && IsFound(after, assessment, c, k) ensures after[k].score == score(c) {
      LastRowIsScored(rows, assessment, cs, score, next, c, k);
    }
    Rewriting(after, assessment, cs, |cs|, score, next + |cs|);
    assert cs[..|cs|] == cs;
  }
}
