/**
 The migration that gives notification templates a locale, both ways. Tables map a row id to its
 columns; a migration runs in one transaction.
 */
module TemplateLocale {
  import opened Common

  datatype Content = Content(code: string, subject: string, body: string, kind: string)
  datatype Localized = Localized(content: Content, locale: string)

  type Templates = map<Id, Localized>

  predicate Is(t: Templates, id: Id, code: string, locale: string) {
    id in t && t[id].content.code == code && t[id].locale == locale
  }

  predicate Has(t: Templates, code: string, locale: string) {
    exists id :: id in t && Is(t, id, code, locale)
  }

  /** The unique key of the upgraded table. */
  ghost predicate UniqueCodeLocale(t: Templates) {
    forall i, j :: i in t && j in t && t[i].content.code == t[j].content.code && t[i].locale == t[j].locale ==> i == j
  }

  /** The unique key of the original table. */
  ghost predicate UniqueCode(plain: map<Id, Content>) {
    forall i, j :: i in plain && j in plain && plain[i].code == plain[j].code ==> i == j
  }

  ghost predicate ReferencesHold(notifications: map<Id, Id>, templates: set<Id>) {
    forall n :: n in notifications ==> notifications[n] in templates
  }

  // ----- Upgrade

  function AllEnglish(plain: map<Id, Content>): Templates {
    map id | id in plain :: Localized(plain[id], "en")
  }

  /** Every row of `before` is kept; the others are German copies, one for each English code that had none. */
  ghost predicate Seeded(before: Templates, after: Templates) {
    && (forall id :: id in before ==> id in after && after[id] == before[id])
    && (forall id :: id in after && id !in before ==>
          after[id].locale == "de" && !Has(before, after[id].content.code, "de") &&
          exists en :: en in before && before[en] == Localized(after[id].content, "en"))
    && (forall id :: id in before && before[id].locale == "en" ==> Has(after, before[id].content.code, "de"))
  }

  class Database {
    var plain: map<Id, Content>
    var localized: Templates
    var notifications: map<Id, Id>
    var upgraded: bool
    var nextId: nat

    /** Generated ids are new; references resolve; the unique key of the schema in force holds. */
    ghost predicate Valid()
      reads this
    {
      && (forall id :: id in localized ==> id.number < nextId)
      && (forall id :: id in plain ==> id.number < nextId)
      && if upgraded then UniqueCodeLocale(localized) && ReferencesHold(notifications, localized.Keys)
         else UniqueCode(plain) && ReferencesHold(notifications, plain.Keys)
    }

    constructor (plain: map<Id, Content>, notifications: map<Id, Id>, nextId: nat)
      requires UniqueCode(plain) && ReferencesHold(notifications, plain.Keys)
               && forall id :: id in plain ==> id.number < nextId
      ensures Valid() && !upgraded && this.plain == plain && this.notifications == notifications
    {
      this.plain, this.notifications, this.nextId := plain, notifications, nextId;
      localized, upgraded := map[], false;
    }

    /** `INSERT ... SELECT` of a German row for every English one without; what it reads is the table before it. */
    method Seed()
      requires upgraded && Valid()
      modifies this`localized, this`nextId
      ensures Valid() && Seeded(old(localized), localized)
    {
      hide SeededBut, Seeded, UniqueCodeLocale, UniqueCode, Has;
      var snapshot := localized;
      SeedStart(snapshot);
      var todo := snapshot.Keys;
      while todo != {}
        invariant todo <= snapshot.Keys
        invariant forall id :: id in localized ==> id.number < nextId
        invariant UniqueCodeLocale(localized) && ReferencesHold(notifications, localized.Keys)
        invariant SeededBut(snapshot, localized, todo)
        invariant forall id :: id in plain ==> id.number < nextId
      {
        var id := Next(todo);
        assert todo - {id} + {id} == todo;
        todo := todo - {id};
        var row := snapshot[id];
        if row.locale == "en" && !Has(snapshot, row.content.code, "de") {
          SeedOne(snapshot, localized, todo, id, Id(nextId));
          localized := localized[Id(nextId) := Localized(row.content, "de")];
          nextId := nextId + 1;
        } else {
          SeedNone(snapshot, localized, todo, id);
        }
      }
      SeedDone(snapshot, localized);
    }

    method Upgrade()
      requires !upgraded && Valid()
      modifies this
      ensures Valid() && upgraded && Seeded(AllEnglish(old(plain)), localized)
      ensures notifications == old(notifications)
    {
      localized := AllEnglish(plain);
      upgraded := true;
      Seed();
    }

    /**
     Point notifications at English siblings, delete the rows that have one, and restore the
     code-only key. When that key does not hold the migration fails and its transaction with it.
     */
    method Downgrade() returns (ok: bool)
      requires upgraded && Valid()
      modifies this
      ensures ok <==> OneRowWithoutEnglish(old(localized))
      ensures !ok ==> upgraded && localized == old(localized) && notifications == old(notifications)
      ensures ok ==> !upgraded && Valid() && plain == Contents(Kept(old(localized)))
      ensures ok ==> Repointed(old(localized), old(notifications), notifications)
    {
      hide Has, Is, MovesTo, OneRowWithoutEnglish, Repointed, UniqueCodeLocale, UniqueCode, ReferencesHold;
      var before := localized;
      var moved := RepointAll();
      var kept := Kept(before);
      ok := !(exists i, j :: i in kept && j in kept && i != j && kept[i].content.code == kept[j].content.code);
      KeyHolds(before);
      if ok {
        KeepsReferences(before, notifications, moved);
        notifications, plain, upgraded := moved, Contents(kept), false;
      }
    }

    /** `UPDATE notifications SET template_id = en.id`, row by row. */
    method RepointAll() returns (moved: map<Id, Id>)
      requires upgraded && Valid()
      ensures Repointed(localized, notifications, moved)
    {
      moved := map[];
      var todo := notifications.Keys;
      while todo != {}
        invariant todo <= notifications.Keys && moved.Keys == notifications.Keys - todo
        invariant forall n :: n in moved ==> MovesTo(localized, notifications[n], moved[n])
      {
        var n := Next(todo);
        todo := todo - {n};
        var target := FindEnglish(notifications[n]);
        moved := moved[n := target];
      }
    }

    method FindEnglish(template: Id) returns (target: Id)
      requires template in localized
      ensures MovesTo(localized, template, target)
    {
      var row := localized[template];
      if row.locale == "en" {
        return template;
      }
      var todo := localized.Keys;
      while todo != {}
        invariant todo <= localized.Keys
        invariant forall id :: id in localized && id !in todo ==> !Is(localized, id, row.content.code, "en")
      {
        var id := Next(todo);
        if Is(localized, id, row.content.code, "en") {
          return id;
        }
        todo := todo - {id};
      }
      return template;
    }
  }

  // ----- Seeding, one row at a time

  ghost predicate SeededBut(before: Templates, after: Templates, todo: set<Id>) {
    && (forall id :: id in before ==> id in after && after[id] == before[id])
    && (forall id :: id in after && id !in before ==>
          after[id].locale == "de" && !Has(before, after[id].content.code, "de") &&
          exists en :: en in before && en !in todo && before[en] == Localized(after[id].content, "en"))
    && (forall id :: id in before && id !in todo && before[id].locale == "en" ==>
          Has(after, before[id].content.code, "de"))
  }

  lemma SeedStart(before: Templates)
    ensures SeededBut(before, before, before.Keys)
  {
  }

  lemma SeedDone(before: Templates, after: Templates)
    requires SeededBut(before, after, {})
    ensures Seeded(before, after)
  {
  }

  lemma StillHas(t: Templates, bigger: Templates, code: string, locale: string)
    requires forall id :: id in t ==> id in bigger && bigger[id] == t[id]
    requires Has(t, code, locale)
    ensures Has(bigger, code, locale)
  {
    var id :| id in t && Is(t, id, code, locale);
    assert Is(bigger, id, code, locale);
  }

  lemma SeedOne(before: Templates, after: Templates, todo: set<Id>, id: Id, newId: Id)
    requires SeededBut(before, after, todo + {id}) && id in before && id !in todo && newId !in after
    requires UniqueCodeLocale(before) && UniqueCodeLocale(after)
    requires before[id].locale == "en" && !Has(before, before[id].content.code, "de")
    ensures var next := after[newId := Localized(before[id].content, "de")];
            SeededBut(before, next, todo) && UniqueCodeLocale(next)
  {
    var content := before[id].content;
    var next := after[newId := Localized(content, "de")];
    assert Is(next, newId, content.code, "de");
    forall i | i in before && i !in todo && before[i].locale == "en" ensures Has(next, before[i].content.code, "de") {
      if i != id {
        StillHas(after, next, before[i].content.code, "de");
      }
    }
    forall i | i in after ensures !Is(after, i, content.code, "de") {
      if i !in before {
        var en :| en in before && en !in todo + {id} && before[en] == Localized(after[i].content, "en");
        assert before[en].content.code != content.code;
      } else {
        assert !Is(before, i, content.code, "de");
      }
    }
  }

  lemma SeedNone(before: Templates, after: Templates, todo: set<Id>, id: Id)
    requires SeededBut(before, after, todo + {id}) && id in before && id !in todo
    requires before[id].locale == "en" ==> Has(before, before[id].content.code, "de")
    ensures SeededBut(before, after, todo)
  {
    if before[id].locale == "en" {
      StillHas(before, after, before[id].content.code, "de");
    }
  }

  // ----- Downgrade

  /** Rows that the delete leaves: the English ones, and those whose code has no English row. */
  function Kept(t: Templates): Templates {
    map id | id in t && (t[id].locale == "en" || !Has(t, t[id].content.code, "en")) :: t[id]
  }

  function Contents(t: Templates): map<Id, Content> {
    map id | id in t :: t[id].content
  }

  /** Where a reference ends up: at the English sibling of a row that has one, else where it was. */
  ghost predicate MovesTo(t: Templates, from: Id, to: Id)
    requires from in t
  {
    var code := t[from].content.code;
    if t[from].locale != "en" && Has(t, code, "en") then Is(t, to, code, "en") else to == from
  }

  ghost predicate Repointed(t: Templates, before: map<Id, Id>, after: map<Id, Id>) {
    after.Keys == before.Keys && forall n :: n in before ==> before[n] in t && MovesTo(t, before[n], after[n])
  }

  ghost predicate OneRowWithoutEnglish(t: Templates) {
    forall i, j :: i in t && j in t && t[i].content.code == t[j].content.code && !Has(t, t[i].content.code, "en") ==>
      i == j
  }

  /** The code-only key can be restored exactly when each code without an English row has a single row. */
  lemma KeyHolds(t: Templates)
    requires UniqueCodeLocale(t)
    ensures UniqueCode(Contents(Kept(t))) <==> OneRowWithoutEnglish(t)
    ensures UniqueCode(Contents(Kept(t))) <==>
            !(exists i, j :: i in Kept(t) && j in Kept(t) && i != j
                && Kept(t)[i].content.code == Kept(t)[j].content.code)
  {
    var plain := Contents(Kept(t));
    if OneRowWithoutEnglish(t) {
      forall i, j | i in plain && j in plain && plain[i].code == plain[j].code ensures i == j {
        if t[i].locale == "en" {
          assert Is(t, i, t[i].content.code, "en");
        }
        if t[j].locale == "en" {
          assert Is(t, j, t[j].content.code, "en");
        }
      }
    }
    if UniqueCode(plain) {
      forall i, j | i in t && j in t && t[i].content.code == t[j].content.code && !Has(t, t[i].content.code, "en")
        ensures i == j
      {
        assert i in plain && j in plain;
      }
    }
  }

  /** Two rows of one code in two locales, none of them English: the key does not hold and the downgrade fails. */
  lemma TwoRowsWithoutEnglish()
    ensures var german, french := Localized(Content("alert", "s", "b", "info"), "de"),
                                  Localized(Content("alert", "s", "b", "info"), "fr");
            var t: Templates := map[Id(0) := german, Id(1) := french];
            UniqueCodeLocale(t) && !OneRowWithoutEnglish(t) && !UniqueCode(Contents(Kept(t)))
  {
    var german, french := Localized(Content("alert", "s", "b", "info"), "de"),
                          Localized(Content("alert", "s", "b", "info"), "fr");
    var t: Templates := map[Id(0) := german, Id(1) := french];
    assert "de"[0] != "en"[0] && "fr"[0] != "en"[0] && "de"[0] != "fr"[0];
    assert !Has(t, "alert", "en");
    assert Id(0) in t && Id(1) in t;
    KeyHolds(t);
  }

  /** After any downgrade every notification refers to a template that exists and has the code it had. */
  lemma KeepsReferences(t: Templates, before: map<Id, Id>, after: map<Id, Id>)
    requires Repointed(t, before, after)
    ensures ReferencesHold(after, Contents(Kept(t)).Keys)
    ensures forall n :: n in before ==>
              after[n] in Kept(t) && Kept(t)[after[n]].content.code == t[before[n]].content.code
  {
    forall n | n in before ensures after[n] in Kept(t) && Kept(t)[after[n]].content.code == t[before[n]].content.code {
      assert MovesTo(t, before[n], after[n]);
    }
  }

  lemma EveryCodeHasEnglish(plain: map<Id, Content>, t: Templates)
    requires Seeded(AllEnglish(plain), t)
    ensures forall id :: id in t ==> Has(t, t[id].content.code, "en")
    ensures forall id :: id in plain ==> id in t && t[id] == Localized(plain[id], "en")
    ensures forall id :: id in t && t[id].locale == "en" ==> id in plain
  {
    var english := AllEnglish(plain);
    forall id | id in t ensures Has(t, t[id].content.code, "en") {
      if id in english {
        assert Is(t, id, t[id].content.code, "en");
      } else {
        var en :| en in english && english[en] == Localized(t[id].content, "en");
        assert Is(t, en, t[id].content.code, "en");
      }
    }
  }

  /** Right after an upgrade, a downgrade gives back the original templates, ids included, and moves no notification. */
  lemma DowngradeUndoesUpgrade(plain: map<Id, Content>, t: Templates, before: map<Id, Id>, after: map<Id, Id>)
    requires UniqueCode(plain) && Seeded(AllEnglish(plain), t) && ReferencesHold(before, plain.Keys)
    requires Repointed(t, before, after)
    ensures Contents(Kept(t)) == plain && OneRowWithoutEnglish(t)
    ensures after == before
  {
    EveryCodeHasEnglish(plain, t);
    hide Seeded, Has, UniqueCode;
    SameEntries(Contents(Kept(t)), plain);
    forall n | n in before ensures after[n] == before[n] {
      assert MovesTo(t, before[n], after[n]);
    }
  }

  /** Seeding again adds nothing: every English code has its German row. */
  lemma SeedingTwice(before: Templates, once: Templates, twice: Templates)
    requires Seeded(before, once) && Seeded(once, twice)
    ensures twice == once
  {
    assert forall id :: id in twice ==> id in once;
    SameEntries(twice, once);
  }
}
