/** The sweep that gives the foreign keys on users a delete action, and its way back. */
module ForeignKeySweep {
  import opened Common

  datatype OnDelete = NoAction | Restrict | Cascade | SetNull | SetDefault
  datatype Column = Column(table: string, name: string)
  /** A constraint is addressed by its table and its name. */
  datatype Key = Key(table: string, name: string)
  datatype ForeignKey = ForeignKey(column: string, parent: string, onDelete: OnDelete)
  datatype Saved = Saved(constraint: string, prior: OnDelete)

  type Catalogue = map<Key, ForeignKey>
  type Snapshot = map<Column, Saved>

  datatype Wanted = Wanted(column: Column, onDelete: OnDelete)

  const USER_FKS: seq<Wanted> := [
    Wanted(Column("notifications", "recipient_id"), Cascade),
    Wanted(Column("api_keys", "created_by"), Cascade),
    Wanted(Column("assessments", "initiator_id"), Cascade),
    Wanted(Column("assessments", "approver_id"), SetNull),
    Wanted(Column("assessment_groups", "initiator_id"), Cascade),
    Wanted(Column("cpas", "author_id"), Cascade),
    Wanted(Column("cpa_participants", "user_id"), Cascade),
    Wanted(Column("pdps", "author_id"), Cascade),
    Wanted(Column("pdps", "reviewer_id"), SetNull),
    Wanted(Column("pdp_comments", "user_id"), Cascade),
    Wanted(Column("import_jobs", "initiated_by"), Cascade),
    Wanted(Column("files", "uploaded_by"), Cascade),
    Wanted(Column("mass_exams", "initiator_id"), Cascade),
    Wanted(Column("talent_cards", "author_id"), Cascade)
  ]

  ghost predicate DistinctColumns(list: seq<Wanted>) {
    forall i, j :: 0 <= i < j < |list| ==> list[i].column != list[j].column
  }

  // ----- What a sweep leaves

  predicate OnUsers(fks: Catalogue, column: Column, key: Key) {
    key in fks && key.table == column.table && fks[key].column == column.name && fks[key].parent == "users"
  }

  ghost predicate HasForeignKey(fks: Catalogue, column: Column) {
    exists key :: OnUsers(fks, column, key)
  }

  function KeyOf(list: seq<Wanted>, names: seq<string>, i: nat): Key
    requires i < |list| && i < |names|
  {
    Key(list[i].column.table, names[i])
  }

  /** Each name is that of a foreign key from its column to users. */
  ghost predicate Resolved(fks: Catalogue, list: seq<Wanted>, names: seq<string>) {
    |names| <= |list| && forall i :: 0 <= i < |names| ==> OnUsers(fks, list[i].column, KeyOf(list, names, i))
  }

  /** The named constraints, and no others, were dropped and created anew with these actions. */
  ghost predicate Swept(before: Catalogue, after: Catalogue, list: seq<Wanted>, names: seq<string>,
                        actions: seq<OnDelete>)
  {
    && |names| == |actions| <= |list| && after.Keys == before.Keys
    && (forall i :: 0 <= i < |names| ==>
          KeyOf(list, names, i) in after
          && after[KeyOf(list, names, i)] == ForeignKey(list[i].column.name, "users", actions[i]))
    && (forall key :: key in before && (forall i :: 0 <= i < |names| ==> KeyOf(list, names, i) != key) ==>
          after[key] == before[key])
  }

  function ActionsOf(list: seq<Wanted>): seq<OnDelete> {
    seq(|list|, i requires 0 <= i < |list| => list[i].onDelete)
  }

  /** The snapshot holds each name with the action its constraint had. */
  ghost predicate Snapped(fks: Catalogue, list: seq<Wanted>, names: seq<string>, snapshot: Snapshot) {
    |names| <= |list| &&
    forall i :: 0 <= i < |names| ==>
      && KeyOf(list, names, i) in fks && list[i].column in snapshot
      && snapshot[list[i].column] == Saved(names[i], fks[KeyOf(list, names, i)].onDelete)
  }

  /** Names and actions come from the snapshot; without a row for the column the action is none. */
  ghost predicate Recalled(snapshot: Snapshot, list: seq<Wanted>, names: seq<string>, actions: seq<OnDelete>) {
    |names| == |actions| <= |list| &&
    forall i :: 0 <= i < |names| ==>
      if list[i].column in snapshot then snapshot[list[i].column] == Saved(names[i], actions[i])
      else actions[i] == NoAction
  }

  ghost predicate DistinctKeys(list: seq<Wanted>, names: seq<string>) {
    |names| <= |list| && forall i, j :: 0 <= i < j < |names| ==> KeyOf(list, names, i) != KeyOf(list, names, j)
  }

  /** The catalogue after the first `n` columns of a downgrade, its actions aside: a recalled key is on its column. */
  ghost function Retargeted(fks: Catalogue, list: seq<Wanted>, snapshot: Snapshot, n: nat): Catalogue
    requires n <= |list|
  {
    if n == 0 then fks
    else
      var before, column := Retargeted(fks, list, snapshot, n - 1), list[n - 1].column;
      if column in snapshot
      then before[Key(column.table, snapshot[column].constraint) := ForeignKey(column.name, "users", NoAction)]
      else before
  }

  /** The recalled constraint of the column is there, or without a snapshot row some foreign key to users. */
  ghost predicate Found(fks: Catalogue, list: seq<Wanted>, snapshot: Snapshot, n: nat)
    requires n < |list|
  {
    var column := list[n].column;
    if column in snapshot then Key(column.table, snapshot[column].constraint) in fks
    else HasForeignKey(Retargeted(fks, list, snapshot, n), column)
  }

  ghost predicate Restorable(fks: Catalogue, list: seq<Wanted>, snapshot: Snapshot) {
    forall n :: 0 <= n < |list| ==> Found(fks, list, snapshot, n)
  }

  /** The same constraints on the same columns, whatever their actions. */
  ghost predicate SameShape(a: Catalogue, b: Catalogue) {
    a.Keys == b.Keys && forall key :: key in a ==> a[key].column == b[key].column && a[key].parent == b[key].parent
  }

  class Database {
    var fks: Catalogue
    var snapshot: Option<Snapshot>

    constructor (fks: Catalogue)
      ensures this.fks == fks && snapshot.None?
    {
      this.fks, snapshot := fks, None;
    }

    /** Some foreign key from the column to users, under whatever name. */
    method Resolve(column: Column) returns (found: Option<string>)
      ensures found.Some? ==> OnUsers(fks, column, Key(column.table, found.value))
      ensures found.None? ==> !HasForeignKey(fks, column)
    {
      var todo := fks.Keys;
      while todo != {}
        invariant todo <= fks.Keys
        invariant forall key :: key in fks && key !in todo ==> !OnUsers(fks, column, key)
      {
        var key := Next(todo);
        if OnUsers(fks, column, key) {
          return Some(key.name);
        }
        todo := todo - {key};
      }
      return None;
    }

    /** Drops the named constraint and creates it again; fails when it is not there. */
    method Recreate(column: Column, constraint: string, action: OnDelete) returns (ok: bool)
      modifies this`fks
      ensures ok <==> Key(column.table, constraint) in old(fks)
      ensures fks ==
              if ok then old(fks)[Key(column.table, constraint) := ForeignKey(column.name, "users", action)]
              else old(fks)
    {
      var key := Key(column.table, constraint);
      ok := key in fks;
      if ok {
        fks := fks - {key};
        fks := fks[key := ForeignKey(column.name, "users", action)];
        SameEntries(fks, old(fks)[key := ForeignKey(column.name, "users", action)]);
      }
    }

    /** Fails, undoing everything, when a listed column has no foreign key to users. */
    method Upgrade(list: seq<Wanted>) returns (ok: bool, ghost names: seq<string>)
      requires DistinctColumns(list)
      modifies this
      ensures ok <==> forall i :: 0 <= i < |list| ==> HasForeignKey(old(fks), list[i].column)
      ensures !ok ==> fks == old(fks) && snapshot == old(snapshot)
      ensures ok ==> |names| == |list| && Resolved(old(fks), list, names)
      ensures ok ==> Swept(old(fks), fks, list, names, ActionsOf(list))
      ensures ok ==> snapshot.Some? && Snapped(old(fks), list, names, snapshot.value)
    {
      var before := fks;
      var rows := snapshot.GetOr(map[]);
      names := [];
      for n := 0 to |list|
        invariant |names| == n && snapshot == old(snapshot) && Resolved(before, list, names)
        invariant Swept(before, fks, list, names, ActionsOf(list)[..n]) && Snapped(before, list, names, rows)
        invariant forall i :: 0 <= i < n ==> HasForeignKey(before, list[i].column)
      {
        hide OnUsers, HasForeignKey, Resolved, Swept, Snapped, DistinctColumns, ActionsOf;
        var column := list[n].column;
        OtherColumnsAsBefore(before, fks, list, names, n);
        var found := Resolve(column);
        if found.None? {
          fks := before;
          return false, names;
        }
        var key := Key(column.table, found.value);
        UpgradeOne(before, fks, list, names, rows, found.value);
        rows := rows[column := Saved(found.value, fks[key].onDelete)];
        var _ := Recreate(column, found.value, list[n].onDelete);
        names := names + [found.value];
      }
      assert ActionsOf(list)[..|list|] == ActionsOf(list);
      snapshot := Some(rows);
      ok := true;
    }

    /** Name and action to restore: as recorded, else of whatever foreign key is found, with no action. */
    method Recall(column: Column) returns (found: bool, name: string, action: OnDelete)
      requires snapshot.Some?
      ensures column in snapshot.value ==> found && snapshot.value[column] == Saved(name, action)
      ensures column !in snapshot.value ==> action == NoAction && (found <==> HasForeignKey(fks, column))
      ensures column !in snapshot.value && found ==>
              OnUsers(fks, column, Key(column.table, name)) && Key(column.table, name) in fks
    {
      if column in snapshot.value {
        return true, snapshot.value[column].constraint, snapshot.value[column].prior;
      }
      var resolved := Resolve(column);
      if resolved.Some? {
        IsThere(fks, column, Key(column.table, resolved.value));
      }
      return resolved.Some?, resolved.GetOr([]), NoAction;
    }

    /**
     Fails exactly without a snapshot table, or when a recalled constraint is gone, or when a column
     without a snapshot row, which falls back to no action, has no foreign key to users.
     */
    method Downgrade(list: seq<Wanted>) returns (ok: bool, ghost names: seq<string>, ghost actions: seq<OnDelete>)
      modifies this
      ensures ok <==> old(snapshot).Some? && Restorable(old(fks), list, old(snapshot).value)
      ensures !ok ==> fks == old(fks) && snapshot == old(snapshot)
      ensures ok ==> snapshot.None? && |names| == |list| && Recalled(old(snapshot).value, list, names, actions)
      ensures ok && DistinctKeys(list, names) ==> Swept(old(fks), fks, list, names, actions)
    {
      hide Recalled, DistinctKeys, Swept, SameShape, Retargeted, Restoring, HasForeignKey, OnUsers, Found;
      var before := fks;
      names, actions := [], [];
      if snapshot.None? {
        return false, names, actions;
      }
      RestoringStarts(before, list, snapshot.value);
      for n := 0 to |list|
        invariant |names| == n && snapshot == old(snapshot)
        invariant Restoring(before, fks, list, snapshot.value, names, actions)
      {
        var column := list[n].column;
        var found, name, action := Recall(column);
        FoundNow(before, fks, list, snapshot.value, names, actions, name, action, found);
        if !found {
          fks := before;
          return false, names, actions;
        }
        RestoreOne(before, fks, list, snapshot.value, names, actions, name, action);
        var there := Recreate(column, name, action);
        if !there {
          fks := before;
          return false, names, actions;
        }
        names, actions := names + [name], actions + [action];
      }
      RestoringEnds(before, fks, list, snapshot.value, names, actions);
      snapshot, ok := None, true;
    }
  }

  // ----- One constraint

  lemma OtherColumnsAsBefore(before: Catalogue, now: Catalogue, list: seq<Wanted>, names: seq<string>, n: nat)
    requires DistinctColumns(list) && n < |list| && |names| == n
    requires Resolved(before, list, names) && Swept(before, now, list, names, ActionsOf(list)[..n])
    ensures forall key :: OnUsers(now, list[n].column, key) <==> OnUsers(before, list[n].column, key)
    ensures HasForeignKey(now, list[n].column) <==> HasForeignKey(before, list[n].column)
    ensures forall key :: OnUsers(now, list[n].column, key) ==>
              key in now && now[key] == before[key] && forall i :: 0 <= i < n ==> KeyOf(list, names, i) != key
  {
    forall key | key in before && (OnUsers(now, list[n].column, key) || OnUsers(before, list[n].column, key))
      ensures now[key] == before[key] && forall i :: 0 <= i < n ==> KeyOf(list, names, i) != key
    {
      forall i | 0 <= i < n ensures KeyOf(list, names, i) != key {
        assert OnUsers(before, list[i].column, KeyOf(list, names, i));
        assert list[i].column != list[n].column;
      }
    }
  }

  lemma IsThere(fks: Catalogue, column: Column, key: Key)
    requires OnUsers(fks, column, key)
    ensures HasForeignKey(fks, column) && key in fks
  {
  }

  lemma SameShapeSameKeys(a: Catalogue, b: Catalogue, column: Column)
    requires SameShape(a, b)
    ensures HasForeignKey(a, column) <==> HasForeignKey(b, column)
  {
    forall key ensures OnUsers(a, column, key) <==> OnUsers(b, column, key) {
    }
  }

  /** One column of a downgrade keeps to the retargeted catalogue. */
  lemma StepsAlike(before: Catalogue, now: Catalogue, list: seq<Wanted>, snapshot: Snapshot, n: nat, name: string,
                   action: OnDelete)
    requires n < |list| && SameShape(now, Retargeted(before, list, snapshot, n))
    requires var column := list[n].column;
             if column in snapshot then name == snapshot[column].constraint
             else OnUsers(now, column, Key(column.table, name))
    ensures var column := list[n].column;
            SameShape(now[Key(column.table, name) := ForeignKey(column.name, "users", action)],
                      Retargeted(before, list, snapshot, n + 1))
  {
    var shape := Retargeted(before, list, snapshot, n);
    hide Retargeted;
    assert Retargeted(before, list, snapshot, n + 1) == if list[n].column in snapshot
      then shape[Key(list[n].column.table, name) := ForeignKey(list[n].column.name, "users", NoAction)] else shape by {
      NextRetargeted(before, list, snapshot, n);
    }
  }

  lemma NextRetargeted(before: Catalogue, list: seq<Wanted>, snapshot: Snapshot, n: nat)
    requires n < |list|
    ensures var column, shape := list[n].column, Retargeted(before, list, snapshot, n);
            Retargeted(before, list, snapshot, n + 1) ==
            if column in snapshot
            then shape[Key(column.table, snapshot[column].constraint) := ForeignKey(column.name, "users", NoAction)]
            else shape
  {
  }

  /** Where a downgrade stands that has dealt with the columns of `names`. */
  ghost predicate Restoring(before: Catalogue, now: Catalogue, list: seq<Wanted>, snapshot: Snapshot,
                            names: seq<string>, actions: seq<OnDelete>)
  {
    && |names| == |actions| <= |list| && now.Keys == before.Keys && Recalled(snapshot, list, names, actions)
    && (DistinctKeys(list, names) ==> Swept(before, now, list, names, actions))
    && SameShape(now, Retargeted(before, list, snapshot, |names|))
    && forall i :: 0 <= i < |names| ==> Found(before, list, snapshot, i)
  }

  lemma RestoringStarts(before: Catalogue, list: seq<Wanted>, snapshot: Snapshot)
    ensures Restoring(before, before, list, snapshot, [], [])
  {
  }

  lemma RestoringEnds(before: Catalogue, now: Catalogue, list: seq<Wanted>, snapshot: Snapshot, names: seq<string>,
                      actions: seq<OnDelete>)
    requires Restoring(before, now, list, snapshot, names, actions) && |names| == |list|
    ensures Restorable(before, list, snapshot) && Recalled(snapshot, list, names, actions)
    ensures DistinctKeys(list, names) ==> Swept(before, now, list, names, actions)
  {
    hide Recalled, DistinctKeys, Swept, SameShape, Retargeted, Found;
  }

  lemma FoundNow(before: Catalogue, now: Catalogue, list: seq<Wanted>, snapshot: Snapshot, names: seq<string>,
                 actions: seq<OnDelete>, name: string, action: OnDelete, found: bool)
    requires Restoring(before, now, list, snapshot, names, actions) && |names| < |list|
    requires var column := list[|names|].column;
             if column in snapshot then found && snapshot[column] == Saved(name, action)
             else (found <==> HasForeignKey(now, column)) && (found ==> Key(column.table, name) in now)
    ensures found && Key(list[|names|].column.table, name) in now <==> Found(before, list, snapshot, |names|)
  {
    hide Recalled, DistinctKeys, Swept, SameShape, Retargeted, HasForeignKey;
    SameShapeSameKeys(now, Retargeted(before, list, snapshot, |names|), list[|names|].column);
  }

  lemma RestoreOne(before: Catalogue, now: Catalogue, list: seq<Wanted>, snapshot: Snapshot, names: seq<string>,
                   actions: seq<OnDelete>, name: string, action: OnDelete)
    requires Restoring(before, now, list, snapshot, names, actions) && |names| < |list|
    requires var column := list[|names|].column;
             if column in snapshot then snapshot[column] == Saved(name, action)
             else action == NoAction && OnUsers(now, column, Key(column.table, name))
    ensures var column := list[|names|].column;
            Key(column.table, name) in now && Found(before, list, snapshot, |names|) ==>
              Restoring(before, now[Key(column.table, name) := ForeignKey(column.name, "users", action)], list,
                        snapshot, names + [name], actions + [action])
  {
    hide DistinctKeys, Swept, SameShape, Retargeted, Found, OnUsers, Recalled;
    DowngradeOne(before, now, list, names, actions, name, action);
    StepsAlike(before, now, list, snapshot, |names|, name, action);
    RecalledMore(snapshot, list, names, actions, name, action);
    var key := Key(list[|names|].column.table, name);
    assert key in now ==> now[key := ForeignKey(list[|names|].column.name, "users", action)].Keys == now.Keys;
  }

  lemma RecalledMore(snapshot: Snapshot, list: seq<Wanted>, names: seq<string>, actions: seq<OnDelete>, name: string,
                     action: OnDelete)
    requires Recalled(snapshot, list, names, actions) && |names| < |list|
    requires if list[|names|].column in snapshot then snapshot[list[|names|].column] == Saved(name, action)
             else action == NoAction
    ensures Recalled(snapshot, list, names + [name], actions + [action])
  {
  }

  lemma SameKeys(before: Catalogue, after: Catalogue, list: seq<Wanted>, names: seq<string>, actions: seq<OnDelete>)
    requires Swept(before, after, list, names, actions)
    ensures after.Keys == before.Keys
  {
  }

  lemma Sweep(before: Catalogue, now: Catalogue, list: seq<Wanted>, names: seq<string>, actions: seq<OnDelete>,
              name: string, action: OnDelete)
    requires Swept(before, now, list, names, actions) && |names| < |list|
    requires var key := Key(list[|names|].column.table, name);
             key in now && forall i :: 0 <= i < |names| ==> KeyOf(list, names, i) != key
    ensures var column := list[|names|].column;
            Swept(before, now[Key(column.table, name) := ForeignKey(column.name, "users", action)], list,
                  names + [name], actions + [action])
  {
    var column := list[|names|].column;
    var key, names', actions' := Key(column.table, name), names + [name], actions + [action];
    var after := now[key := ForeignKey(column.name, "users", action)];
    assert forall i :: 0 <= i < |names| ==>
             KeyOf(list, names', i) == KeyOf(list, names, i) && actions'[i] == actions[i];
    assert KeyOf(list, names', |names|) == key;
    assert after.Keys == before.Keys;
  }

  lemma RecordOne(before: Catalogue, list: seq<Wanted>, names: seq<string>, rows: Snapshot, name: string)
    requires DistinctColumns(list) && |names| < |list| && Resolved(before, list, names)
             && Snapped(before, list, names, rows)
    requires OnUsers(before, list[|names|].column, Key(list[|names|].column.table, name))
    ensures var column := list[|names|].column;
            && Resolved(before, list, names + [name]) && HasForeignKey(before, column)
            && Snapped(before, list, names + [name],
                       rows[column := Saved(name, before[Key(column.table, name)].onDelete)])
  {
    var n, names' := |names|, names + [name];
    assert OnUsers(before, list[n].column, KeyOf(list, names', n));
    assert forall i :: 0 <= i < n ==> KeyOf(list, names', i) == KeyOf(list, names, i);
    assert forall i :: 0 <= i < n ==> list[i].column != list[n].column;
  }

  lemma UpgradeOne(before: Catalogue, now: Catalogue, list: seq<Wanted>, names: seq<string>, rows: Snapshot,
                   name: string)
    requires DistinctColumns(list) && |names| < |list| && Resolved(before, list, names)
    requires Swept(before, now, list, names, ActionsOf(list)[..|names|]) && Snapped(before, list, names, rows)
    requires OnUsers(now, list[|names|].column, Key(list[|names|].column.table, name))
    ensures var n, column := |names|, list[|names|].column;
            var key := Key(column.table, name);
            && key in now && Resolved(before, list, names + [name]) && HasForeignKey(before, column)
            && Snapped(before, list, names + [name], rows[column := Saved(name, now[key].onDelete)])
            && Swept(before, now[key := ForeignKey(column.name, "users", list[n].onDelete)], list, names + [name],
                     ActionsOf(list)[..n + 1])
  {
    var n := |names|;
    assert ActionsOf(list)[..n + 1] == ActionsOf(list)[..n] + [list[n].onDelete];
    hide Swept, OnUsers, HasForeignKey, ActionsOf, Resolved, Snapped, DistinctColumns;
    OtherColumnsAsBefore(before, now, list, names, n);
    RecordOne(before, list, names, rows, name);
    Sweep(before, now, list, names, ActionsOf(list)[..n], name, list[n].onDelete);
  }

  lemma DowngradeOne(before: Catalogue, now: Catalogue, list: seq<Wanted>, names: seq<string>, actions: seq<OnDelete>,
                     name: string, action: OnDelete)
    requires |names| == |actions| < |list| && (DistinctKeys(list, names) ==> Swept(before, now, list, names, actions))
    ensures var column := list[|names|].column;
            Key(column.table, name) in now && DistinctKeys(list, names + [name]) ==>
              Swept(before, now[Key(column.table, name) := ForeignKey(column.name, "users", action)], list,
                    names + [name], actions + [action])
  {
    var key, names' := Key(list[|names|].column.table, name), names + [name];
    assert forall i :: 0 <= i < |names| ==> KeyOf(list, names', i) == KeyOf(list, names, i);
    assert KeyOf(list, names', |names|) == key;
    if key in now && DistinctKeys(list, names') {
      assert DistinctKeys(list, names);
      Sweep(before, now, list, names, actions, name, action);
    }
  }

  // ----- There and back

  lemma ResolvedKeysDiffer(fks: Catalogue, list: seq<Wanted>, names: seq<string>)
    requires DistinctColumns(list) && Resolved(fks, list, names)
    ensures DistinctKeys(list, names)
  {
    forall i, j | 0 <= i < j < |names| ensures KeyOf(list, names, i) != KeyOf(list, names, j) {
      assert OnUsers(fks, list[i].column, KeyOf(list, names, i)) && OnUsers(fks, list[j].column, KeyOf(list, names, j));
      assert list[i].column != list[j].column;
    }
  }

  /** After an upgrade a downgrade can restore, and takes the constraints' own names and prior actions. */
  lemma SnapshotRecalls(original: Catalogue, upgraded: Catalogue, list: seq<Wanted>, names: seq<string>,
                        snapshot: Snapshot, recalled: seq<string>, actions: seq<OnDelete>)
    requires |names| == |list| && Snapped(original, list, names, snapshot) && upgraded.Keys == original.Keys
    ensures Restorable(upgraded, list, snapshot) && forall i :: 0 <= i < |list| ==> KeyOf(list, names, i) in original
    ensures |recalled| == |list| && Recalled(snapshot, list, recalled, actions) ==>
              recalled == names
              && forall i :: 0 <= i < |list| ==> actions[i] == original[KeyOf(list, names, i)].onDelete
  {
    if |recalled| == |list| && Recalled(snapshot, list, recalled, actions) {
      forall i | 0 <= i < |list|
        ensures recalled[i] == names[i] && actions[i] == original[KeyOf(list, names, i)].onDelete
      {
        assert list[i].column in snapshot;
      }
    }
  }

  /** Sweeping the same constraints with their old actions undoes the first sweep. */
  lemma SweepBack(original: Catalogue, upgraded: Catalogue, restored: Catalogue, list: seq<Wanted>, names: seq<string>,
                  wanted: seq<OnDelete>, prior: seq<OnDelete>)
    requires Resolved(original, list, names) && Swept(original, upgraded, list, names, wanted)
    requires Swept(upgraded, restored, list, names, prior)
    requires forall i :: 0 <= i < |names| ==>
               KeyOf(list, names, i) in original && prior[i] == original[KeyOf(list, names, i)].onDelete
    ensures restored == original
  {
    forall key | key in original ensures restored[key] == original[key] {
      if i :| 0 <= i < |names| && KeyOf(list, names, i) == key {
        assert OnUsers(original, list[i].column, KeyOf(list, names, i));
      }
    }
    SameEntries(restored, original);
  }

  /** Downgrade right after upgrade gives back every foreign key as it was, whatever its name and action. */
  method UpgradeThenDowngrade(db: Database, list: seq<Wanted>) returns (upgraded: bool, restored: bool)
    requires DistinctColumns(list)
    modifies db
    ensures db.fks == old(db.fks)
    ensures upgraded <==> forall i :: 0 <= i < |list| ==> HasForeignKey(old(db.fks), list[i].column)
    ensures upgraded ==> restored && db.snapshot.None?
  {
    hide OnUsers, Resolved, Swept, Snapped, DistinctColumns, ActionsOf, Recalled, Restorable, DistinctKeys;
    ghost var original := db.fks;
    ghost var names, recalled, actions;
    restored := false;
    upgraded, names := db.Upgrade(list);
    if upgraded {
      ghost var snapshot, converted := db.snapshot.value, db.fks;
      SameKeys(original, converted, list, names, ActionsOf(list));
      ResolvedKeysDiffer(original, list, names);
      SnapshotRecalls(original, converted, list, names, snapshot, names, []);
      restored, recalled, actions := db.Downgrade(list);
      SnapshotRecalls(original, converted, list, names, snapshot, recalled, actions);
      SweepBack(original, converted, db.fks, list, names, ActionsOf(list), actions);
    }
  }

  /** The place of a listed column, told by the lengths of its names and, where those agree, by a letter. */
  function PlaceOf(c: Column): int {
    if c.table == [] then -1
    else
      match |c.table|
      case 13 => 0
      case 8 => 1
      case 11 => if |c.name| == 11 then 3 else if c.table[0] == 'a' then 2 else 10
      case 17 => 4
      case 4 => if |c.name| == 11 then 8 else if c.table[0] == 'c' then 5 else 7
      case 16 => 6
      case 12 => if |c.name| == 7 then 9 else 13
      case 5 => 11
      case 10 => 12
      case _ => -1
  }

  lemma ListedPlaces()
    ensures forall i :: 0 <= i < |USER_FKS| ==> PlaceOf(USER_FKS[i].column) == i
  {
  }

  lemma ListedColumnsDiffer()
    ensures DistinctColumns(USER_FKS)
  {
    ListedPlaces();
    hide USER_FKS, PlaceOf;
    forall i, j | 0 <= i < j < |USER_FKS| ensures USER_FKS[i].column != USER_FKS[j].column {
      assert PlaceOf(USER_FKS[i].column) != PlaceOf(USER_FKS[j].column);
    }
  }

  /** The migration itself, on its fourteen columns. */
  method UserKeysThereAndBack(db: Database) returns (upgraded: bool, restored: bool)
    modifies db
    ensures db.fks == old(db.fks) && (upgraded ==> restored)
    ensures upgraded <==> forall i :: 0 <= i < |USER_FKS| ==> HasForeignKey(old(db.fks), USER_FKS[i].column)
  {
    ListedColumnsDiffer();
    hide USER_FKS, DistinctColumns, HasForeignKey;
    upgraded, restored := UpgradeThenDowngrade(db, USER_FKS);
  }
}
