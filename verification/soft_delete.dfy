/**
 * `SoftDeleteModel` and `SoftDeleteManager`: deleting a record only flags it; the
 * default manager hides flagged rows, `all_with_deleted` shows every row and
 * `deleted_only` the flagged ones.
 *
 * A table maps primary keys to rows; `save()` writes the whole in-memory instance
 * to its row, inserting it when no row has that key.
 */
module SoftDelete {
  import opened Wrappers
  import opened Db

  datatype Row<D> = Row(data: D, isDeleted: bool, deletedAt: Option<Time>)

  type Table<D> = map<nat, Row<D>>

  /** A model instance in memory: its primary key and its field values. */
  datatype Instance<D> = Instance(id: nat, row: Row<D>)

  /** A new row: `is_deleted` defaults to false and `deleted_at` to null. */
  function NewRow<D>(data: D): (r: Row<D>)
    ensures !r.isDeleted && r.deletedAt.None? && r.data == data
  {
    Row(data, false, None)
  }

  function Save<D>(t: Table<D>, inst: Instance<D>): (u: Table<D>)
    ensures inst.id in u && u[inst.id] == inst.row
    ensures u.Keys == t.Keys + {inst.id}
    ensures forall id | id in t && id != inst.id :: u[id] == t[id]
  {
    t[inst.id := inst.row]
  }

  /** The default manager `objects`. */
  function Objects<D>(t: Table<D>): set<nat>
  {
    set id | id in t && !t[id].isDeleted
  }

  function AllWithDeleted<D>(t: Table<D>): set<nat>
  {
    t.Keys
  }

  function DeletedOnly<D>(t: Table<D>): set<nat>
  {
    set id | id in t && t[id].isDeleted
  }

  /** The two filtered views split the unfiltered one: every row is in exactly one. */
  lemma ViewsPartition<D>(t: Table<D>)
    ensures Objects(t) + DeletedOnly(t) == AllWithDeleted(t)
    ensures Objects(t) * DeletedOnly(t) == {}
  {
  }

  /** `soft_delete`: flag the instance, stamp it, save it. */
  function SoftDeleteRecord<D>(t: Table<D>, inst: Instance<D>, now: Time): (r: (Table<D>, Instance<D>))
    ensures r.1.row.isDeleted && r.1.row.deletedAt == Some(now)
    ensures r.1.id == inst.id && r.1.row.data == inst.row.data
  {
    var flagged := inst.(row := inst.row.(isDeleted := true, deletedAt := Some(now)));
    (Save(t, flagged), flagged)
  }

  /** `restore`: clear the flag and the stamp, save. */
  function Restore<D>(t: Table<D>, inst: Instance<D>): (r: (Table<D>, Instance<D>))
    ensures !r.1.row.isDeleted && r.1.row.deletedAt.None?
    ensures r.1.id == inst.id && r.1.row.data == inst.row.data
  {
    var restored := inst.(row := inst.row.(isDeleted := false, deletedAt := None));
    (Save(t, restored), restored)
  }

  /** `delete` is overridden to soft-delete. */
  function Delete<D>(t: Table<D>, inst: Instance<D>, now: Time): (Table<D>, Instance<D>)
  {
    SoftDeleteRecord(t, inst, now)
  }

  /** `hard_delete`: the model's real `delete`, which removes the row. */
  function HardDelete<D>(t: Table<D>, inst: Instance<D>): (u: Table<D>)
    ensures u.Keys == t.Keys - {inst.id}
  {
    t - {inst.id}
  }

  /**
   * A soft-deleted record leaves the default view, shows in `deleted_only`, and stays
   * in `all_with_deleted`; `delete()` does the same. Other rows keep their views.
   */
  lemma SoftDeleteHides<D>(t: Table<D>, inst: Instance<D>, now: Time)
    ensures var u := SoftDeleteRecord(t, inst, now).0;
      && inst.id !in Objects(u)
      && inst.id in DeletedOnly(u)
      && AllWithDeleted(u) == AllWithDeleted(t) + {inst.id}
      && Objects(u) == Objects(t) - {inst.id}
      && DeletedOnly(u) == DeletedOnly(t) + {inst.id}
      && Delete(t, inst, now).0 == u
  {
  }

  /** Restoring a record puts it back in the default view with its data, and takes it out of `deleted_only`. */
  lemma RestoreShows<D>(t: Table<D>, inst: Instance<D>)
    ensures var u := Restore(t, inst).0;
      && inst.id in Objects(u)
      && inst.id !in DeletedOnly(u)
      && u[inst.id].data == inst.row.data
      && Objects(u) == Objects(t) + {inst.id}
  {
  }

  /** Soft delete then restore: the row is as it was when live, and every view is as before. */
  lemma SoftDeleteThenRestore<D>(t: Table<D>, inst: Instance<D>, now: Time)
    requires inst.id in t && t[inst.id] == inst.row
    requires !inst.row.isDeleted && inst.row.deletedAt.None?
    ensures var (u, deleted) := SoftDeleteRecord(t, inst, now);
      var (w, restored) := Restore(u, deleted);
      && w == t
      && restored == inst
  {
    var (u, deleted) := SoftDeleteRecord(t, inst, now);
    var (w, restored) := Restore(u, deleted);
    assert restored == inst;
    assert w.Keys == t.Keys;
  }

  /** A hard-deleted record is gone from every view; other rows are untouched. */
  lemma HardDeleteRemoves<D>(t: Table<D>, inst: Instance<D>)
    ensures var u := HardDelete(t, inst);
      && inst.id !in Objects(u) && inst.id !in DeletedOnly(u) && inst.id !in AllWithDeleted(u)
      && forall id | id in u :: u[id] == t[id]
  {
  }
}
