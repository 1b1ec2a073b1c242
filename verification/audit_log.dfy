/**
 * `AuditLogMixin.save`: before the row is written, an `AuditLog` entry records either
 * the creation of the object or, for an object loaded from the database, the fields
 * whose value differs from the loaded one.
 *
 * Field values are `Json` values compared with Python's `!=`. The acting user is
 * always `None`, since the class `threading.local` has no `user` attribute, so the
 * entries carry no user.
 *
 * `SaveAsWritten` writes the creation entry before the row, while the object has no
 * primary key yet; `Save` is the corrected operation, which writes the row first
 * and logs its new key.
 */
module AuditLog {
  import opened Wrappers
  import opened PyJson
  import opened Db

  datatype Field = Field(name: string, attname: string)

  datatype Action = Create | Update | Delete | SoftDelete | Restore

  datatype Change = Change(field: string, before: Json, after: Json)

  datatype LoggedChanges = Created | Changed(changes: seq<Change>)

  datatype Entry = Entry(modelName: string, objectId: int, action: Action, changes: LoggedChanges)

  /** What `save` does, in order: log entries written and the row itself written. */
  datatype Effect = Logged(entry: Entry) | RowSaved

  /**
   * A model instance: its class name, its concrete fields in declaration order, its
   * current attribute values by `attname`, the values `from_db` loaded (absent for an
   * object built in memory), and its primary key.
   */
  datatype Instance = Instance(
    modelName: string,
    fields: seq<Field>,
    values: map<string, Json>,
    loaded: Option<map<string, Json>>,
    pk: Option<int>)

  predicate IsTimestamp(f: Field)
  {
    f.name == "created_at" || f.name == "updated_at"
  }

  /** `d.get(k)`: the value, or `None`. */
  function GetOrNone(d: map<string, Json>, k: string): Json
  {
    if k in d then d[k] else JNull
  }

  /** The change a field would record: its loaded value against its current one. */
  function ChangeOf(f: Field, loaded: map<string, Json>, values: map<string, Json>): Change
  {
    Change(f.name, GetOrNone(loaded, f.attname), GetOrNone(values, f.attname))
  }

  predicate Differs(f: Field, loaded: map<string, Json>, values: map<string, Json>)
  {
    var c := ChangeOf(f, loaded, values);
    !IsTimestamp(f) && !PyEq(c.before, c.after)
  }

  /** The loop over `_meta.fields`: one change per non-timestamp field whose value moved, in field order. */
  function Diff(fields: seq<Field>, loaded: map<string, Json>, values: map<string, Json>): (cs: seq<Change>)
    ensures |cs| <= |fields|
  {
    if |fields| == 0 then []
    else
      var rest := Diff(fields[1..], loaded, values);
      if Differs(fields[0], loaded, values) then [ChangeOf(fields[0], loaded, values)] + rest else rest
  }

  /**
   * A field is recorded exactly when it is not a timestamp and its loaded value (or
   * `None`, when it was not loaded) differs from its current value; what is recorded
   * is that pair.
   */
  lemma {:induction false} DiffSpec(fields: seq<Field>, loaded: map<string, Json>, values: map<string, Json>)
    ensures forall c | c in Diff(fields, loaded, values) ::
      exists i | 0 <= i < |fields| :: Differs(fields[i], loaded, values) && c == ChangeOf(fields[i], loaded, values)
    ensures forall i | 0 <= i < |fields| && Differs(fields[i], loaded, values) ::
      ChangeOf(fields[i], loaded, values) in Diff(fields, loaded, values)
    ensures (forall i | 0 <= i < |fields| :: !Differs(fields[i], loaded, values)) <==> Diff(fields, loaded, values) == []
    decreases |fields|
  {
    if |fields| > 0 {
      DiffSpec(fields[1..], loaded, values);
      var rest := Diff(fields[1..], loaded, values);
      forall c | c in Diff(fields, loaded, values)
        ensures exists i | 0 <= i < |fields| :: Differs(fields[i], loaded, values) && c == ChangeOf(fields[i], loaded, values)
      {
        if c in rest {
          var j :| 0 <= j < |fields| - 1 && Differs(fields[1..][j], loaded, values) && c == ChangeOf(fields[1..][j], loaded, values);
          assert fields[1..][j] == fields[j + 1];
        }
      }
      forall i | 0 <= i < |fields| && Differs(fields[i], loaded, values)
        ensures ChangeOf(fields[i], loaded, values) in Diff(fields, loaded, values)
      {
        if i > 0 {
          assert fields[1..][i - 1] == fields[i];
        }
      }
      if forall i | 0 <= i < |fields| :: !Differs(fields[i], loaded, values) {
        forall j | 0 <= j < |fields| - 1 ensures !Differs(fields[1..][j], loaded, values) {
          assert fields[1..][j] == fields[j + 1];
        }
      } else {
        var i :| 0 <= i < |fields| && Differs(fields[i], loaded, values);
        assert ChangeOf(fields[i], loaded, values) in Diff(fields, loaded, values);
      }
    }
  }

  /**
   * The changes follow the field order: the diff of two runs of fields is the diff of
   * the first followed by the diff of the second.
   */
  lemma {:induction false} DiffAppend(a: seq<Field>, b: seq<Field>, loaded: map<string, Json>, values: map<string, Json>)
    ensures Diff(a + b, loaded, values) == Diff(a, loaded, values) + Diff(b, loaded, values)
    decreases |a|
  {
    if |a| == 0 {
      assert a + b == b;
    } else {
      assert (a + b)[1..] == a[1..] + b;
      assert (a + b)[0] == a[0];
      DiffAppend(a[1..], b, loaded, values);
    }
  }

  /** The entry `save` writes, if any, given the key it logs. */
  function EntryFor(inst: Instance, key: int): Option<Entry>
  {
    match inst.loaded
    case None => Some(Entry(inst.modelName, key, Create, Created))
    case Some(loaded) =>
      var cs := Diff(inst.fields, loaded, inst.values);
      if |cs| == 0 then None else Some(Entry(inst.modelName, key, Update, Changed(cs)))
  }

  /**
   * `save` as written: the entry is created with `object_id=self.pk` before the row is
   * written; `object_id` is a non-null integer column, so a missing key makes the
   * entry's insert fail and the row is never written.
   */
  function SaveAsWritten(inst: Instance): (r: Result<seq<Effect>, IntegrityError>)
    ensures r.Ok? ==> |r.value| >= 1 && r.value[|r.value| - 1] == RowSaved
    ensures r.Ok? ==> |r.value| <= 2 && (|r.value| == 2 ==> r.value[0].Logged?)
  {
    match EntryFor(inst, inst.pk.GetOr(0))
    case None => Ok([RowSaved])
    case Some(entry) =>
      if inst.pk.None? then Err(NotNullViolation("object_id"))
      else Ok([Logged(entry), RowSaved])
  }

  /**
   * An object built in memory without a key, the usual case for an auto-increment
   * key, cannot be saved: logging its creation fails first.
   */
  lemma NewObjectNeverSaved(inst: Instance)
    requires inst.loaded.None? && inst.pk.None?
    ensures SaveAsWritten(inst) == Err(NotNullViolation("object_id"))
  {
  }

  /**
   * `save` as intended: the row is written first, taking the key the database assigns
   * when it has none, and a creation entry then logs that key; an update is logged
   * before the row, as written.
   */
  function Save(inst: Instance, assignedPk: int): (effects: seq<Effect>)
    ensures RowSaved in effects
    ensures |effects| <= 2
  {
    var key := inst.pk.GetOr(assignedPk);
    match EntryFor(inst, key)
    case None => [RowSaved]
    case Some(entry) =>
      if inst.loaded.None? then [RowSaved, Logged(entry)] else [Logged(entry), RowSaved]
  }

  /**
   * Every new object is saved and its creation logged under its key with
   * `{'created': True}`; a loaded object logs an update with exactly its changed
   * fields, and nothing when no field changed; either way the row is written.
   */
  lemma SaveSpec(inst: Instance, assignedPk: int)
    ensures var effects := Save(inst, assignedPk);
      var key := inst.pk.GetOr(assignedPk);
      && (inst.loaded.None? ==>
            effects == [RowSaved, Logged(Entry(inst.modelName, key, Create, Created))])
      && (inst.loaded.Some? ==>
            var cs := Diff(inst.fields, inst.loaded.value, inst.values);
            && (cs == [] ==> effects == [RowSaved])
            && (cs != [] ==> effects == [Logged(Entry(inst.modelName, key, Update, Changed(cs))), RowSaved]))
  {
  }

  /** Where the object has a key, the corrected save logs the same entry as the original. */
  lemma SaveAgreesWhenKeyed(inst: Instance, assignedPk: int)
    requires inst.pk.Some?
    ensures SaveAsWritten(inst).Ok?
    ensures var written := SaveAsWritten(inst).value;
      var effects := Save(inst, assignedPk);
      multiset(written) == multiset(effects)
      && (inst.loaded.Some? ==> written == effects)
  {
  }
}
