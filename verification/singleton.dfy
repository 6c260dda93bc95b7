/** A table that holds at most one row: the abstract singleton model. Every
    save writes primary key 1, deleting does nothing and loading fetches
    row 1, creating it from the field defaults when it is missing. */
module Singleton {
  import opened Wrappers

  /** The only primary key a singleton row ever has. */
  const SingletonPk: int := 1

  /** A table: primary key to the row's field values. */
  type Table<T> = map<int, T>

  /** A model instance: its primary key (none before its first save) and
      its field values. */
  datatype Row<T> = Row(pk: Option<int>, fields: T)

  /** The table after a save, and the instance with its key set. */
  datatype Saved<T> = Saved(table: Table<T>, row: Row<T>)

  /** The row a load hands back, and the table afterwards. */
  datatype Loaded<T> = Loaded(row: Row<T>, table: Table<T>, created: bool)

  /** The singleton invariant: no key other than 1 is in use. */
  predicate AtMostOne<T>(table: Table<T>) {
    table.Keys <= {SingletonPk}
  }

  /** `save`: whatever key the instance had, it is written as row 1, which
      is inserted or overwritten; every other row stays as it was. */
  function Save<T>(table: Table<T>, row: Row<T>): (r: Saved<T>)
    ensures r.row.pk == Some(SingletonPk) && r.row.fields == row.fields
    ensures SingletonPk in r.table && r.table[SingletonPk] == row.fields
    ensures r.table.Keys == table.Keys + {SingletonPk}
    ensures forall k | k in table && k != SingletonPk :: r.table[k] == table[k]
  {
    var saved := row.(pk := Some(SingletonPk));
    Saved(table[SingletonPk := saved.fields], saved)
  }

  /** `delete`: does nothing, so the row survives. */
  function Delete<T>(table: Table<T>, row: Row<T>): (r: Table<T>)
    ensures r == table
  {
    table
  }

  /** `load`: `get_or_create(pk=1)`. An existing row 1 is returned as it
      is; otherwise a row is made from the field `defaults` and stored. */
  function Load<T>(table: Table<T>, defaults: T): (r: Loaded<T>)
    ensures r.row.pk == Some(SingletonPk)
    ensures SingletonPk in r.table && r.table[SingletonPk] == r.row.fields
    ensures r.created <==> SingletonPk !in table
    ensures !r.created ==> r.table == table && r.row.fields == table[SingletonPk]
    ensures r.created ==> r.table == table[SingletonPk := defaults] && r.row.fields == defaults
  {
    if SingletonPk in table then Loaded(Row(Some(SingletonPk), table[SingletonPk]), table, false)
    else Loaded(Row(Some(SingletonPk), defaults), table[SingletonPk := defaults], true)
  }

  /** The `DatabaseError('Forced update did not affect any rows.')` the
      framework raises when an update it was told to force finds no row. */
  datatype DbError = ForcedUpdateMissedRow

  /** `save(**kwargs)` as written: `super().save(args, kwargs)` hands the
      framework the argument tuple and the keyword dictionary as its first two
      positional parameters, `force_insert` and `force_update`. Without
      positional arguments the tuple is empty and does not force an insert;
      a non-empty keyword dictionary forces an update, which fails while row 1
      does not exist. Otherwise the save is the one `Save` describes. */
  function SaveForwarding<T>(table: Table<T>, row: Row<T>, keywords: bool): (r: Result<Saved<T>, DbError>)
    ensures r.Err? <==> keywords && SingletonPk !in table
    ensures r.Ok? ==> r.value == Save(table, row)
    ensures !keywords ==> r == Ok(Save(table, row))
  {
    if keywords && SingletonPk !in table then Err(ForcedUpdateMissedRow) else Ok(Save(table, row))
  }

  /** `load` as written: `get_or_create(pk=1)` creates a missing row by
      saving a fresh instance with the keywords `force_insert` and `using`,
      which `SaveForwarding` turns into a forced update of the missing row. So
      loading fails exactly when row 1 is absent, and otherwise returns what
      `Load` returns. */
  function LoadAsWritten<T>(table: Table<T>, defaults: T): (r: Result<Loaded<T>, DbError>)
    ensures r.Err? <==> SingletonPk !in table
    ensures r.Ok? ==> r.value == Load(table, defaults) && !r.value.created
  {
    if SingletonPk in table then Ok(Loaded(Row(Some(SingletonPk), table[SingletonPk]), table, false))
    else
      match SaveForwarding(table, Row(None, defaults), true)
      case Err(e) => Err(e)
      case Ok(saved) => Ok(Loaded(saved.row, saved.table, true))
  }

  /** The first load on an empty table fails as written, where get-or-create
      is meant to make row 1 from the defaults. */
  lemma FirstLoadFails<T>(defaults: T)
    ensures LoadAsWritten(map[], defaults) == Err(ForcedUpdateMissedRow)
    ensures Load(map[], defaults).created && Load(map[], defaults).table == map[SingletonPk := defaults]
  {
  }

  /** Saves and loads never put a second row in the table. */
  lemma OperationsKeepAtMostOne<T>(table: Table<T>, row: Row<T>, defaults: T)
    requires AtMostOne(table)
    ensures AtMostOne(Save(table, row).table)
    ensures AtMostOne(Delete(table, row))
    ensures AtMostOne(Load(table, defaults).table)
    ensures |Save(table, row).table| == 1
  {
    assert Save(table, row).table.Keys == {SingletonPk};
  }

  /** A second load creates nothing and returns the same row. */
  lemma LoadIdempotent<T>(table: Table<T>, defaults: T)
    ensures var first := Load(table, defaults);
      && !Load(first.table, defaults).created
      && Load(first.table, defaults).row == first.row
      && Load(first.table, defaults).table == first.table
  {
  }

  /** Loading after a save returns what was saved, and the defaults play no
      part. */
  lemma LoadAfterSave<T>(table: Table<T>, row: Row<T>, defaults: T)
    ensures var loaded := Load(Save(table, row).table, defaults);
      && !loaded.created
      && loaded.row == Save(table, row).row
  {
  }

  /** Deleting and then loading is the same as loading: the row survives a
      delete. */
  lemma LoadAfterDelete<T>(table: Table<T>, row: Row<T>, defaults: T)
    ensures Load(Delete(table, row), defaults) == Load(table, defaults)
  {
  }

  /** Two saves of instances with different keys still leave one row, the
      one saved last. */
  lemma SavesOverwrite<T>(table: Table<T>, a: Row<T>, b: Row<T>)
    requires AtMostOne(table)
    ensures var t := Save(Save(table, a).table, b).table;
      t == map[SingletonPk := b.fields]
  {
    var t := Save(Save(table, a).table, b).table;
    assert t.Keys == map[SingletonPk := b.fields].Keys;
  }
}
