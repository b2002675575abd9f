/** The database's shape and the three kinds of statement that change it. */
module Schema {
  import opened Text

  datatype Index = Index(table: string, columns: seq<string>)

  datatype Schema = Schema(tables: map<string, seq<string>>, indexes: map<string, Index>)

  datatype Statement =
    | CreateTable(name: string, columns: seq<string>)
    | AddColumn(table: string, column: string)
    | CreateIndex(name: string, table: string, columns: seq<string>)

  datatype Outcome = Done(schema: Schema) | DuplicateColumn | Failed

  predicate Distinct(columns: seq<string>) {
    forall i, j :: 0 <= i < j < |columns| ==> columns[i] != columns[j]
  }

  predicate HasColumns(s: Schema, table: string, columns: seq<string>) {
    table in s.tables && forall i :: 0 <= i < |columns| ==> columns[i] in s.tables[table]
  }

  /** SQLite's answer: `IF NOT EXISTS` is silent, a second `ADD COLUMN` is not. */
  function Execute(s: Schema, st: Statement): Outcome {
    match st
    case CreateTable(name, columns) =>
      if name in s.tables then Done(s)
      else if !Distinct(columns) then DuplicateColumn
      else Done(s.(tables := s.tables[name := columns]))
    case AddColumn(table, column) =>
      if table !in s.tables then Failed
      else if column in s.tables[table] then DuplicateColumn
      else Done(s.(tables := s.tables[table := s.tables[table] + [column]]))
    case CreateIndex(name, table, columns) =>
      if name in s.indexes then Done(s)
      else if !HasColumns(s, table, columns) then Failed
      else Done(s.(indexes := s.indexes[name := Index(table, columns)]))
  }

  /** A duplicate column is tolerated for `ADD COLUMN` and nothing else. */
  function ExecuteTolerantly(s: Schema, st: Statement): Option<Schema> {
    match Execute(s, st)
    case Done(s') => Some(s')
    case DuplicateColumn => if st.AddColumn? then Some(s) else None
    case Failed => None
  }

  /** What each kind of statement makes, and when it fails: a table with these
      columns or the one there already, a column at the end of its table, an
      index over columns that are there or the one of its name. Only a second
      copy of a column that is added is forgiven. */
  lemma ExecuteMakes(s: Schema, st: Statement)
    ensures var r := ExecuteTolerantly(s, st);
            match st
            case CreateTable(name, columns) =>
              && (r.None? <==> name !in s.tables && exists i, j :: 0 <= i < j < |columns| && columns[i] == columns[j])
              && (r.Some? ==> && r.value.indexes == s.indexes && r.value.tables.Keys == s.tables.Keys + {name}
                              && r.value.tables[name] == (if name in s.tables then s.tables[name] else columns)
                              && forall t :: t in s.tables ==> r.value.tables[t] == s.tables[t])
            case AddColumn(table, column) =>
              && (r.None? <==> table !in s.tables)
              && (r.Some? ==> && r.value.indexes == s.indexes && r.value.tables.Keys == s.tables.Keys
                              && r.value.tables[table]
                                 == (if column in s.tables[table] then s.tables[table] else s.tables[table] + [column])
                              && forall t :: t in s.tables && t != table ==> r.value.tables[t] == s.tables[t])
            case CreateIndex(name, table, columns) =>
              && (r.None?
                  <==> name !in s.indexes
                       && (table !in s.tables || exists i :: 0 <= i < |columns| && columns[i] !in s.tables[table]))
              && (r.Some? ==> && r.value.tables == s.tables && r.value.indexes.Keys == s.indexes.Keys + {name}
                              && r.value.indexes[name] == (if name in s.indexes then s.indexes[name] else Index(table, columns))
                              && forall x :: x in s.indexes ==> r.value.indexes[x] == s.indexes[x])
  {
  }

  function RunAll(s: Schema, sts: seq<Statement>): Option<Schema>
    decreases |sts|
  {
    if sts == [] then Some(s)
    else match ExecuteTolerantly(s, sts[0])
      case Some(s') => RunAll(s', sts[1..])
      case None => None
  }

  // ----- Nothing is lost -----

  /** Every table, column (in its place) and index of `s` is still in `t`. */
  predicate Grown(s: Schema, t: Schema) {
    && (forall table :: table in s.tables ==> table in t.tables && s.tables[table] <= t.tables[table])
    && (forall name :: name in s.indexes ==> name in t.indexes && t.indexes[name] == s.indexes[name])
  }

  lemma GrownTransitive(s: Schema, t: Schema, u: Schema)
    requires Grown(s, t) && Grown(t, u)
    ensures Grown(s, u)
  {
    forall table | table in s.tables ensures table in u.tables && s.tables[table] <= u.tables[table] {
      assert s.tables[table] <= t.tables[table] <= u.tables[table];
    }
  }

  lemma {:induction false} RunOnlyGrows(s: Schema, sts: seq<Statement>)
    ensures RunAll(s, sts).Some? ==> Grown(s, RunAll(s, sts).value)
    decreases |sts|
  {
    if sts != [] && ExecuteTolerantly(s, sts[0]).Some? {
      var s' := ExecuteTolerantly(s, sts[0]).value;
      RunOnlyGrows(s', sts[1..]);
      if RunAll(s', sts[1..]).Some? {
        GrownTransitive(s, s', RunAll(s', sts[1..]).value);
      }
    }
  }

  // ----- Running again changes nothing -----

  /** The statement's effect is already there, so it succeeds and does nothing. */
  predicate Settled(s: Schema, st: Statement) {
    ExecuteTolerantly(s, st) == Some(s)
  }

  predicate AllSettled(s: Schema, sts: seq<Statement>) {
    forall i :: 0 <= i < |sts| ==> Settled(s, sts[i])
  }

  lemma ExecutedIsSettled(s: Schema, st: Statement)
    requires ExecuteTolerantly(s, st).Some?
    ensures Settled(ExecuteTolerantly(s, st).value, st)
  {
  }

  lemma GrowthKeepsSettled(s: Schema, t: Schema, st: Statement)
    requires Grown(s, t) && Settled(s, st)
    ensures Settled(t, st)
  {
    match st
    case CreateTable(name, columns) =>
    case AddColumn(table, column) =>
      var i :| 0 <= i < |s.tables[table]| && s.tables[table][i] == column;
      assert t.tables[table][i] == column;
    case CreateIndex(name, table, columns) =>
  }

  lemma {:induction false} RunSettles(s: Schema, sts: seq<Statement>)
    requires RunAll(s, sts).Some?
    ensures AllSettled(RunAll(s, sts).value, sts)
    decreases |sts|
  {
    if sts != [] {
      var s' := ExecuteTolerantly(s, sts[0]).value;
      RunSettles(s', sts[1..]);
      RunOnlyGrows(s', sts[1..]);
      ExecutedIsSettled(s, sts[0]);
      GrowthKeepsSettled(s', RunAll(s', sts[1..]).value, sts[0]);
    }
  }

  lemma {:induction false} SettledRunIsNothing(s: Schema, sts: seq<Statement>, more: seq<Statement>)
    requires AllSettled(s, sts)
    ensures RunAll(s, sts + more) == RunAll(s, more)
    decreases |sts|
  {
    if sts == [] {
      assert sts + more == more;
    } else {
      assert (sts + more)[1..] == sts[1..] + more;
      assert Settled(s, sts[0]);
      SettledRunIsNothing(s, sts[1..], more);
    }
  }

  lemma {:induction false} RunConcat(s: Schema, a: seq<Statement>, b: seq<Statement>)
    ensures RunAll(s, a + b) == match RunAll(s, a) case Some(s') => RunAll(s', b) case None => None
    decreases |a|
  {
    if a == [] {
      assert a + b == b;
    } else {
      assert (a + b)[1..] == a[1..] + b;
      if ExecuteTolerantly(s, a[0]).Some? {
        RunConcat(ExecuteTolerantly(s, a[0]).value, a[1..], b);
      }
    }
  }

  /** The schema after a migration stopped part-way, any number of times, at the
      given points. */
  function AfterStops(s: Schema, sts: seq<Statement>, stops: seq<nat>): Option<Schema>
    requires forall i :: 0 <= i < |stops| ==> stops[i] <= |sts|
    decreases |stops|
  {
    if stops == [] then Some(s)
    else match RunAll(s, sts[..stops[0]])
      case Some(s') => AfterStops(s', sts, stops[1..])
      case None => None
  }

  /** However often a migration was cut short, running it whole gives what
      running it once would have given, failure included. */
  lemma {:induction false} StopsThenWhole(s: Schema, sts: seq<Statement>, stops: seq<nat>)
    requires forall i :: 0 <= i < |stops| ==> stops[i] <= |sts|
    requires AfterStops(s, sts, stops).Some?
    ensures RunAll(AfterStops(s, sts, stops).value, sts) == RunAll(s, sts)
    decreases |stops|
  {
    if stops != [] {
      var (a, b) := (sts[..stops[0]], sts[stops[0]..]);
      var s' := RunAll(s, a).value;
      assert a + b == sts;
      RunConcat(s, a, b);
      RunSettles(s, a);
      SettledRunIsNothing(s', a, b);
      StopsThenWhole(s', sts, stops[1..]);
    }
  }
}
