/** The generic repository: guarded updates and upserts of one table under SQL's
    three-valued logic. */
module EntityRegister {
  import D = Decimal
  import opened Lex
  import opened Options

  datatype Dialect = Postgres | Sqlite

  /** A decimal is a whole number here, so that one number has one text. */
  datatype Value =
    | Null
    | Integer(number: int)
    | Decimal(whole: int)
    | Text(text: Bytes)
    | Json(document: Bytes)

  datatype Truth = True | False | Unknown

  function Not(a: Truth): Truth {
    match a
    case True => False
    case False => True
    case Unknown => Unknown
  }

  function And(a: Truth, b: Truth): Truth {
    if a.False? || b.False? then False else if a.True? && b.True? then True else Unknown
  }

  function Or(a: Truth, b: Truth): Truth {
    Not(And(Not(a), Not(b)))
  }

  function ToTruth(b: bool): Truth { if b then True else False }

  function SqlEqual(a: Value, b: Value): Truth {
    if a.Null? || b.Null? then Unknown else ToTruth(a == b)
  }

  function IsNull(a: Value): Truth { ToTruth(a.Null?) }

  const MINUS: Byte := 45

  function DecimalText(n: int): Bytes {
    if n < 0 then [MINUS] + D.Digits(-n) else D.Digits(n)
  }

  /** The order of two non-null values of one column. SQLite is handed decimals
      as text, and compares them as text. */
  predicate Below(dialect: Dialect, a: Value, b: Value) {
    match (a, b)
    case (Integer(m), Integer(n)) => m < n
    case (Decimal(m), Decimal(n)) => if dialect.Postgres? then m < n else Less(DecimalText(m), DecimalText(n))
    case (Text(s), Text(t)) => Less(s, t)
    case _ => false
  }

  function SqlLess(dialect: Dialect, a: Value, b: Value): Truth {
    if a.Null? || b.Null? then Unknown else ToTruth(Below(dialect, a, b))
  }

  datatype WriteMode = ReadOnly | AppendOnly | Catalog

  datatype Schema = Schema(
    columns: seq<string>, keys: seq<string>, immutable: seq<string>, revision: Option<string>, mode: WriteMode,
    dialect: Dialect)
  {
    predicate Valid() {
      && keys != []
      && (forall c :: c in keys ==> c in columns)
      && (forall c :: c in immutable ==> c in columns)
      && (revision.Some? ==> revision.value in columns && revision.value !in keys && revision.value !in immutable)
    }

    /** The columns a mutation may set. */
    predicate Mutable(c: string) { c in columns && c !in keys && c !in immutable }

    predicate HasMutable() { exists c :: c in columns && Mutable(c) }
  }

  type Row = map<string, Value>

  type Table = map<seq<Value>, Row>

  predicate RowOf(schema: Schema, row: Row) {
    row.Keys == set c | c in schema.columns
  }

  function KeyOf(schema: Schema, row: Row): seq<Value>
    requires schema.Valid() && RowOf(schema, row)
  {
    seq(|schema.keys|, i requires 0 <= i < |schema.keys| => row[schema.keys[i]])
  }

  predicate KeyComplete(key: seq<Value>) {
    forall i :: 0 <= i < |key| ==> !key[i].Null?
  }

  /** Rows are stored under their own keys. */
  predicate TableValid(schema: Schema, table: Table) {
    && schema.Valid()
    && forall k :: k in table ==> RowOf(schema, table[k]) && KeyOf(schema, table[k]) == k && KeyComplete(k)
  }

  datatype Reply = Stored(row: Row) | Unmatched | Rejected | Deleted(count: nat) | Replayed(row: Row)

  // ------------------------------------------------------------ statements

  /** `stored.c = excluded.c OR (stored.c IS NULL AND excluded.c IS NULL)` */
  function SameOrBothNull(stored: Value, excluded: Value): Truth {
    Or(SqlEqual(stored, excluded), And(IsNull(stored), IsNull(excluded)))
  }

  /** Conjunction over the immutable columns. */
  function ImmutableGuard(columns: seq<string>, stored: Row, excluded: Row): Truth
    requires forall c :: c in columns ==> c in stored && c in excluded
  {
    if columns == [] then True
    else And(SameOrBothNull(stored[columns[0]], excluded[columns[0]]), ImmutableGuard(columns[1..], stored, excluded))
  }

  function UpsertGuard(schema: Schema, stored: Row, excluded: Row): Truth
    requires schema.Valid() && RowOf(schema, stored) && RowOf(schema, excluded)
  {
    And(ImmutableGuard(schema.immutable, stored, excluded),
        if schema.revision.None? then True
        else SqlLess(schema.dialect, stored[schema.revision.value], excluded[schema.revision.value]))
  }

  /** The mutable columns of `entity` over the other columns of `stored`. */
  function Assigned(schema: Schema, stored: Row, entity: Row): Row
    requires RowOf(schema, stored) && RowOf(schema, entity)
  {
    map c | c in stored :: if schema.Mutable(c) then entity[c] else stored[c]
  }

  function Insert(schema: Schema, table: Table, entity: Row): (Table, Reply)
    requires schema.Valid() && RowOf(schema, entity)
  {
    var key := KeyOf(schema, entity);
    if schema.mode.ReadOnly? || !KeyComplete(key) || key in table then (table, Rejected)
    else (table[key := entity], Stored(entity))
  }

  function Upsert(schema: Schema, table: Table, entity: Row): (Table, Reply)
    requires TableValid(schema, table) && RowOf(schema, entity)
  {
    var key := KeyOf(schema, entity);
    if !schema.mode.Catalog? || !KeyComplete(key) || !schema.HasMutable() then (table, Rejected)
    else if key !in table then (table[key := entity], Stored(entity))
    else if UpsertGuard(schema, table[key], entity).True? then
      var row := Assigned(schema, table[key], entity);
      (table[key := row], Stored(row))
    else (table, Unmatched)
  }

  /** Filters on immutable columns use `IS NULL` for a NULL value. */
  function ImmutableFilter(columns: seq<string>, stored: Row, entity: Row): Truth
    requires forall c :: c in columns ==> c in stored && c in entity
  {
    if columns == [] then True
    else
      And(if entity[columns[0]].Null? then IsNull(stored[columns[0]])
          else SqlEqual(stored[columns[0]], entity[columns[0]]),
          ImmutableFilter(columns[1..], stored, entity))
  }

  /** An ordered filter cannot be built for a NULL or a decimal revision. */
  predicate RevisionFilterable(schema: Schema, entity: Row)
    requires schema.Valid() && RowOf(schema, entity)
  {
    schema.revision.Some? ==> !entity[schema.revision.value].Null? && !entity[schema.revision.value].Decimal?
  }

  function UpdateFilter(schema: Schema, stored: Row, entity: Row): Truth
    requires schema.Valid() && RowOf(schema, stored) && RowOf(schema, entity)
  {
    And(ImmutableFilter(schema.immutable, stored, entity),
        if schema.revision.None? then True
        else SqlLess(schema.dialect, stored[schema.revision.value], entity[schema.revision.value]))
  }

  function Update(schema: Schema, table: Table, entity: Row): (Table, Reply)
    requires TableValid(schema, table) && RowOf(schema, entity)
  {
    var key := KeyOf(schema, entity);
    if !KeyComplete(key) || !schema.mode.Catalog? || !schema.HasMutable() || !RevisionFilterable(schema, entity)
    then (table, Rejected)
    else if key in table && UpdateFilter(schema, table[key], entity).True? then
      var row := Assigned(schema, table[key], entity);
      (table[key := row], Stored(row))
    else (table, Unmatched)
  }

  function DeleteBy(schema: Schema, table: Table, key: seq<Value>): (Table, Reply) {
    if |key| != |schema.keys| || !KeyComplete(key) || !schema.mode.Catalog? then (table, Rejected)
    else (table - {key}, Deleted(if key in table then 1 else 0))
  }

  function Register(schema: Schema, table: Table, entity: Row): (Table, Reply)
    requires schema.Valid() && RowOf(schema, entity)
  {
    var key := KeyOf(schema, entity);
    if !KeyComplete(key) || schema.mode.ReadOnly? then (table, Rejected)
    else if key !in table then (table[key := entity], Stored(entity))
    else if table[key] == entity then (table, Replayed(entity))
    else (table, Rejected)
  }

  // ------------------------------------------------- update against upsert

  predicate SameImmutable(schema: Schema, a: Row, b: Row)
    requires schema.Valid() && RowOf(schema, a) && RowOf(schema, b)
  {
    forall c :: c in schema.immutable ==> a[c] == b[c]
  }

  lemma {:induction false} GuardsAgree(columns: seq<string>, stored: Row, entity: Row)
    requires forall c :: c in columns ==> c in stored && c in entity
    ensures ImmutableGuard(columns, stored, entity).True? <==> forall c :: c in columns ==> stored[c] == entity[c]
    ensures ImmutableFilter(columns, stored, entity).True? <==> forall c :: c in columns ==> stored[c] == entity[c]
  {
    if columns != [] {
      GuardsAgree(columns[1..], stored, entity);
      assert columns == [columns[0]] + columns[1..];
    }
  }

  /** On an existing row, update does exactly what upsert does, NULL immutable
      columns included, if and only if the revision is neither NULL nor decimal
      (or the entity is refused by both). */
  lemma UpdateAgreesWithUpsert(schema: Schema, table: Table, entity: Row)
    requires TableValid(schema, table) && RowOf(schema, entity) && KeyOf(schema, entity) in table
    ensures Update(schema, table, entity) == Upsert(schema, table, entity) <==>
      RevisionFilterable(schema, entity) || !schema.mode.Catalog? || !schema.HasMutable()
    ensures !RevisionFilterable(schema, entity) ==> Update(schema, table, entity) == (table, Rejected)
  {
    GuardsAgree(schema.immutable, table[KeyOf(schema, entity)], entity);
  }

  const DECIMAL_KEY: seq<Value> := [Integer(1)]

  function RevisedByDecimal(dialect: Dialect): Schema {
    Schema(["id", "revision"], ["id"], [], Some("revision"), Catalog, dialect)
  }

  function DecimalVersion(n: int): Row { map["id" := Integer(1), "revision" := Decimal(n)] }

  lemma DecimalSchemaValid(dialect: Dialect, n: int)
    ensures
      var schema := RevisedByDecimal(dialect);
      && schema.Valid() && schema.HasMutable() && schema.Mutable("revision")
      && RowOf(schema, DecimalVersion(n)) && KeyOf(schema, DecimalVersion(n)) == DECIMAL_KEY
      && TableValid(schema, map[DECIMAL_KEY := DecimalVersion(n)])
  {
    assert "id"[0] != "revision"[0];
    var schema := RevisedByDecimal(dialect);
    assert schema.columns[1] == "revision";
    assert schema.keys == ["id"];
    assert schema.Mutable("revision");
  }

  /** A row revised under a decimal column, which no entity of the system
      declares: revision 10 after 9. PostgreSQL's upsert stores it, SQLite's
      compares '10' with '9' as text and does not, and update refuses it on
      both. */
  lemma DecimalRevision(dialect: Dialect)
    ensures
      var (schema, table) := (RevisedByDecimal(dialect), map[DECIMAL_KEY := DecimalVersion(9)]);
      && TableValid(schema, table) && RowOf(schema, DecimalVersion(10))
      && Update(schema, table, DecimalVersion(10)) == (table, Rejected)
      && Upsert(schema, table, DecimalVersion(10)) ==
           (if dialect.Postgres?
            then (map[DECIMAL_KEY := DecimalVersion(10)], Reply.Stored(DecimalVersion(10)))
            else (table, Unmatched))
  {
    var schema := RevisedByDecimal(dialect);
    DecimalSchemaValid(dialect, 9);
    DecimalSchemaValid(dialect, 10);
    assert Assigned(schema, DecimalVersion(9), DecimalVersion(10)) == DecimalVersion(10);
    assert D.Digits(9) == [57];
    assert D.Digits(1) == [49] && D.Digits(10) == D.Digits(1) + [48];
    assert !Less(D.Digits(9), D.Digits(10));
    var table := map[DECIMAL_KEY := DecimalVersion(9)];
    assert table[DECIMAL_KEY := DecimalVersion(10)] == map[DECIMAL_KEY := DecimalVersion(10)];
    assert KeyComplete(DECIMAL_KEY);
  }

  /** A NULL revision never gets past the guard of an upsert either. */
  lemma NullRevisionChangesNothing(schema: Schema, table: Table, entity: Row)
    requires TableValid(schema, table) && RowOf(schema, entity) && KeyOf(schema, entity) in table
    requires schema.revision.Some? && entity[schema.revision.value].Null?
    ensures Upsert(schema, table, entity).0 == table && Update(schema, table, entity).0 == table
  {
  }

  // ----------------------------------------------------- last writer wins

  /** An accepted upsert of an existing row stores the entity itself. */
  lemma AcceptedUpsertStoresEntity(schema: Schema, table: Table, entity: Row)
    requires TableValid(schema, table) && RowOf(schema, entity) && schema.mode.Catalog? && schema.HasMutable()
    requires KeyComplete(KeyOf(schema, entity))
    ensures
      var key := KeyOf(schema, entity);
      var (next, reply) := Upsert(schema, table, entity);
      && key in next && TableValid(schema, next)
      && next[key] == (if key !in table || UpsertGuard(schema, table[key], entity).True? then entity else table[key])
      && (forall k :: k != key ==> (k in next <==> k in table) && (k in table ==> next[k] == table[k]))
  {
    var key := KeyOf(schema, entity);
    if key in table && UpsertGuard(schema, table[key], entity).True? {
      GuardsAgree(schema.immutable, table[key], entity);
      var row := Assigned(schema, table[key], entity);
      forall c | c in schema.columns ensures row[c] == entity[c] {
        if c in schema.keys {
          var i :| 0 <= i < |schema.keys| && schema.keys[i] == c;
          assert KeyOf(schema, table[key])[i] == KeyOf(schema, entity)[i];
        }
      }
      assert row == entity;
    }
  }

  function UpsertAll(schema: Schema, table: Table, entities: seq<Row>): Table
    requires TableValid(schema, table) && forall e :: e in entities ==> RowOf(schema, e)
    requires schema.mode.Catalog? && schema.HasMutable() && forall e :: e in entities ==> KeyComplete(KeyOf(schema, e))
    ensures TableValid(schema, UpsertAll(schema, table, entities))
    decreases |entities|
  {
    if entities == [] then table
    else
      AcceptedUpsertStoresEntity(schema, table, entities[0]);
      UpsertAll(schema, Upsert(schema, table, entities[0]).0, entities[1..])
  }

  /** Versions of one row: one key, equal immutable columns, and distinct
      revisions of one ordered type. */
  predicate Versions(schema: Schema, key: seq<Value>, entities: seq<Row>)
    requires schema.Valid()
  {
    && schema.mode.Catalog? && schema.HasMutable() && schema.revision.Some? && KeyComplete(key)
    && (forall e :: e in entities ==> RowOf(schema, e) && KeyOf(schema, e) == key && !Revision(schema, e).Null?)
    && (forall d, e :: d in entities && e in entities ==> SameImmutable(schema, d, e))
    && (forall i, j :: 0 <= i < j < |entities| ==>
         Ordered(schema.dialect, Revision(schema, entities[i]), Revision(schema, entities[j])))
  }

  function Revision(schema: Schema, e: Row): Value
    requires schema.Valid() && schema.revision.Some? && RowOf(schema, e)
  {
    e[schema.revision.value]
  }

  predicate Ordered(dialect: Dialect, a: Value, b: Value) { Below(dialect, a, b) != Below(dialect, b, a) }

  lemma BelowTransitive(dialect: Dialect, a: Value, b: Value, c: Value)
    requires Below(dialect, a, b) && Below(dialect, b, c)
    ensures Below(dialect, a, c)
  {
    if a.Text? {
      Transitive(a.text, b.text, c.text);
    } else if a.Decimal? && dialect.Sqlite? {
      Transitive(DecimalText(a.whole), DecimalText(b.whole), DecimalText(c.whole));
    }
  }

  lemma BelowAsymmetric(dialect: Dialect, a: Value, b: Value)
    ensures !(Below(dialect, a, b) && Below(dialect, b, a))
  {
    if a.Text? && b.Text? {
      Asymmetric(a.text, b.text);
    } else if a.Decimal? && b.Decimal? {
      Asymmetric(DecimalText(a.whole), DecimalText(b.whole));
    }
  }

  /** The entity of greatest revision. */
  predicate Greatest(schema: Schema, row: Row, entities: seq<Row>)
    requires schema.Valid() && schema.revision.Some? && forall e :: e in entities ==> RowOf(schema, e)
  {
    && row in entities
    && forall e :: e in entities && e != row ==> Below(schema.dialect, Revision(schema, e), Revision(schema, row))
  }

  lemma UpsertKeepsLarger(schema: Schema, table: Table, key: seq<Value>, entity: Row)
    requires TableValid(schema, table) && key in table && Versions(schema, key, [table[key], entity])
    ensures
      var next := Upsert(schema, table, entity).0;
      && key in next && TableValid(schema, next)
      && (|| (next[key] == entity && Below(schema.dialect, Revision(schema, table[key]), Revision(schema, entity)))
          || (next[key] == table[key] && Below(schema.dialect, Revision(schema, entity), Revision(schema, table[key]))))
  {
    var both := [table[key], entity];
    assert entity in both && table[key] in both;
    assert Ordered(schema.dialect, Revision(schema, both[0]), Revision(schema, both[1]));
    AcceptedUpsertStoresEntity(schema, table, entity);
    GuardsAgree(schema.immutable, table[key], entity);
  }

  lemma VersionsOfPart(schema: Schema, key: seq<Value>, whole: seq<Row>, part: seq<Row>, index: seq<nat>)
    requires schema.Valid() && Versions(schema, key, whole) && |index| == |part|
    requires forall i :: 0 <= i < |part| ==> index[i] < |whole| && part[i] == whole[index[i]]
    requires forall i, j :: 0 <= i < j < |part| ==> index[i] < index[j]
    ensures Versions(schema, key, part)
  {
    forall e | e in part ensures e in whole {
      var i :| 0 <= i < |part| && part[i] == e;
      assert whole[index[i]] == e;
    }
    forall i, j | 0 <= i < j < |part|
      ensures Ordered(schema.dialect, Revision(schema, part[i]), Revision(schema, part[j]))
    {
      assert Ordered(schema.dialect, Revision(schema, whole[index[i]]), Revision(schema, whole[index[j]]));
    }
  }

  lemma VersionsWithout(schema: Schema, key: seq<Value>, all: seq<Row>, i: nat)
    requires schema.Valid() && Versions(schema, key, all) && i < |all|
    ensures Versions(schema, key, all[..i] + all[i + 1..])
  {
    var index := seq(|all| - 1, n requires 0 <= n < |all| - 1 => if n < i then n else n + 1);
    VersionsOfPart(schema, key, all, all[..i] + all[i + 1..], index);
  }

  lemma FirstTwo(schema: Schema, key: seq<Value>, current: Row, first: Row, rest: seq<Row>)
    requires schema.Valid() && Versions(schema, key, [current, first] + rest)
    ensures Versions(schema, key, [current, first])
  {
    VersionsOfPart(schema, key, [current, first] + rest, [current, first], [0, 1]);
  }

  lemma WithoutSecond(schema: Schema, key: seq<Value>, current: Row, first: Row, rest: seq<Row>)
    requires schema.Valid() && Versions(schema, key, [current, first] + rest)
    ensures Versions(schema, key, [current] + rest)
  {
    var all := [current, first] + rest;
    VersionsWithout(schema, key, all, 1);
    assert all[..1] + all[2..] == [current] + rest;
  }

  lemma WithoutFirst(schema: Schema, key: seq<Value>, current: Row, first: Row, rest: seq<Row>)
    requires schema.Valid() && Versions(schema, key, [current, first] + rest)
    ensures Versions(schema, key, [first] + rest)
  {
    var all := [current, first] + rest;
    VersionsWithout(schema, key, all, 0);
    assert all[..0] + all[1..] == [first] + rest;
  }

  /** A stored row followed by any upserts of it: the greatest revision stays. */
  lemma {:induction false} KeepsGreatest(schema: Schema, table: Table, key: seq<Value>, entities: seq<Row>)
    requires TableValid(schema, table) && key in table && Versions(schema, key, [table[key]] + entities)
    requires forall e :: e in entities ==> RowOf(schema, e) && KeyComplete(KeyOf(schema, e))
    ensures
      var final := UpsertAll(schema, table, entities);
      key in final && Greatest(schema, final[key], [table[key]] + entities)
    decreases |entities|
  {
    if entities != [] {
      var first, rest := entities[0], entities[1..];
      assert [table[key]] + entities == [table[key], first] + rest;
      FirstTwo(schema, key, table[key], first, rest);
      WithoutSecond(schema, key, table[key], first, rest);
      WithoutFirst(schema, key, table[key], first, rest);
      UpsertKeepsLarger(schema, table, key, first);
      var next := Upsert(schema, table, first).0;
      KeepsGreatest(schema, next, key, rest);
      GreatestSurvives(schema, UpsertAll(schema, next, rest)[key], table[key], first, next[key], rest);
    }
  }

  lemma GreatestSurvives(schema: Schema, final: Row, a: Row, b: Row, kept: Row, rest: seq<Row>)
    requires schema.Valid() && schema.revision.Some? && forall e :: e in [a, b] + rest ==> RowOf(schema, e)
    requires kept in [a, b] && forall e :: e in [kept] + rest ==> RowOf(schema, e)
    requires Greatest(schema, final, [kept] + rest)
    requires
      if kept == b then Below(schema.dialect, Revision(schema, a), Revision(schema, b))
      else Below(schema.dialect, Revision(schema, b), Revision(schema, a))
    ensures Greatest(schema, final, [a, b] + rest)
  {
    assert kept in [kept] + rest;
    forall e | e in [a, b] + rest && e != final
      ensures Below(schema.dialect, Revision(schema, e), Revision(schema, final))
    {
      if e in [kept] + rest {
      } else if kept != final {
        BelowTransitive(schema.dialect, Revision(schema, e), Revision(schema, kept), Revision(schema, final));
      }
    }
    if final in rest {
      assert final in [a, b] + rest;
    }
  }

  /** Upsert is a last-writer-wins register: whatever the order of the upserts,
      the row of greatest revision remains. */
  lemma LastWriterWins(schema: Schema, table: Table, key: seq<Value>, entities: seq<Row>)
    requires TableValid(schema, table) && key !in table && entities != [] && Versions(schema, key, entities)
    requires forall e :: e in entities ==> RowOf(schema, e) && KeyComplete(KeyOf(schema, e))
    ensures
      var final := UpsertAll(schema, table, entities);
      key in final && Greatest(schema, final[key], entities)
  {
    AcceptedUpsertStoresEntity(schema, table, entities[0]);
    var next := Upsert(schema, table, entities[0]).0;
    assert [entities[0]] + entities[1..] == entities;
    KeepsGreatest(schema, next, key, entities[1..]);
  }

  lemma GreatestIsUnique(schema: Schema, a: Row, b: Row, entities: seq<Row>)
    requires schema.Valid() && schema.revision.Some? && forall e :: e in entities ==> RowOf(schema, e)
    requires Greatest(schema, a, entities) && Greatest(schema, b, entities)
    ensures a == b
  {
    if a != b {
      BelowAsymmetric(schema.dialect, Revision(schema, a), Revision(schema, b));
    }
  }

  /** Two orders of the same upserts end in the same row. */
  lemma OrderDoesNotMatter(schema: Schema, table: Table, key: seq<Value>, a: seq<Row>, b: seq<Row>)
    requires TableValid(schema, table) && key !in table && a != []
    requires Versions(schema, key, a) && Versions(schema, key, b) && multiset(a) == multiset(b)
    requires forall e :: e in a ==> RowOf(schema, e) && KeyComplete(KeyOf(schema, e))
    requires forall e :: e in b ==> RowOf(schema, e) && KeyComplete(KeyOf(schema, e))
    ensures
      var (p, q) := (UpsertAll(schema, table, a), UpsertAll(schema, table, b));
      key in p && key in q && p[key] == q[key]
  {
    assert a[0] in multiset(b);
    LastWriterWins(schema, table, key, a);
    LastWriterWins(schema, table, key, b);
    var q := UpsertAll(schema, table, b)[key];
    assert forall e :: e in a <==> e in multiset(a);
    assert forall e :: e in b <==> e in multiset(b);
    GreatestIsUnique(schema, UpsertAll(schema, table, a)[key], q, a);
  }

  // ------------------------------------------------------------ append only

  datatype Op =
    | InsertOp(entity: Row)
    | UpdateOp(entity: Row)
    | UpsertOp(entity: Row)
    | RegisterOp(entity: Row)
    | DeleteOp(key: seq<Value>)

  function Apply(schema: Schema, table: Table, op: Op): (Table, Reply)
    requires TableValid(schema, table)
  {
    match op
    case InsertOp(entity) => if RowOf(schema, entity) then Insert(schema, table, entity) else (table, Rejected)
    case UpdateOp(entity) => if RowOf(schema, entity) then Update(schema, table, entity) else (table, Rejected)
    case UpsertOp(entity) => if RowOf(schema, entity) then Upsert(schema, table, entity) else (table, Rejected)
    case RegisterOp(entity) => if RowOf(schema, entity) then Register(schema, table, entity) else (table, Rejected)
    case DeleteOp(key) => DeleteBy(schema, table, key)
  }

  lemma ApplyKeepsTable(schema: Schema, table: Table, op: Op)
    requires TableValid(schema, table)
    ensures TableValid(schema, Apply(schema, table, op).0)
  {
    if (op.UpdateOp? || op.UpsertOp?) && RowOf(schema, op.entity) {
      var key := KeyOf(schema, op.entity);
      if key in table {
        var row := Assigned(schema, table[key], op.entity);
        assert RowOf(schema, row);
        assert KeyOf(schema, row) == KeyOf(schema, table[key]) == key;
      }
    }
  }

  ghost predicate Reaches(schema: Schema, start: Table, ops: seq<Op>, end: Table)
    requires TableValid(schema, start)
    decreases |ops|
  {
    if ops == [] then start == end
    else
      ApplyKeepsTable(schema, start, ops[0]);
      Reaches(schema, Apply(schema, start, ops[0]).0, ops[1..], end)
  }

  /** No sequence of generic operations changes or removes a row of an
      append-only entity, and none changes a read-only table at all. */
  lemma {:induction false} AppendOnlyRowsStay(schema: Schema, start: Table, ops: seq<Op>, end: Table)
    requires TableValid(schema, start) && !schema.mode.Catalog? && Reaches(schema, start, ops, end)
    ensures forall k :: k in start ==> k in end && end[k] == start[k]
    ensures schema.mode.ReadOnly? ==> end == start
    decreases |ops|
  {
    if ops != [] {
      ApplyKeepsTable(schema, start, ops[0]);
      AppendOnlyStep(schema, start, ops[0]);
      AppendOnlyRowsStay(schema, Apply(schema, start, ops[0]).0, ops[1..], end);
    }
  }

  lemma AppendOnlyStep(schema: Schema, table: Table, op: Op)
    requires TableValid(schema, table) && !schema.mode.Catalog?
    ensures forall k :: k in table ==> k in Apply(schema, table, op).0 && Apply(schema, table, op).0[k] == table[k]
    ensures schema.mode.ReadOnly? ==> Apply(schema, table, op).0 == table
  {
  }

  // ------------------------------------------------------ in-place methods

  /** The repository of one entity over its table. */
  class Repository {
    var rows: Table
    const schema: Schema

    ghost predicate Valid()
      reads this
    {
      TableValid(schema, rows)
    }

    constructor (schema: Schema)
      requires schema.Valid()
      ensures Valid() && rows == map[] && this.schema == schema
    {
      this.schema := schema;
      rows := map[];
    }

    /** The guard is built column by column. */
    method EvaluateGuard(stored: Row, entity: Row) returns (guard: Truth)
      requires schema.Valid() && RowOf(schema, stored) && RowOf(schema, entity)
      ensures guard == UpsertGuard(schema, stored, entity)
    {
      guard := True;
      for i := |schema.immutable| downto 0
        invariant guard == ImmutableGuard(schema.immutable[i..], stored, entity)
      {
        var c := schema.immutable[i];
        guard := And(SameOrBothNull(stored[c], entity[c]), guard);
      }
      assert schema.immutable[0..] == schema.immutable;
      if schema.revision.Some? {
        guard := And(guard, SqlLess(schema.dialect, stored[schema.revision.value], entity[schema.revision.value]));
      } else {
        guard := And(guard, True);
      }
    }

    method SetColumns(key: seq<Value>, entity: Row) returns (row: Row)
      requires Valid() && key in rows && RowOf(schema, entity) && KeyOf(schema, entity) == key
      modifies this
      ensures row == Assigned(schema, old(rows[key]), entity) && rows == old(rows)[key := row]
    {
      row := map c | c in rows[key] :: if schema.Mutable(c) then entity[c] else rows[key][c];
      rows := rows[key := row];
    }

    method Put(entity: Row) returns (reply: Reply)
      requires Valid() && RowOf(schema, entity)
      modifies this
      ensures Valid() && (rows, reply) == Apply(schema, old(rows), UpsertOp(entity))
    {
      ApplyKeepsTable(schema, rows, UpsertOp(entity));
      var key := KeyOf(schema, entity);
      if !schema.mode.Catalog? || !KeyComplete(key) || !schema.HasMutable() {
        return Rejected;
      }
      if key !in rows {
        rows := rows[key := entity];
        return Stored(entity);
      }
      var guard := EvaluateGuard(rows[key], entity);
      if !guard.True? {
        return Unmatched;
      }
      var row := SetColumns(key, entity);
      reply := Stored(row);
    }

    method Replace(entity: Row) returns (reply: Reply)
      requires Valid() && RowOf(schema, entity)
      modifies this
      ensures Valid() && (rows, reply) == Apply(schema, old(rows), UpdateOp(entity))
    {
      ApplyKeepsTable(schema, rows, UpdateOp(entity));
      var key := KeyOf(schema, entity);
      if !KeyComplete(key) || !schema.mode.Catalog? || !schema.HasMutable() || !RevisionFilterable(schema, entity) {
        return Rejected;
      }
      if key !in rows || !UpdateFilter(schema, rows[key], entity).True? {
        return Unmatched;
      }
      var row := SetColumns(key, entity);
      reply := Stored(row);
    }

    method Add(entity: Row) returns (reply: Reply)
      requires Valid() && RowOf(schema, entity)
      modifies this
      ensures Valid() && (rows, reply) == Apply(schema, old(rows), RegisterOp(entity))
    {
      ApplyKeepsTable(schema, rows, RegisterOp(entity));
      var key := KeyOf(schema, entity);
      if !KeyComplete(key) || schema.mode.ReadOnly? {
        return Rejected;
      }
      if key !in rows {
        rows := rows[key := entity];
        return Stored(entity);
      }
      reply := if rows[key] == entity then Replayed(entity) else Rejected;
    }

    method Remove(key: seq<Value>) returns (reply: Reply)
      requires Valid()
      modifies this
      ensures Valid() && (rows, reply) == Apply(schema, old(rows), DeleteOp(key))
    {
      if |key| != |schema.keys| || !KeyComplete(key) || !schema.mode.Catalog? {
        return Rejected;
      }
      reply := Deleted(if key in rows then 1 else 0);
      rows := rows - {key};
    }
  }
}
