/**
 * The SQLite wrapper (`dolist/database.py`): query conditions rendered to a
 * WHERE clause with `?` placeholders and their parameters, a row whose
 * `update_record` merges fields into its local data, and `define_table`,
 * which maps column types and defaults to a CREATE TABLE statement. The
 * SQLite connection is represented by the statements handed to it and a
 * commit counter; executing them is outside the model.
 */
module Database {
  import opened Wrappers
  import opened Text
  import opened Calendar

  /** The Python values the query layer handles: None, bool, int, str, datetime and lists. */
  datatype Value = VNone | VBool(b: bool) | VInt(i: int) | VStr(s: string) | VTime(at: Instant) | VList(items: seq<Value>)

  // ------------------------------------------------------------- conditions

  datatype Connective = And | Or

  /**
   * `Condition(field, operator, value)`, `CompoundCondition(left, 'AND' or
   * 'OR', right)` and `NotCondition(condition)`. The field builders produce
   * the operators `=`, `!=`, `>`, `<`, `<=`, `>=`, `IN` and `LIKE`; any
   * other operator text is rendered as given.
   */
  datatype Cond =
    | Cmp(field: string, op: string, value: Value)
    | Compound(left: Cond, conn: Connective, right: Cond)
    | Negation(inner: Cond)

  /** A WHERE clause and its parameters, in placeholder order. */
  datatype Sql = Sql(text: string, params: seq<Value>)

  function ConnectiveName(c: Connective): string {
    match c
    case And => "AND"
    case Or => "OR"
  }

  /** `', '.join('?' * n)`. */
  function Placeholders(n: nat): string {
    Join(seq(n, _ => "?"), ", ")
  }

  /** `list(value)` for an IN comparison: the items of a list, the characters of a str; None where `len` raises. */
  function InItems(v: Value): Option<seq<Value>> {
    match v
    case VList(items) => Some(items)
    case VStr(s) => Some(seq(|s|, i requires 0 <= i < |s| => VStr([s[i]])))
    case _ => None
  }

  /** The parameter SQLite receives for a plain comparison: bools as 1 or 0, datetimes as their ISO text. */
  function SqlParam(v: Value): (p: Value)
    ensures !p.VBool? && !p.VTime?
    ensures !v.VBool? && !v.VTime? ==> p == v
  {
    match v
    case VBool(b) => VInt(if b then 1 else 0)
    case VTime(at) => VStr(IsoFormat(at))
    case _ => v
  }

  function NotDeletedClause(f: string): string {
    "(" + f + " IS NULL OR " + f + " = 0 OR " + f + " = 'F')"
  }

  function DeletedClause(f: string): string {
    "(" + f + " = 1 OR " + f + " = 'T')"
  }

  /** `Condition.to_sql`. */
  function CmpSql(f: string, op: string, v: Value): Result<Sql> {
    if v.VNone? && op == "=" then Ok(Sql(f + " IS NULL", []))
    else if v.VNone? && (op == "!=" || op == "<>") then Ok(Sql(f + " IS NOT NULL", []))
    else if op == "IN" then
      match InItems(v)
      case None => Err(TypeError)
      case Some(items) => Ok(Sql(f + " IN (" + Placeholders(|items|) + ")", items))
    else if f == "deleted" && v.VBool? && ((op == "!=" && v.b) || (op == "=" && !v.b)) then
      Ok(Sql(NotDeletedClause(f), []))
    else if f == "deleted" && v.VBool? && ((op == "=" && v.b) || (op == "!=" && !v.b)) then
      Ok(Sql(DeletedClause(f), []))
    else Ok(Sql(f + " " + op + " ?", [SqlParam(v)]))
  }

  /** `to_sql` of a condition tree; an IN comparison on a value without a length raises TypeError. */
  function ToSql(c: Cond): Result<Sql> {
    match c
    case Cmp(f, op, v) => CmpSql(f, op, v)
    case Compound(l, conn, r) =>
      var ls :- ToSql(l);
      var rs :- ToSql(r);
      Ok(Sql("(" + ls.text + ") " + ConnectiveName(conn) + " (" + rs.text + ")", ls.params + rs.params))
    case Negation(inner) =>
      var s :- ToSql(inner);
      Ok(Sql("NOT (" + s.text + ")", s.params))
  }

  /** A comparison against None with `=`, `!=` or `<>` is a NULL test with no parameter. */
  lemma NullComparison(f: string, op: string)
    requires op == "=" || op == "!=" || op == "<>"
    ensures ToSql(Cmp(f, op, VNone)) == Ok(Sql(f + (if op == "=" then " IS NULL" else " IS NOT NULL"), []))
  {
  }

  /** IN lists one placeholder per element and passes the elements, in order, as parameters. */
  lemma InComparison(f: string, items: seq<Value>)
    requires '?' !in f
    ensures ToSql(Cmp(f, "IN", VList(items))).Ok?
    ensures var q := ToSql(Cmp(f, "IN", VList(items))).value;
      q.params == items && CountChar(q.text, '?') == |items|
  {
    InTextCount(f, |items|);
  }

  /**
   * `deleted` compared with a bool is a fixed clause without parameters: the
   * not-deleted clause exactly when the comparison asks for rows that are
   * not deleted (`!= True` or `= False`), the deleted clause for `= True` and
   * `!= False`.
   */
  lemma DeletedComparison(op: string, b: bool)
    requires op == "=" || op == "!="
    ensures ToSql(Cmp("deleted", op, VBool(b))) ==
      Ok(Sql(if (op == "!=") == b then NotDeletedClause("deleted") else DeletedClause("deleted"), []))
  {
  }

  /** Every other comparison has one placeholder and one converted parameter. */
  lemma PlainComparison(f: string, op: string, v: Value)
    requires op != "IN" && !(v.VNone? && (op == "=" || op == "!=" || op == "<>"))
    requires !(f == "deleted" && v.VBool? && (op == "=" || op == "!="))
    ensures ToSql(Cmp(f, op, v)) == Ok(Sql(f + " " + op + " ?", [SqlParam(v)]))
  {
  }

  lemma {:induction false} PlaceholdersCount(n: nat)
    ensures CountChar(Placeholders(n), '?') == n
  {
    var parts := seq(n, _ => "?");
    forall i | 0 <= i < |parts|
      ensures CountChar(parts[i], '?') == 1
    {
      CountCharOnce([], '?', []);
      assert parts[i] == [] + ['?'] + [];
    }
    CountCharAbsent(", ", '?');
    JoinCountChar(parts, ", ", '?');
  }

  lemma InTextCount(f: string, n: nat)
    requires '?' !in f
    ensures CountChar(f + " IN (" + Placeholders(n) + ")", '?') == n
  {
    PlaceholdersCount(n);
    CountCharAbsent(f + " IN (", '?');
    CountCharAbsent(")", '?');
    CountCharConcat(f + " IN (", Placeholders(n), '?');
    CountCharConcat(f + " IN (" + Placeholders(n), ")", '?');
  }

  lemma PlainTextCount(f: string, op: string)
    requires '?' !in f && '?' !in op
    ensures CountChar(f + " " + op + " ?", '?') == 1
  {
    assert f + " " + op + " ?" == (f + " " + op + " ") + ['?'] + [];
    CountCharOnce(f + " " + op + " ", '?', []);
  }

  /** The well-formed trees: every IN comparison has a value with a length. */
  predicate Sized(c: Cond) {
    match c
    case Cmp(_, op, v) => op != "IN" || InItems(v).Some?
    case Compound(l, _, r) => Sized(l) && Sized(r)
    case Negation(inner) => Sized(inner)
  }

  /** Rendering fails exactly on an IN comparison whose value has no length. */
  lemma {:induction false} ToSqlOk(c: Cond)
    ensures ToSql(c).Ok? <==> Sized(c)
  {
    match c
    case Cmp(_, _, _) =>
    case Compound(l, _, r) =>
      ToSqlOk(l);
      ToSqlOk(r);
    case Negation(inner) =>
      ToSqlOk(inner);
  }

  /** Compound renders both sides in brackets around the connective, the left parameters first. */
  lemma CompoundSql(l: Cond, conn: Connective, r: Cond)
    ensures ToSql(Compound(l, conn, r)).Ok? <==> ToSql(l).Ok? && ToSql(r).Ok?
    ensures ToSql(Compound(l, conn, r)).Ok? ==>
      var ls := ToSql(l).value; var rs := ToSql(r).value;
      ToSql(Compound(l, conn, r)).value == Sql("(" + ls.text + ") " + ConnectiveName(conn) + " (" + rs.text + ")", ls.params + rs.params)
  {
  }

  /** Not renders `NOT (inner)` and passes the inner parameters on unchanged. */
  lemma NegationSql(inner: Cond)
    ensures ToSql(Negation(inner)).Ok? <==> ToSql(inner).Ok?
    ensures ToSql(Negation(inner)).Ok? ==>
      ToSql(Negation(inner)).value == Sql("NOT (" + ToSql(inner).value.text + ")", ToSql(inner).value.params)
  {
  }

  /** The comparisons of a tree, left to right. */
  function Comparisons(c: Cond): seq<Cond> {
    match c
    case Cmp(_, _, _) => [c]
    case Compound(l, _, r) => Comparisons(l) + Comparisons(r)
    case Negation(inner) => Comparisons(inner)
  }

  /** The parameters a comparison renders on its own. */
  function OwnParams(c: Cond): seq<Value> {
    if c.Cmp? && CmpSql(c.field, c.op, c.value).Ok? then CmpSql(c.field, c.op, c.value).value.params else []
  }

  /** The parameters of each condition, one after the other. */
  function ConcatParams(cs: seq<Cond>, own: Cond -> seq<Value>): seq<Value> {
    if cs == [] then [] else own(cs[0]) + ConcatParams(cs[1..], own)
  }

  lemma {:induction false} ConcatParamsAppend(a: seq<Cond>, b: seq<Cond>, own: Cond -> seq<Value>)
    ensures ConcatParams(a + b, own) == ConcatParams(a, own) + ConcatParams(b, own)
  {
    if a == [] {
      assert a + b == b;
    } else {
      assert (a + b)[0] == a[0];
      assert (a + b)[1..] == a[1..] + b;
      ConcatParamsAppend(a[1..], b, own);
    }
  }

  /** The parameters of a tree are those of its comparisons, in left-to-right order, whatever the nesting. */
  lemma {:induction false} ToSqlParamsInOrder(c: Cond)
    requires ToSql(c).Ok?
    ensures ToSql(c).value.params == ConcatParams(Comparisons(c), OwnParams)
  {
    match c
    case Cmp(f, op, v) =>
      assert ConcatParams([c], OwnParams) == OwnParams(c) + ConcatParams([], OwnParams);
    case Compound(l, _, r) =>
      ToSqlParamsInOrder(l);
      ToSqlParamsInOrder(r);
      ConcatParamsAppend(Comparisons(l), Comparisons(r), OwnParams);
    case Negation(inner) =>
      ToSqlParamsInOrder(inner);
  }

  /** No field name and no operator holds a `?`. */
  predicate Unmarked(c: Cond) {
    match c
    case Cmp(f, op, _) => '?' !in f && '?' !in op
    case Compound(l, _, r) => Unmarked(l) && Unmarked(r)
    case Negation(inner) => Unmarked(inner)
  }

  lemma CmpSqlCount(f: string, op: string, v: Value)
    requires '?' !in f && '?' !in op
    requires CmpSql(f, op, v).Ok?
    ensures CountChar(CmpSql(f, op, v).value.text, '?') == |CmpSql(f, op, v).value.params|
  {
    if v.VNone? && op == "=" {
      CountCharAbsent(f + " IS NULL", '?');
    } else if v.VNone? && (op == "!=" || op == "<>") {
      CountCharAbsent(f + " IS NOT NULL", '?');
    } else if op == "IN" {
      InTextCount(f, |InItems(v).value|);
    } else if f == "deleted" && v.VBool? && ((op == "!=" && v.b) || (op == "=" && !v.b)) {
      CountCharAbsent(NotDeletedClause(f), '?');
    } else if f == "deleted" && v.VBool? && ((op == "=" && v.b) || (op == "!=" && !v.b)) {
      CountCharAbsent(DeletedClause(f), '?');
    } else {
      PlainTextCount(f, op);
    }
  }

  /** For any condition tree, the SQL holds exactly one `?` per parameter. */
  lemma {:induction false} ToSqlPlaceholders(c: Cond)
    requires Unmarked(c)
    requires ToSql(c).Ok?
    ensures CountChar(ToSql(c).value.text, '?') == |ToSql(c).value.params|
  {
    match c
    case Cmp(f, op, v) =>
      CmpSqlCount(f, op, v);
    case Compound(l, conn, r) =>
      ToSqlPlaceholders(l);
      ToSqlPlaceholders(r);
      BracketsCount(ToSql(l).value.text, ConnectiveName(conn), ToSql(r).value.text);
    case Negation(inner) =>
      ToSqlPlaceholders(inner);
      var t := ToSql(inner).value.text;
      CountCharAbsent("NOT (", '?');
      CountCharAbsent(")", '?');
      CountCharConcat("NOT (", t, '?');
      CountCharConcat("NOT (" + t, ")", '?');
  }

  lemma BracketsCount(l: string, name: string, r: string)
    requires '?' !in name
    ensures CountChar("(" + l + ") " + name + " (" + r + ")", '?') == CountChar(l, '?') + CountChar(r, '?')
  {
    CountCharAbsent("(", '?');
    CountCharAbsent(") ", '?');
    CountCharAbsent(name, '?');
    CountCharAbsent(" (", '?');
    CountCharAbsent(")", '?');
    CountCharConcat("(", l, '?');
    CountCharConcat("(" + l, ") ", '?');
    CountCharConcat("(" + l + ") ", name, '?');
    CountCharConcat("(" + l + ") " + name, " (", '?');
    CountCharConcat("(" + l + ") " + name + " (", r, '?');
    CountCharConcat("(" + l + ") " + name + " (" + r, ")", '?');
  }

  // ------------------------------------------------------------- rows

  /** A value as `update_record` sends it: lists as their JSON text, datetimes as ISO text. */
  datatype Stored = Plain(v: Value) | JsonText(items: seq<Value>)

  /** Whether `json.dumps` accepts a value: anything but a datetime, at any depth of nested lists. */
  predicate JsonEncodable(v: Value)
    decreases v
  {
    match v
    case VTime(_) => false
    case VList(items) => forall i | 0 <= i < |items| :: JsonEncodable(items[i])
    case _ => true
  }

  /**
   * How `update_record` prepares one value: a list goes through `json.dumps`,
   * which raises TypeError when a datetime is inside it; a datetime alone
   * becomes its ISO text; anything else is bound as it is.
   */
  function Encode(v: Value): (r: Result<Stored>)
    ensures r.Err? <==> v.VList? && !JsonEncodable(v)
    ensures r.Err? ==> r.error == TypeError
    ensures r.Ok? ==> (v.VList? <==> r.value.JsonText?)
    ensures r.Ok? && r.value.Plain? ==> !r.value.v.VTime?
  {
    match v
    case VList(items) => if JsonEncodable(v) then Ok(JsonText(items)) else Err(TypeError)
    case VTime(at) => Ok(Plain(VStr(IsoFormat(at))))
    case _ => Ok(Plain(v))
  }

  /** Every value of the fields passes `json.dumps` where it has to. */
  predicate AllEncodable(fields: seq<(string, Value)>) {
    forall i | 0 <= i < |fields| :: Encode(fields[i].1).Ok?
  }

  /** An UPDATE statement and the values bound to its placeholders. */
  datatype Statement = Statement(sql: string, params: seq<Stored>)

  function SetClause(fields: seq<(string, Value)>): string {
    Join(seq(|fields|, i requires 0 <= i < |fields| => fields[i].0 + " = ?"), ", ")
  }

  function UpdateStatement(table: string, fields: seq<(string, Value)>, id: Value): Statement
    requires AllEncodable(fields)
  {
    Statement("UPDATE " + table + " SET " + SetClause(fields) + " WHERE id = ?",
      seq(|fields|, i requires 0 <= i < |fields| => Encode(fields[i].1).value) + [Plain(id)])
  }

  /** `dict.update` with keyword arguments, in order: a later key wins. */
  function FieldsMap(fields: seq<(string, Value)>): map<string, Value> {
    if fields == [] then map[]
    else FieldsMap(fields[..|fields| - 1])[fields[|fields| - 1].0 := fields[|fields| - 1].1]
  }

  predicate DistinctKeys(fields: seq<(string, Value)>) {
    forall i, j | 0 <= i < j < |fields| :: fields[i].0 != fields[j].0
  }

  /** The merged map holds exactly the given keys, each with its given value. */
  lemma {:induction false} FieldsMapLookup(fields: seq<(string, Value)>)
    requires DistinctKeys(fields)
    ensures forall k :: k in FieldsMap(fields) <==> exists i | 0 <= i < |fields| :: fields[i].0 == k
    ensures forall i | 0 <= i < |fields| :: FieldsMap(fields)[fields[i].0] == fields[i].1
  {
    if fields != [] {
      var init := fields[..|fields| - 1];
      FieldsMapLookup(init);
      forall k
        ensures k in FieldsMap(fields) <==> exists i | 0 <= i < |fields| :: fields[i].0 == k
      {
        if k in FieldsMap(init) {
          var i :| 0 <= i < |init| && init[i].0 == k;
          assert fields[i].0 == k;
        }
        if exists i | 0 <= i < |fields| :: fields[i].0 == k {
          var i :| 0 <= i < |fields| && fields[i].0 == k;
          if i < |init| {
            assert init[i].0 == k;
          }
        }
      }
      forall i | 0 <= i < |fields|
        ensures FieldsMap(fields)[fields[i].0] == fields[i].1
      {
        if i < |init| {
          assert init[i] == fields[i];
        }
      }
    }
  }

  /**
   * What `update_record` answers: RuntimeError for a row not bound to a
   * table; nothing to do without fields; TypeError when a list value holds a
   * datetime; KeyError when the row has no `id`; otherwise the UPDATE
   * statement for the row's id.
   */
  function UpdateOutcome(bound: bool, table: string, data: map<string, Value>, fields: seq<(string, Value)>): Result<Option<Statement>> {
    if !bound then Err(RuntimeError("Row is not bound to a database table"))
    else if fields == [] then Ok(None)
    else if !AllEncodable(fields) then Err(TypeError)
    else if "id" !in data then Err(KeyError("id"))
    else Ok(Some(UpdateStatement(table, fields, data["id"])))
  }

  /** The UPDATE statement binds one value per placeholder: one per field, then the id. */
  lemma UpdateStatementPlaceholders(table: string, fields: seq<(string, Value)>, id: Value)
    requires AllEncodable(fields)
    requires '?' !in table
    requires forall i | 0 <= i < |fields| :: '?' !in fields[i].0
    ensures var st := UpdateStatement(table, fields, id);
      CountChar(st.sql, '?') == |st.params| == |fields| + 1
  {
    var parts := seq(|fields|, i requires 0 <= i < |fields| => fields[i].0 + " = ?");
    forall i | 0 <= i < |parts|
      ensures CountChar(parts[i], '?') == 1
    {
      assert parts[i] == (fields[i].0 + " = ") + ['?'] + [];
      CountCharOnce(fields[i].0 + " = ", '?', []);
    }
    CountCharAbsent(", ", '?');
    JoinCountChar(parts, ", ", '?');
    var head := "UPDATE " + table + " SET ";
    CountCharAbsent(head, '?');
    CountCharConcat(head, SetClause(fields), '?');
    assert " WHERE id = ?" == " WHERE id = " + ['?'] + [];
    CountCharOnce(" WHERE id = ", '?', []);
    CountCharConcat(head + SetClause(fields), " WHERE id = ?", '?');
  }

  /** `Row`: a column-to-value map, bound to a table when it came from one. */
  class Row {
    var data: map<string, Value>
    /** Whether the row carries `_db` and `_table`, as rows read from a table do. */
    const bound: bool
    const table: string

    constructor (data: map<string, Value>, bound: bool, table: string)
      ensures this.data == data && this.bound == bound && this.table == table
    {
      this.data := data;
      this.bound := bound;
      this.table := table;
    }

    /**
     * `update_record(**fields)`: on success the local data receives the
     * original, un-encoded values of exactly the given keys; on any error
     * and without fields it is unchanged.
     */
    method UpdateRecord(fields: seq<(string, Value)>) returns (r: Result<Option<Statement>>)
      modifies this
      ensures r == UpdateOutcome(bound, table, old(data), fields)
      ensures data == if r.Ok? then old(data) + FieldsMap(fields) else old(data)
    {
      if !bound {
        return Err(RuntimeError("Row is not bound to a database table"));
      }
      if fields == [] {
        return Ok(None);
      }
      var processed: seq<Stored> := [];
      for i := 0 to |fields|
        invariant |processed| == i
        invariant forall k | 0 <= k < i :: Encode(fields[k].1).Ok? && processed[k] == Encode(fields[k].1).value
      {
        var encoded := Encode(fields[i].1);
        if encoded.Err? {
          return Err(encoded.error);
        }
        processed := processed + [encoded.value];
      }
      var setClause := SetClause(fields);
      if "id" !in data {
        return Err(KeyError("id"));
      }
      var statement := Statement("UPDATE " + table + " SET " + setClause + " WHERE id = ?", processed + [Plain(data["id"])]);
      assert statement == UpdateStatement(table, fields, data["id"]);
      data := data + FieldsMap(fields);
      r := Ok(Some(statement));
    }

    /** `delete_record`: `update_record(deleted=True)`. */
    method DeleteRecord() returns (r: Result<Option<Statement>>)
      modifies this
      ensures r == UpdateOutcome(bound, table, old(data), [("deleted", VBool(true))])
      ensures data == if r.Ok? then old(data)["deleted" := VBool(true)] else old(data)
    {
      r := UpdateRecord([("deleted", VBool(true))]);
      assert FieldsMap([("deleted", VBool(true))]) == map["deleted" := VBool(true)] by {
        assert [("deleted", VBool(true))][..0] == [];
      }
    }
  }

  /** A successful update keeps every other key and gives each given key its value. */
  lemma UpdateKeepsOthers(old_data: map<string, Value>, fields: seq<(string, Value)>)
    requires DistinctKeys(fields)
    ensures var d := old_data + FieldsMap(fields);
      && (forall k | k in old_data && (forall i | 0 <= i < |fields| :: fields[i].0 != k) :: k in d && d[k] == old_data[k])
      && (forall i | 0 <= i < |fields| :: fields[i].0 in d && d[fields[i].0] == fields[i].1)
      && (forall k | k in d :: k in old_data || exists i | 0 <= i < |fields| :: fields[i].0 == k)
  {
    FieldsMapLookup(fields);
  }

  // ------------------------------------------------------------- define_table

  /** The default of a `FieldDef`: none, or a bool, str or int. */
  datatype Default = NoDefault | DefaultBool(b: bool) | DefaultStr(s: string) | DefaultInt(i: int)

  /** `FieldDef(name, type, default)`. */
  datatype FieldDef = FieldDef(name: string, typ: string, default: Default)

  const IdColumn: string := "id INTEGER PRIMARY KEY AUTOINCREMENT"

  /** The SQLite type a DAL type is stored as. */
  function SqlType(typ: string): string {
    if typ == "string" then "TEXT"
    else if typ == "integer" then "INTEGER"
    else if typ == "boolean" then "INTEGER"
    else if typ == "datetime" then "TEXT"
    else if typ == "list:string" then "TEXT"
    else "TEXT"
  }

  /** Integers and booleans are INTEGER columns, every other type is TEXT. */
  lemma SqlTypeMapping(typ: string)
    ensures SqlType(typ) == (if typ == "integer" || typ == "boolean" then "INTEGER" else "TEXT")
  {
  }

  function DefaultClause(d: Default): string {
    match d
    case NoDefault => ""
    case DefaultBool(b) => if b then " DEFAULT 1" else " DEFAULT 0"
    case DefaultStr(s) => " DEFAULT '" + s + "'"
    case DefaultInt(i) => " DEFAULT " + IntToString(i)
  }

  /** Only a field without a default gets no DEFAULT clause; every other clause starts with " DEFAULT ". */
  lemma DefaultClauseShape(d: Default)
    ensures DefaultClause(d) == "" <==> d.NoDefault?
    ensures !d.NoDefault? ==> StartsWith(DefaultClause(d), " DEFAULT ")
  {
    match d
    case NoDefault =>
    case DefaultBool(b) =>
    case DefaultStr(s) =>
      StartsWithConcat(" DEFAULT '", s + "'");
      assert " DEFAULT '" + s + "'" == " DEFAULT '" + (s + "'");
      assert (" DEFAULT '" + (s + "'"))[..9] == " DEFAULT ";
    case DefaultInt(i) =>
      StartsWithConcat(" DEFAULT ", IntToString(i));
  }

  function ColumnDef(f: FieldDef): string {
    f.name + " " + SqlType(f.typ) + DefaultClause(f.default)
  }

  /** The column definitions of a table: the id column first, then one per field, in order. */
  function ColumnDefs(fields: seq<FieldDef>): (defs: seq<string>)
    ensures |defs| == |fields| + 1 && defs[0] == IdColumn
  {
    if fields == [] then [IdColumn] else ColumnDefs(fields[..|fields| - 1]) + [ColumnDef(fields[|fields| - 1])]
  }

  lemma {:induction false} ColumnDefsAt(fields: seq<FieldDef>, k: nat)
    requires k < |fields|
    ensures ColumnDefs(fields)[k + 1] == ColumnDef(fields[k])
  {
    if k < |fields| - 1 {
      ColumnDefsAt(fields[..|fields| - 1], k);
    }
  }

  function CreateTableSql(name: string, defs: seq<string>): string {
    "CREATE TABLE IF NOT EXISTS " + name + " (" + Join(defs, ", ") + ")"
  }

  /** The field map of a table: each field name with its type, a later field with the same name winning. */
  function FieldTypes(fields: seq<FieldDef>): map<string, string> {
    if fields == [] then map[]
    else FieldTypes(fields[..|fields| - 1])[fields[|fields| - 1].name := fields[|fields| - 1].typ]
  }

  /** A name is in the field map exactly when some field has it, and maps to the type of the last such field. */
  lemma {:induction false} FieldTypesLookup(fields: seq<FieldDef>, k: string)
    ensures k in FieldTypes(fields) <==> exists i | 0 <= i < |fields| :: fields[i].name == k
    ensures k in FieldTypes(fields) ==> exists i | 0 <= i < |fields| ::
      && fields[i].name == k && FieldTypes(fields)[k] == fields[i].typ
      && forall j | i < j < |fields| :: fields[j].name != k
  {
    if fields != [] {
      var init := fields[..|fields| - 1];
      var last := |fields| - 1;
      FieldTypesLookup(init, k);
      assert forall i | 0 <= i < |init| :: init[i] == fields[i];
      if fields[last].name != k && k in FieldTypes(init) {
        var i :| 0 <= i < |init| && init[i].name == k && FieldTypes(init)[k] == init[i].typ
          && forall j | i < j < |init| :: init[j].name != k;
        assert fields[i].name == k;
      }
    }
  }

  /** The loop of `define_table`: the column definitions and the field map, field by field. */
  method BuildColumns(fields: seq<FieldDef>) returns (fieldDefs: seq<string>, fieldMap: map<string, string>)
    ensures fieldDefs == ColumnDefs(fields)
    ensures fieldMap == FieldTypes(fields)
  {
    fieldDefs := [IdColumn];
    fieldMap := map[];
    for i := 0 to |fields|
      invariant fieldDefs == ColumnDefs(fields[..i])
      invariant fieldMap == FieldTypes(fields[..i])
    {
      var field := fields[i];
      fieldMap := fieldMap[field.name := field.typ];
      fieldDefs := fieldDefs + [ColumnDef(field)];
      assert fields[..i + 1][..i] == fields[..i];
    }
    assert fields[..|fields|] == fields;
  }

  /** The connection: the tables defined on it, the statements it was given and its commits. */
  class Database {
    var tables: map<string, map<string, string>>
    /**
     * The schema statements `define_table` executed. An UPDATE from
     * `Row.update_record` is not logged here: `Row.UpdateRecord` returns it.
     */
    var executed: seq<string>
    var commits: nat

    constructor ()
      ensures tables == map[] && executed == [] && commits == 0
    {
      tables := map[];
      executed := [];
      commits := 0;
    }

    method Commit()
      modifies this
      ensures commits == old(commits) + 1
      ensures tables == old(tables) && executed == old(executed)
    {
      commits := commits + 1;
    }

    /**
     * `define_table(name, *fields)`: the CREATE TABLE IF NOT EXISTS
     * statement with the id column and one column per field, a commit, and
     * the table registered with its field map.
     */
    method DefineTable(name: string, fields: seq<FieldDef>) returns (fieldMap: map<string, string>)
      modifies this
      ensures fieldMap == FieldTypes(fields)
      ensures executed == old(executed) + [CreateTableSql(name, ColumnDefs(fields))]
      ensures commits == old(commits) + 1
      ensures tables == old(tables)[name := fieldMap]
    {
      var fieldDefs;
      fieldDefs, fieldMap := BuildColumns(fields);
      executed := executed + [CreateTableSql(name, fieldDefs)];
      commits := commits + 1;
      tables := tables[name := fieldMap];
    }
  }
}
