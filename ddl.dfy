/** The DDL compiler of the table manager: quoting of identifiers and the
    SQL text generated from a `TableSchema`. Column types, defaults,
    foreign-key targets, index column text and policy predicates are opaque
    strings copied into the output. */
module Ddl {
  import opened Wrappers
  import opened Strings
  import opened Js
  import opened Schema
  import opened Seqs

  // ---------------------------------------------------------------------
  // Quoted identifiers (PostgreSQL manual, section 4.1.1)
  // ---------------------------------------------------------------------

  /** Every `"` of `s` written twice. */
  function DoubleQuotes(s: string): (r: string)
    ensures |r| >= |s|
    decreases |s|
  {
    if s == [] then []
    else if s[0] == '"' then "\"\"" + DoubleQuotes(s[1..])
    else [s[0]] + DoubleQuotes(s[1..])
  }

  /** The inverse of `DoubleQuotes`: a pair `""` reads as one `"`; a lone
      `"` is malformed. */
  function UndoubleQuotes(r: string): (s: Option<string>)
    decreases |r|
  {
    if r == [] then Some([])
    else if r[0] == '"' then
      if |r| >= 2 && r[1] == '"' then
        match UndoubleQuotes(r[2..])
        case None => None
        case Some(rest) => Some("\"" + rest)
      else None
    else
      match UndoubleQuotes(r[1..])
      case None => None
      case Some(rest) => Some([r[0]] + rest)
  }

  lemma {:induction false} UndoubleDouble(s: string)
    ensures UndoubleQuotes(DoubleQuotes(s)) == Some(s)
    decreases |s|
  {
    if s != [] {
      UndoubleDouble(s[1..]);
      var d := DoubleQuotes(s[1..]);
      if s[0] == '"' {
        assert ("\"\"" + d)[2..] == d;
      } else {
        assert ([s[0]] + d)[1..] == d;
      }
      assert s == [s[0]] + s[1..];
    }
  }

  /** `quoteId`: the name between double quotes, embedded quotes doubled. */
  function QuoteId(name: string): (q: string)
    ensures |q| >= |name| + 2 && q[0] == '"' && q[|q| - 1] == '"'
  {
    "\"" + DoubleQuotes(name) + "\""
  }

  /** Reads a quoted identifier back. */
  function Unquote(q: string): (name: Option<string>) {
    if |q| >= 2 && q[0] == '"' && q[|q| - 1] == '"' then UndoubleQuotes(q[1..|q| - 1]) else None
  }

  /** Stripping the outer quotes and un-doubling gives back the name, so
      distinct names have distinct quoted forms. */
  lemma QuoteIdRoundTrip(name: string)
    ensures Unquote(QuoteId(name)) == Some(name)
  {
    var q := QuoteId(name);
    assert q[1..|q| - 1] == DoubleQuotes(name);
    UndoubleDouble(name);
  }

  lemma QuoteIdInjective(a: string, b: string)
    ensures QuoteId(a) == QuoteId(b) <==> a == b
  {
    QuoteIdRoundTrip(a);
    QuoteIdRoundTrip(b);
  }

  // ---------------------------------------------------------------------
  // Column definitions
  // ---------------------------------------------------------------------

  /** The definition of one column, built clause by clause. */
  function ColumnDef(col: TableColumn): string {
    var def := QuoteId(col.name) + " " + col.sqlType;
    var def := if col.defaultValue.Some? then def + (" DEFAULT " + col.defaultValue.value) else def;
    var def := if col.isNullable == Some(false) then def + " NOT NULL" else def;
    var def := if col.isPrimary == Some(true) then def + " PRIMARY KEY" else def;
    if Truthy(col.references) then def + (" REFERENCES " + col.references.value) else def
  }

  /** The optional clauses a column definition can carry, in the order
      they are written. */
  datatype Clause = DefaultClause(expr: string) | NotNullClause | PrimaryKeyClause | ReferencesClause(target: string) {
    function Rank(): nat {
      match this
      case DefaultClause(_) => 0
      case NotNullClause => 1
      case PrimaryKeyClause => 2
      case ReferencesClause(_) => 3
    }

    function Text(): string {
      match this
      case DefaultClause(e) => " DEFAULT " + e
      case NotNullClause => " NOT NULL"
      case PrimaryKeyClause => " PRIMARY KEY"
      case ReferencesClause(t) => " REFERENCES " + t
    }
  }

  function Opt<T>(present: bool, x: T): (s: seq<T>)
    ensures present ==> s == [x]
    ensures !present ==> s == []
  {
    if present then [x] else []
  }

  /** Which clauses a column declares: a default when `default_value` is
      given (even the empty string), NOT NULL only for `is_nullable: false`,
      PRIMARY KEY for `is_primary: true`, REFERENCES for a non-empty target;
      each at most once and in a fixed order. */
  function Clauses(col: TableColumn): (cs: seq<Clause>)
    ensures forall i, j :: 0 <= i < j < |cs| ==> cs[i].Rank() < cs[j].Rank()
    ensures forall e :: DefaultClause(e) in cs <==> col.defaultValue == Some(e)
    ensures NotNullClause in cs <==> col.isNullable == Some(false)
    ensures PrimaryKeyClause in cs <==> col.isPrimary == Some(true)
    ensures forall t :: ReferencesClause(t) in cs <==> Truthy(col.references) && col.references.value == t
  {
    Opt(col.defaultValue.Some?, DefaultClause(col.defaultValue.GetOr("")))
    + Opt(col.isNullable == Some(false), NotNullClause)
    + Opt(col.isPrimary == Some(true), PrimaryKeyClause)
    + Opt(Truthy(col.references), ReferencesClause(col.references.GetOr("")))
  }

  function RenderClauses(cs: seq<Clause>): string {
    if cs == [] then "" else cs[0].Text() + RenderClauses(cs[1..])
  }

  lemma {:induction false} RenderClausesAppend(a: seq<Clause>, b: seq<Clause>)
    ensures RenderClauses(a + b) == RenderClauses(a) + RenderClauses(b)
    decreases |a|
  {
    if a == [] {
      assert a + b == b;
    } else {
      assert (a + b)[0] == a[0];
      assert (a + b)[1..] == a[1..] + b;
      RenderClausesAppend(a[1..], b);
      Assoc(a[0].Text(), RenderClauses(a[1..]), RenderClauses(b));
    }
  }

  lemma RenderOpt(present: bool, c: Clause)
    ensures RenderClauses(Opt(present, c)) == if present then c.Text() else ""
  {
    if present {
      assert Opt(present, c)[1..] == [];
    }
  }

  /** Appending an optional clause to a definition that renders `cs`
      renders `cs` followed by that clause. */
  lemma AppendClause(def: string, base: string, cs: seq<Clause>, present: bool, c: Clause)
    requires def == base + RenderClauses(cs)
    ensures (if present then def + c.Text() else def) == base + RenderClauses(cs + Opt(present, c))
  {
    if present {
      RenderClausesAppend(cs, [c]);
      RenderOpt(present, c);
      Assoc(base, RenderClauses(cs), c.Text());
    } else {
      assert cs + Opt(present, c) == cs;
    }
  }

  /** A column definition is the quoted name, a space, the type and then
      exactly the declared clauses in the fixed order. */
  lemma ColumnDefShape(col: TableColumn)
    ensures ColumnDef(col) == QuoteId(col.name) + " " + col.sqlType + RenderClauses(Clauses(col))
  {
    var base := QuoteId(col.name) + " " + col.sqlType;
    var d := Opt(col.defaultValue.Some?, DefaultClause(col.defaultValue.GetOr("")));
    var n := Opt(col.isNullable == Some(false), NotNullClause);
    var p := Opt(col.isPrimary == Some(true), PrimaryKeyClause);
    var f := Opt(Truthy(col.references), ReferencesClause(col.references.GetOr("")));
    assert base == base + RenderClauses([]);
    AppendClause(base, base, [], col.defaultValue.Some?, DefaultClause(col.defaultValue.GetOr("")));
    var def1 := if col.defaultValue.Some? then base + (" DEFAULT " + col.defaultValue.value) else base;
    assert [] + d == d;
    AppendClause(def1, base, d, col.isNullable == Some(false), NotNullClause);
    var def2 := if col.isNullable == Some(false) then def1 + " NOT NULL" else def1;
    AppendClause(def2, base, d + n, col.isPrimary == Some(true), PrimaryKeyClause);
    var def3 := if col.isPrimary == Some(true) then def2 + " PRIMARY KEY" else def2;
    AppendClause(def3, base, d + n + p, Truthy(col.references), ReferencesClause(col.references.GetOr("")));
    assert Clauses(col) == d + n + p + f;
  }

  /** `schema.columns.map(...)`: one definition per column, in order. */
  function ColumnDefs(cols: seq<TableColumn>): (defs: seq<string>)
    ensures |defs| == |cols|
    ensures forall k :: 0 <= k < |cols| ==> defs[k] == ColumnDef(cols[k])
  {
    seq(|cols|, k requires 0 <= k < |cols| => ColumnDef(cols[k]))
  }

  // ---------------------------------------------------------------------
  // Statements
  // ---------------------------------------------------------------------

  /** The statements `schemaToSql` can emit, before they are written out
      as text. */
  datatype Sql =
    | CreateTable(schema: TableSchema)
    | CreateIndex(idx: TableIndex, fullTable: string)
    | EnableRls(fullTable: string)
    | DropPolicy(policy: TableRlsPolicy, fullTable: string)
    | CreatePolicy(policy: TableRlsPolicy, fullTable: string)

  function FullTable(name: string): string {
    "public." + QuoteId(name)
  }

  function CreateTableStatement(schema: TableSchema): string {
    "CREATE TABLE IF NOT EXISTS " + FullTable(schema.name) + " (" + Join(ColumnDefs(schema.columns), ", ") + ")"
  }

  function IndexColumnsText(c: IndexColumns): string {
    match c
    case Many(names) => Join(names, ", ")
    case One(text) => text
  }

  function IndexStatement(idx: TableIndex, fullTable: string): string {
    "CREATE" + (if idx.unique == Some(true) then " UNIQUE" else "") + " INDEX IF NOT EXISTS "
      + QuoteId(idx.name) + " ON " + fullTable + " (" + IndexColumnsText(idx.columns) + ")"
  }

  function EnableRlsStatement(fullTable: string): string {
    "ALTER TABLE " + fullTable + " ENABLE ROW LEVEL SECURITY"
  }

  function DropPolicyStatement(p: TableRlsPolicy, fullTable: string): string {
    "DROP POLICY IF EXISTS " + QuoteId(p.name) + " ON " + fullTable
  }

  function CreatePolicyStatement(p: TableRlsPolicy, fullTable: string): string {
    var stmt := "CREATE POLICY " + QuoteId(p.name) + " ON " + fullTable + " FOR " + p.operation.Keyword()
      + " TO " + Join(p.roles, ", ");
    var stmt := if Truthy(p.using) then stmt + " USING (" + p.using.value + ")" else stmt;
    var stmt := if Truthy(p.check) then stmt + " WITH CHECK (" + p.check.value + ")" else stmt;
    stmt + ";"
  }

  /** The text of one statement. */
  function Render(q: Sql): string {
    match q
    case CreateTable(schema) => CreateTableStatement(schema)
    case CreateIndex(idx, fullTable) => IndexStatement(idx, fullTable)
    case EnableRls(fullTable) => EnableRlsStatement(fullTable)
    case DropPolicy(p, fullTable) => DropPolicyStatement(p, fullTable)
    case CreatePolicy(p, fullTable) => CreatePolicyStatement(p, fullTable)
  }

  /** The texts of a list of statements, in order. */
  function Rendered(qs: seq<Sql>): (r: seq<string>)
    ensures |r| == |qs|
  {
    Map(Render, qs)
  }

  lemma RenderedAt(qs: seq<Sql>, k: nat)
    requires k < |qs|
    ensures Rendered(qs)[k] == Render(qs[k])
  {
    MapAt(Render, qs, k);
  }

  lemma RenderedAppend(a: seq<Sql>, b: seq<Sql>)
    ensures Rendered(a + b) == Rendered(a) + Rendered(b)
  {
    MapAppend(Render, a, b);
  }

  lemma RenderedSingle(q: Sql)
    ensures Rendered([q]) == [Render(q)]
  {
    MapSingle(Render, q);
  }

  /** One CREATE INDEX per index, in order. */
  function IndexSqls(idxs: seq<TableIndex>, fullTable: string): (r: seq<Sql>)
    ensures |r| == |idxs|
    ensures forall k :: 0 <= k < |idxs| ==> r[k] == CreateIndex(idxs[k], fullTable)
  {
    seq(|idxs|, k requires 0 <= k < |idxs| => CreateIndex(idxs[k], fullTable))
  }

  /** A DROP followed by a CREATE for each policy, in order. */
  function PolicySqls(ps: seq<TableRlsPolicy>, fullTable: string): (r: seq<Sql>)
    ensures |r| == 2 * |ps|
    decreases |ps|
  {
    if ps == [] then []
    else
      var n := |ps| - 1;
      PolicySqls(ps[..n], fullTable) + [DropPolicy(ps[n], fullTable), CreatePolicy(ps[n], fullTable)]
  }

  lemma {:induction false} PolicySqlAt(ps: seq<TableRlsPolicy>, fullTable: string, k: nat)
    requires k < |ps|
    ensures PolicySqls(ps, fullTable)[2 * k] == DropPolicy(ps[k], fullTable)
    ensures PolicySqls(ps, fullTable)[2 * k + 1] == CreatePolicy(ps[k], fullTable)
    decreases |ps|
  {
    var n := |ps| - 1;
    if k < n {
      PolicySqlAt(ps[..n], fullTable, k);
      assert ps[..n][k] == ps[k];
    }
  }

  /** Row level security is written out only when it is enabled and there
      is at least one policy. */
  predicate RlsOn(schema: TableSchema) {
    schema.rlsEnabled == Some(true) && schema.rlsPolicies.Some? && |schema.rlsPolicies.value| > 0
  }

  /** The CREATE INDEX statements, when there are indexes. */
  function IndexPart(schema: TableSchema): seq<Sql> {
    if schema.indexes.Some? && |schema.indexes.value| > 0
    then IndexSqls(schema.indexes.value, FullTable(schema.name)) else []
  }

  /** The row level security statements, when it is on. */
  function RlsPart(schema: TableSchema): seq<Sql> {
    if RlsOn(schema)
    then [EnableRls(FullTable(schema.name))] + PolicySqls(schema.rlsPolicies.value, FullTable(schema.name))
    else []
  }

  /** The statements `schemaToSql` emits, in order. */
  function Statements(schema: TableSchema): seq<Sql> {
    [CreateTable(schema)] + IndexPart(schema) + RlsPart(schema)
  }

  /** The SQL text of a table declaration: the statements joined by `; `. */
  function Script(schema: TableSchema): string {
    Join(Rendered(Statements(schema)), "; ")
  }

  /** `schemaToSql`: the statements built into a list step by step and
      joined with `; `. */
  method SchemaToSql(schema: TableSchema) returns (sql: string)
    ensures sql == Script(schema)
  {
    var tableName := schema.name;
    var fullTable := "public." + QuoteId(tableName);
    var parts: seq<string> := [];
    var columnDefs := ColumnDefs(schema.columns);
    var create := "CREATE TABLE IF NOT EXISTS " + fullTable + " (" + Join(columnDefs, ", ") + ")";
    assert create == Render(CreateTable(schema));
    RenderedSingle(CreateTable(schema));
    parts := parts + [create];
    var head := [CreateTable(schema)];
    assert parts == Rendered(head);
    if schema.indexes.Some? && |schema.indexes.value| > 0 {
      parts := PushIndexStatements(parts, schema.indexes.value, fullTable);
      RenderedAppend(head, IndexPart(schema));
    } else {
      assert head + IndexPart(schema) == head;
    }
    head := head + IndexPart(schema);
    assert parts == Rendered(head);
    if schema.rlsEnabled == Some(true) && schema.rlsPolicies.Some? && |schema.rlsPolicies.value| > 0 {
      parts := PushRlsStatements(parts, schema.rlsPolicies.value, fullTable);
      RenderedAppend(head, RlsPart(schema));
    } else {
      assert head + RlsPart(schema) == head;
    }
    assert parts == Rendered(Statements(schema));
    sql := Join(parts, "; ");
  }

  /** The row level security part: ENABLE, then the policies. */
  method PushRlsStatements(parts0: seq<string>, policies: seq<TableRlsPolicy>, fullTable: string) returns (parts: seq<string>)
    ensures parts == parts0 + Rendered([EnableRls(fullTable)] + PolicySqls(policies, fullTable))
  {
    var enable := "ALTER TABLE " + fullTable + " ENABLE ROW LEVEL SECURITY";
    assert enable == Render(EnableRls(fullTable));
    parts := PushPolicyStatements(parts0 + [enable], policies, fullTable);
    var pols := Rendered(PolicySqls(policies, fullTable));
    RenderedAppend([EnableRls(fullTable)], PolicySqls(policies, fullTable));
    RenderedSingle(EnableRls(fullTable));
    assert parts0 + [enable] + pols == parts0 + ([enable] + pols);
  }

  /** The text pushed for one index. */
  method IndexText(idx: TableIndex, fullTable: string) returns (stmt: string)
    ensures stmt == Render(CreateIndex(idx, fullTable))
  {
    var cols := match idx.columns case Many(names) => Join(names, ", ") case One(text) => text;
    var unique := if idx.unique == Some(true) then " UNIQUE" else "";
    stmt := "CREATE" + unique + " INDEX IF NOT EXISTS " + QuoteId(idx.name) + " ON " + fullTable + " (" + cols + ")";
  }

  /** The loop over the indexes: one CREATE INDEX pushed per index. */
  method PushIndexStatements(parts0: seq<string>, idxs: seq<TableIndex>, fullTable: string) returns (parts: seq<string>)
    ensures parts == parts0 + Rendered(IndexSqls(idxs, fullTable))
  {
    parts := parts0;
    var i := 0;
    while i < |idxs|
      invariant 0 <= i <= |idxs|
      invariant parts == parts0 + Rendered(IndexSqls(idxs[..i], fullTable))
    {
      var stmt := IndexText(idxs[i], fullTable);
      IndexSqlsSnoc(idxs, i, fullTable);
      RenderedAppend(IndexSqls(idxs[..i], fullTable), [CreateIndex(idxs[i], fullTable)]);
      RenderedSingle(CreateIndex(idxs[i], fullTable));
      parts := parts + [stmt];
      i := i + 1;
    }
    assert idxs[..i] == idxs;
  }

  lemma IndexSqlsSnoc(idxs: seq<TableIndex>, i: nat, fullTable: string)
    requires i < |idxs|
    ensures IndexSqls(idxs[..i + 1], fullTable) == IndexSqls(idxs[..i], fullTable) + [CreateIndex(idxs[i], fullTable)]
  {
  }

  lemma PolicySqlsSnoc(ps: seq<TableRlsPolicy>, i: nat, fullTable: string)
    requires i < |ps|
    ensures PolicySqls(ps[..i + 1], fullTable)
      == PolicySqls(ps[..i], fullTable) + [DropPolicy(ps[i], fullTable), CreatePolicy(ps[i], fullTable)]
  {
    assert ps[..i + 1][..i] == ps[..i];
  }

  /** The two texts pushed for one policy: the DROP, and the CREATE built
      clause by clause. */
  method PolicyText(policy: TableRlsPolicy, fullTable: string) returns (drop: string, stmt: string)
    ensures drop == Render(DropPolicy(policy, fullTable))
    ensures stmt == Render(CreatePolicy(policy, fullTable))
  {
    drop := "DROP POLICY IF EXISTS " + QuoteId(policy.name) + " ON " + fullTable;
    var op := if policy.operation == All then "ALL" else policy.operation.Keyword();
    var roles := Join(policy.roles, ", ");
    stmt := "CREATE POLICY " + QuoteId(policy.name) + " ON " + fullTable + " FOR " + op + " TO " + roles;
    if Truthy(policy.using) { stmt := stmt + " USING (" + policy.using.value + ")"; }
    if Truthy(policy.check) { stmt := stmt + " WITH CHECK (" + policy.check.value + ")"; }
    stmt := stmt + ";";
  }

  /** The loop over the policies: a DROP and a CREATE pushed per policy. */
  method PushPolicyStatements(parts0: seq<string>, policies: seq<TableRlsPolicy>, fullTable: string) returns (parts: seq<string>)
    ensures parts == parts0 + Rendered(PolicySqls(policies, fullTable))
  {
    parts := parts0;
    var i := 0;
    while i < |policies|
      invariant 0 <= i <= |policies|
      invariant parts == parts0 + Rendered(PolicySqls(policies[..i], fullTable))
    {
      var drop, stmt := PolicyText(policies[i], fullTable);
      PolicySqlsSnoc(policies, i, fullTable);
      var pair := [DropPolicy(policies[i], fullTable), CreatePolicy(policies[i], fullTable)];
      RenderedAppend(PolicySqls(policies[..i], fullTable), pair);
      RenderedAt(pair, 0);
      RenderedAt(pair, 1);
      assert Rendered(pair) == [drop, stmt];
      parts := parts + [drop] + [stmt];
      i := i + 1;
    }
    assert policies[..i] == policies;
  }

  // ---------------------------------------------------------------------
  // Properties of the generated statements
  // ---------------------------------------------------------------------

  /** One CREATE TABLE, one statement per index and, when row level
      security is on, one ENABLE plus two statements per policy. */
  lemma StatementCount(schema: TableSchema)
    ensures |Statements(schema)| ==
      1 + |schema.indexes.GetOr([])| + (if RlsOn(schema) then 1 + 2 * |schema.rlsPolicies.value| else 0)
    ensures !RlsOn(schema) ==> |Statements(schema)| == 1 + |schema.indexes.GetOr([])|
  {
    assert |IndexPart(schema)| == |schema.indexes.GetOr([])|;
  }

  /** Indexing into a head element followed by two groups. */
  lemma ThreeParts<T>(a: T, b: seq<T>, c: seq<T>)
    ensures ([a] + b + c)[0] == a
    ensures forall k :: 0 <= k < |b| ==> ([a] + b + c)[1 + k] == b[k]
    ensures forall k :: 0 <= k < |c| ==> ([a] + b + c)[1 + |b| + k] == c[k]
  {
  }

  /** The statement at each position: the CREATE TABLE, then one CREATE
      INDEX per index, then the ENABLE when row level security is on. */
  lemma StatementAt(schema: TableSchema)
    ensures Statements(schema)[0] == CreateTable(schema)
    ensures forall k :: 0 <= k < |schema.indexes.GetOr([])| ==>
      Statements(schema)[1 + k] == CreateIndex(schema.indexes.GetOr([])[k], FullTable(schema.name))
    ensures RlsOn(schema) ==> Statements(schema)[1 + |schema.indexes.GetOr([])|] == EnableRls(FullTable(schema.name))
  {
    var idx := IndexPart(schema);
    assert |idx| == |schema.indexes.GetOr([])|;
    ThreeParts(CreateTable(schema), idx, RlsPart(schema));
  }

  /** With row level security on, the policy statements follow the ENABLE
      statement: a DROP and then a CREATE per policy. */
  lemma RlsStatementsAt(schema: TableSchema, k: nat)
    requires RlsOn(schema) && k < |schema.rlsPolicies.value|
    ensures var base := 2 + |schema.indexes.GetOr([])|;
      var p := schema.rlsPolicies.value[k];
      Statements(schema)[base + 2 * k] == DropPolicy(p, FullTable(schema.name))
      && Statements(schema)[base + 2 * k + 1] == CreatePolicy(p, FullTable(schema.name))
  {
    var full := FullTable(schema.name);
    var ps := schema.rlsPolicies.value;
    var head := [CreateTable(schema)] + IndexPart(schema);
    var pols := PolicySqls(ps, full);
    assert |head| == 1 + |schema.indexes.GetOr([])|;
    assert Statements(schema) == head + ([EnableRls(full)] + pols);
    PolicySqlAt(ps, full, k);
    AppendAt(head, [EnableRls(full)] + pols, |head| + 1 + 2 * k);
    AppendAt(head, [EnableRls(full)] + pols, |head| + 2 + 2 * k);
    AppendAt([EnableRls(full)], pols, 1 + 2 * k);
    AppendAt([EnableRls(full)], pols, 2 + 2 * k);
  }

  lemma AppendAt<T>(a: seq<T>, b: seq<T>, i: nat)
    requires |a| <= i < |a| + |b|
    ensures (a + b)[i] == b[i - |a|]
  {
  }

  /** Every CREATE POLICY text ends in `;`. */
  lemma CreatePolicyEndsWithSemicolon(p: TableRlsPolicy, fullTable: string)
    ensures EndsWith(Render(CreatePolicy(p, fullTable)), ";")
  {
    var c := CreatePolicyStatement(p, fullTable);
    var body := c[..|c| - 1];
    assert c == body + ";";
    assert c[|c| - 1..] == ";";
  }

  /** The ENABLE text appears in the script exactly when row level
      security is on; without it every statement is a CREATE. */
  lemma EnableIffRlsOn(schema: TableSchema)
    ensures EnableRlsStatement(FullTable(schema.name)) in Rendered(Statements(schema)) <==> RlsOn(schema)
  {
    var full := FullTable(schema.name);
    var st := Statements(schema);
    var texts := Rendered(st);
    var enable := EnableRlsStatement(full);
    EnableStartsWithA(full);
    StatementAt(schema);
    if !RlsOn(schema) {
      forall k | 0 <= k < |texts|
        ensures |texts[k]| > 0 && texts[k][0] == 'C'
      {
        StatementCount(schema);
        RenderedAt(st, k);
        if k == 0 {
          CreateTableStartsWithC(schema);
        } else {
          IndexStatementStartsWithC(schema.indexes.GetOr([])[k - 1], full);
        }
      }
    } else {
      StatementCount(schema);
      RenderedAt(st, 1 + |schema.indexes.GetOr([])|);
      assert texts[1 + |schema.indexes.GetOr([])|] == enable;
    }
  }

  lemma EnableStartsWithA(full: string)
    ensures |EnableRlsStatement(full)| > 0 && EnableRlsStatement(full)[0] == 'A'
  {
  }

  lemma CreateTableStartsWithC(schema: TableSchema)
    ensures |CreateTableStatement(schema)| > 0 && CreateTableStatement(schema)[0] == 'C'
  {
  }

  lemma IndexStatementStartsWithC(idx: TableIndex, full: string)
    ensures |IndexStatement(idx, full)| > 0 && IndexStatement(idx, full)[0] == 'C'
  {
  }

  // ---------------------------------------------------------------------
  // The declared tables
  // ---------------------------------------------------------------------

  /** None of the declared tables turns row level security on, so each
      compiles to its CREATE TABLE plus one statement per index. */
  lemma AreasStatementCount()
    ensures |Statements(AreasSchema)| == 3
  {
    StatementCount(AreasSchema);
  }

  lemma HabitLogsStatementCount()
    ensures |Statements(HabitLogsSchema)| == 4
  {
    StatementCount(HabitLogsSchema);
  }

  lemma HabitsStatementCount()
    ensures |Statements(HabitsSchema)| == 4
  {
    StatementCount(HabitsSchema);
  }

  lemma ItemsStatementCount()
    ensures |Statements(ItemsSchema)| == 3
  {
    StatementCount(ItemsSchema);
  }

  lemma TimeOfDayStatementCount()
    ensures |Statements(TimeOfDaySchema)| == 3
  {
    StatementCount(TimeOfDaySchema);
  }
}
