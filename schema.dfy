/** Table declarations in code: the `TableSchema` shape and the five tables
    the application declares. Optional fields of the declarations are
    `Option`s; an absent field is `None`. */
module Schema {
  import opened Wrappers

  datatype TableColumn = TableColumn(
    name: string,
    sqlType: string,
    isPrimary: Option<bool>,
    isNullable: Option<bool>,
    defaultValue: Option<string>,
    references: Option<string>)

  /** An index names one column text, or a list of columns. */
  datatype IndexColumns = One(text: string) | Many(names: seq<string>)

  datatype TableIndex = TableIndex(name: string, columns: IndexColumns, unique: Option<bool>)

  datatype PolicyOperation = All | Select | Insert | Update | Delete {
    function Keyword(): (k: string)
      ensures |k| > 0
    {
      match this
      case All => "ALL"
      case Select => "SELECT"
      case Insert => "INSERT"
      case Update => "UPDATE"
      case Delete => "DELETE"
    }
  }

  datatype TableRlsPolicy = TableRlsPolicy(
    name: string,
    operation: PolicyOperation,
    roles: seq<string>,
    using: Option<string>,
    check: Option<string>)

  datatype TableSchema = TableSchema(
    name: string,
    columns: seq<TableColumn>,
    indexes: Option<seq<TableIndex>>,
    rlsEnabled: Option<bool>,
    rlsPolicies: Option<seq<TableRlsPolicy>>)

  // ---------------------------------------------------------------------
  // The declared tables
  // ---------------------------------------------------------------------

  const UtcNow := "timezone('utc'::text, now())"
  const UsersFk := "auth.users(id) ON DELETE CASCADE"

  function IdColumn(): TableColumn {
    TableColumn("id", "UUID", Some(true), None, Some("gen_random_uuid()"), None)
  }

  function UserIdColumn(): TableColumn {
    TableColumn("user_id", "UUID", None, Some(false), None, Some(UsersFk))
  }

  function TimestampColumn(name: string): TableColumn {
    TableColumn(name, "TIMESTAMP WITH TIME ZONE", None, Some(false), Some(UtcNow), None)
  }

  function Plain(name: string, sqlType: string, nullable: bool): TableColumn {
    TableColumn(name, sqlType, None, Some(nullable), None, None)
  }

  function WithDefault(name: string, sqlType: string, nullable: bool, default: string): TableColumn {
    TableColumn(name, sqlType, None, Some(nullable), Some(default), None)
  }

  const AreasSchema := TableSchema(
    "areas",
    [ IdColumn(), UserIdColumn(),
      Plain("name", "TEXT", false),
      WithDefault("color", "TEXT", false, "'#2a67f4'"),
      Plain("icon", "TEXT", true),
      WithDefault("sort_order", "INTEGER", true, "0"),
      TimestampColumn("created_at"), TimestampColumn("updated_at") ],
    Some([ TableIndex("areas_user_id_idx", One("user_id"), None),
           TableIndex("areas_user_sort_order_idx", Many(["user_id", "sort_order"]), None) ]),
    Some(false),
    None)

  const HabitLogsSchema := TableSchema(
    "habit_logs",
    [ IdColumn(),
      Plain("habit_id", "UUID", false),
      UserIdColumn(),
      Plain("log_date", "DATE", false),
      Plain("status", "TEXT", false),
      Plain("value", "INTEGER", true),
      Plain("duration_minutes", "INTEGER", true),
      Plain("note", "TEXT", true),
      TimestampColumn("created_at"), TimestampColumn("updated_at") ],
    Some([ TableIndex("habit_logs_habit_id_idx", One("habit_id"), None),
           TableIndex("habit_logs_user_date_idx", Many(["user_id", "log_date"]), None),
           TableIndex("habit_logs_habit_date_idx", Many(["habit_id", "log_date"]), None) ]),
    Some(false),
    None)

  const HabitsSchema := TableSchema(
    "habits",
    [ IdColumn(), UserIdColumn(),
      Plain("name", "TEXT", false),
      Plain("description", "TEXT", true),
      WithDefault("type", "TEXT", false, "'checkbox'"),
      Plain("area_id", "UUID", true),
      Plain("color", "TEXT", true),
      Plain("icon", "TEXT", true),
      Plain("frequency", "JSONB", true),
      Plain("time_of_day", "TEXT[]", true),
      Plain("reminders", "TEXT[]", true),
      Plain("start_date", "DATE", true),
      Plain("end_date", "DATE", true),
      WithDefault("goal", "INTEGER", true, "1"),
      Plain("unit", "TEXT", true),
      Plain("target_value", "INTEGER", true),
      Plain("days_of_week", "INTEGER[]", true),
      Plain("tags", "TEXT[]", true),
      WithDefault("is_archived", "BOOLEAN", false, "false"),
      TimestampColumn("created_at"), TimestampColumn("updated_at") ],
    Some([ TableIndex("habits_user_id_idx", One("user_id"), None),
           TableIndex("habits_area_id_idx", One("area_id"), None),
           TableIndex("habits_created_at_idx", One("created_at DESC"), None) ]),
    Some(false),
    None)

  const ItemsSchema := TableSchema(
    "items",
    [ IdColumn(), UserIdColumn(),
      Plain("title", "TEXT", false),
      Plain("description", "TEXT", true),
      Plain("image_url", "TEXT", true),
      TimestampColumn("created_at") ],
    Some([ TableIndex("items_user_id_idx", One("user_id"), None),
           TableIndex("items_created_at_idx", One("created_at DESC"), None) ]),
    Some(false),
    None)

  const TimeOfDaySchema := TableSchema(
    "time_of_day",
    [ IdColumn(), UserIdColumn(),
      Plain("name", "TEXT", false),
      Plain("icon", "TEXT", true),
      Plain("start_time", "TEXT", false),
      Plain("end_time", "TEXT", false),
      Plain("color", "TEXT", true),
      WithDefault("sort_order", "INTEGER", true, "0"),
      TimestampColumn("created_at"), TimestampColumn("updated_at") ],
    Some([ TableIndex("time_of_day_user_id_idx", One("user_id"), None),
           TableIndex("time_of_day_user_sort_idx", Many(["user_id", "sort_order"]), None) ]),
    Some(false),
    None)

  /** The names of a schema's columns, in declaration order. */
  function ColumnNames(cols: seq<TableColumn>): (names: seq<string>)
    ensures |names| == |cols|
    ensures forall k :: 0 <= k < |cols| ==> names[k] == cols[k].name
  {
    seq(|cols|, k requires 0 <= k < |cols| => cols[k].name)
  }

  /** The areas table declares its ordering column as `sort_order`; it has
      no column named `order`. */
  lemma AreasOrderingColumn()
    ensures "sort_order" in ColumnNames(AreasSchema.columns)
    ensures "order" !in ColumnNames(AreasSchema.columns)
  {
    assert ColumnNames(AreasSchema.columns)[5] == "sort_order";
  }
}
