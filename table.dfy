/** A table of a database: its type and the wire names of the types
    (Table.java). A table is immutable once built. */
module Tables {

  /** The kinds of table. */
  datatype TableType = Log | Item | Unknown

  /** The wire names of the types `ToType` recognises, with the name
      `ToTypeName` gives to `Unknown`. */
  const TYPE_NAMES: set<string> := {"log", "item", "unknown"}

  /** Parses a wire name by exact, case-sensitive comparison; every name it
      does not know, "unknown" among them, becomes `Unknown`. */
  function ToType(typeName: string): (t: TableType)
    ensures t == Log <==> typeName == "log"
    ensures t == Item <==> typeName == "item"
    ensures t == Unknown <==> typeName !in {"log", "item"}
  {
    if typeName == "log" then Log
    else if typeName == "item" then Item
    else Unknown
  }

  /** The wire name of a table type. */
  function ToTypeName(tableType: TableType): (name: string)
    ensures name in TYPE_NAMES
  {
    match tableType
    case Log => "log"
    case Item => "item"
    case Unknown => "unknown"
  }

  /** Naming a type and parsing the name gives the type back. */
  lemma TypeRoundTrip(tableType: TableType)
    ensures ToType(ToTypeName(tableType)) == tableType
  {
  }

  /** Parsing a name and naming the result gives the name back exactly for the
      three names in `TYPE_NAMES`; any other name comes back as "unknown". */
  lemma TypeNameRoundTrip(typeName: string)
    ensures ToTypeName(ToType(typeName)) == typeName <==> typeName in TYPE_NAMES
    ensures typeName !in TYPE_NAMES ==> ToTypeName(ToType(typeName)) == "unknown"
  {
  }

  /** Distinct types have distinct wire names. */
  lemma TypeNameInjective(s: TableType, t: TableType)
    ensures ToTypeName(s) == ToTypeName(t) ==> s == t
  {
    TypeRoundTrip(s);
    TypeRoundTrip(t);
  }

  /** Comparison is case-sensitive and "unknown" is not special: these names
      all parse to the catch-all. */
  lemma UnrecognisedTypeNames()
    ensures ToType("unknown") == Unknown
    ensures ToType("") == Unknown
    ensures ToType("LOG") == Unknown
    ensures ToType("items") == Unknown
  {
  }

  /** The database a table belongs to; only its name is used here. */
  datatype Database = Database(name: string)

  /** A table: its database, its name and its type. The datatype's
      destructors are the getters; there are no setters. */
  datatype Table = Table(database: Database, name: string, tableType: TableType)

  /** The three-argument constructor: stores its arguments as they are. */
  function NewTypedTable(database: Database, name: string, tableType: TableType): (t: Table)
    ensures t.database == database && t.name == name && t.tableType == tableType
  {
    Table(database, name, tableType)
  }

  /** The two-argument constructor: a log table. */
  function NewTable(database: Database, name: string): (t: Table)
    ensures t == NewTypedTable(database, name, Log)
    ensures t.database == database && t.name == name && t.tableType == Log
  {
    NewTypedTable(database, name, Log)
  }
}
