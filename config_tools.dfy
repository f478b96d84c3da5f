/**
 * The statements the configuration tool prints or runs to set up the cache
 * table: CREATE TABLE, the index on ExpiresAtTime, and the lookup of the table
 * in INFORMATION_SCHEMA, whose names are embedded as quoted literals.
 */
module ConfigTools {
  import opened Wrappers
  import opened DotNet
  import opened SqlFormat
  import Parameters

  /** The declared width of the Id column of the table the tool creates. */
  const KeyColumnWidth := 250

  /** The declaration of the Id column, the first column of the table. */
  const KeyColumnDeclaration := "`Id` varchar(250) NOT NULL,"
  const OtherColumns :=
    "`AbsoluteExpiration` datetime(6) DEFAULT NULL," +
    "`ExpiresAtTime` datetime(6) NOT NULL," +
    "`SlidingExpirationInSeconds` bigint(20) DEFAULT NULL," +
    "`Value` longblob NOT NULL," +
    "PRIMARY KEY(`Id`)," +
    "KEY `Index_ExpiresAtTime` (`ExpiresAtTime`)" +
    ")"

  const CreateTableHead := "CREATE TABLE `"
  const CreateTableTail := "` (" + KeyColumnDeclaration + OtherColumns
  const CreateTableFormat: Template := [Lit(CreateTableHead), Hole(0), Lit(CreateTableTail)]

  const IndexHead := "CREATE NONCLUSTERED INDEX Index_ExpiresAtTime ON "
  const IndexTail := "(ExpiresAtTime)"
  const CreateNonClusteredIndexOnExpirationTimeFormat: Template := [Lit(IndexHead), Hole(0), Lit(IndexTail)]

  const TableInfoHead :=
    "SELECT TABLE_CATALOG, TABLE_SCHEMA, TABLE_NAME, TABLE_TYPE " +
    "FROM INFORMATION_SCHEMA.TABLES " +
    "WHERE TABLE_SCHEMA = '"
  const TableInfoMiddle := "' AND TABLE_NAME = '"
  const TableInfoTail := "'"
  const TableInfoFormat: Template := [Lit(TableInfoHead), Hole(0), Lit(TableInfoMiddle), Hole(1), Lit(TableInfoTail)]

  /** The format of the table reference: "{1}", which leaves out the database name. */
  const TableReferenceFormat: Template := [Hole(1)]

  const DatabaseNameMessage := "Database name cannot be empty or null"
  const TableNameMessage := "Table name cannot be empty or null"

  /** Kept from the identifier quoting of the EF provider: no change to the name. */
  function DelimitIdentifier(identifier: string): string {
    identifier
  }

  predicate NoQuote(s: string) {
    forall i :: 0 <= i < |s| ==> s[i] != '\''
  }

  /** `literal.Replace("'", "''")`: every single quote doubled, everything else kept. */
  function EscapeLiteral(literal: string): (r: string)
    ensures NoQuote(literal) ==> r == literal
    ensures |r| >= |literal|
  {
    if literal == [] then []
    else
      var rest := EscapeLiteral(literal[1..]);
      if literal[0] == '\'' then "''" + rest
      else
        assert NoQuote(literal) ==> NoQuote(literal[1..]);
        [literal[0]] + rest
  }

  /** Reads a doubled quote back as one quote, and every other character as itself. */
  function UnescapeLiteral(s: string): string
    decreases |s|
  {
    if s == [] then []
    else if |s| >= 2 && s[0] == '\'' && s[1] == '\'' then "'" + UnescapeLiteral(s[2..])
    else [s[0]] + UnescapeLiteral(s[1..])
  }

  /** No quote in `s` stands alone: each is half of a doubled pair. */
  predicate QuotesPaired(s: string)
    decreases |s|
  {
    if s == [] then true
    else if s[0] == '\'' then |s| >= 2 && s[1] == '\'' && QuotesPaired(s[2..])
    else QuotesPaired(s[1..])
  }

  /** Reading the doubled quotes back gives exactly the name that was embedded. */
  lemma {:induction false} UnescapeEscapeLiteral(s: string)
    ensures UnescapeLiteral(EscapeLiteral(s)) == s
  {
    if s != [] {
      var rest := EscapeLiteral(s[1..]);
      UnescapeEscapeLiteral(s[1..]);
      if s[0] == '\'' {
        assert EscapeLiteral(s) == "''" + rest;
        assert ("''" + rest)[2..] == rest;
        assert s == "'" + s[1..];
      } else {
        assert EscapeLiteral(s) == [s[0]] + rest;
        assert ([s[0]] + rest)[1..] == rest;
        assert s == [s[0]] + s[1..];
      }
    }
  }

  /** Every quote of an escaped name is one half of a doubled pair. */
  lemma {:induction false} EscapeLiteralPairsQuotes(s: string)
    ensures QuotesPaired(EscapeLiteral(s))
  {
    if s != [] {
      var rest := EscapeLiteral(s[1..]);
      EscapeLiteralPairsQuotes(s[1..]);
      if s[0] == '\'' {
        assert ("''" + rest)[2..] == rest;
      } else {
        assert ([s[0]] + rest)[1..] == rest;
      }
    }
  }

  /** The statements of the tool for one database and table. */
  datatype ToolQueries = ToolQueries(createTable: string, createNonClusteredIndexOnExpirationTime: string, tableInfo: string)

  /** The constructor: both names are required; the table reference is the table name alone. */
  function NewToolQueries(databaseName: Option<string>, tableName: Option<string>): (r: Result<ToolQueries, Exception>)
    ensures r.Success? <==> !IsNullOrEmpty(databaseName) && !IsNullOrEmpty(tableName)
    ensures IsNullOrEmpty(databaseName) ==> r == Failure(Argument(DatabaseNameMessage))
    ensures !IsNullOrEmpty(databaseName) && IsNullOrEmpty(tableName) ==> r == Failure(Argument(TableNameMessage))
    ensures r.Success? ==>
      && r.value.createTable == CreateTableHead + tableName.value + CreateTableTail
      && r.value.createNonClusteredIndexOnExpirationTime == IndexHead + tableName.value + IndexTail
      && r.value.tableInfo ==
           TableInfoHead + EscapeLiteral(databaseName.value) + TableInfoMiddle + EscapeLiteral(tableName.value) + TableInfoTail
  {
    if IsNullOrEmpty(databaseName) then Failure(Argument(DatabaseNameMessage))
    else if IsNullOrEmpty(tableName) then Failure(Argument(TableNameMessage))
    else
      var names := [DelimitIdentifier(databaseName.value), DelimitIdentifier(tableName.value)];
      FormatSecond(names);
      var tableNameWithDatabase := Format(TableReferenceFormat, names);
      var literals := [EscapeLiteral(databaseName.value), EscapeLiteral(tableName.value)];
      FormatSplice(CreateTableHead, 0, CreateTableTail, [tableNameWithDatabase]);
      FormatSplice(IndexHead, 0, IndexTail, [tableNameWithDatabase]);
      FormatSplice2(TableInfoHead, 0, TableInfoMiddle, 1, TableInfoTail, literals);
      Success(ToolQueries(
        Format(CreateTableFormat, [tableNameWithDatabase]),
        Format(CreateNonClusteredIndexOnExpirationTimeFormat, [tableNameWithDatabase]),
        Format(TableInfoFormat, literals)))
  }

  /** CREATE TABLE and the index statement do not depend on the database name at all. */
  lemma TableStatementsIgnoreDatabaseName(db1: string, db2: string, tableName: string)
    requires db1 != [] && db2 != [] && tableName != []
    ensures var q1 := NewToolQueries(Some(db1), Some(tableName)).value;
      var q2 := NewToolQueries(Some(db2), Some(tableName)).value;
      && q1.createTable == q2.createTable
      && q1.createNonClusteredIndexOnExpirationTime == q2.createNonClusteredIndexOnExpirationTime
  {
  }

  /** Both statements name the table through the same reference, right after their fixed heads. */
  lemma IndexAndTableShareReference(databaseName: string, tableName: string)
    requires databaseName != [] && tableName != []
    ensures var q := NewToolQueries(Some(databaseName), Some(tableName)).value;
      && q.createTable[|CreateTableHead|..|CreateTableHead| + |tableName|] == tableName
      && q.createNonClusteredIndexOnExpirationTime[|IndexHead|..|IndexHead| + |tableName|] == tableName
  {
    SliceBetween(CreateTableHead, tableName, CreateTableTail);
    SliceBetween(IndexHead, tableName, IndexTail);
  }

  /** The middle part of a three-part concatenation, cut out again. */
  lemma SliceBetween(head: string, middle: string, tail: string)
    ensures (head + middle + tail)[|head|..|head| + |middle|] == middle
  {
    assert head + middle + tail == head + (middle + tail);
  }

  /**
   * The CREATE TABLE text starts "CREATE TABLE `", not "CREATE TABLE IF NOT
   * EXISTS": it neither guards against an existing table nor names the database.
   */
  lemma CreateTableHasNoExistenceGuard(databaseName: string, tableName: string)
    requires databaseName != [] && tableName != []
    ensures !("CREATE TABLE IF NOT EXISTS" <= NewToolQueries(Some(databaseName), Some(tableName)).value.createTable)
  {
    var q := NewToolQueries(Some(databaseName), Some(tableName)).value;
    GuardedHeadDiffers();
    Associate(CreateTableHead, tableName, CreateTableTail);
    DifferentHeads(GuardedCreateTableHead, CreateTableHead, tableName + CreateTableTail, 13);
  }

  const GuardedCreateTableHead := "CREATE TABLE IF NOT EXISTS"

  lemma GuardedHeadDiffers()
    ensures 13 < |GuardedCreateTableHead| && 13 < |CreateTableHead|
    ensures GuardedCreateTableHead[13] != CreateTableHead[13]
  {
  }

  /** A text that starts with `head` does not start with a `p` that differs from `head` at `i`. */
  lemma DifferentHeads(p: string, head: string, rest: string, i: nat)
    requires i < |p| && i < |head| && p[i] != head[i]
    ensures !(p <= head + rest)
  {
    assert (head + rest)[i] == head[i];
  }

  /**
   * The key parameter is declared 449 characters wide, while the Id column
   * the tool creates is declared `varchar(250)`: a key of 251 to 449
   * characters is accepted by the parameter and is wider than the column.
   */
  lemma KeyParameterWiderThanKeyColumn(key: string)
    requires KeyColumnWidth < |key| <= Parameters.CacheItemIdColumnWidth
    ensures Parameters.CacheItemIdParameter(key).size == Some(Parameters.CacheItemIdColumnWidth)
    ensures |key| <= Parameters.CacheItemIdParameter(key).size.value
    ensures CreateTableTail[3..3 + |KeyColumnDeclaration|] == KeyColumnDeclaration
    ensures KeyColumnDeclaration == "`Id` varchar(" + DecimalText(KeyColumnWidth) + ") NOT NULL,"
  {
    SliceBetween("` (", KeyColumnDeclaration, OtherColumns);
    assert DecimalText(KeyColumnWidth) == "250" by {
      assert DecimalText(2) == "2";
      assert DecimalText(25) == "25";
    }
  }

  /** The decimal digits of `n`, as `ToString()` writes a non-negative number. */
  function DecimalText(n: nat): (r: string)
    ensures |r| >= 1
    decreases n
  {
    if n < 10 then ["0123456789"[n]] else DecimalText(n / 10) + ["0123456789"[n % 10]]
  }
}
