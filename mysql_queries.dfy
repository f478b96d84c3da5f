/** Column names of the cache table and their positions in the SELECT list. */
module Columns {
  const CacheItemId := "Id"
  const CacheItemValue := "Value"
  const ExpiresAtTime := "ExpiresAtTime"
  const SlidingExpirationInSeconds := "SlidingExpirationInSeconds"
  const AbsoluteExpiration := "AbsoluteExpiration"

  const CacheItemIdIndex := 0
  const ExpiresAtTimeIndex := 1
  const SlidingExpirationInSecondsIndex := 2
  const AbsoluteExpirationIndex := 3
  const CacheItemValueIndex := 4
}

/**
 * The texts of the five statements the cache runs against its table, built
 * once per cache from the schema and table names. What each statement does to
 * the table is modelled in `CacheTable`.
 */
module MySqlQueries {
  import opened SqlFormat
  import opened Columns

  // Every statement is "<head>{0}<tail>"; {0} is the table reference.

  /** The touch: moves ExpiresAtTime of an unexpired sliding row forward, capped by AbsoluteExpiration. */
  const UpdateHead := "UPDATE "
  const UpdateTail :=
    " SET " + ExpiresAtTime + " = " +
    "(CASE " +
    "WHEN TIME_TO_SEC(TIMEDIFF(" + AbsoluteExpiration + ", @UtcNow)) <= " + SlidingExpirationInSeconds + " " +
    "THEN " + AbsoluteExpiration + " " +
    "ELSE " +
    "DATE_ADD(@UtcNow, INTERVAL " + SlidingExpirationInSeconds + " SECOND) " +
    "END) " +
    "WHERE " + CacheItemId + " = @Id " +
    "AND @UtcNow <= " + ExpiresAtTime + " " +
    "AND " + SlidingExpirationInSeconds + " IS NOT NULL " +
    "AND (" + AbsoluteExpiration + " IS NULL OR " + AbsoluteExpiration + " <> " + ExpiresAtTime + ");"

  /** The read: the row with the key, only while it is unexpired. */
  const SelectHead :=
    "SELECT Id, " + ExpiresAtTime + ", " + SlidingExpirationInSeconds + ", " + AbsoluteExpiration + ", " +
    CacheItemValue + " FROM "
  const SelectTail := " WHERE " + CacheItemId + " = @Id AND @UtcNow <= " + ExpiresAtTime + ";"

  /** The upsert: computes @ExpiresAtTime, then inserts the row or overwrites all four fields. */
  const UpsertHead :=
    "SET @ExpiresAtTime = " +
    "(CASE " +
    "WHEN (@SlidingExpirationInSeconds IS NUll) " +
    "THEN @AbsoluteExpiration " +
    "ELSE " +
    "DATE_ADD(@UtcNow, INTERVAL @SlidingExpirationInSeconds SECOND) " +
    "END);" +
    "INSERT INTO "
  const UpsertTail :=
    " (" + CacheItemId + ", " + CacheItemValue + ", " +
    ExpiresAtTime + ", " + SlidingExpirationInSeconds + ", " +
    AbsoluteExpiration + ") " +
    "VALUES (@Id, @Value, @ExpiresAtTime, @SlidingExpirationInSeconds, @AbsoluteExpiration)" +
    " ON DUPLICATE KEY " +
    "UPDATE " + CacheItemValue + " = @Value, " + ExpiresAtTime + " = @ExpiresAtTime," +
    SlidingExpirationInSeconds + " = @SlidingExpirationInSeconds, " + AbsoluteExpiration + " = @AbsoluteExpiration " +
    ";"

  const DeleteHead := "DELETE FROM "
  const DeleteTail := " WHERE " + CacheItemId + " = @Id"
  const DeleteExpiredTail := " WHERE @UtcNow > " + ExpiresAtTime

  const UpdateCacheItemFormat: Template := [Lit(UpdateHead), Hole(0), Lit(UpdateTail)]
  const GetCacheItemFormat: Template := [Lit(SelectHead), Hole(0), Lit(SelectTail)]
  const SetCacheItemFormat: Template := [Lit(UpsertHead), Hole(0), Lit(UpsertTail)]
  const DeleteCacheItemFormat: Template := [Lit(DeleteHead), Hole(0), Lit(DeleteTail)]
  const DeleteExpiredCacheItemsFormat: Template := [Lit(DeleteHead), Hole(0), Lit(DeleteExpiredTail)]

  /** Kept from the identifier quoting of the EF provider: no change to the name. */
  function DelimitIdentifier(identifier: string): string {
    identifier
  }

  /** Encloses an identifier in backticks. Backticks inside it are not doubled. */
  function EscapeIdentifier(identifier: string): string {
    "`" + identifier + "`"
  }

  /** The table reference spliced into every statement; a null schema name is passed as "". */
  function TableNameWithSchema(schemaName: string, tableName: string): (r: string)
    ensures |schemaName| == 0 ==> r == "`" + tableName + "`"
    ensures |schemaName| != 0 ==> r == "`" + schemaName + "`.`" + tableName + "`"
  {
    var args := [
      if |schemaName| == 0 then "" else EscapeIdentifier(DelimitIdentifier(schemaName)) + ".",
      EscapeIdentifier(DelimitIdentifier(tableName))
    ];
    FormatPair(args);
    SchemaQualifiedReference(schemaName, tableName);
    Format([Hole(0), Hole(1)], args)
  }

  /** The schema part and the table part of a reference joined into one text. */
  lemma SchemaQualifiedReference(schemaName: string, tableName: string)
    ensures (EscapeIdentifier(schemaName) + ".") + EscapeIdentifier(tableName) == "`" + schemaName + "`.`" + tableName + "`"
  {
    var s, t := schemaName, tableName;
    assert "`.`" == "`." + "`";
    assert "`." == "`" + ".";
    Associate("`" + s, "`", ".");
    Associate("`" + s + "`" + ".", "`" + t, "`");
    Associate("`" + s + "`" + ".", "`", t);
    Associate("`" + s, "`.", "`");
    Associate("`" + s, "`", ".");
  }

  predicate NoBacktick(s: string) {
    forall i :: 0 <= i < |s| ==> s[i] != '`'
  }

  /** Position of the first backtick of `s`, or |s| when there is none. */
  function IndexOfBacktick(s: string): nat {
    if s == [] then 0 else if s[0] == '`' then 0 else 1 + IndexOfBacktick(s[1..])
  }

  /** A backtick-free prefix ends exactly where the first backtick is. */
  lemma {:induction false} IndexOfBacktickAfter(x: string, rest: string)
    requires NoBacktick(x)
    ensures IndexOfBacktick(x + "`" + rest) == |x|
  {
    if x != [] {
      assert (x + "`" + rest)[1..] == x[1..] + "`" + rest;
      IndexOfBacktickAfter(x[1..], rest);
    }
  }

  /** Splitting at the first backtick recovers the backtick-free part and the rest. */
  lemma SplitAtBacktick(x1: string, r1: string, x2: string, r2: string)
    requires NoBacktick(x1) && NoBacktick(x2)
    requires x1 + "`" + r1 == x2 + "`" + r2
    ensures x1 == x2 && r1 == r2
  {
    var s := x1 + "`" + r1;
    IndexOfBacktickAfter(x1, r1);
    IndexOfBacktickAfter(x2, r2);
    assert x1 == s[..|x1|] == x2;
    assert r1 == s[|x1| + 1..] == r2;
  }

  /** The part of a table reference before its second backtick: the schema name, or the table name without one. */
  function FirstName(schemaName: string, tableName: string): string {
    if |schemaName| == 0 then tableName else schemaName
  }

  /** The part of a table reference after its second backtick. */
  function RestAfterFirstName(schemaName: string, tableName: string): string {
    if |schemaName| == 0 then "" else ".`" + tableName + "`"
  }

  lemma TableNameWithSchemaParts(schemaName: string, tableName: string)
    ensures var r := TableNameWithSchema(schemaName, tableName);
      |r| > 0 && r[1..] == FirstName(schemaName, tableName) + "`" + RestAfterFirstName(schemaName, tableName)
  {
    var r := TableNameWithSchema(schemaName, tableName);
    if |schemaName| == 0 {
      assert r == "`" + (tableName + "`" + "");
    } else {
      assert r == "`" + (schemaName + "`" + (".`" + tableName + "`"));
    }
  }

  /**
   * For names without backticks the table reference determines the schema and
   * table names: two different configured tables never share a reference.
   */
  lemma TableNameWithSchemaInjective(s1: string, t1: string, s2: string, t2: string)
    requires NoBacktick(s1) && NoBacktick(t1) && NoBacktick(s2) && NoBacktick(t2)
    requires TableNameWithSchema(s1, t1) == TableNameWithSchema(s2, t2)
    ensures s1 == s2 && t1 == t2
  {
    TableNameWithSchemaParts(s1, t1);
    TableNameWithSchemaParts(s2, t2);
    var q1, q2 := RestAfterFirstName(s1, t1), RestAfterFirstName(s2, t2);
    SplitAtBacktick(FirstName(s1, t1), q1, FirstName(s2, t2), q2);
    assert (|s1| == 0) == (|s2| == 0) by {
      assert |q1| == |q2|;
    }
    if |s1| != 0 {
      assert q1[2..] == t1 + "`";
      assert q2[2..] == t2 + "`";
      assert t1 == q1[2..][..|t1|];
      assert t2 == q2[2..][..|t2|];
    }
  }

  /** Without that hypothesis it fails: a backtick in a table name can imitate a schema. */
  lemma BacktickTableNameImitatesSchema()
    ensures TableNameWithSchema("a", "b") == TableNameWithSchema("", "a`.`b")
  {
  }

  /** The statement texts, with the table reference in place. */
  datatype Queries = Queries(
    getCacheItem: string,
    getCacheItemWithoutValue: string,
    setCacheItem: string,
    deleteCacheItem: string,
    deleteExpiredCacheItems: string)

  /**
   * The constructor of the query set. Reading an item runs the touch and then
   * the SELECT in one text; refreshing runs the touch alone.
   */
  function NewQueries(schemaName: string, tableName: string): (q: Queries)
    ensures var t := TableNameWithSchema(schemaName, tableName);
      && q.getCacheItemWithoutValue == UpdateHead + t + UpdateTail
      && q.getCacheItem == q.getCacheItemWithoutValue + (SelectHead + t + SelectTail)
      && q.setCacheItem == UpsertHead + t + UpsertTail
      && q.deleteCacheItem == DeleteHead + t + DeleteTail
      && q.deleteExpiredCacheItems == DeleteHead + t + DeleteExpiredTail
  {
    var t := TableNameWithSchema(schemaName, tableName);
    FormatSplice(UpdateHead, 0, UpdateTail, [t]);
    FormatSplice(SelectHead, 0, SelectTail, [t]);
    FormatSplice(UpsertHead, 0, UpsertTail, [t]);
    FormatSplice(DeleteHead, 0, DeleteTail, [t]);
    FormatSplice(DeleteHead, 0, DeleteExpiredTail, [t]);
    FormatAppend(UpdateCacheItemFormat, GetCacheItemFormat, [t]);
    var update := Format(UpdateCacheItemFormat, [t]);
    var select := Format(GetCacheItemFormat, [t]);
    Queries(
      update + select,
      update,
      Format(SetCacheItemFormat, [t]),
      Format(DeleteCacheItemFormat, [t]),
      Format(DeleteExpiredCacheItemsFormat, [t]))
  }

  /** The refresh text is a proper prefix of the read text: the same touch, without the SELECT. */
  lemma RefreshTextIsPrefixOfReadText(schemaName: string, tableName: string)
    ensures var q := NewQueries(schemaName, tableName);
      && q.getCacheItemWithoutValue < q.getCacheItem
      && q.getCacheItem[|q.getCacheItemWithoutValue|..] == SelectHead + TableNameWithSchema(schemaName, tableName) + SelectTail
  {
    var q := NewQueries(schemaName, tableName);
    var rest := SelectHead + TableNameWithSchema(schemaName, tableName) + SelectTail;
    assert q.getCacheItem == q.getCacheItemWithoutValue + rest;
    assert SelectTail[|SelectTail| - 1] == ';';
  }
}
