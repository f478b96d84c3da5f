/**
 * The configuration object of the cache and the way its connection strings
 * fill each other in: the shared ConnectionString fills the read and write
 * strings that are still unset when it is assigned, and reading the options
 * through `Value` completes them once more.
 */
module CacheOptions {
  import opened Wrappers
  import opened DotNet

  /** Twenty minutes. */
  const DefaultSlidingExpirationSeconds := 1200

  /** The shared, read and write connection strings, each possibly null. */
  datatype ConnectionStrings = ConnectionStrings(shared: Option<string>, read: Option<string>, write: Option<string>)

  /** The setter of ConnectionString: store it, and use it for whichever of read and write is null. */
  function AssignShared(c: ConnectionStrings, value: Option<string>): ConnectionStrings {
    ConnectionStrings(
      value,
      if c.read.None? then value else c.read,
      if c.write.None? then value else c.write)
  }

  /** The getter of `Value`: write falls back on the shared string, read on the shared string and then on write. */
  function Normalize(c: ConnectionStrings): ConnectionStrings {
    var write := Coalesce(c.write, c.shared);
    var read := Coalesce(Coalesce(c.read, c.shared), write);
    ConnectionStrings(c.shared, read, write)
  }

  class MySqlCacheOptions {
    /** The scan interval in seconds; None means the default. */
    var expiredItemsDeletionInterval: Option<int>
    /** The backing field of ConnectionString. */
    var connectionString: Option<string>
    var readConnectionString: Option<string>
    var writeConnectionString: Option<string>
    var schemaName: Option<string>
    var tableName: Option<string>
    var defaultSlidingExpiration: int

    constructor ()
      ensures expiredItemsDeletionInterval.None?
      ensures connectionString.None? && readConnectionString.None? && writeConnectionString.None?
      ensures schemaName.None? && tableName.None?
      ensures defaultSlidingExpiration == DefaultSlidingExpirationSeconds
    {
      expiredItemsDeletionInterval := None;
      connectionString := None;
      readConnectionString := None;
      writeConnectionString := None;
      schemaName := None;
      tableName := None;
      defaultSlidingExpiration := DefaultSlidingExpirationSeconds;
    }

    function Strings(): ConnectionStrings
      reads this
    {
      ConnectionStrings(connectionString, readConnectionString, writeConnectionString)
    }

    /** The getter of ConnectionString. */
    function ConnectionString(): Option<string>
      reads this
    {
      connectionString
    }

    /** The setter of ConnectionString. Nothing but the three strings changes. */
    method SetConnectionString(value: Option<string>)
      modifies this
      ensures Strings() == AssignShared(old(Strings()), value)
      ensures ConnectionString() == value
      ensures expiredItemsDeletionInterval == old(expiredItemsDeletionInterval)
      ensures schemaName == old(schemaName) && tableName == old(tableName)
      ensures defaultSlidingExpiration == old(defaultSlidingExpiration)
    {
      connectionString := value;
      if readConnectionString.None? {
        readConnectionString := value;
      }
      if writeConnectionString.None? {
        writeConnectionString := value;
      }
    }

    /** `IOptions<MySqlCacheOptions>.Value`: completes the read and write strings and returns this same object. */
    method Value() returns (r: MySqlCacheOptions)
      modifies this
      ensures r == this
      ensures Strings() == Normalize(old(Strings()))
      ensures expiredItemsDeletionInterval == old(expiredItemsDeletionInterval)
      ensures schemaName == old(schemaName) && tableName == old(tableName)
      ensures defaultSlidingExpiration == old(defaultSlidingExpiration)
    {
      writeConnectionString := Coalesce(writeConnectionString, ConnectionString());
      readConnectionString := Coalesce(Coalesce(readConnectionString, ConnectionString()), writeConnectionString);
      r := this;
    }
  }

  // ---------------------------------------------------------------- properties

  /** Assigning ConnectionString never overrides a read or write string that is already set. */
  lemma AssignSharedKeepsExplicitStrings(c: ConnectionStrings, value: Option<string>)
    ensures var r := AssignShared(c, value);
      && r.shared == value
      && (c.read.Some? ==> r.read == c.read)
      && (c.write.Some? ==> r.write == c.write)
      && (c.read.None? ==> r.read == value)
      && (c.write.None? ==> r.write == value)
  {
  }

  /** `Value` never changes a string that is set, and a second `Value` changes nothing. */
  lemma NormalizeKeepsAndSettles(c: ConnectionStrings)
    ensures var r := Normalize(c);
      && r.shared == c.shared
      && (c.read.Some? ==> r.read == c.read)
      && (c.write.Some? ==> r.write == c.write)
      && Normalize(r) == r
  {
  }

  /**
   * After `Value`, the write string is set exactly when the write or the
   * shared string was, and the read string exactly when any of the three was.
   */
  lemma NormalizeFillsIn(c: ConnectionStrings)
    ensures var r := Normalize(c);
      && (r.write.Some? <==> c.write.Some? || c.shared.Some?)
      && (r.read.Some? <==> c.read.Some? || c.shared.Some? || c.write.Some?)
  {
  }

  /** With only the shared string configured, reads and writes both use it. */
  lemma SharedStringServesBoth(s: string)
    ensures var r := Normalize(AssignShared(ConnectionStrings(None, None, None), Some(s)));
      r.read == Some(s) && r.write == Some(s)
  {
  }

  /**
   * With only the read string configured, `Value` leaves the write string
   * unset: nothing falls back on the read string.
   */
  lemma ReadOnlyConfigurationLeavesWriteUnset(s: string)
    ensures Normalize(ConnectionStrings(None, Some(s), None)) == ConnectionStrings(None, Some(s), None)
  {
  }
}
