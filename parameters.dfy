/**
 * Binding of a cache item to command parameters: an append-only parameter
 * collection and the extension methods that add one named, typed parameter
 * each and hand the same collection back for chaining.
 */
module Parameters {
  import opened Wrappers
  import opened Columns
  import CacheTable

  /** Values are sized 8000 when shorter than this, for better plan reuse. */
  const DefaultValueColumnWidth := 8000

  /** The width the key parameter is declared with. */
  const CacheItemIdColumnWidth := 449

  datatype MySqlDbType = VarChar | VarBinary | Int64 | DateTime

  /** `DateTime.Kind`: `.DateTime` of an offset yields Unspecified, `.UtcDateTime` yields Utc. */
  datatype DateTimeKind = Unspecified | Utc

  /** The `object` assigned to `MySqlParameter.Value`. */
  datatype ParameterValue =
    | NullReference
    | DbNull
    | Text(text: string)
    | Binary(bytes: CacheTable.Bytes)
    | Number(n: int)
    | Time(seconds: int, kind: DateTimeKind)

  /** A parameter as constructed: name, type, declared size (None when not given) and value. */
  datatype Parameter = Parameter(name: string, dbType: MySqlDbType, size: Option<int>, value: ParameterValue)

  class ParameterCollection {
    var items: seq<Parameter>

    constructor ()
      ensures items == []
    {
      items := [];
    }

    /** `MySqlParameterCollection.Add`. */
    method Add(p: Parameter)
      modifies this
      ensures items == old(items) + [p]
    {
      items := items + [p];
    }
  }

  /** `AddWithValue(name, dbType, value)`: a parameter without a declared size. */
  method AddWithValue(parameters: ParameterCollection, parameterName: string, dbType: MySqlDbType, value: ParameterValue)
    returns (r: ParameterCollection)
    modifies parameters
    ensures r == parameters
    ensures parameters.items == old(parameters.items) + [Parameter(parameterName, dbType, None, value)]
  {
    parameters.Add(Parameter(parameterName, dbType, None, value));
    r := parameters;
  }

  /** `AddWithValue(name, dbType, size, value)`: a parameter with a declared size. */
  method AddWithValueSized(parameters: ParameterCollection, parameterName: string, dbType: MySqlDbType, size: int, value: ParameterValue)
    returns (r: ParameterCollection)
    modifies parameters
    ensures r == parameters
    ensures parameters.items == old(parameters.items) + [Parameter(parameterName, dbType, Some(size), value)]
  {
    parameters.Add(Parameter(parameterName, dbType, Some(size), value));
    r := parameters;
  }

  // The parameter each extension method adds.

  function CacheItemIdParameter(key: string): (p: Parameter)
    ensures p.name == CacheItemId && p.dbType == VarChar && p.size == Some(449) && p.value == Text(key)
  {
    Parameter(CacheItemId, VarChar, Some(CacheItemIdColumnWidth), Text(key))
  }

  /** A null value binds the null reference; the size is declared only for values shorter than 8000 bytes. */
  function CacheItemValueParameter(value: Option<CacheTable.Bytes>): (p: Parameter)
    ensures p.name == CacheItemValue && p.dbType == VarBinary
    ensures p.size.Some? <==> value.Some? && |value.value| < 8000
    ensures p.size.Some? ==> p.size.value == 8000
    ensures p.value == if value.Some? then Binary(value.value) else NullReference
  {
    var v := if value.Some? then Binary(value.value) else NullReference;
    if value.Some? && |value.value| < DefaultValueColumnWidth
    then Parameter(CacheItemValue, VarBinary, Some(DefaultValueColumnWidth), v)
    else Parameter(CacheItemValue, VarBinary, None, v)
  }

  /** A present window binds its total seconds; an absent one binds DBNull. */
  function SlidingExpirationParameter(sliding: Option<int>): (p: Parameter)
    ensures p.name == SlidingExpirationInSeconds && p.dbType == Int64 && p.size.None?
    ensures p.value == if sliding.Some? then Number(sliding.value) else DbNull
  {
    Parameter(SlidingExpirationInSeconds, Int64, None, if sliding.Some? then Number(sliding.value) else DbNull)
  }

  /** A present instant binds the given clock value; an absent one binds DBNull. */
  function AbsoluteExpirationParameter(time: Option<int>, kind: DateTimeKind): (p: Parameter)
    ensures p.name == AbsoluteExpiration && p.dbType == DateTime && p.size.None?
    ensures p.value == if time.Some? then Time(time.value, kind) else DbNull
  {
    Parameter(AbsoluteExpiration, DateTime, None, if time.Some? then Time(time.value, kind) else DbNull)
  }

  method AddCacheItemId(parameters: ParameterCollection, value: string) returns (r: ParameterCollection)
    modifies parameters
    ensures r == parameters
    ensures parameters.items == old(parameters.items) + [CacheItemIdParameter(value)]
  {
    r := AddWithValueSized(parameters, CacheItemId, VarChar, CacheItemIdColumnWidth, Text(value));
  }

  method AddCacheItemValue(parameters: ParameterCollection, value: Option<CacheTable.Bytes>) returns (r: ParameterCollection)
    modifies parameters
    ensures r == parameters
    ensures parameters.items == old(parameters.items) + [CacheItemValueParameter(value)]
  {
    var v := if value.Some? then Binary(value.value) else NullReference;
    if value.Some? && |value.value| < DefaultValueColumnWidth {
      r := AddWithValueSized(parameters, CacheItemValue, VarBinary, DefaultValueColumnWidth, v);
    } else {
      // do not mention the size
      r := AddWithValue(parameters, CacheItemValue, VarBinary, v);
    }
  }

  method AddSlidingExpirationInSeconds(parameters: ParameterCollection, value: Option<int>) returns (r: ParameterCollection)
    modifies parameters
    ensures r == parameters
    ensures parameters.items == old(parameters.items) + [SlidingExpirationParameter(value)]
  {
    if value.Some? {
      r := AddWithValue(parameters, SlidingExpirationInSeconds, Int64, Number(value.value));
    } else {
      r := AddWithValue(parameters, SlidingExpirationInSeconds, Int64, DbNull);
    }
  }

  /** Takes a `DateTime?`: whatever clock value the caller extracted, with its kind. */
  method AddAbsoluteExpiration(parameters: ParameterCollection, time: Option<int>, kind: DateTimeKind) returns (r: ParameterCollection)
    modifies parameters
    ensures r == parameters
    ensures parameters.items == old(parameters.items) + [AbsoluteExpirationParameter(time, kind)]
  {
    if time.Some? {
      r := AddWithValue(parameters, AbsoluteExpiration, DateTime, Time(time.value, kind));
    } else {
      r := AddWithValue(parameters, AbsoluteExpiration, DateTime, DbNull);
    }
  }

  /** The clock reading every statement but the delete by key is given as @UtcNow. */
  function UtcNowParameter(now: int): Parameter {
    Parameter("UtcNow", DateTime, None, Time(now, Utc))
  }
}

/**
 * The extension methods used on the reduced-capability runtime, which bind
 * instants through their UTC clock value.
 */
module MonoParameters {
  import opened Wrappers
  import opened Columns
  import opened Parameters

  function ExpiresAtTimeMonoParameter(utcTime: int): (p: Parameter)
    ensures p.name == ExpiresAtTime && p.dbType == DateTime && p.size.None? && p.value == Time(utcTime, Utc)
  {
    Parameter(ExpiresAtTime, DateTime, None, Time(utcTime, Utc))
  }

  method AddExpiresAtTimeMono(parameters: ParameterCollection, utcTime: int) returns (r: ParameterCollection)
    modifies parameters
    ensures r == parameters
    ensures parameters.items == old(parameters.items) + [ExpiresAtTimeMonoParameter(utcTime)]
  {
    r := AddWithValue(parameters, ExpiresAtTime, DateTime, Time(utcTime, Utc));
  }

  /** A present instant is bound as its UTC clock value, an absent one as DBNull. */
  method AddAbsoluteExpirationMono(parameters: ParameterCollection, utcTime: Option<int>) returns (r: ParameterCollection)
    modifies parameters
    ensures r == parameters
    ensures parameters.items == old(parameters.items) + [AbsoluteExpirationParameter(utcTime, Utc)]
  {
    if utcTime.Some? {
      r := AddWithValue(parameters, AbsoluteExpiration, DateTime, Time(utcTime.value, Utc));
    } else {
      r := AddWithValue(parameters, AbsoluteExpiration, DateTime, DbNull);
    }
  }
}
