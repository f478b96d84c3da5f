/**
 * What the five statements of `MySqlQueries` do to the cache table. The table
 * is a map from Id to row; instants are whole seconds since 0001-01-01 UTC and
 * TIMEDIFF, TIME_TO_SEC and DATE_ADD are integer-second arithmetic.
 */
module CacheTable {
  import opened Wrappers

  type Bytes = seq<bv8>

  datatype Row = Row(
    value: Bytes,
    expiresAtTime: int,
    slidingExpirationInSeconds: Option<int>,
    absoluteExpiration: Option<int>)

  type Table = map<string, Row>

  function Min(a: int, b: int): int {
    if a <= b then a else b
  }

  // ---------------------------------------------------------------- touch

  /** The WHERE clause of the touch, for the row with the requested Id. */
  predicate TouchApplies(r: Row, now: int) {
    && now <= r.expiresAtTime
    && r.slidingExpirationInSeconds.Some?
    && (r.absoluteExpiration.None? || r.absoluteExpiration.value != r.expiresAtTime)
  }

  /**
   * The CASE of the touch. A NULL AbsoluteExpiration makes the WHEN condition
   * NULL, so the ELSE branch is taken. The CASE picks the earlier of the
   * absolute expiration and the end of a new sliding window.
   */
  function TouchedExpiry(r: Row, now: int): (e: int)
    requires r.slidingExpirationInSeconds.Some?
    ensures r.absoluteExpiration.None? ==> e == now + r.slidingExpirationInSeconds.value
    ensures r.absoluteExpiration.Some? ==>
      e == Min(r.absoluteExpiration.value, now + r.slidingExpirationInSeconds.value)
  {
    if r.absoluteExpiration.Some? && r.absoluteExpiration.value - now <= r.slidingExpirationInSeconds.value
    then r.absoluteExpiration.value
    else now + r.slidingExpirationInSeconds.value
  }

  function TouchRow(r: Row, now: int): Row {
    if TouchApplies(r, now) then r.(expiresAtTime := TouchedExpiry(r, now)) else r
  }

  /** The table after `UPDATE ... WHERE Id = @Id AND ...` with @UtcNow = now. */
  function TouchTable(t: Table, id: string, now: int): Table {
    if id in t then t[id := TouchRow(t[id], now)] else t
  }

  // ---------------------------------------------------------------- read

  /** `SELECT ... WHERE Id = @Id AND @UtcNow <= ExpiresAtTime`. */
  function SelectRow(t: Table, id: string, now: int): (r: Option<Row>)
    ensures r.Some? <==> id in t && now <= t[id].expiresAtTime
    ensures r.Some? ==> r.value == t[id]
  {
    if id in t && now <= t[id].expiresAtTime then Some(t[id]) else None
  }

  // ---------------------------------------------------------------- upsert

  /**
   * `SET @ExpiresAtTime = CASE WHEN @SlidingExpirationInSeconds IS NULL THEN
   * @AbsoluteExpiration ELSE now + @SlidingExpirationInSeconds END`.
   */
  function UpsertExpiry(sliding: Option<int>, absolute: Option<int>, now: int): (e: Option<int>)
    ensures e.None? <==> sliding.None? && absolute.None?
  {
    if sliding.None? then absolute else Some(now + sliding.value)
  }

  /** `INSERT ... ON DUPLICATE KEY UPDATE` of all four fields. ExpiresAtTime is NOT NULL. */
  function UpsertTable(t: Table, id: string, value: Bytes, sliding: Option<int>, absolute: Option<int>, now: int): Table
    requires sliding.Some? || absolute.Some?
  {
    t[id := Row(value, UpsertExpiry(sliding, absolute, now).value, sliding, absolute)]
  }

  // ---------------------------------------------------------------- delete

  predicate Expired(r: Row, now: int) {
    now > r.expiresAtTime
  }

  /** The Ids `DELETE ... WHERE @UtcNow > ExpiresAtTime` removes. */
  function ExpiredIds(t: Table, now: int): set<string> {
    set id | id in t && Expired(t[id], now)
  }

  function DeleteExpiredTable(t: Table, now: int): Table {
    t - ExpiredIds(t, now)
  }

  // ---------------------------------------------------------------- the store

  /** The cache table as the database holds it. Each method is one statement. */
  class Store {
    var rows: Table

    constructor ()
      ensures rows == map[]
    {
      rows := map[];
    }

    /** The touch statement, run alone for a refresh or before the SELECT of a read. */
    method Touch(id: string, now: int)
      modifies this
      ensures rows == TouchTable(old(rows), id, now)
    {
      if id in rows && TouchApplies(rows[id], now) {
        rows := rows[id := rows[id].(expiresAtTime := TouchedExpiry(rows[id], now))];
      }
    }

    /** The SELECT: a lookup that changes nothing. */
    function Select(id: string, now: int): (r: Option<Row>)
      reads this
      ensures r.Some? <==> id in rows && !Expired(rows[id], now)
      ensures r.Some? ==> r.value == rows[id]
    {
      SelectRow(rows, id, now)
    }

    /** The upsert statement. */
    method Upsert(id: string, value: Bytes, sliding: Option<int>, absolute: Option<int>, now: int)
      requires sliding.Some? || absolute.Some?
      modifies this
      ensures rows == UpsertTable(old(rows), id, value, sliding, absolute, now)
    {
      var expiresAt := if sliding.None? then absolute.value else now + sliding.value;
      rows := rows[id := Row(value, expiresAt, sliding, absolute)];
    }

    /** `DELETE ... WHERE Id = @Id`; a missing Id affects no row and is no error. */
    method Delete(id: string) returns (affected: nat)
      modifies this
      ensures rows == old(rows) - {id}
      ensures affected == if id in old(rows) then 1 else 0
    {
      affected := if id in rows then 1 else 0;
      rows := rows - {id};
    }

    /** `DELETE ... WHERE @UtcNow > ExpiresAtTime`, returning the affected-row count. */
    method DeleteExpired(now: int) returns (affected: nat)
      modifies this
      ensures rows == DeleteExpiredTable(old(rows), now)
      ensures affected == |ExpiredIds(old(rows), now)|
    {
      var expired := ExpiredIds(rows, now);
      rows := rows - expired;
      affected := |expired|;
    }
  }

  // ---------------------------------------------------------------- properties

  /** The touch changes at most the ExpiresAtTime of the row with the given Id. */
  lemma TouchOnlyMovesExpiry(t: Table, id: string, now: int)
    ensures var t' := TouchTable(t, id, now);
      && t'.Keys == t.Keys
      && (forall k :: k in t && k != id ==> t'[k] == t[k])
      && (id in t ==> t'[id] == t[id].(expiresAtTime := t'[id].expiresAtTime))
      && (id in t && !TouchApplies(t[id], now) ==> t'[id] == t[id])
  {
  }

  /** Two touches at the same instant leave the table as one touch does. */
  lemma TouchIdempotent(t: Table, id: string, now: int)
    ensures TouchTable(TouchTable(t, id, now), id, now) == TouchTable(t, id, now)
  {
    if id in t && TouchApplies(t[id], now) {
      var r' := TouchRow(t[id], now);
      if TouchApplies(r', now) {
        assert TouchedExpiry(r', now) == TouchedExpiry(t[id], now);
      }
    }
  }

  /** A touch that applies never moves ExpiresAtTime past AbsoluteExpiration, nor past now + sliding. */
  lemma TouchRespectsCeiling(r: Row, now: int)
    requires TouchApplies(r, now)
    ensures TouchRow(r, now).expiresAtTime <= now + r.slidingExpirationInSeconds.value
    ensures r.absoluteExpiration.Some? ==> TouchRow(r, now).expiresAtTime <= r.absoluteExpiration.value
    ensures r.absoluteExpiration.Some? && r.absoluteExpiration.value - now <= r.slidingExpirationInSeconds.value
      ==> TouchRow(r, now).expiresAtTime == r.absoluteExpiration.value
  {
  }

  /** A row that already respects its ceiling keeps respecting it after any touch. */
  lemma TouchPreservesCeiling(r: Row, now: int)
    requires r.absoluteExpiration.Some? ==> r.expiresAtTime <= r.absoluteExpiration.value
    ensures var r' := TouchRow(r, now);
      r'.absoluteExpiration.Some? ==> r'.expiresAtTime <= r'.absoluteExpiration.value
  {
  }

  /** An expired row is invisible: the touch skips it and the SELECT finds nothing. */
  lemma ExpiredRowIsInvisible(t: Table, id: string, now: int)
    requires id in t && Expired(t[id], now)
    ensures TouchTable(t, id, now) == t
    ensures SelectRow(TouchTable(t, id, now), id, now) == None
  {
  }

  /**
   * The upsert computes ExpiresAtTime once: AbsoluteExpiration without a
   * sliding window, otherwise now + sliding. It overwrites all four fields of
   * the key and leaves every other key as it was.
   */
  lemma UpsertWritesRow(t: Table, id: string, value: Bytes, sliding: Option<int>, absolute: Option<int>, now: int)
    requires sliding.Some? || absolute.Some?
    ensures var t' := UpsertTable(t, id, value, sliding, absolute, now);
      && t'.Keys == t.Keys + {id}
      && (forall k :: k in t && k != id ==> t'[k] == t[k])
      && t'[id].value == value
      && t'[id].slidingExpirationInSeconds == sliding
      && t'[id].absoluteExpiration == absolute
      && (sliding.None? ==> t'[id].expiresAtTime == absolute.value)
      && (sliding.Some? ==> t'[id].expiresAtTime == now + sliding.value)
  {
  }

  /** The sweep removes exactly the expired rows and keeps the others unchanged. */
  lemma DeleteExpiredRemovesExactlyExpired(t: Table, now: int)
    ensures var t' := DeleteExpiredTable(t, now);
      && (forall k :: k in t' <==> k in t && !Expired(t[k], now))
      && (forall k :: k in t' ==> t'[k] == t[k])
  {
  }

  /**
   * The sweep is invisible to reads at the same or a later instant: reading
   * through a swept table gives the same answer and leaves the same visible
   * rows as reading through the unswept one.
   */
  lemma SweepInvisibleToReads(t: Table, sweptAt: int, id: string, now: int)
    requires sweptAt <= now
    ensures SelectRow(TouchTable(DeleteExpiredTable(t, sweptAt), id, now), id, now)
         == SelectRow(TouchTable(t, id, now), id, now)
  {
    var s := DeleteExpiredTable(t, sweptAt);
    if id in t && id !in s {
      assert Expired(t[id], sweptAt);
      ExpiredRowIsInvisible(t, id, now);
    }
  }

  /** The sweep reports as many affected rows as the table loses. */
  lemma DeleteExpiredCount(t: Table, now: int)
    ensures |DeleteExpiredTable(t, now).Keys| + |ExpiredIds(t, now)| == |t.Keys|
  {
    var e := ExpiredIds(t, now);
    assert DeleteExpiredTable(t, now).Keys == t.Keys - e;
    assert e <= t.Keys;
    assert t.Keys == (t.Keys - e) + e;
  }

  // ---------------------------------------------------------------- row invariant

  /**
   * What every row the cache writes satisfies: a positive sliding window when
   * there is one; without one, an absolute expiration that ExpiresAtTime equals.
   */
  predicate WellFormed(r: Row) {
    && (r.slidingExpirationInSeconds.Some? ==> r.slidingExpirationInSeconds.value > 0)
    && (r.slidingExpirationInSeconds.None? ==>
          r.absoluteExpiration.Some? && r.expiresAtTime == r.absoluteExpiration.value)
  }

  predicate WellFormedTable(t: Table) {
    forall k :: k in t ==> WellFormed(t[k])
  }

  lemma TouchPreservesWellFormed(t: Table, id: string, now: int)
    requires WellFormedTable(t)
    ensures WellFormedTable(TouchTable(t, id, now))
  {
  }

  /** Deleting one key and sweeping expired rows keep every remaining row well formed. */
  lemma DeletePreservesWellFormed(t: Table, id: string, now: int)
    requires WellFormedTable(t)
    ensures WellFormedTable(t - {id})
    ensures WellFormedTable(DeleteExpiredTable(t, now))
  {
    DeleteExpiredRemovesExactlyExpired(t, now);
  }

  lemma UpsertPreservesWellFormed(t: Table, id: string, value: Bytes, sliding: Option<int>, absolute: Option<int>, now: int)
    requires WellFormedTable(t)
    requires sliding.Some? || absolute.Some?
    requires sliding.Some? ==> sliding.value > 0
    ensures WellFormedTable(UpsertTable(t, id, value, sliding, absolute, now))
  {
  }

  /**
   * The absolute expiration is a hard ceiling for readers: after it has passed,
   * a read (touch, then SELECT) of a well-formed row finds nothing, even when
   * the row was written with ExpiresAtTime beyond it and never swept.
   */
  lemma ReadAfterAbsoluteExpirationFindsNothing(t: Table, id: string, now: int)
    requires WellFormedTable(t)
    requires id in t && t[id].absoluteExpiration.Some? && now > t[id].absoluteExpiration.value
    ensures SelectRow(TouchTable(t, id, now), id, now) == None
  {
    var r := t[id];
    if TouchApplies(r, now) {
      TouchRespectsCeiling(r, now);
    }
  }
}
