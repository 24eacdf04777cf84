/**
 * `getActiveSession` (src/lib/getActiveSession.ts): the ACTIVE_SESSION
 * setting, read from the `appConfig` table and kept for one minute in a
 * module-level cache. The cache is an object; the clock and the config
 * row are inputs. The clock is read twice: once for the freshness test
 * and once, after the database read, for the stored timestamp.
 *
 * A session is the value `Session[name]` of the Prisma enum object; the
 * enum object is an input, as the map from every name the `in` operator
 * finds on it to the value indexing returns.
 */
module ActiveSession {
  import opened Domain

  /** `CACHE_MS`: one minute. */
  const CacheMs := 60000

  datatype Entry = Entry(value: string, ts: int)

  datatype Result = Ok(session: string) | Err(message: string)

  /** The freshness test: a cached entry younger than one minute, strictly. */
  predicate Fresh(cached: Option<Entry>, now: int)
  {
    cached.Some? && now - cached.value.ts < CacheMs
  }

  /** What the config row resolves to: the two errors, or the enum's value for the name. */
  function Resolve(row: Option<string>, sessionEnum: map<string, string>): (r: Result)
    ensures r.Ok? <==> row.Some? && row.value != "" && row.value in sessionEnum
    ensures r.Ok? ==> r.session == sessionEnum[row.value]
    ensures (row.None? || row.value == "") ==> r == Err("ACTIVE_SESSION not configured")
    ensures row.Some? && row.value != "" && row.value !in sessionEnum ==> r == Err("Invalid ACTIVE_SESSION: " + row.value)
  {
    if row.None? || row.value == "" then Err("ACTIVE_SESSION not configured")
    else if row.value !in sessionEnum then Err("Invalid ACTIVE_SESSION: " + row.value)
    else Ok(sessionEnum[row.value])
  }

  /**
   * The answer of one call: the cached value while fresh, otherwise the
   * resolved row. An error only comes from a database read, and a session
   * is either the cached one or a value of the enum.
   */
  function Answer(cached: Option<Entry>, now: int, row: Option<string>, sessionEnum: map<string, string>): (r: Result)
    ensures r.Err? ==> !Fresh(cached, now) && (row.None? || row.value == "" || row.value !in sessionEnum)
    ensures r.Ok? ==> (Fresh(cached, now) && r.session == cached.value.value) ||
                      (!Fresh(cached, now) && row.Some? && row.value in sessionEnum && r.session == sessionEnum[row.value])
  {
    if Fresh(cached, now) then Ok(cached.value.value) else Resolve(row, sessionEnum)
  }

  /** The cache after one call: replaced only by a successful read, stamped with the second clock reading. */
  function NextCache(cached: Option<Entry>, now: int, storedAt: int, row: Option<string>, sessionEnum: map<string, string>): (next: Option<Entry>)
    ensures Fresh(cached, now) ==> next == cached
    ensures next != cached ==> next.Some? && next.value.ts == storedAt && next.value.value in sessionEnum.Values
  {
    if Fresh(cached, now) then cached
    else
      var r := Resolve(row, sessionEnum);
      if r.Ok? then Some(Entry(r.session, storedAt)) else cached
  }

  class SessionCache {
    var cached: Option<Entry>

    /** The module is loaded with an empty cache. */
    constructor ()
      ensures cached == None
    {
      cached := None;
    }

    /**
     * One call. `now` is the first clock reading, `row` what the config read
     * returns, `storedAt` the second clock reading; `readConfig` says whether
     * the database was asked at all.
     */
    method GetActiveSession(now: int, row: Option<string>, storedAt: int, sessionEnum: map<string, string>)
      returns (r: Result, readConfig: bool)
      modifies this
      ensures readConfig <==> !Fresh(old(cached), now)
      ensures r == Answer(old(cached), now, row, sessionEnum)
      ensures cached == NextCache(old(cached), now, storedAt, row, sessionEnum)
    {
      if cached.Some? && now - cached.value.ts < CacheMs {
        return Ok(cached.value.value), false;
      }
      readConfig := true;
      if row.None? || row.value == "" {
        return Err("ACTIVE_SESSION not configured"), readConfig;
      }
      if row.value !in sessionEnum {
        return Err("Invalid ACTIVE_SESSION: " + row.value), readConfig;
      }
      var session := sessionEnum[row.value];
      cached := Some(Entry(session, storedAt));
      r := Ok(session);
    }
  }

  /** While the entry is fresh, the config row plays no part: the cached value comes back and the cache stays. */
  lemma FreshIgnoresRow(e: Entry, now: int, storedAt: int, row: Option<string>, sessionEnum: map<string, string>)
    requires now - e.ts < CacheMs
    ensures Answer(Some(e), now, row, sessionEnum) == Ok(e.value)
    ensures NextCache(Some(e), now, storedAt, row, sessionEnum) == Some(e)
  {
  }

  /** At exactly one minute the entry is stale: the answer is whatever the row resolves to. */
  lemma StaleAtOneMinute(e: Entry, row: Option<string>, sessionEnum: map<string, string>)
    ensures !Fresh(Some(e), e.ts + CacheMs)
    ensures Answer(Some(e), e.ts + CacheMs, row, sessionEnum) == Resolve(row, sessionEnum)
  {
  }

  /** A failed call leaves the cache as it was. */
  lemma ErrorKeepsCache(cached: Option<Entry>, now: int, storedAt: int, row: Option<string>, sessionEnum: map<string, string>)
    requires Answer(cached, now, row, sessionEnum).Err?
    ensures NextCache(cached, now, storedAt, row, sessionEnum) == cached
  {
  }

  /** The cache changes only when a read succeeds, and then holds that session stamped `storedAt`. */
  lemma OnlyReadsChangeCache(cached: Option<Entry>, now: int, storedAt: int, row: Option<string>, sessionEnum: map<string, string>)
    requires NextCache(cached, now, storedAt, row, sessionEnum) != cached
    ensures !Fresh(cached, now) && Resolve(row, sessionEnum).Ok?
    ensures NextCache(cached, now, storedAt, row, sessionEnum) == Some(Entry(Answer(cached, now, row, sessionEnum).session, storedAt))
  {
  }

  /**
   * After a call that read the setting successfully, a second call whose
   * clock is less than a minute past the stored stamp returns the same
   * session whatever the setting now says: a change to ACTIVE_SESSION stays
   * invisible for up to a minute.
   */
  lemma ChangeInvisibleForAMinute(cached: Option<Entry>, now: int, storedAt: int, row: Option<string>,
                                  sessionEnum: map<string, string>, later: int, laterRow: Option<string>,
                                  laterEnum: map<string, string>)
    requires !Fresh(cached, now) && Answer(cached, now, row, sessionEnum).Ok?
    requires later - storedAt < CacheMs
    ensures Answer(NextCache(cached, now, storedAt, row, sessionEnum), later, laterRow, laterEnum) ==
            Answer(cached, now, row, sessionEnum)
  {
  }
}
