/**
 * `fetch_chain_gpt_courses`: a single global record `(timestamp, courses)` that is
 * served while younger than one hour, and otherwise replaced wholesale by
 * whatever the course API yields. The HTTP reply and the clock readings are
 * parameters; the record, which the source keeps in a JSON file, is in-memory state.
 */
module ActivityCache {
  import opened Wrappers

  /** One course as the course API lists it, kept as its opaque JSON text. */
  type Course = string

  /** Seconds a record stays fresh. */
  const Ttl: real := 3600.0

  /** `{"timestamp": ..., "courses": ...}`. */
  datatype CacheRecord = CacheRecord(timestamp: real, courses: seq<Course>)

  /** The body of a reply, as `response.json()` reads it. */
  datatype Body = NotAnObject | JsonObject(coursesField: Option<seq<Course>>)

  /** What `requests.get` does: raise (no connection) or return a reply. */
  datatype Response = Unreachable | Http(status: int, body: Body)

  predicate IsFresh(record: CacheRecord, now: real) {
    now - record.timestamp < Ttl
  }

  /**
   * The course list a reply yields; None where reading it raises (no connection,
   * or a 200 reply whose body is not a JSON object).
   */
  function ResponseCourses(response: Response): Option<seq<Course>> {
    match response
    case Unreachable => None
    case Http(status, body) =>
      if status != 200 then Some([])
      else
        match body
        case NotAnObject => None
        case JsonObject(field) => Some(field.GetOr([]))
  }

  /** The state after one call, its result (None: it raised), and whether it went to the network. */
  datatype Outcome = Outcome(cache: Option<CacheRecord>, result: Option<seq<Course>>, fetched: bool)

  /**
   * One call: `now` is the clock reading of the freshness test, `storedAt` the later
   * reading written into the new record.
   */
  function Lookup(cache: Option<CacheRecord>, now: real, storedAt: real, response: Response): Outcome {
    if cache.Some? && IsFresh(cache.value, now) then Outcome(cache, Some(cache.value.courses), false)
    else
      match ResponseCourses(response)
      case None => Outcome(cache, None, true)
      case Some(courses) => Outcome(Some(CacheRecord(storedAt, courses)), Some(courses), true)
  }

  /** A fresh record is served as it is, with no fetch and no change. */
  lemma HitServesCache(cache: Option<CacheRecord>, now: real, storedAt: real, response: Response)
    requires cache.Some? && now - cache.value.timestamp < Ttl
    ensures Lookup(cache, now, storedAt, response) == Outcome(cache, Some(cache.value.courses), false)
  {
  }

  /**
   * With no record, or one at least an hour old, there is exactly one fetch. It raises
   * when the API cannot be reached or a 200 body is not an object, and the record is
   * left as it was; a non-200 reply yields the empty list; a 200 object yields its
   * `courses` field, or the empty list without one. A list read without error
   * replaces the record wholesale and is returned.
   */
  lemma MissRefreshes(cache: Option<CacheRecord>, now: real, storedAt: real, response: Response)
    requires cache.None? || now - cache.value.timestamp >= Ttl
    ensures var o := Lookup(cache, now, storedAt, response);
      && o.fetched
      && (o.result.None? <==> response.Unreachable? || (response.status == 200 && response.body.NotAnObject?))
      && (response.Http? && response.status != 200 ==> o.cache == Some(CacheRecord(storedAt, [])) && o.result == Some([]))
      && (response.Http? && response.status == 200 && response.body.JsonObject? ==>
            o.result == Some(response.body.coursesField.GetOr([])))
      && (o.result.Some? ==> o.cache == Some(CacheRecord(storedAt, o.result.value)))
      && (o.result.None? ==> o.cache == cache)
  {
  }

  /** Within an hour of a refresh the next call is served from the record just written. */
  lemma RefreshThenHit(cache: Option<CacheRecord>, now: real, storedAt: real, response: Response,
                       later: real, laterStoredAt: real, laterResponse: Response)
    requires Lookup(cache, now, storedAt, response).fetched
    requires Lookup(cache, now, storedAt, response).result.Some?
    requires later - storedAt < Ttl
    ensures var first := Lookup(cache, now, storedAt, response);
      var second := Lookup(first.cache, later, laterStoredAt, laterResponse);
      !second.fetched && second.result == first.result && second.cache == first.cache
  {
  }

  /** The boundary: a record exactly one hour old is no longer served. */
  lemma ExpiresAtTtl(record: CacheRecord, storedAt: real, response: Response)
    ensures Lookup(Some(record), record.timestamp + Ttl, storedAt, response).fetched
    ensures Lookup(Some(record), record.timestamp + Ttl - 1.0, storedAt, response).fetched == false
  {
  }

  /** The cache record, with a count of the requests made to the course API. */
  class CourseCache {
    var present: bool
    var fetchedAt: real
    var courses: seq<Course>
    var fetches: nat

    function Record(): Option<CacheRecord>
      reads this
    {
      if present then Some(CacheRecord(fetchedAt, courses)) else None
    }

    /** No cache file yet. */
    constructor Empty()
      ensures Record() == None && fetches == 0
    {
      present, fetchedAt, courses, fetches := false, 0.0, [], 0;
    }

    /** A cache file left by an earlier run. */
    constructor Loaded(record: CacheRecord)
      ensures Record() == Some(record) && fetches == 0
    {
      present, fetchedAt, courses, fetches := true, record.timestamp, record.courses, 0;
    }

    method GetCourses(now: real, storedAt: real, response: Response) returns (result: Option<seq<Course>>)
      modifies this
      ensures var o := Lookup(old(Record()), now, storedAt, response);
        Record() == o.cache && result == o.result && fetches == old(fetches) + (if o.fetched then 1 else 0)
      ensures old(present) && now - old(fetchedAt) < Ttl ==>
        result == Some(old(courses)) && unchanged(this)
    {
      if present && now - fetchedAt < Ttl {
        return Some(courses);
      }
      fetches := fetches + 1;
      var fetched := ResponseCourses(response);
      if fetched.None? {
        return None;
      }
      present, fetchedAt, courses := true, storedAt, fetched.value;
      result := fetched;
    }
  }
}
