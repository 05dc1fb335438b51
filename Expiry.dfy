/** The expiry rule shared by both pre-request scripts: a cached token is
    expired when it is strictly more than one hour old. Timestamps are whole
    milliseconds; a missing or unparsable timestamp becomes an invalid date,
    whose age is NaN. */
module Expiry {
  import opened Wrappers

  /** `60 * 60 * 1000`: the fixed validity window of a token. */
  const OneHourMs: int := 60 * 60 * 1000

  /** The number that subtracting two dates yields: whole milliseconds, or
      NaN when either date is invalid. */
  datatype Millis = Ms(ms: int) | NaN

  /** `now - createdAt`, where an absent timestamp is an invalid date. */
  function Age(createdAt: Option<int>, now: int): (age: Millis)
  {
    match createdAt
    case None => NaN
    case Some(t) => Ms(now - t)
  }

  /** `x > y` on numbers: every comparison involving NaN is false. */
  predicate GreaterThan(x: Millis, y: int)
  {
    x.Ms? && x.ms > y
  }

  /** `ageInMs > 60 * 60 * 1000` */
  function Expired(createdAt: Option<int>, now: int): (expired: bool)
    ensures expired <==> createdAt.Some? && createdAt.value + OneHourMs < now
  {
    GreaterThan(Age(createdAt, now), OneHourMs)
  }

  /** Once expired, a token stays expired as time goes on. */
  lemma ExpiredIsMonotone(createdAt: Option<int>, now: int, later: int)
    requires Expired(createdAt, now) && now <= later
    ensures Expired(createdAt, later)
  {
  }

  /** The comparison is strict: at an age of exactly one hour, or at a
      negative age (a timestamp in the future), the token is still valid. */
  lemma BoundaryIsValid(t: int, now: int)
    requires now <= t + OneHourMs
    ensures !Expired(Some(t), now)
  {
  }

  /** A missing timestamp gives a NaN age, which is never expired. */
  lemma MissingTimestampNeverExpires(now: int)
    ensures !GreaterThan(Age(None, now), OneHourMs)
    ensures !Expired(None, now)
  {
  }

  /** The outcome of a validity check, one per message the scripts log. */
  datatype Status = NoToken | TokenExpired | TokenValid

  /** JavaScript truthiness of a string: only "" is falsy. */
  predicate StringTruthy(s: string)
  {
    s != ""
  }

  /** The decision both pre-request scripts make from the stored token and
      timestamp: `!token || !createdAt` first, then the expiry test. The
      `createdAt` tested there is `new Date(stored)`, an object, and every
      object is truthy, valid date or not; so only a falsy token takes the
      first branch. */
  function Classify(token: string, createdAt: Option<int>, now: int): (status: Status)
    ensures status == NoToken <==> token == ""
    ensures status == TokenExpired <==>
      token != "" && createdAt.Some? && now - createdAt.value > OneHourMs
    ensures status == TokenValid <==>
      token != "" && (createdAt.None? || now - createdAt.value <= OneHourMs)
  {
    if !StringTruthy(token) then NoToken
    else if Expired(createdAt, now) then TokenExpired
    else TokenValid
  }

  /** A token 59 minutes old is valid; one 61 minutes old is expired. */
  lemma FiftyNineAndSixtyOneMinutes(token: string, t: int)
    requires token != ""
    ensures Classify(token, Some(t), t + 59 * 60 * 1000) == TokenValid
    ensures Classify(token, Some(t), t + 61 * 60 * 1000) == TokenExpired
  {
  }
}
