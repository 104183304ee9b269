/** Redis as far as the counters rely on it: integers under string keys that may expire. Times are in
    milliseconds, times to live in seconds. */
module RedisCounters {
  import opened Common

  datatype Counter = Counter(value: int, expiresAt: Option<int>)

  type Redis = map<string, Counter>

  /** A key is gone from the instant it expires. */
  predicate Live(r: Redis, key: string, now: int) {
    key in r && (r[key].expiresAt.None? || now < r[key].expiresAt.value)
  }

  /** GET, with a missing key read as 0. */
  function Get(r: Redis, key: string, now: int): int {
    if Live(r, key, now) then r[key].value else 0
  }

  /** INCRBY keeps the expiry of a live key and starts a missing one without any. */
  function IncrBy(r: Redis, key: string, now: int, amount: int): Redis {
    if Live(r, key, now) then r[key := r[key].(value := r[key].value + amount)]
    else r[key := Counter(amount, None)]
  }

  function Expire(r: Redis, key: string, now: int, seconds: int): Redis {
    if Live(r, key, now) then r[key := r[key].(expiresAt := Some(now + 1000 * seconds))] else r
  }

  /** The value stored under a key, expired or not. */
  function Stored(r: Redis, key: string): int {
    if key in r then r[key].value else 0
  }
}
