/** The fixed-window request limiter of backend/app/security/rate_limit.py, with its expiring counters
    in Redis. Times are in microseconds. */
module RateLimit {
  import opened Wrappers

  const SECOND := 1_000_000
  const WINDOW := 60 * SECOND
  const EXPIRY := 90 * SECOND

  datatype Settings = Settings(enabled: bool, requestsPerMinute: int, sensitivePerMinute: int)

  predicate EndsWith(s: string, suffix: string) {
    |suffix| <= |s| && s[|s| - |suffix|..] == suffix
  }

  /** _limit. */
  function Limit(settings: Settings, path: string): int {
    if EndsWith(path, "/export") || EndsWith(path, "/refresh") || EndsWith(path, "/auth/token") then
      Max(1, settings.sensitivePerMinute)
    else Max(1, settings.requestsPerMinute)
  }

  /** _bucket. */
  function Bucket(path: string): string {
    if EndsWith(path, "/export") then "export"
    else if EndsWith(path, "/refresh") then "refresh"
    else if EndsWith(path, "/auth/token") then "auth-token"
    else "api"
  }

  function AtLeastOne(n: int): int {
    if n < 1 then 1 else n
  }

  const SENSITIVE := ["/export", "/refresh", "/auth/token"]

  lemma EndOf(prefix: string, word: string)
    ensures EndsWith(prefix + word, word)
  {
    assert (prefix + word)[|prefix + word| - |word|..] == word;
  }

  lemma EndMeansSuffix(path: string, word: string)
    ensures EndsWith(path, word) ==> exists before :: path == before + word
  {
    if EndsWith(path, word) {
      assert path == path[..|path| - |word|] + word;
    }
  }

  lemma NoCommonEnd(prefix: string)
    ensures !EndsWith(prefix + "/refresh", "/export") && !EndsWith(prefix + "/auth/token", "/export")
    ensures !EndsWith(prefix + "/auth/token", "/refresh")
  {
    var a, b := prefix + "/refresh", prefix + "/auth/token";
    assert a[|a| - 1] == 'h' && b[|b| - 1] == 'n';
  }

  lemma SensitivePath(settings: Settings, prefix: string, word: string)
    requires word in SENSITIVE
    ensures Limit(settings, prefix + word) == AtLeastOne(settings.sensitivePerMinute)
  {
    EndOf(prefix, word);
  }

  lemma OtherPath(settings: Settings, path: string)
    requires forall word, before :: word in SENSITIVE ==> path != before + word
    ensures Limit(settings, path) == AtLeastOne(settings.requestsPerMinute)
    ensures Bucket(path) == "api"
  {
    forall word | word in SENSITIVE ensures !EndsWith(path, word) {
      EndMeansSuffix(path, word);
    }
    assert SENSITIVE[0] in SENSITIVE && SENSITIVE[1] in SENSITIVE && SENSITIVE[2] in SENSITIVE;
  }

  /** Paths that end in one of the three sensitive words have the sensitive limit and a counter of
      their own each, all others share the general ones; no limit is below one. */
  lemma LimitsAndCounters(settings: Settings, prefix: string, path: string)
    ensures forall word :: word in SENSITIVE ==>
              Limit(settings, prefix + word) == AtLeastOne(settings.sensitivePerMinute)
    ensures Bucket(prefix + "/export") == "export" && Bucket(prefix + "/refresh") == "refresh"
    ensures Bucket(prefix + "/auth/token") == "auth-token"
    ensures (forall word, before :: word in SENSITIVE ==> path != before + word) ==>
              && Limit(settings, path) == AtLeastOne(settings.requestsPerMinute)
              && Bucket(path) == "api"
  {
    forall word | word in SENSITIVE
      ensures Limit(settings, prefix + word) == AtLeastOne(settings.sensitivePerMinute)
    {
      SensitivePath(settings, prefix, word);
    }
    EndOf(prefix, "/export");
    EndOf(prefix, "/refresh");
    EndOf(prefix, "/auth/token");
    NoCommonEnd(prefix);
    if forall word, before :: word in SENSITIVE ==> path != before + word {
      OtherPath(settings, path);
    }
  }

  /** Requests that share a counter share its limit. */
  lemma BucketDecidesLimit(settings: Settings, p: string, q: string)
    requires Bucket(p) == Bucket(q)
    ensures Limit(settings, p) == Limit(settings, q) >= 1
  {
    assert Bucket(p)[0] == 'a' || Bucket(p)[0] == 'e' || Bucket(p)[0] == 'r';
    assert Bucket(p) == "api" ==> Bucket(p)[1] == 'p';
    assert Bucket(p) == "auth-token" ==> Bucket(p)[1] == 'u';
  }

  // ---------------------------------------------------------------- one request

  datatype Key = Key(window: int, identity: string, bucket: string)

  datatype Counter = Counter(count: int, expiresAt: int)

  type Counters = map<Key, Counter>

  /** Redis may fail before or after it ran the increment. */
  datatype Redis = Works | FailsBefore | FailsAfter

  /** A request: when its window was computed and when Redis ran its increment. */
  datatype Hit = Hit(identity: string, path: string, readAt: int, executedAt: int, redis: Redis)

  function KeyOf(hit: Hit): Key {
    Key(hit.readAt / WINDOW, hit.identity, Bucket(hit.path))
  }

  /** The value of an unexpired counter. */
  function Count(counters: Counters, key: Key, now: int): int {
    if key in counters && now < counters[key].expiresAt then counters[key].count else 0
  }

  function Increment(counters: Counters, key: Key, now: int): Counters {
    counters[key := Counter(Count(counters, key, now) + 1, now + EXPIRY)]
  }

  predicate Executes(settings: Settings, hit: Hit) {
    settings.enabled && hit.redis != FailsBefore
  }

  function After(settings: Settings, counters: Counters, hit: Hit): Counters {
    if Executes(settings, hit) then Increment(counters, KeyOf(hit), hit.executedAt) else counters
  }

  predicate Admits(settings: Settings, counters: Counters, hit: Hit) {
    settings.enabled && hit.redis.Works? ==>
      Count(counters, KeyOf(hit), hit.executedAt) + 1 <= Limit(settings, hit.path)
  }

  class Limiter {
    const settings: Settings
    var counters: Counters

    constructor (settings: Settings)
      ensures this.settings == settings && counters == map[]
    {
      this.settings, counters := settings, map[];
    }

    /** dispatch: whether the request goes on to the application. Any Redis failure lets it pass. */
    method Dispatch(hit: Hit) returns (admitted: bool)
      modifies this`counters
      ensures counters == After(settings, old(counters), hit)
      ensures admitted <==> Admits(settings, old(counters), hit)
    {
      if !settings.enabled {
        return true;
      }
      var limit := Limit(settings, hit.path);
      var window := hit.readAt / WINDOW;
      var key := Key(window, hit.identity, Bucket(hit.path));
      if hit.redis.FailsBefore? {
        return true;
      }
      var count := Count(counters, key, hit.executedAt) + 1;
      counters := counters[key := Counter(count, hit.executedAt + EXPIRY)];
      if hit.redis.FailsAfter? {
        return true;
      }
      return !(count > limit);
    }
  }

  /** A counter keeps its count for ninety seconds after its last hit, and is gone from then on. */
  lemma CountersExpire(settings: Settings, counters: Counters, hit: Hit, now: int)
    requires Executes(settings, hit)
    ensures var after := Count(After(settings, counters, hit), KeyOf(hit), now);
            if now < hit.executedAt + 90_000_000 then after == Count(counters, KeyOf(hit), hit.executedAt) + 1
            else after == 0
  {
  }

  /** Without the limiter, and with a Redis that fails at any moment, every request is admitted; only a
      request that failed late was counted. */
  lemma FaultsAdmit(settings: Settings, counters: Counters, hit: Hit)
    requires !settings.enabled || !hit.redis.Works?
    ensures Admits(settings, counters, hit)
    ensures After(settings, counters, hit) != counters ==> settings.enabled && hit.redis.FailsAfter?
  {
  }

  // ---------------------------------------------------------------- runs

  ghost function Run(settings: Settings, hits: seq<Hit>): Counters {
    if hits == [] then map[] else After(settings, Run(settings, hits[..|hits| - 1]), hits[|hits| - 1])
  }

  /** The hit is one of this identity and bucket, read in the key's minute. */
  ghost predicate Belongs(hit: Hit, key: Key) {
    && hit.identity == key.identity && Bucket(hit.path) == key.bucket
    && key.window * 60_000_000 <= hit.readAt < (key.window + 1) * 60_000_000
  }

  ghost function HitsOn(hits: seq<Hit>, key: Key): nat {
    if hits == [] then 0 else HitsOn(hits[..|hits| - 1], key) + if Belongs(hits[|hits| - 1], key) then 1 else 0
  }

  ghost function AdmittedOn(settings: Settings, hits: seq<Hit>, key: Key): nat {
    if hits == [] then 0
    else
      var earlier, hit := hits[..|hits| - 1], hits[|hits| - 1];
      AdmittedOn(settings, earlier, key)
      + if Belongs(hit, key) && Admits(settings, Run(settings, earlier), hit) then 1 else 0
  }

  lemma KeyMeansBelonging(hit: Hit, key: Key)
    ensures KeyOf(hit) == key <==> Belongs(hit, key)
  {
  }

  /** No faults, Redis runs the increments in the order of the list, each within thirty seconds of
      the clock reading that chose its window. */
  ghost predicate Timely(hits: seq<Hit>) {
    hits == [] || (Timely(hits[..|hits| - 1]) && TimelyHit(hits[|hits| - 1])
                   && ExecutedBy(hits[..|hits| - 1], hits[|hits| - 1].executedAt))
  }

  ghost predicate TimelyHit(hit: Hit) {
    hit.redis.Works? && hit.readAt <= hit.executedAt <= hit.readAt + 30_000_000
  }

  ghost predicate ExecutedBy(hits: seq<Hit>, now: int) {
    hits == [] || hits[|hits| - 1].executedAt <= now
  }

  /** A counter's expiry lies after every moment its window can still be hit. */
  ghost predicate Alive(counters: Counters, key: Key) {
    key in counters ==> counters[key].expiresAt >= key.window * WINDOW + EXPIRY
  }

  /** The ninety-second expiry never fires within a window: a counter holds the number of its hits. */
  lemma {:induction false} CountersCountHits(settings: Settings, hits: seq<Hit>, key: Key)
    requires settings.enabled && Timely(hits)
    ensures var counters := Run(settings, hits);
            Alive(counters, key) && HitsOn(hits, key) == if key in counters then counters[key].count else 0
  {
    if hits != [] {
      var earlier, hit := hits[..|hits| - 1], hits[|hits| - 1];
      CountersCountHits(settings, earlier, key);
      KeyMeansBelonging(hit, key);
    }
  }

  /** So a request is admitted exactly when fewer than the limit came before it in its window. */
  lemma AdmissionMeansRoom(settings: Settings, hits: seq<Hit>, hit: Hit)
    requires settings.enabled && Timely(hits + [hit])
    ensures Admits(settings, Run(settings, hits), hit) <==> HitsOn(hits, KeyOf(hit)) < Limit(settings, hit.path)
  {
    assert (hits + [hit])[..|hits|] == hits;
    CountersCountHits(settings, hits, KeyOf(hit));
  }

  /** Each identity and bucket is admitted min(hits, limit) times per window. */
  lemma {:induction false} AdmittedPerWindow(settings: Settings, hits: seq<Hit>, key: Key, path: string)
    requires settings.enabled && Timely(hits) && key.bucket == Bucket(path)
    ensures AdmittedOn(settings, hits, key) == Min(HitsOn(hits, key), Limit(settings, path))
  {
    BucketDecidesLimit(settings, path, path);
    if hits != [] {
      var earlier, hit := hits[..|hits| - 1], hits[|hits| - 1];
      AdmittedPerWindow(settings, earlier, key, path);
      KeyMeansBelonging(hit, key);
      if KeyOf(hit) == key {
        assert hits == earlier + [hit];
        AdmissionMeansRoom(settings, earlier, hit);
        BucketDecidesLimit(settings, path, hit.path);
      }
    }
  }

  /** The admitted requests of an identity and bucket read between two times. */
  ghost function AdmittedBetween(settings: Settings, hits: seq<Hit>, identity: string, bucket: string, from: int,
                                 to: int): nat {
    if hits == [] then 0
    else
      var earlier, hit := hits[..|hits| - 1], hits[|hits| - 1];
      AdmittedBetween(settings, earlier, identity, bucket, from, to)
      + if hit.identity == identity && Bucket(hit.path) == bucket && from <= hit.readAt <= to
          && Admits(settings, Run(settings, earlier), hit) then 1 else 0
  }

  lemma {:induction false} SpanMeetsTwoWindows(settings: Settings, hits: seq<Hit>, identity: string, bucket: string,
                                               from: int)
    ensures
      AdmittedBetween(settings, hits, identity, bucket, from, from + WINDOW)
        <= AdmittedOn(settings, hits, Key(from / WINDOW, identity, bucket))
            + AdmittedOn(settings, hits, Key(from / WINDOW + 1, identity, bucket))
  {
    if hits != [] {
      SpanMeetsTwoWindows(settings, hits[..|hits| - 1], identity, bucket, from);
    }
  }

  /** In any sixty seconds at most twice the limit is admitted. */
  lemma AdmittedPerMinute(settings: Settings, hits: seq<Hit>, identity: string, path: string, from: int)
    requires settings.enabled && Timely(hits)
    ensures AdmittedBetween(settings, hits, identity, Bucket(path), from, from + 60_000_000)
         <= 2 * Limit(settings, path)
  {
    SpanMeetsTwoWindows(settings, hits, identity, Bucket(path), from);
    AdmittedPerWindow(settings, hits, Key(from / WINDOW, identity, Bucket(path)), path);
    AdmittedPerWindow(settings, hits, Key(from / WINDOW + 1, identity, Bucket(path)), path);
  }
}
