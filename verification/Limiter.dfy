/** The limiter as the program keeps it: a map of buckets that requests and the janitor
    update, and the loop that deletes idle ones. */
module Limiter {
  import opened TokenBucket

  class Limiter {
    const config: Config
    var buckets: Buckets

    constructor (burst: int, idleTTL: int)
      ensures config == WithDefaults(burst, idleTTL) && buckets == map[]
      ensures config.burst == (if burst > 0 then burst else 10) > 0
      ensures config.idleTTL == (if idleTTL > 0 then idleTTL else 600 * SECOND) > 0
    {
      config := WithDefaults(burst, idleTTL);
      buckets := map[];
    }

    /** The bucket for the key, created or rebuilt as needed. */
    method BucketAt(key: string, rpm: int, now: Time)
      modifies this`buckets
      ensures key in buckets && buckets == old(buckets)[key := buckets[key]]
      ensures buckets[key] == BucketFor(config, old(buckets), key, rpm, now)
      ensures buckets[key].lastSeen == now && buckets[key].rpm == if rpm > 0 then rpm else 60
    {
      var rate := if rpm <= 0 then 60 else rpm;
      if key in buckets && buckets[key].rpm == rate {
        buckets := buckets[key := buckets[key].(lastSeen := now)];
      } else {
        buckets := buckets[key := Bucket(config.burst * TOKEN, now, now, rate)];
      }
    }

    method Reserve(key: string, rpm: int, now: Time) returns (verdict: Verdict)
      modifies this`buckets
      ensures buckets == Next(config, old(buckets), Request(key, rpm, now))
      ensures verdict.Allowed? <==> Admits(config, old(buckets), key, rpm, now)
      ensures verdict == Answer(config, BucketFor(config, old(buckets), key, rpm, now), now)
      ensures verdict.Denied? ==> verdict.retryAfter > 0
    {
      BucketAt(key, rpm, now);
      var (delay, taken) := ReserveOne(config, buckets[key], now);
      DelayIsNotNegative(config, buckets[key], now);
      buckets := buckets[key := taken];
      if delay == 0 {
        return Allowed;
      }
      buckets := buckets[key := Cancel(config, buckets[key], now)];
      return Denied(delay);
    }

    /** The janitor: keys are visited in whatever order iteration gives. */
    method Reclaim(now: Time)
      modifies this`buckets
      ensures buckets == Next(config, old(buckets), Sweep(now))
    {
      var cutoff := now - config.idleTTL;
      var left := buckets.Keys;
      while left != {}
        invariant left <= buckets.Keys
        invariant buckets == map key | key in old(buckets) && (key in left || !(old(buckets)[key].lastSeen < cutoff)) ::
                               old(buckets)[key]
        decreases |left|
      {
        var key :| key in left;
        if buckets[key].lastSeen < cutoff {
          buckets := buckets - {key};
        }
        left := left - {key};
      }
    }
  }

  lemma DelayIsNotNegative(c: Config, b: Bucket, now: Time)
    requires b.rpm > 0
    ensures ReserveOne(c, b, now).0 >= 0
  {
    var tokens := Level(c, b, now) - TOKEN;
    if tokens < 0 {
      DelayRoundsDown(-tokens, b.rpm);
    }
  }
}
