/** `GlobalSocketState` of the attestation protocol: the size-bounded jar of
    authentication challenges a client is waiting to have answered.  Each
    entry maps a challenge (the sha256 of a secret) to the time it was
    registered; the one-shot channel that the answer is sent on is
    identified with its challenge. */
module CookieJar {

  type Challenge = nat  // a sha256 digest, ordered like the source's BTreeMap keys
  type Secret = nat     // a 32-byte authentication secret
  type Timestamp = int  // milliseconds, as read from the clock

  /** Garbage collection starts once the jar holds more than this many entries. */
  const JAR_LIMIT: nat := 100
  /** Entries stamped at or before `now - STALE_AFTER_MS` are stale. */
  const STALE_AFTER_MS: int := 1000 * 20

  type Jar = map<Challenge, Timestamp>

  lemma {:induction false} HasMinimum(s: set<Challenge>)
    requires s != {}
    ensures exists m :: m in s && forall k :: k in s ==> m <= k
  {
    var x :| x in s;
    if s != {x} {
      HasMinimum(s - {x});
      var m :| m in s - {x} && forall k :: k in s - {x} ==> m <= k;
      var least := if x < m then x else m;
      forall k | k in s ensures least <= k {
        if k != x {
          assert k in s - {x};
        }
      }
    } else {
      assert forall k :: k in s ==> x <= k;
    }
  }

  /** The first key of a non-empty BTreeMap: its smallest key. */
  function MinKey(s: set<Challenge>): (m: Challenge)
    requires s != {}
    ensures m in s && forall k :: k in s ==> m <= k
  {
    HasMinimum(s);
    var m :| m in s && forall k :: k in s ==> m <= k;
    m
  }

  /** `retain(|_k, x| x.1 > stale)`. */
  function Retain(jar: Jar, stale: Timestamp): (r: Jar)
    ensures forall k :: k in r <==> k in jar && jar[k] > stale
    ensures forall k :: k in r ==> r[k] == jar[k]
  {
    map k | k in jar && jar[k] > stale :: jar[k]
  }

  /** The jar after `expect_a_cookie(challenge)`, where the clock read `now`
      for garbage collection and `stamp` when the entry was inserted. */
  function Expect(jar: Jar, challenge: Challenge, now: Timestamp, stamp: Timestamp): (r: Jar)
    ensures challenge in r && r[challenge] == stamp
    // nothing is invented and no surviving entry is restamped
    ensures forall k :: k in r && k != challenge ==> k in jar && r[k] == jar[k]
    // below the limit nothing is collected
    ensures |jar| <= JAR_LIMIT ==> r == jar[challenge := stamp]
    // an entry is only ever dropped when the jar was over the limit, and then
    // only if it was stale or the smallest of the fresh entries
    ensures forall k :: k in jar && k != challenge && k !in r ==>
              |jar| > JAR_LIMIT &&
              (jar[k] <= now - STALE_AFTER_MS ||
               forall j :: j in jar && jar[j] > now - STALE_AFTER_MS ==> k <= j)
    // over the limit, every stale entry is collected
    ensures |jar| > JAR_LIMIT ==>
              forall k :: k in jar && k != challenge && jar[k] <= now - STALE_AFTER_MS ==> k !in r
    // and if the fresh entries alone are still over the limit, the smallest of
    // them is evicted too; every other fresh entry survives
    ensures |jar| > JAR_LIMIT && |Retain(jar, now - STALE_AFTER_MS)| > JAR_LIMIT ==>
              var m := MinKey(Retain(jar, now - STALE_AFTER_MS).Keys);
              m == challenge || m !in r
    ensures |jar| > JAR_LIMIT ==>
              var kept := Retain(jar, now - STALE_AFTER_MS);
              forall k :: (k in kept && (|kept| > JAR_LIMIT ==> k != MinKey(kept.Keys))) ==> k in r
  {
    var collected :=
      if |jar| > JAR_LIMIT then
        var kept := Retain(jar, now - STALE_AFTER_MS);
        if |kept| > JAR_LIMIT then kept - {MinKey(kept.Keys)} else kept
      else jar;
    collected[challenge := stamp]
  }

  /** The jar after `add_a_cookie(cookie)` and whether a waiting challenge was
      found and removed.  The cookie is then sent on the entry's channel; a
      receiver that is gone only leaves a trace, so it is not modelled. */
  function Add(jar: Jar, cookie: Secret, sha256: Secret -> Challenge): (r: (Jar, bool))
    ensures r.1 <==> sha256(cookie) in jar
    ensures r.0 == jar - {sha256(cookie)}
  {
    var k := sha256(cookie);
    if k in jar then (jar - {k}, true) else (jar, false)
  }

  lemma {:induction false} SubsetCardinality(a: set<Challenge>, b: set<Challenge>)
    requires a <= b
    ensures |a| <= |b|
  {
    if a != {} {
      var x :| x in a;
      SubsetCardinality(a - {x}, b - {x});
    }
  }

  /** A jar of at most 101 entries stays at most 101 entries however many
      challenges are registered, so the jar never grows without bound. */
  lemma ExpectKeepsJarBounded(jar: Jar, challenge: Challenge, now: Timestamp, stamp: Timestamp)
    requires |jar| <= JAR_LIMIT + 1
    ensures |Expect(jar, challenge, now, stamp)| <= JAR_LIMIT + 1
  {
    if |jar| > JAR_LIMIT {
      var kept := Retain(jar, now - STALE_AFTER_MS);
      SubsetCardinality(kept.Keys, jar.Keys);
      var collected := if |kept| > JAR_LIMIT then kept - {MinKey(kept.Keys)} else kept;
      assert |collected| <= JAR_LIMIT;
      assert Expect(jar, challenge, now, stamp).Keys == collected.Keys + {challenge};
    } else {
      assert Expect(jar, challenge, now, stamp).Keys == jar.Keys + {challenge};
    }
  }

  /** Answering a challenge consumes it: a second answer with the same cookie
      finds nothing. */
  lemma AddConsumesChallenge(jar: Jar, cookie: Secret, sha256: Secret -> Challenge)
    ensures !Add(Add(jar, cookie, sha256).0, cookie, sha256).1
  {
  }

  /** An answer to a challenge just registered is always found. */
  lemma ExpectThenAddFinds(jar: Jar, cookie: Secret, sha256: Secret -> Challenge, now: Timestamp, stamp: Timestamp)
    ensures Add(Expect(jar, sha256(cookie), now, stamp), cookie, sha256).1
  {
  }

  /** The shared cookie jar, mutated in place under its mutex. */
  class GlobalSocketState {
    var cookies: Jar

    /** `GlobalSocketState::default()`. */
    constructor ()
      ensures cookies == map[]
    {
      cookies := map[];
    }

    method ExpectACookie(challenge: Challenge, now: Timestamp, stamp: Timestamp)
      modifies this
      ensures cookies == Expect(old(cookies), challenge, now, stamp)
    {
      if |cookies| > JAR_LIMIT {
        var stale := now - STALE_AFTER_MS;
        cookies := map k | k in cookies && cookies[k] > stale :: cookies[k];
        if |cookies| > JAR_LIMIT {
          var first := MinKey(cookies.Keys);
          cookies := cookies - {first};
        }
      }
      cookies := cookies[challenge := stamp];
    }

    method AddACookie(cookie: Secret, sha256: Secret -> Challenge) returns (found: bool)
      modifies this
      ensures (cookies, found) == Add(old(cookies), cookie, sha256)
    {
      var k := sha256(cookie);
      found := k in cookies;
      if found {
        cookies := cookies - {k};
      }
    }
  }
}
