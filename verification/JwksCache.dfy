/**
  The Auth0 provider's key cache, one locked section at a time: a positive map
  of keys (section 5 of RFC 7517), a bounded insertion-ordered map of kids a
  fetch has found absent, the fetch slot and the in-flight marker.
 */
module JwksCache {
  import opened Common

  type Kid = string
  type Jwk = string

  const NEGATIVE_TTL := 300.0
  const NEGATIVE_MAX := 1024
  const MIN_INTERVAL := 60.0

  /** A kid recorded absent, and the clock reading it was recorded with. */
  datatype Entry = Entry(kid: Kid, at: real)

  datatype Cache = Cache(
    keys: map<Kid, Jwk>,
    negative: seq<Entry>,
    lastFetchAt: Option<real>,
    inFlight: Option<nat>,
    lastError: Option<string>)

  const EMPTY := Cache(map[], [], None, None, None)

  /** What a caller must do about a kid; a fetch attempt is known by its number. */
  datatype Decision = Hit(jwk: Jwk) | Perform(attempt: nat) | Ride(attempt: nat) | Refuse | Unreachable

  ghost predicate DistinctKids(negative: seq<Entry>) {
    forall i, j :: 0 <= i < j < |negative| ==> negative[i].kid != negative[j].kid
  }

  function Without(negative: seq<Entry>, kid: Kid): (r: seq<Entry>)
    ensures |r| <= |negative|
    ensures forall e :: e in r <==> e in negative && e.kid != kid
    ensures DistinctKids(negative) ==> DistinctKids(r)
  {
    if negative == [] then []
    else
      var last := negative[|negative| - 1];
      var front := Without(negative[..|negative| - 1], kid);
      if last.kid == kid then front else front + [last]
  }

  function FindKid(negative: seq<Entry>, kid: Kid): (i: nat)
    ensures i <= |negative|
    ensures i < |negative| ==> negative[i].kid == kid
    ensures forall j :: 0 <= j < i ==> negative[j].kid != kid
  {
    if negative == [] then 0 else if negative[0].kid == kid then 0 else 1 + FindKid(negative[1..], kid)
  }

  /** The newest `n` entries, in order. */
  function Newest(negative: seq<Entry>, n: nat): seq<Entry> {
    if |negative| <= n then negative else negative[|negative| - n..]
  }

  /** Recording a kid absent: it moves to the end, the oldest make room. */
  function Recorded(negative: seq<Entry>, kid: Kid, now: real): seq<Entry> {
    Newest(Without(negative, kid), NEGATIVE_MAX - 1) + [Entry(kid, now)]
  }

  /** A real fetch found this kid absent less than a TTL before `now`. */
  predicate KnownAbsent(c: Cache, kid: Kid, now: real) {
    var i := FindKid(c.negative, kid);
    i < |c.negative| && now - c.negative[i].at < NEGATIVE_TTL
  }

  predicate SlotClaimed(c: Cache, now: real) {
    c.lastFetchAt.Some? && now - c.lastFetchAt.value < MIN_INTERVAL
  }

  function Decided(c: Cache, kid: Kid, now: real, next: nat): (Cache, Decision) {
    if kid in c.keys then (c.(negative := Without(c.negative, kid)), Hit(c.keys[kid]))
    else if KnownAbsent(c, kid, now) then (c, Refuse)
    else if SlotClaimed(c, now) then
      if c.inFlight.Some? then (c, Ride(c.inFlight.value))
      else if c.lastError.Some? then (c, Unreachable)
      else (c, Refuse)
    else (c.(inFlight := Some(next), lastFetchAt := Some(now)), Perform(next))
  }

  /** The first entry of a kid is its only one. */
  lemma FoundIsTheEntry(negative: seq<Entry>, kid: Kid, e: Entry)
    requires DistinctKids(negative) && e in negative && e.kid == kid
    ensures FindKid(negative, kid) < |negative| && negative[FindKid(negative, kid)] == e
  {
    var i := FindKid(negative, kid);
    var j :| 0 <= j < |negative| && negative[j] == e;
    assert i <= j;
  }

  /** What is decided about a kid the key map lacks, from the entries and the
      readings themselves. A recorded absence younger than 300 seconds settles
      it, whatever is in flight; otherwise a fetch is made just when none was
      claimed within the last 60 seconds, and else the one in flight is ridden,
      or the last one's failure told, or the kid refused. */
  lemma AbsentKidIsDecided(c: Cache, kid: Kid, now: real, next: nat)
    requires DistinctKids(c.negative) && kid !in c.keys
    ensures var denied := exists e :: e in c.negative && e.kid == kid && now - e.at < 300.0;
            var due := c.lastFetchAt.None? || now - c.lastFetchAt.value >= 60.0;
            var (c', d) := Decided(c, kid, now, next);
            && (denied ==> (c', d) == (c, Refuse))
            && (!denied && due ==>
                  d == Perform(next) && c' == Cache(c.keys, c.negative, Some(now), Some(next), c.lastError))
            && (!denied && !due ==> c' == c)
            && (!denied && !due && c.inFlight.Some? ==> d == Ride(c.inFlight.value))
            && (!denied && !due && c.inFlight.None? ==> d == if c.lastError.Some? then Unreachable else Refuse)
  {
    if e :| e in c.negative && e.kid == kid && now - e.at < 300.0 {
      FoundIsTheEntry(c.negative, kid, e);
    } else {
      var i := FindKid(c.negative, kid);
      assert i < |c.negative| ==> c.negative[i] in c.negative;
    }
  }

  function Published(c: Cache, keys: map<Kid, Jwk>): Cache {
    c.(keys := keys)
  }

  function Finished(c: Cache, error: Option<string>): Cache {
    c.(lastError := error, inFlight := None)
  }

  function Rechecked(c: Cache, kid: Kid, now: real): (Cache, Option<Jwk>) {
    if kid in c.keys then (c.(negative := Without(c.negative, kid)), Some(c.keys[kid]))
    else (c.(negative := Recorded(c.negative, kid, now)), None)
  }

  class Auth0Provider {
    var keysByKid: map<Kid, Jwk>
    var negativeKids: seq<Entry>
    var lastFetchAt: Option<real>
    var fetchInFlight: Option<nat>
    var lastFetchError: Option<string>
    var attempts: nat

    function State(): Cache
      reads this
    {
      Cache(keysByKid, negativeKids, lastFetchAt, fetchInFlight, lastFetchError)
    }

    constructor ()
      ensures State() == EMPTY && attempts == 0
    {
      keysByKid, negativeKids := map[], [];
      lastFetchAt, fetchInFlight, lastFetchError, attempts := None, None, None, 0;
    }

    method Forget(kid: Kid)
      modifies this`negativeKids
      ensures negativeKids == Without(old(negativeKids), kid)
    {
      var kept := [];
      for i := 0 to |negativeKids|
        invariant kept == Without(negativeKids[..i], kid)
      {
        assert negativeKids[..i + 1][..i] == negativeKids[..i];
        if negativeKids[i].kid != kid {
          kept := kept + [negativeKids[i]];
        }
      }
      assert negativeKids[..|negativeKids|] == negativeKids;
      negativeKids := kept;
    }

    method CachedJwkOrFetchAttempt(kid: Kid, now: real) returns (d: Decision)
      modifies this
      ensures (State(), d) == Decided(old(State()), kid, now, old(attempts))
      ensures attempts == old(attempts) + if d.Perform? then 1 else 0
      ensures kid in old(keysByKid) ==>
                && d == Hit(old(keysByKid)[kid])
                && forall e :: e in negativeKids <==> e in old(negativeKids) && e.kid != kid
      ensures kid !in old(keysByKid) && DistinctKids(old(negativeKids)) ==>
                var denied := exists e :: e in old(negativeKids) && e.kid == kid && now - e.at < 300.0;
                var due := old(lastFetchAt).None? || now - old(lastFetchAt).value >= 60.0;
                && (d.Perform? <==> !denied && due)
                && (d.Ride? <==> !denied && !due && old(fetchInFlight).Some?)
                && (d.Unreachable? <==> !denied && !due && old(fetchInFlight).None? && old(lastFetchError).Some?)
                && negativeKids == old(negativeKids)
    {
      ghost var was := State();
      if kid in keysByKid {
        Forget(kid);
        return Hit(keysByKid[kid]);
      }
      if DistinctKids(negativeKids) {
        AbsentKidIsDecided(was, kid, now, attempts);
      }
      var missed := FindKid(negativeKids, kid);
      if missed < |negativeKids| && now - negativeKids[missed].at < NEGATIVE_TTL {
        return Refuse;
      }
      if lastFetchAt.Some? && now - lastFetchAt.value < MIN_INTERVAL {
        if fetchInFlight.Some? {
          return Ride(fetchInFlight.value);
        }
        if lastFetchError.Some? {
          return Unreachable;
        }
        return Refuse;
      }
      d := Perform(attempts);
      fetchInFlight, lastFetchAt := Some(attempts), Some(now);
      attempts := attempts + 1;
    }

    method FetchedJwks(keys: map<Kid, Jwk>)
      modifies this`keysByKid
      ensures State() == Published(old(State()), keys) && keysByKid == keys
    {
      keysByKid := keys;
    }

    method FinishFetch(error: Option<string>)
      modifies this`lastFetchError, this`fetchInFlight
      ensures State() == Finished(old(State()), error) && lastFetchError == error && fetchInFlight == None
    {
      lastFetchError := error;
      fetchInFlight := None;
    }

    /** The eviction loop: the first entry goes while the map is full. */
    method EvictOldest()
      modifies this`negativeKids
      ensures negativeKids == Newest(old(negativeKids), NEGATIVE_MAX - 1)
    {
      ghost var n := |negativeKids|;
      while |negativeKids| >= NEGATIVE_MAX
        invariant |negativeKids| <= n && negativeKids == old(negativeKids)[n - |negativeKids|..]
        invariant |negativeKids| >= NEGATIVE_MAX - 1 || |negativeKids| == n
      {
        negativeKids := negativeKids[1..];
      }
    }

    method JwkAfterFetch(kid: Kid, now: real) returns (jwk: Option<Jwk>)
      modifies this`negativeKids
      ensures (State(), jwk) == Rechecked(old(State()), kid, now)
      ensures jwk == if kid in keysByKid then Some(keysByKid[kid]) else None
      ensures jwk == None ==> negativeKids != [] && negativeKids[|negativeKids| - 1] == Entry(kid, now)
      ensures forall e :: e in negativeKids ==> e == Entry(kid, now) || (e in old(negativeKids) && e.kid != kid)
    {
      if kid in keysByKid {
        Forget(kid);
        return Some(keysByKid[kid]);
      }
      Forget(kid);
      EvictOldest();
      negativeKids := negativeKids + [Entry(kid, now)];
      return None;
    }
  }

  // ---------------------------------------------------------------------
  // The bounded map against one that never forgets
  // ---------------------------------------------------------------------

  ghost predicate IsNewest(kept: seq<Entry>, all: seq<Entry>) {
    |kept| <= |all| && kept == all[|all| - |kept|..]
  }

  lemma NewestFront(kept: seq<Entry>, all: seq<Entry>)
    requires kept != [] && IsNewest(kept, all)
    ensures IsNewest(kept[..|kept| - 1], all[..|all| - 1]) && kept[|kept| - 1] == all[|all| - 1]
  {
    var k, a := kept[..|kept| - 1], all[..|all| - 1];
    assert k == a[|a| - |k|..];
  }

  lemma NewestStep(kept: seq<Entry>, all: seq<Entry>, kid: Kid, k: seq<Entry>, a: seq<Entry>)
    requires kept != [] && all != [] && kept[|kept| - 1] == all[|all| - 1] && IsNewest(k, a)
    requires k == Without(kept[..|kept| - 1], kid) && a == Without(all[..|all| - 1], kid)
    ensures IsNewest(Without(kept, kid), Without(all, kid))
  {
    NewestSnoc(k, a, kept[|kept| - 1]);
  }

  lemma NoneIsNewest(all: seq<Entry>)
    ensures IsNewest([], all)
  {
  }

  lemma {:induction false} WithoutIsNewest(kept: seq<Entry>, all: seq<Entry>, kid: Kid)
    requires IsNewest(kept, all)
    ensures IsNewest(Without(kept, kid), Without(all, kid))
    decreases |kept|
  {
    if kept == [] {
      NoneIsNewest(Without(all, kid));
    } else {
      var k, a := kept[..|kept| - 1], all[..|all| - 1];
      NewestFront(kept, all);
      WithoutIsNewest(k, a, kid);
      NewestStep(kept, all, kid, Without(k, kid), Without(a, kid));
    }
  }

  /** Recording in the bounded map keeps it the newest entries of the unbounded
      one: what is evicted was recorded before everything that is kept. */
  lemma RecordedIsNewest(kept: seq<Entry>, all: seq<Entry>, kid: Kid, now: real)
    requires IsNewest(kept, all) && |kept| <= NEGATIVE_MAX && DistinctKids(kept)
    ensures IsNewest(Recorded(kept, kid, now), Without(all, kid) + [Entry(kid, now)])
    ensures |Recorded(kept, kid, now)| <= NEGATIVE_MAX && DistinctKids(Recorded(kept, kid, now))
  {
    var rest, ideal := Without(kept, kid), Without(all, kid);
    var newest := Newest(rest, NEGATIVE_MAX - 1);
    WithoutIsNewest(kept, all, kid);
    NewestIsNewest(rest, ideal, NEGATIVE_MAX - 1);
    NewestSnoc(newest, ideal, Entry(kid, now));
    assert forall e :: e in newest ==> e in rest;
    DistinctSnoc(newest, Entry(kid, now));
  }

  lemma NewestIsNewest(kept: seq<Entry>, all: seq<Entry>, n: nat)
    requires IsNewest(kept, all)
    ensures IsNewest(Newest(kept, n), all) && |Newest(kept, n)| <= n
    ensures DistinctKids(kept) ==> DistinctKids(Newest(kept, n))
  {
    if |kept| > n {
      var from := |all| - |kept|;
      assert all[from..][|kept| - n..] == all[from + (|kept| - n)..];
    }
  }

  lemma NewestSnoc(kept: seq<Entry>, all: seq<Entry>, e: Entry)
    requires IsNewest(kept, all)
    ensures IsNewest(kept + [e], all + [e])
  {
  }

  lemma DistinctSnoc(kept: seq<Entry>, e: Entry)
    requires DistinctKids(kept) && forall x :: x in kept ==> x.kid != e.kid
    ensures DistinctKids(kept + [e])
  {
  }
}
