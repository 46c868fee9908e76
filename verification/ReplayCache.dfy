/**
 The replay cache for token identifiers (the `jti` claim, section 4.1.7 of RFC 7519): an
 accepted identifier is remembered with its expiry until a sweep at or past that time.
 */
module ReplayCache {
  type Items = map<string, int>

  /** What a sweep keeps. */
  function Swept(items: Items, now: int): Items {
    map jti | jti in items && items[jti] > now :: items[jti]
  }

  class JtiCache {
    var items: Items

    constructor ()
      ensures items == map[]
    {
      items := map[];
    }

    method SeenOrAdd(jti: string, exp: int) returns (seen: bool)
      modifies this
      ensures seen <==> jti in old(items)
      ensures items == Step(old(items), Seen(jti, exp))
    {
      if jti in items {
        return true;
      }
      items := items[jti := exp];
      return false;
    }

    method Sweep(now: int)
      modifies this
      ensures items == Step(old(items), Event.Sweep(now))
    {
      var left := items.Keys;
      while left != {}
        invariant left <= old(items.Keys)
        invariant forall j :: j in items <==> j in old(items) && (j in left || old(items)[j] > now)
        invariant forall j :: j in items ==> items[j] == old(items)[j]
        decreases |left|
      {
        var jti :| jti in left;
        if items[jti] <= now {
          items := items - {jti};
        }
        left := left - {jti};
      }
    }
  }

  // ------------------------------------------------------------------
  // Histories
  // ------------------------------------------------------------------

  /** Calls in the order the lock admits them. */
  datatype Event = Seen(jti: string, exp: int) | Sweep(now: int)

  function Step(items: Items, e: Event): Items {
    match e
    case Seen(jti, exp) => if jti in items then items else items[jti := exp]
    case Sweep(now) => Swept(items, now)
  }

  function After(es: seq<Event>): Items {
    if es == [] then map[] else Step(After(es[..|es| - 1]), es[|es| - 1])
  }

  /** Call `i` returned false: the token was let through. */
  predicate Accepted(es: seq<Event>, i: nat) {
    i < |es| && es[i].Seen? && es[i].jti !in After(es[..i])
  }

  /** Some sweep strictly between the two calls was at or past that expiry. */
  predicate SweptBetween(es: seq<Event>, i: nat, j: nat, exp: int) {
    exists k :: i < k < j && k < |es| && es[k].Sweep? && es[k].now >= exp
  }

  lemma AfterStep(es: seq<Event>, i: nat)
    requires i < |es|
    ensures After(es[..i + 1]) == Step(After(es[..i]), es[i])
  {
    assert es[..i + 1][..i] == es[..i];
  }

  /** An accepted identifier stays until a sweep at or past its expiry. */
  lemma {:induction false} Remembered(es: seq<Event>, i: nat, j: nat)
    requires Accepted(es, i) && i < j <= |es| && !SweptBetween(es, i, j, es[i].exp)
    ensures es[i].jti in After(es[..j]) && After(es[..j])[es[i].jti] == es[i].exp
    decreases j
  {
    AfterStep(es, j - 1);
    if j > i + 1 {
      assert !SweptBetween(es, i, j - 1, es[i].exp);
      Remembered(es, i, j - 1);
    }
  }

  /** Every remembered identifier comes from an accepted call that no sweep has outlived. */
  lemma {:induction false} Origin(es: seq<Event>, j: nat, jti: string) returns (i: nat)
    requires j <= |es| && jti in After(es[..j])
    ensures i < j && Accepted(es, i) && es[i].jti == jti && After(es[..j])[jti] == es[i].exp
    ensures !SweptBetween(es, i, j, es[i].exp)
    decreases j
  {
    AfterStep(es, j - 1);
    var e := es[j - 1];
    if e.Seen? && e.jti == jti && jti !in After(es[..j - 1]) {
      i := j - 1;
    } else {
      i := Origin(es, j - 1, jti);
    }
  }

  /** A call is refused exactly when an earlier accepted call of the same token has not been swept past its expiry. */
  lemma RefusedIff(es: seq<Event>, j: nat)
    requires j < |es| && es[j].Seen?
    ensures !Accepted(es, j) <==>
            exists i :: 0 <= i < j && Accepted(es, i) && es[i].jti == es[j].jti && !SweptBetween(es, i, j, es[i].exp)
  {
    if !Accepted(es, j) {
      var i := Origin(es, j, es[j].jti);
    } else {
      forall i | 0 <= i < j && Accepted(es, i) && es[i].jti == es[j].jti
        ensures SweptBetween(es, i, j, es[i].exp)
      {
        if !SweptBetween(es, i, j, es[i].exp) {
          Remembered(es, i, j);
          assert false;
        }
      }
    }
  }

  /** Two acceptances of one token are separated by a sweep at or past the first one's expiry. */
  lemma AcceptancesAreSeparated(es: seq<Event>, i: nat, j: nat)
    requires i < j && Accepted(es, i) && Accepted(es, j) && es[i].jti == es[j].jti
    ensures SweptBetween(es, i, j, es[i].exp)
  {
    RefusedIff(es, j);
  }

  /** Each call has a wall-clock time, times do not decrease, and a sweep never uses a time still to come. */
  predicate Timed(es: seq<Event>, clock: seq<int>) {
    && |clock| == |es|
    && (forall i, j :: 0 <= i < j < |clock| ==> clock[i] <= clock[j])
    && (forall k :: 0 <= k < |es| && es[k].Sweep? ==> es[k].now <= clock[k])
  }

  /** Under such a clock a token is accepted at most once before its expiry. */
  lemma AcceptedOnceBeforeExpiry(es: seq<Event>, clock: seq<int>, i: nat, j: nat)
    requires Timed(es, clock)
    requires i < j && Accepted(es, i) && Accepted(es, j) && es[i].jti == es[j].jti
    ensures clock[j] >= es[i].exp
  {
    AcceptancesAreSeparated(es, i, j);
    var k :| i < k < j && k < |es| && es[k].Sweep? && es[k].now >= es[i].exp;
  }
}
