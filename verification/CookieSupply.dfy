/** Inhibitor cookies: drawing at random until an unused one turns up always ends in a fresh cookie. */
module CookieSupply {
  import opened Wrappers
  import opened Session

  function Range(n: nat): set<nat> {
    if n == 0 then {} else Range(n - 1) + {n}
  }

  lemma {:induction false} RangeSize(n: nat)
    ensures |Range(n)| == n
    ensures forall c: nat :: c in Range(n) <==> 1 <= c <= n
  {
    if n > 0 {
      RangeSize(n - 1);
    }
  }

  lemma SubsetSize<T>(a: set<T>, b: set<T>)
    requires a <= b
    ensures |a| <= |b|
  {
    assert b == a + (b - a);
  }

  /** While fewer cookies are held than exist, some cookie is free. */
  lemma FreeCookieExists(used: set<nat>)
    requires |used| < MAX_COOKIE
    ensures exists c: nat :: 1 <= c <= MAX_COOKIE && c !in used
  {
    RangeSize(MAX_COOKIE);
    if Range(MAX_COOKIE) <= used {
      SubsetSize(Range(MAX_COOKIE), used);
    }
    var c :| c in Range(MAX_COOKIE) && c !in used;
  }

  lemma {:induction false} FirstFreshFrom(random: nat -> nat, used: set<nat>, k: nat)
    requires random(k) !in used
    ensures exists j: nat :: j <= k && FirstFresh(random, used, j)
    decreases k
  {
    if j: nat :| j < k && random(j) !in used {
      FirstFreshFrom(random, used, j);
    } else {
      assert FirstFresh(random, used, k);
    }
  }

  lemma FreshCookieIsFresh(random: nat -> nat, used: set<nat>)
    requires Fair(random) && |used| < MAX_COOKIE
    ensures exists k: nat :: FirstFresh(random, used, k) && FreshCookie(random, used) == random(k)
    ensures FreshCookie(random, used) !in used
    ensures 1 <= FreshCookie(random, used) <= MAX_COOKIE
  {
    FreeCookieExists(used);
    var c: nat :| 1 <= c <= MAX_COOKIE && c !in used;
    assert Drawn(random, c);
    var k: nat :| random(k) == c;
    FirstFreshFrom(random, used, k);
  }

  /** Which draw comes first is settled by the stream, so the fresh cookie is the one at that draw. */
  lemma FreshCookieAt(random: nat -> nat, used: set<nat>, k: nat)
    requires FirstFresh(random, used, k)
    ensures FreshCookie(random, used) == random(k)
  {
    var j: nat :| FirstFresh(random, used, j) && FreshCookie(random, used) == random(j);
    FirstFreshUnique(random, used, j, k);
  }

  lemma FirstFreshUnique(random: nat -> nat, used: set<nat>, j: nat, k: nat)
    requires FirstFresh(random, used, j) && FirstFresh(random, used, k)
    ensures j == k
  {
  }

  lemma {:induction false} CookiesSize(inhibitors: map<InhibitorId, Inhibitor>)
    ensures |Cookies(inhibitors)| <= |inhibitors|
    decreases |inhibitors|
  {
    if inhibitors == map[] {
      assert Cookies(inhibitors) == {};
    } else {
      var i :| i in inhibitors;
      var rest := inhibitors - {i};
      assert inhibitors.Keys == rest.Keys + {i};
      assert |inhibitors| == |inhibitors.Keys| && |rest| == |rest.Keys|;
      CookiesSize(rest);
      var c := inhibitors[i].cookie;
      assert Cookies(inhibitors) == Cookies(rest) + {c} by {
        forall x | x in Cookies(inhibitors)
          ensures x in Cookies(rest) + {c}
        {
          var j :| j in inhibitors && inhibitors[j].cookie == x;
          if j != i {
            assert j in rest && rest[j].cookie == x;
          }
        }
      }
    }
  }
}
