/** Startup ids: a stamp of host, time and process, ended by a four-digit sequence number. */
module StartupId {

  const CYCLE := 10000

  function Digit(n: nat): char
    requires n < 10
  {
    ('0' as int + n) as char
  }

  /** The number in four decimal digits. */
  function FourDigits(n: nat): string
    requires n < CYCLE
  {
    [Digit(n / 1000), Digit(n / 100 % 10), Digit(n / 10 % 10), Digit(n % 10)]
  }

  /** Reading four decimal digits. */
  function Reading(text: string): int
    requires |text| == 4
  {
    var zero := '0' as int;
    1000 * (text[0] as int - zero) + 100 * (text[1] as int - zero) + 10 * (text[2] as int - zero) + (text[3] as int - zero)
  }

  lemma ReadingOfDigits(n: nat)
    requires n < CYCLE
    ensures Reading(FourDigits(n)) == n
  {
    assert n / 10 / 10 / 10 == n / 1000 && n / 10 / 10 == n / 100;
  }

  lemma FourDigitsInjective(m: nat, n: nat)
    requires m < CYCLE && n < CYCLE && FourDigits(m) == FourDigits(n)
    ensures m == n
  {
    ReadingOfDigits(m);
    ReadingOfDigits(n);
  }

  /** The id handed out by call number `k`, counted from 0, with the stamp of that moment. */
  function IdOf(k: nat, stamp: string): string {
    stamp + FourDigits(k % CYCLE)
  }

  /** Two ids are the same only if the sequence has gone round in between and the stamps agree as well. */
  lemma SameIdExactlyWhen(j: nat, k: nat, s: string, t: string)
    ensures IdOf(j, s) == IdOf(k, t) <==> j % CYCLE == k % CYCLE && s == t
  {
    var a, b := IdOf(j, s), IdOf(k, t);
    assert a[..|a| - 4] == s && a[|a| - 4..] == FourDigits(j % CYCLE);
    assert b[..|b| - 4] == t && b[|b| - 4..] == FourDigits(k % CYCLE);
    if a == b {
      FourDigitsInjective(j % CYCLE, k % CYCLE);
    }
  }

  /** Any ten thousand calls in a row return different ids, whatever clock and process say. */
  lemma ConsecutiveIdsDiffer(first: nat, stamps: seq<string>)
    requires |stamps| <= CYCLE
    ensures forall i, j | 0 <= i < j < |stamps| :: IdOf(first + i, stamps[i]) != IdOf(first + j, stamps[j])
  {
    forall i, j | 0 <= i < j < |stamps|
      ensures IdOf(first + i, stamps[i]) != IdOf(first + j, stamps[j])
    {
      SameIdExactlyWhen(first + i, first + j, stamps[i], stamps[j]);
      DifferentRemainders(first + i, j - i);
    }
  }

  lemma DifferentRemainders(n: nat, d: nat)
    requires 0 < d < CYCLE
    ensures n % CYCLE != (n + d) % CYCLE
  {
  }

  class Source {
    var sequence: int
    ghost var calls: nat

    ghost predicate Valid()
      reads this
    {
      sequence == if calls == 0 then -1 else (calls - 1) % CYCLE
    }

    constructor ()
      ensures Valid() && calls == 0
    {
      sequence, calls := -1, 0;
    }

    method Generate(stamp: string) returns (id: string)
      requires Valid()
      modifies this
      ensures Valid() && calls == old(calls) + 1
      ensures id == IdOf(old(calls), stamp)
    {
      sequence := (sequence + 1) % CYCLE;
      calls := calls + 1;
      id := stamp + FourDigits(sequence);
    }
  }
}
