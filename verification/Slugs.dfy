/** `uniqueSlug` of `src/events/events-admin.service.ts`: an unbounded search that must stop. */
module Slugs {
  import opened Text

  type Id = string

  /** A number as JavaScript prints it. */
  function Decimal(n: nat): (s: string)
    ensures s != "" && (|s| == 1 <==> n < 10)
  {
    if n < 10 then [Digit(n)] else Decimal(n / 10) + [Digit(n % 10)]
  }

  function Digit(n: nat): char
    requires n < 10
  {
    ('0' as int + n) as char
  }

  /** The number that a text of digits denotes. */
  function Number(s: string): int {
    if s == "" then 0 else 10 * Number(s[..|s| - 1]) + (s[|s| - 1] as int - '0' as int)
  }

  /** A number is printed in digits that denote it, without a leading zero. */
  lemma {:induction false} DecimalDenotes(n: nat)
    ensures Number(Decimal(n)) == n
    ensures forall i | 0 <= i < |Decimal(n)| :: '0' <= Decimal(n)[i] <= '9'
    ensures n > 0 ==> Decimal(n)[0] != '0'
  {
    if n < 10 {
      assert Decimal(n)[..0] == "";
    } else {
      DecimalDenotes(n / 10);
      assert Decimal(n)[..|Decimal(n)| - 1] == Decimal(n / 10);
    }
  }

  lemma DecimalIsInjective(a: nat, b: nat)
    requires Decimal(a) == Decimal(b)
    ensures a == b
  {
    DecimalDenotes(a);
    DecimalDenotes(b);
  }

  /** The candidates in the order in which they are tried: base, base-2, base-3, ... */
  function Candidate(base: string, k: nat): string {
    if k == 0 then base else base + "-" + Decimal(k + 1)
  }

  /** The first candidate is the base, and the others count up from 2. */
  lemma CandidateCounts(base: string, k: nat)
    ensures k == 0 ==> Candidate(base, k) == base
    ensures k > 0 ==> |Candidate(base, k)| > |base| + 1 && Candidate(base, k)[..|base| + 1] == base + "-"
    ensures k > 0 ==> Number(Candidate(base, k)[|base| + 1..]) == k + 1
  {
    if k > 0 {
      DecimalDenotes(k + 1);
      assert Candidate(base, k)[|base| + 1..] == Decimal(k + 1);
    }
  }

  lemma CandidatesAreDistinct(base: string, i: nat, j: nat)
    requires Candidate(base, i) == Candidate(base, j)
    ensures i == j
  {
    if i > 0 && j > 0 {
      assert Decimal(i + 1) == Candidate(base, i)[|base| + 1..] && Decimal(j + 1) == Candidate(base, j)[|base| + 1..];
      DecimalIsInjective(i + 1, j + 1);
    } else {
      assert i > 0 ==> |Candidate(base, i)| > |base|;
      assert j > 0 ==> |Candidate(base, j)| > |base|;
    }
  }

  /** The slugs of the events, by event id; the column is unique. */
  predicate IsTaken(slugs: map<Id, string>, slug: string) {
    exists e | e in slugs :: slugs[e] == slug
  }

  predicate IsOwn(slugs: map<Id, string>, excludeId: Option<Id>, slug: string) {
    excludeId.Some? && excludeId.value in slugs && slugs[excludeId.value] == slug
  }

  /** Pigeonhole: k distinct taken candidates need k events. */
  lemma TakenCandidatesAreFew(slugs: map<Id, string>, base: string, k: nat)
    requires forall i: nat | i < k :: IsTaken(slugs, Candidate(base, i))
    ensures k <= |slugs|
  {
    if k > 0 {
      assert IsTaken(slugs, Candidate(base, k - 1));
      var e :| e in slugs && slugs[e] == Candidate(base, k - 1);
      var rest := slugs - {e};
      forall i: nat | i < k - 1 ensures IsTaken(rest, Candidate(base, i)) {
        assert IsTaken(slugs, Candidate(base, i));
        var d :| d in slugs && slugs[d] == Candidate(base, i);
        if d == e { CandidatesAreDistinct(base, i, k - 1); }
        assert d in rest && rest[d] == Candidate(base, i);
      }
      TakenCandidatesAreFew(rest, base, k - 1);
      assert rest.Keys == slugs.Keys - {e};
    }
  }

  lemma FreeOrOwn(slugs: map<Id, string>, excludeId: Option<Id>, slug: string)
    ensures IsTaken(slugs, slug) <==> slug in slugs.Values
    ensures IsOwn(slugs, excludeId, slug) <==>
            excludeId.Some? && excludeId.value in slugs && slugs[excludeId.value] == slug
  {
  }

  /** The loop stops within (number of events + 1) iterations, at the first candidate that is free or is
      already the excluded event's own. `base` is the slugified seed. */
  method UniqueSlug(base: string, slugs: map<Id, string>, excludeId: Option<Id>) returns (slug: string, iterations: nat)
    ensures 1 <= iterations <= |slugs| + 1 && slug == Candidate(base, iterations - 1)
    ensures slug in slugs.Values ==>
              excludeId.Some? && excludeId.value in slugs && slugs[excludeId.value] == slug
    ensures forall i: nat | i < iterations - 1 ::
              IsTaken(slugs, Candidate(base, i)) && !IsOwn(slugs, excludeId, Candidate(base, i))
  {
    hide Decimal, IsTaken, IsOwn;
    var candidate := base;
    var n := 2;
    iterations := 0;
    while true
      invariant n == iterations + 2 && candidate == Candidate(base, iterations) && iterations <= |slugs|
      invariant forall i: nat | i < iterations ::
                  IsTaken(slugs, Candidate(base, i)) && !IsOwn(slugs, excludeId, Candidate(base, i))
      decreases |slugs| + 1 - iterations
    {
      iterations := iterations + 1;
      var taken := IsTaken(slugs, candidate);
      FreeOrOwn(slugs, excludeId, candidate);
      if !taken { return candidate, iterations; }
      if IsOwn(slugs, excludeId, candidate) { return candidate, iterations; }
      TakenCandidatesAreFew(slugs, base, iterations);
      candidate := base + "-" + Decimal(n);
      n := n + 1;
    }
  }
}
