/** Names that are not taken yet. */
module FreshNames {
  const DIGITS := "0123456789"

  function Decimal(n: nat): (s: string)
    ensures |s| > 0
  {
    if n < 10 then [DIGITS[n]] else Decimal(n / 10) + [DIGITS[n % 10]]
  }

  /** The number a decimal numeral stands for. */
  function NumberOf(s: string): nat {
    if s == [] then 0 else 10 * NumberOf(s[..|s| - 1]) + DigitOf(s[|s| - 1])
  }

  function DigitOf(c: char): nat {
    if '0' <= c <= '9' then c as int - '0' as int else 0
  }

  lemma {:induction false} DecimalRoundTrip(n: nat)
    ensures NumberOf(Decimal(n)) == n
  {
    assert forall d: nat :: d < 10 ==> DigitOf(DIGITS[d]) == d;
    if n >= 10 {
      DecimalRoundTrip(n / 10);
      assert Decimal(n)[..|Decimal(n)| - 1] == Decimal(n / 10);
    } else {
      assert Decimal(n)[..0] == [];
    }
  }

  /** The names tried after `base` itself: base_2, base_3, ... */
  function Candidate(base: string, i: nat): string {
    base + "_" + Decimal(i)
  }

  lemma {:induction false} CandidatesDiffer(base: string, i: nat, j: nat)
    requires i != j
    ensures Candidate(base, i) != Candidate(base, j)
  {
    if Candidate(base, i) == Candidate(base, j) {
      assert Decimal(i) == Candidate(base, i)[|base| + 1..];
      assert Decimal(j) == Candidate(base, j)[|base| + 1..];
      DecimalRoundTrip(i);
      DecimalRoundTrip(j);
    }
  }

  ghost predicate AllTaken(base: string, taken: set<string>, i: nat) {
    forall k: nat :: 2 <= k < i ==> Candidate(base, k) in taken
  }

  /** Only so many candidates can be taken. */
  lemma {:induction false} TakenBound(base: string, taken: set<string>, i: nat)
    requires i >= 2 && AllTaken(base, taken, i)
    ensures i - 2 <= |taken|
    decreases i
  {
    if i > 2 {
      var last := Candidate(base, i - 1);
      forall k: nat | 2 <= k < i - 1 ensures Candidate(base, k) in taken - {last} {
        CandidatesDiffer(base, k, i - 1);
      }
      TakenBound(base, taken - {last}, i - 1);
    }
  }

  /** The first free candidate from `i` on. */
  ghost function FreshFrom(base: string, taken: set<string>, i: nat): (name: string)
    requires i >= 2 && AllTaken(base, taken, i)
    ensures name !in taken
    decreases |taken| + 2 - i
  {
    TakenBound(base, taken, i);
    if Candidate(base, i) !in taken then Candidate(base, i)
    else
      TakenBound(base, taken, i + 1);
      FreshFrom(base, taken, i + 1)
  }

  ghost function Fresh(base: string, taken: set<string>): (name: string)
    ensures name !in taken
  {
    if base !in taken then base else FreshFrom(base, taken, 2)
  }

  /** `name` is the lowest free candidate. */
  ghost predicate Lowest(base: string, taken: set<string>, name: string) {
    name !in taken && exists k: nat :: k >= 2 && name == Candidate(base, k) && AllTaken(base, taken, k)
  }

  lemma {:induction false} FreshFromIsLowest(base: string, taken: set<string>, i: nat)
    requires i >= 2 && AllTaken(base, taken, i)
    ensures Lowest(base, taken, FreshFrom(base, taken, i))
    decreases |taken| + 2 - i
  {
    TakenBound(base, taken, i);
    if Candidate(base, i) in taken {
      TakenBound(base, taken, i + 1);
      FreshFromIsLowest(base, taken, i + 1);
    }
  }

  /** A fresh name is the base if that is free, and otherwise the lowest free candidate, of which there is one. */
  lemma {:induction false} FreshExactly(base: string, taken: set<string>, name: string)
    ensures name == Fresh(base, taken) <==> if base in taken then Lowest(base, taken, name) else name == base
  {
    if base in taken {
      FreshFromIsLowest(base, taken, 2);
      if Lowest(base, taken, name) {
        LowestIsUnique(base, taken, name, Fresh(base, taken));
      }
    }
  }

  lemma {:induction false} LowestIsUnique(base: string, taken: set<string>, a: string, b: string)
    requires Lowest(base, taken, a) && Lowest(base, taken, b)
    ensures a == b
  {
    var j: nat :| j >= 2 && a == Candidate(base, j) && AllTaken(base, taken, j);
    var k: nat :| k >= 2 && b == Candidate(base, k) && AllTaken(base, taken, k);
    hide Candidate;
    assert !(j < k) && !(k < j);
  }

  /** The search ends, and ends on a name that is not taken: the base if it is free, else the lowest free number. */
  method FreshName(base: string, taken: set<string>) returns (name: string)
    ensures name == Fresh(base, taken) && name !in taken
    ensures base !in taken ==> name == base
    ensures base in taken ==> exists i: nat :: i >= 2 && name == Candidate(base, i) && AllTaken(base, taken, i)
  {
    if base !in taken {
      return base;
    }
    var i := 2;
    while Candidate(base, i) in taken
      invariant i >= 2 && AllTaken(base, taken, i)
      invariant FreshFrom(base, taken, 2) == FreshFrom(base, taken, i)
      decreases |taken| + 2 - i
    {
      TakenBound(base, taken, i + 1);
      i := i + 1;
    }
    return Candidate(base, i);
  }
}
