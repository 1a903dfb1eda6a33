/** getUniqueIdentifier and getUniqueNestedIdentifier
    (src/NodeGroupsHelper.ts:186-199): keep incrementing an identifier's
    trailing number until it names nothing already taken. The loops stop
    because successive candidates are pairwise distinct, so each step uses up
    one more taken name. */
module Identifiers {
  import opened Rete
  import opened Utils

  /** The k-th identifier the loops try: `x` incremented k times. */
  function Candidate(x: string, k: nat): string
  {
    if k == 0 then x else IncrementStringNumber(Candidate(x, k - 1))
  }

  /** The number the first increment produces. */
  function FirstNumber(x: string): nat
  {
    match MatchedNumber(x)
    case Some(n) => n + 1
    case None => 2
  }

  lemma BaseShape(x: string)
    ensures NoLineTerminator(MatchedBase(x))
    ensures MatchedBase(x) == [] || !IsDigit(MatchedBase(x)[|MatchedBase(x)| - 1])
  {
    LineStartSpec(x);
    DigitRunStartSpec(x);
    LineStartBeforeDigitRun(x);
    var j, d := LineStart(x), DigitRunStart(x);
    assert MatchedBase(x) == x[j..][..d - j];
  }

  /** The first increment is the base followed by the first number. */
  lemma FirstIncrement(x: string)
    ensures IncrementStringNumber(x) == MatchedBase(x) + Decimal(FirstNumber(x))
  {
    assert Decimal(2) == "2";
  }

  /** Incrementing the base followed by a number increments the number. */
  lemma IncrementBaseNumber(x: string, m: nat)
    ensures IncrementStringNumber(MatchedBase(x) + Decimal(m)) == MatchedBase(x) + Decimal(m + 1)
  {
    BaseShape(x);
    ParseDecimalOfDecimal(m);
    IncrementTrailingNumber(MatchedBase(x), Decimal(m));
  }

  /** From the first increment on, a candidate is the base of `x` followed by
      successive numbers ("out" gives "out2", "out3", ...). */
  lemma {:induction false} CandidateClosed(x: string, k: nat)
    requires k > 0
    ensures Candidate(x, k) == MatchedBase(x) + Decimal(FirstNumber(x) + k - 1)
  {
    if k == 1 {
      FirstIncrement(x);
    } else {
      CandidateClosed(x, k - 1);
      IncrementBaseNumber(x, FirstNumber(x) + k - 2);
    }
  }

  /** No increment gives back the identifier the loops started from. */
  lemma CandidateNotOriginal(x: string, k: nat)
    requires k > 0
    ensures Candidate(x, k) != x
  {
    var c := Candidate(x, k);
    var m := FirstNumber(x) + k - 1;
    CandidateClosed(x, k);
    IncrementNoLineTerminator(Candidate(x, k - 1));
    LineStartSpec(x);
    DigitRunStartSpec(x);
    LineStartBeforeDigitRun(x);
    var j, d := LineStart(x), DigitRunStart(x);
    var base := MatchedBase(x);
    if j > 0 {
      assert IsLineTerminator(x[j - 1]);
    } else if d == |x| {
      assert |c| > |x|;
    } else {
      var digits := x[d..];
      assert x == base + digits;
      ParseDecimalOfDecimal(m);
      assert digits != Decimal(m);
      assert c[|base|..] == Decimal(m);
    }
  }

  /** No candidate is tried twice. */
  lemma CandidatesDistinct(x: string, i: nat, k: nat)
    requires i < k
    ensures Candidate(x, i) != Candidate(x, k)
  {
    if i == 0 {
      CandidateNotOriginal(x, k);
    } else {
      CandidateClosed(x, i);
      CandidateClosed(x, k);
      DecimalInjective(FirstNumber(x) + i - 1, FirstNumber(x) + k - 1);
      var base := MatchedBase(x);
      assert Candidate(x, k)[|base|..] == Decimal(FirstNumber(x) + k - 1);
      assert Candidate(x, i)[|base|..] == Decimal(FirstNumber(x) + i - 1);
    }
  }

  /** The values f(0), ..., f(k-1). */
  ghost function Image<T>(f: nat -> T, k: nat): set<T>
  {
    if k == 0 then {} else Image(f, k - 1) + {f(k - 1)}
  }

  lemma {:induction false} ImageHas<T>(f: nat -> T, i: nat, k: nat)
    requires i < k
    ensures f(i) in Image(f, k)
  {
    if i < k - 1 {
      ImageHas(f, i, k - 1);
    }
  }

  lemma {:induction false} ImageMisses<T>(f: nat -> T, n: nat, v: T)
    requires forall i :: 0 <= i < n ==> f(i) != v
    ensures v !in Image(f, n)
  {
    if n > 0 {
      ImageMisses(f, n - 1, v);
    }
  }

  lemma {:induction false} ImageSize<T>(f: nat -> T, k: nat)
    requires forall i, j :: 0 <= i < j < k ==> f(i) != f(j)
    ensures |Image(f, k)| == k
  {
    if k > 0 {
      ImageSize(f, k - 1);
      ImageMisses(f, k - 1, f(k - 1));
    }
  }

  /** The sequence of candidates for `x`. */
  function CandidatesOf(x: string): nat -> string
  {
    (k: nat) => Candidate(x, k)
  }

  /** The candidates tried before the k-th. */
  ghost function Seen(x: string, k: nat): set<string>
  {
    Image(CandidatesOf(x), k)
  }

  lemma SeenHas(x: string, i: nat, k: nat)
    requires i < k
    ensures Candidate(x, i) in Seen(x, k)
  {
    ImageHas(CandidatesOf(x), i, k);
  }

  /** A later candidate has not been seen yet. */
  lemma NotSeenYet(x: string, n: nat, k: nat)
    requires n <= k
    ensures Candidate(x, k) !in Seen(x, n)
  {
    forall i | 0 <= i < n ensures CandidatesOf(x)(i) != Candidate(x, k) {
      CandidatesDistinct(x, i, k);
    }
    ImageMisses(CandidatesOf(x), n, Candidate(x, k));
  }

  lemma SeenSize(x: string, k: nat)
    ensures |Seen(x, k)| == k
  {
    forall i, j | 0 <= i < j < k ensures CandidatesOf(x)(i) != CandidatesOf(x)(j) {
      CandidatesDistinct(x, i, j);
    }
    ImageSize(CandidatesOf(x), k);
  }

  /** Each taken candidate uses up one more taken name. */
  lemma SeenGrows(taken: set<string>, x: string, k: nat)
    requires Candidate(x, k) in taken
    ensures |taken - Seen(x, k + 1)| < |taken - Seen(x, k)|
  {
    var c := Candidate(x, k);
    NotSeenYet(x, k, k);
    assert Seen(x, k + 1) == Seen(x, k) + {c};
    assert taken - Seen(x, k) == (taken - Seen(x, k + 1)) + {c};
  }

  /** How many increments the search takes from the k-th candidate on, when
      all earlier ones are taken: the index of the first candidate not taken. */
  function FirstFreeIndex(taken: set<string>, x: string, k: nat): (n: nat)
    requires Seen(x, k) <= taken
    ensures k <= n && Seen(x, n) <= taken && Candidate(x, n) !in taken
    decreases |taken - Seen(x, k)|
  {
    if Candidate(x, k) !in taken then k
    else
      SeenGrows(taken, x, k);
      FirstFreeIndex(taken, x, k + 1)
  }

  /** How many increments the loops perform. */
  function UniqueIndex(taken: set<string>, x: string): (n: nat)
    ensures Seen(x, n) <= taken && Candidate(x, n) !in taken
  {
    FirstFreeIndex(taken, x, 0)
  }

  /** The identifier the loops return. */
  function UniqueKey(taken: set<string>, x: string): (r: string)
    ensures r !in taken
    ensures x !in taken ==> r == x
  {
    Candidate(x, UniqueIndex(taken, x))
  }

  /** The result is the first candidate not taken: every earlier candidate
      is taken, and any candidate not taken comes no earlier. */
  lemma UniqueKeyIsFirst(taken: set<string>, x: string, m: nat)
    requires Candidate(x, m) !in taken
    ensures UniqueIndex(taken, x) <= m
    ensures forall i :: 0 <= i < UniqueIndex(taken, x) ==> Candidate(x, i) in taken
  {
    var n := UniqueIndex(taken, x);
    forall i | 0 <= i < n ensures Candidate(x, i) in taken {
      SeenHas(x, i, n);
    }
  }

  /** The loops stop after at most as many increments as there are taken
      names. */
  lemma UniqueIndexBound(taken: set<string>, x: string)
    ensures UniqueIndex(taken, x) <= |taken|
  {
    var n := UniqueIndex(taken, x);
    SeenSize(x, n);
    assert |taken| == |taken - Seen(x, n)| + |Seen(x, n)| by {
      assert taken == (taken - Seen(x, n)) + Seen(x, n);
    }
  }

  /** getUniqueIdentifier: a key is taken when the record holds a value
      under it. */
  method GetUniqueIdentifier<V>(list: Record<V>, identifier: string) returns (r: string)
    ensures r == UniqueKey(KeySet(list), identifier)
  {
    ghost var taken := KeySet(list);
    r := identifier;
    ghost var k := 0;
    while Lookup(list, r).Some?
      invariant r == Candidate(identifier, k) && Seen(identifier, k) <= taken
      invariant FirstFreeIndex(taken, identifier, k) == UniqueIndex(taken, identifier)
      decreases |taken - Seen(identifier, k)|
    {
      SeenGrows(taken, identifier, k);
      r := IncrementStringNumber(r);
      k := k + 1;
    }
  }

  /** The values of `property` over the elements of `list`. */
  function Projected<T(==, !new)>(list: seq<T>, property: T -> string): set<string>
  {
    set e | e in list :: property(e)
  }

  /** `list.find(e => e[property] === value)`: the first element whose
      `property` is `value`. */
  function FindByProperty<T(==, !new)>(list: seq<T>, property: T -> string, value: string): (r: Option<T>)
    ensures r.Some? ==> r.value in list && property(r.value) == value
    ensures r.None? <==> value !in Projected(list, property)
  {
    if list == [] then None
    else if property(list[0]) == value then Some(list[0])
    else
      var r := FindByProperty(list[1..], property, value);
      assert Projected(list, property) == {property(list[0])} + Projected(list[1..], property) by {
        assert forall e :: e in list <==> e == list[0] || e in list[1..];
      }
      r
  }

  /** getUniqueNestedIdentifier: a name is taken when some element of the
      list has it as the value of `property`. */
  method GetUniqueNestedIdentifier<T(==, !new)>(list: seq<T>, property: T -> string, identifier: string)
    returns (r: string)
    ensures r == UniqueKey(Projected(list, property), identifier)
  {
    ghost var taken := Projected(list, property);
    r := identifier;
    ghost var k := 0;
    while FindByProperty(list, property, r).Some?
      invariant r == Candidate(identifier, k) && Seen(identifier, k) <= taken
      invariant FirstFreeIndex(taken, identifier, k) == UniqueIndex(taken, identifier)
      decreases |taken - Seen(identifier, k)|
    {
      SeenGrows(taken, identifier, k);
      r := IncrementStringNumber(r);
      k := k + 1;
    }
  }
}
