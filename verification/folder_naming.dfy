/**
  * The folder namer (`unique_folder_name`): every job gets its own directory
  * under the jobs root, named after the uploaded file's stem. When that name
  * is taken, the namer probes `stem_2`, `stem_3`, ... and settles on the first
  * free one. The jobs root is abstracted as the set of names under it that
  * already exist.
  */
module FolderNaming {
  import opened Text

  /** The n-th name probed: `base` itself first, then `base_2`, `base_3`, ... */
  function Candidate(base: string, n: nat): (name: string)
    requires n >= 1
    ensures |name| >= |base| && name[..|base|] == base
    ensures n == 1 <==> |name| == |base|
  {
    if n == 1 then base else base + "_" + Decimal(n)
  }

  /** Distinct probe indices give distinct names, so the probing never revisits a name. */
  lemma CandidateInjective(base: string, j: nat, k: nat)
    requires j >= 1 && k >= 1 && Candidate(base, j) == Candidate(base, k)
    ensures j == k
  {
    if j >= 2 && k >= 2 {
      assert Candidate(base, j)[|base| + 1..] == Decimal(j);
      assert Candidate(base, k)[|base| + 1..] == Decimal(k);
      DecimalInjective(j, k);
    }
  }

  /** The name `base_1` is never produced: the second probe is `base_2`. */
  lemma NeverSuffixOne(base: string, n: nat)
    requires n >= 1
    ensures Candidate(base, n) != base + "_1"
  {
    if n >= 2 && Candidate(base, n) == base + "_1" {
      assert Candidate(base, n)[|base| + 1..] == Decimal(n);
      assert (base + "_1")[|base| + 1..] == "1" == Decimal(1);
      DecimalInjective(n, 1);
    }
  }

  /** The names the first m probes look at. */
  function Probed(base: string, m: nat): (s: set<string>)
    ensures forall k :: 1 <= k <= m ==> Candidate(base, k) in s
    decreases m
  {
    if m == 0 then {} else Probed(base, m - 1) + {Candidate(base, m)}
  }

  lemma {:induction false} NotProbedYet(base: string, m: nat, n: nat)
    requires n > m
    ensures Candidate(base, n) !in Probed(base, m)
    decreases m
  {
    if m > 0 {
      NotProbedYet(base, m - 1, n);
      if Candidate(base, n) == Candidate(base, m) {
        CandidateInjective(base, n, m);
      }
    }
  }

  lemma {:induction false} ProbedSize(base: string, m: nat)
    ensures |Probed(base, m)| == m
    decreases m
  {
    if m > 0 {
      ProbedSize(base, m - 1);
      NotProbedYet(base, m - 1, m);
    }
  }

  /** If the first m probes all hit existing names, there are at least m existing names. */
  lemma ProbedBound(taken: set<string>, base: string, m: nat)
    requires forall k :: 1 <= k <= m ==> Candidate(base, k) in taken
    ensures m <= |taken|
  {
    var p := Probed(base, m);
    ProbedSize(base, m);
    assert p <= taken by {
      forall x | x in p ensures x in taken {
        ProbedMember(base, m, x);
      }
    }
    assert taken == p + (taken - p);
  }

  lemma {:induction false} ProbedMember(base: string, m: nat, x: string)
    requires x in Probed(base, m)
    ensures exists k :: 1 <= k <= m && x == Candidate(base, k)
    decreases m
  {
    if x != Candidate(base, m) {
      ProbedMember(base, m - 1, x);
    }
  }

  /** n is where the probing stops: its candidate is free and every earlier one is taken. */
  ghost predicate IsFirstFree(taken: set<string>, base: string, n: nat) {
    n >= 1 && Candidate(base, n) !in taken &&
    forall k :: 1 <= k < n ==> Candidate(base, k) in taken
  }

  lemma {:induction false} FreeFrom(taken: set<string>, base: string, n: nat)
    requires n >= 1
    requires forall k :: 1 <= k < n ==> Candidate(base, k) in taken
    ensures exists m :: IsFirstFree(taken, base, m)
    decreases |taken| - n
  {
    if Candidate(base, n) in taken {
      ProbedBound(taken, base, n);
      FreeFrom(taken, base, n + 1);
    } else {
      assert IsFirstFree(taken, base, n);
    }
  }

  /** At most one index is the first free one. */
  lemma FirstFreeUnique(taken: set<string>, base: string, n: nat, m: nat)
    requires IsFirstFree(taken, base, n) && IsFirstFree(taken, base, m)
    ensures n == m
  {
  }

  /** The probe index the namer settles on for `base`, given the existing names. */
  ghost function FreeIndex(taken: set<string>, base: string): (n: nat)
    ensures IsFirstFree(taken, base, n)
  {
    FreeFrom(taken, base, 1);
    var n :| IsFirstFree(taken, base, n);
    n
  }

  /** The probing ends within one more step than there are existing names. */
  lemma FreeIndexBound(taken: set<string>, base: string)
    ensures 1 <= FreeIndex(taken, base) <= |taken| + 1
  {
    ProbedBound(taken, base, FreeIndex(taken, base) - 1);
  }

  /**
    * After the chosen name is created, the next upload with the same stem probes
    * further: the indices handed out for one stem strictly increase.
    */
  lemma NextUploadProbesFurther(taken: set<string>, base: string)
    ensures FreeIndex(taken + {Candidate(base, FreeIndex(taken, base))}, base) > FreeIndex(taken, base)
  {
    var n := FreeIndex(taken, base);
    var taken' := taken + {Candidate(base, n)};
    var m := FreeIndex(taken', base);
  }

  /** `unique_folder_name(base)`: the first of `base`, `base_2`, `base_3`, ... not among `taken`. */
  method UniqueFolderName(taken: set<string>, base: string) returns (target: string)
    ensures target !in taken
    ensures target == Candidate(base, FreeIndex(taken, base))
  {
    target := base;
    var n := 1;
    while target in taken
      invariant n >= 1 && target == Candidate(base, n)
      invariant forall k :: 1 <= k < n ==> Candidate(base, k) in taken
      decreases |taken| - n
    {
      ProbedBound(taken, base, n);
      n := n + 1;
      target := base + "_" + Decimal(n);
    }
    FirstFreeUnique(taken, base, n, FreeIndex(taken, base));
  }
}
