/**
  * Text helpers that the render service leans on, each following the Python
  * behaviour it stands for: `str()` of an integer, ASCII lower-casing,
  * `str.endswith`, `str.rfind`, pathlib's `name`, `stem` and `/`, and the
  * code-point ordering that `sorted()` applies to file names.
  */
module Text {

  datatype Option<T> = None | Some(value: T)

  // ---------------------------------------------------------------------------
  // Decimal numerals: Python's str() of an int
  // ---------------------------------------------------------------------------

  predicate IsDigit(c: char) {
    '0' <= c <= '9'
  }

  predicate AllDigits(s: string) {
    forall i :: 0 <= i < |s| ==> IsDigit(s[i])
  }

  function DigitValue(c: char): (d: nat)
    requires IsDigit(c)
    ensures d < 10
  {
    c as int - '0' as int
  }

  function DigitChar(d: nat): (c: char)
    requires d < 10
    ensures IsDigit(c) && DigitValue(c) == d
  {
    (d + '0' as int) as char
  }

  /** A canonical numeral: digits only, at least one, no leading zero unless it is "0". */
  predicate IsNumeral(s: string) {
    |s| >= 1 && AllDigits(s) && (s[0] == '0' ==> |s| == 1)
  }

  /** The decimal numeral of `n`, as Python's `str(n)` writes it. */
  function Decimal(n: nat): (s: string)
    ensures IsNumeral(s)
    ensures s[0] == '0' <==> n == 0
    decreases n
  {
    if n < 10 then [DigitChar(n)] else Decimal(n / 10) + [DigitChar(n % 10)]
  }

  /** The value a string of digits denotes. */
  function DecimalValue(s: string): nat
    requires AllDigits(s)
    decreases |s|
  {
    if s == [] then 0 else 10 * DecimalValue(s[..|s| - 1]) + DigitValue(s[|s| - 1])
  }

  /** Reading back a numeral gives the number written. */
  lemma {:induction false} DecimalRoundTrip(n: nat)
    ensures DecimalValue(Decimal(n)) == n
    decreases n
  {
    if n >= 10 {
      var s := Decimal(n);
      assert s[..|s| - 1] == Decimal(n / 10);
      DecimalRoundTrip(n / 10);
    }
  }

  /** Different numbers have different numerals. */
  lemma DecimalInjective(m: nat, n: nat)
    requires Decimal(m) == Decimal(n)
    ensures m == n
  {
    DecimalRoundTrip(m);
    DecimalRoundTrip(n);
  }

  /** Python's `str(i)` (and `f"{i}"`) for any integer: a minus sign before negatives. */
  function IntString(i: int): (s: string)
    ensures |s| >= 1
    ensures (s[0] == '-') == (i < 0)
  {
    if i < 0 then "-" + Decimal(-i) else Decimal(i)
  }

  /** Reads an optionally signed decimal numeral. */
  function ParseInt(s: string): (r: Option<int>)
    ensures r.Some? ==> |s| >= 1
  {
    if |s| >= 2 && s[0] == '-' && AllDigits(s[1..]) then Some(0 - DecimalValue(s[1..]))
    else if |s| >= 1 && AllDigits(s) then Some(DecimalValue(s))
    else None
  }

  lemma IntStringRoundTrip(i: int)
    ensures ParseInt(IntString(i)) == Some(i)
  {
    var s := IntString(i);
    if i < 0 {
      assert s[1..] == Decimal(-i);
      DecimalRoundTrip(-i);
    } else {
      assert !IsDigit('-');
      DecimalRoundTrip(i);
    }
  }

  // ---------------------------------------------------------------------------
  // Case and suffixes
  // ---------------------------------------------------------------------------

  function LowerChar(c: char): (l: char)
    ensures !('A' <= l <= 'Z')
    ensures ('a' <= l <= 'z') <==> ('a' <= c <= 'z' || 'A' <= c <= 'Z')
  {
    if 'A' <= c <= 'Z' then (c as int + 32) as char else c
  }

  /** `str.lower()` on the ASCII letters; every other character is kept. */
  function Lower(s: string): (r: string)
    ensures |r| == |s|
    ensures forall i :: 0 <= i < |s| ==> r[i] == LowerChar(s[i])
    decreases |s|
  {
    if s == [] then [] else [LowerChar(s[0])] + Lower(s[1..])
  }

  predicate EndsWith(s: string, suffix: string) {
    |suffix| <= |s| && s[|s| - |suffix|..] == suffix
  }

  /** `str.rfind` for one character: the last index holding `c`, or -1 when none does. */
  function LastIndexOf(s: string, c: char): (i: int)
    ensures -1 <= i < |s|
    ensures i >= 0 ==> s[i] == c
    ensures forall k :: i < k < |s| ==> s[k] != c
    decreases |s|
  {
    if s == [] then -1
    else if s[|s| - 1] == c then |s| - 1
    else LastIndexOf(s[..|s| - 1], c)
  }

  // ---------------------------------------------------------------------------
  // Paths (POSIX, no normalisation of "." or repeated separators)
  // ---------------------------------------------------------------------------

  /** `PurePosixPath(path).name` for a path that does not end in '/': the part after the last '/'. */
  function FinalComponent(path: string): (name: string)
    ensures '/' !in name
    ensures EndsWith(path, name)
    ensures |name| < |path| ==> path[|path| - |name| - 1] == '/'
  {
    var i := LastIndexOf(path, '/');
    var name := path[i + 1..];
    assert forall j :: 0 <= j < |name| ==> name[j] != '/' by {
      forall j | 0 <= j < |name| ensures name[j] != '/' {
        assert name[j] == path[i + 1 + j];
      }
    }
    name
  }

  /** A path whose last k characters hold no '/' has a final component at least k long, ending in them. */
  lemma FinalComponentSuffix(path: string, k: nat)
    requires k <= |path|
    requires forall j :: |path| - k <= j < |path| ==> path[j] != '/'
    ensures |FinalComponent(path)| >= k
    ensures FinalComponent(path)[|FinalComponent(path)| - k..] == path[|path| - k..]
  {
    var name := FinalComponent(path);
    assert path[|path| - |name|..] == name;
  }

  /** A path without '/' is its own final component. */
  lemma FinalComponentOfName(path: string)
    requires '/' !in path
    ensures FinalComponent(path) == path
  {
    assert LastIndexOf(path, '/') == -1;
  }

  /** The last position holding `c` is the one after which `c` does not occur. */
  lemma {:induction false} LastIndexAt(s: string, c: char, i: nat)
    requires i < |s| && s[i] == c
    requires forall k :: i < k < |s| ==> s[k] != c
    ensures LastIndexOf(s, c) == i
    decreases |s|
  {
    if i < |s| - 1 {
      var t := s[..|s| - 1];
      assert t[i] == c;
      LastIndexAt(t, c, i);
    }
  }

  /**
    * `PurePosixPath(path).stem`: the final component without its suffix, where the
    * suffix starts at the last '.' unless that dot is the first or the last character.
    */
  function Stem(path: string): (stem: string)
    requires |path| > 0 && path[|path| - 1] != '/'
    ensures 0 < |stem| <= |FinalComponent(path)|
    ensures stem == FinalComponent(path)[..|stem|]
    ensures '/' !in stem
  {
    var name := FinalComponent(path);
    var i := LastIndexOf(name, '.');
    if 0 < i < |name| - 1 then name[..i] else name
  }

  /** `Path(base) / name`: an absolute name replaces the base, a relative one is appended. */
  function JoinPath(dir: string, name: string): string {
    if |name| > 0 && name[0] == '/' then name else dir + "/" + name
  }

  // ---------------------------------------------------------------------------
  // Code-point order and sorted listings
  // ---------------------------------------------------------------------------

  /** Python's `<` on str: lexicographic by code point, a proper prefix first. */
  predicate Less(a: string, b: string)
    decreases |a|
  {
    |b| > 0 && (|a| == 0 || a[0] < b[0] || (a[0] == b[0] && Less(a[1..], b[1..])))
  }

  lemma {:induction false} LessIrreflexive(a: string)
    ensures !Less(a, a)
    decreases |a|
  {
    if |a| > 0 {
      LessIrreflexive(a[1..]);
    }
  }

  lemma {:induction false} LessTransitive(a: string, b: string, c: string)
    requires Less(a, b) && Less(b, c)
    ensures Less(a, c)
    decreases |a|
  {
    if |a| > 0 && a[0] == b[0] && b[0] == c[0] {
      LessTransitive(a[1..], b[1..], c[1..]);
    }
  }

  lemma {:induction false} LessTotal(a: string, b: string)
    requires a != b
    ensures Less(a, b) || Less(b, a)
    decreases |a|
  {
    if |a| > 0 && |b| > 0 && a[0] == b[0] {
      assert a == [a[0]] + a[1..] && b == [b[0]] + b[1..];
      LessTotal(a[1..], b[1..]);
    }
  }

  lemma LessAsymmetric(a: string, b: string)
    requires Less(a, b)
    ensures !Less(b, a)
  {
    if Less(b, a) {
      LessTransitive(a, b, a);
      LessIrreflexive(a);
    }
  }

  /** Strictly increasing in code-point order, hence also free of repeats. */
  predicate Increasing(r: seq<string>) {
    forall i, j :: 0 <= i < j < |r| ==> Less(r[i], r[j])
  }

  predicate IsLeast(m: string, s: set<string>) {
    m in s && forall x :: x in s && x != m ==> Less(m, x)
  }

  /** Every non-empty finite set of names has a least one. */
  lemma {:induction false} LeastExists(s: set<string>)
    requires s != {}
    ensures exists m :: IsLeast(m, s)
    decreases |s|
  {
    var x :| x in s;
    if s != {x} {
      var rest := s - {x};
      LeastExists(rest);
      var m :| IsLeast(m, rest);
      if Less(x, m) {
        forall y | y in s && y != x
          ensures Less(x, y)
        {
          if y != m {
            LessTransitive(x, m, y);
          }
        }
        assert IsLeast(x, s);
      } else {
        LessTotal(x, m);
        assert IsLeast(m, s);
      }
    } else {
      assert IsLeast(x, s);
    }
  }

  lemma LeastUnique(m1: string, m2: string, s: set<string>)
    requires IsLeast(m1, s) && IsLeast(m2, s)
    ensures m1 == m2
  {
    if m1 != m2 {
      LessAsymmetric(m1, m2);
    }
  }

  /** `sorted()` of a set of names: the names in increasing code-point order. */
  function SortedNames(s: set<string>): (r: seq<string>)
    ensures Increasing(r)
    ensures |r| == |s|
    ensures forall x :: x in r <==> x in s
    decreases |s|
  {
    if s == {} then []
    else
      LeastExists(s);
      forall m1, m2 | IsLeast(m1, s) && IsLeast(m2, s) ensures m1 == m2 {
        LeastUnique(m1, m2, s);
      }
      var m :| IsLeast(m, s);
      var rest := SortedNames(s - {m});
      assert forall j :: 0 <= j < |rest| ==> rest[j] in s - {m} by {
        forall j | 0 <= j < |rest| ensures rest[j] in s - {m} {
          assert rest[j] in rest;
        }
      }
      [m] + rest
  }

  /** An increasing sequence is determined by its elements: `sorted()` has one answer. */
  lemma {:induction false} IncreasingUnique(r1: seq<string>, r2: seq<string>)
    requires Increasing(r1) && Increasing(r2)
    requires forall x :: x in r1 <==> x in r2
    ensures r1 == r2
    decreases |r1|
  {
    if r1 != [] {
      assert r1[0] in r2;
    }
    if r2 != [] {
      assert r2[0] in r1;
    }
    if r1 != [] && r2 != [] {
      var j :| 0 <= j < |r1| && r1[j] == r2[0];
      var k :| 0 <= k < |r2| && r2[k] == r1[0];
      if j != 0 {
        assert Less(r1[0], r1[j]);
        if k == 0 {
          LessIrreflexive(r1[0]);
        } else {
          assert Less(r2[0], r2[k]);
          LessAsymmetric(r1[0], r2[0]);
        }
        assert false;
      }
      forall x
        ensures x in r1[1..] <==> x in r2[1..]
      {
        if x in r1[1..] {
          var a :| 1 <= a < |r1| && r1[a] == x;
          assert Less(r1[0], x);
          LessIrreflexive(x);
          assert x in r2;
          var b :| 0 <= b < |r2| && r2[b] == x;
          assert b != 0;
          assert r2[1..][b - 1] == x;
        }
        if x in r2[1..] {
          var b :| 1 <= b < |r2| && r2[b] == x;
          assert Less(r2[0], x);
          LessIrreflexive(x);
          assert x in r1;
          var a :| 0 <= a < |r1| && r1[a] == x;
          assert a != 0;
          assert r1[1..][a - 1] == x;
        }
      }
      IncreasingUnique(r1[1..], r2[1..]);
      assert r1 == [r1[0]] + r1[1..] && r2 == [r2[0]] + r2[1..];
    }
  }
}
