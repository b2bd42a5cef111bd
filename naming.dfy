/**
 * Collision-free destination naming (`move_files`, lines 139-145): when the
 * file's own name is taken in the bucket, try `base_1.ext`, `base_2.ext`, ...
 * built each time from the original base and extension, and take the first
 * name that is free.
 */
module Naming {
  import opened Wrappers
  import opened FileSystem
  import opened Classification

  /** The index of the last dot in `s`, if any. */
  function LastDot(s: string): (r: Option<nat>)
    ensures r.Some? ==> r.value < |s| && s[r.value] == '.' && '.' !in s[r.value + 1..]
    ensures r.None? ==> '.' !in s
  {
    if s == [] then None
    else if s[|s| - 1] == '.' then Some(|s| - 1)
    else
      var r := LastDot(s[..|s| - 1]);
      assert r.Some? ==> s[r.value + 1..] == s[..|s| - 1][r.value + 1..] + [s[|s| - 1]];
      r
  }

  predicate AllDots(s: string)
  {
    forall i :: 0 <= i < |s| ==> s[i] == '.'
  }

  /**
   * `os.path.splitext` on a bare file name: the extension runs from the last
   * dot, unless only dots come before that dot (a leading-dot name such as
   * `.yft` has no extension).
   */
  function SplitExt(name: string): (r: (string, string))
    ensures r.0 + r.1 == name
    ensures r.1 != [] ==> r.1[0] == '.' && '.' !in r.1[1..] && !AllDots(r.0)
    ensures r.1 == [] ==> forall k :: 0 <= k < |name| && name[k] == '.' ==> AllDots(name[..k])
  {
    match LastDot(name)
    case None => (name, [])
    case Some(k) =>
      if AllDots(name[..k]) then
        assert forall j :: k < j < |name| ==> name[j] != '.' by {
          forall j | k < j < |name| ensures name[j] != '.' {
            assert name[j] == name[k + 1..][j - k - 1];
          }
        }
        (name, [])
      else
        assert name[k..][1..] == name[k + 1..];
        (name[..k], name[k..])
  }

  function DigitChar(d: nat): char
    requires d < 10
  {
    ('0' as int + d) as char
  }

  predicate IsDigits(s: string)
  {
    forall i :: 0 <= i < |s| ==> '0' <= s[i] <= '9'
  }

  /** `str(n)` for a natural number. */
  function Decimal(n: nat): (s: string)
    ensures |s| >= 1 && IsDigits(s)
    ensures s[0] == '0' ==> n == 0
  {
    if n < 10 then [DigitChar(n)] else Decimal(n / 10) + [DigitChar(n % 10)]
  }

  /** The value of a string of decimal digits: the inverse of `Decimal`. */
  function ParseDecimal(s: string): nat
    requires IsDigits(s)
  {
    if s == [] then 0 else 10 * ParseDecimal(s[..|s| - 1]) + (s[|s| - 1] as int - '0' as int)
  }

  lemma {:induction false} DecimalRoundTrip(n: nat)
    ensures ParseDecimal(Decimal(n)) == n
  {
    if n >= 10 {
      var s := Decimal(n);
      assert s[..|s| - 1] == Decimal(n / 10);
      DecimalRoundTrip(n / 10);
    }
  }

  /** The `k`-th alternative name, `f"{base}_{k}{ext}"` (line 143). */
  function Candidate(base: string, ext: string, k: nat): string
  {
    base + "_" + Decimal(k) + ext
  }

  /** Different counters give different names. */
  lemma CandidateInjective(base: string, ext: string, j: nat, k: nat)
    requires Candidate(base, ext, j) == Candidate(base, ext, k)
    ensures j == k
  {
    var c := Candidate(base, ext, j);
    var dj, dk := Decimal(j), Decimal(k);
    assert |dj| == |dk|;
    assert c[|base| + 1..|c| - |ext|] == dj;
    assert Candidate(base, ext, k)[|base| + 1..|c| - |ext|] == dk;
    DecimalRoundTrip(j);
    DecimalRoundTrip(k);
  }

  /** The names `Candidate(base, ext, 1)` to `Candidate(base, ext, k)`. */
  function CandidateSet(base: string, ext: string, k: nat): (s: set<string>)
    ensures forall j :: 1 <= j <= k ==> Candidate(base, ext, j) in s
    ensures forall x :: x in s ==> exists j :: 1 <= j <= k && x == Candidate(base, ext, j)
  {
    if k == 0 then {} else CandidateSet(base, ext, k - 1) + {Candidate(base, ext, k)}
  }

  lemma {:induction false} CandidateSetSize(base: string, ext: string, k: nat)
    ensures |CandidateSet(base, ext, k)| == k
  {
    if k > 0 {
      CandidateSetSize(base, ext, k - 1);
      if Candidate(base, ext, k) in CandidateSet(base, ext, k - 1) {
        var j :| 1 <= j <= k - 1 && Candidate(base, ext, k) == Candidate(base, ext, j);
        CandidateInjective(base, ext, j, k);
      }
    }
  }

  /** A finite directory cannot hold more alternative names than it has entries. */
  lemma CandidatesFit(d: Dir, base: string, ext: string, k: nat)
    requires forall j :: 1 <= j <= k ==> Candidate(base, ext, j) in d
    ensures k <= |d|
  {
    var s := CandidateSet(base, ext, k);
    CandidateSetSize(base, ext, k);
    assert s <= d.Keys;
    SubsetSize(s, d.Keys);
  }

  lemma {:induction false} SubsetSize<T>(a: set<T>, b: set<T>)
    requires a <= b
    ensures |a| <= |b|
    decreases |a|
  {
    if a != {} {
      var x :| x in a;
      SubsetSize(a - {x}, b - {x});
    }
  }

  /**
   * The smallest counter `r >= k` whose alternative name is free, given that
   * every counter below `k` is taken.
   */
  function FirstFreeFrom(d: Dir, base: string, ext: string, k: nat): (r: nat)
    requires 1 <= k
    requires forall j :: 1 <= j < k ==> Candidate(base, ext, j) in d
    ensures k <= r
    ensures Candidate(base, ext, r) !in d
    ensures forall j :: 1 <= j < r ==> Candidate(base, ext, j) in d
    decreases |d| + 1 - k
  {
    CandidatesFit(d, base, ext, k - 1);
    if Candidate(base, ext, k) !in d then k
    else
      CandidatesFit(d, base, ext, k);
      FirstFreeFrom(d, base, ext, k + 1)
  }

  /** The destination name the mover uses for `file` in bucket `d`. */
  function ChosenName(d: Dir, file: string): (name: string)
    ensures name !in d
    ensures file !in d ==> name == file
    ensures file in d ==> exists k :: k >= 1 && name == Candidate(SplitExt(file).0, SplitExt(file).1, k) &&
                                      forall j :: 1 <= j < k ==> Candidate(SplitExt(file).0, SplitExt(file).1, j) in d
  {
    if file !in d then file
    else
      var (base, ext) := SplitExt(file);
      Candidate(base, ext, FirstFreeFrom(d, base, ext, 1))
  }

  /**
   * The naming loop of lines 139-145. It never returns a taken name, keeps the
   * original when it is free, and otherwise returns the alternative name with
   * the smallest counter that is free.
   */
  method FreeName(d: Dir, file: string) returns (name: string)
    ensures name !in d
    ensures file !in d ==> name == file
    ensures file in d ==> exists k :: k >= 1 && name == Candidate(SplitExt(file).0, SplitExt(file).1, k) &&
                                      forall j :: 1 <= j < k ==> Candidate(SplitExt(file).0, SplitExt(file).1, j) in d
    ensures name == ChosenName(d, file)
  {
    name := file;
    if name in d {
      var (base, ext) := SplitExt(file);
      var counter := 1;
      while name in d
        invariant 1 <= counter
        invariant counter == 1 ==> name == file
        invariant counter > 1 ==> name == Candidate(base, ext, counter - 1)
        invariant forall j :: 1 <= j < counter - 1 ==> Candidate(base, ext, j) in d
        decreases |d| + 2 - counter
      {
        CandidatesFit(d, base, ext, counter - 1);
        name := Candidate(base, ext, counter);
        counter := counter + 1;
      }
      assert FirstFreeFrom(d, base, ext, 1) == counter - 1;
    }
  }

  /** `Extension` of a concatenation around a dot is the part after the dot. */
  lemma {:induction false} LastSegmentAfterDot(x: string, y: string)
    requires '.' !in y
    ensures LastSegment(x + ['.'] + y) == y
  {
    var s := x + ['.'] + y;
    if y != [] {
      var y' := y[..|y| - 1];
      assert s[..|s| - 1] == x + ['.'] + y';
      LastSegmentAfterDot(x, y');
      assert y == y' + [y[|y| - 1]];
    }
  }

  lemma LowerConcat(a: string, b: string)
    ensures Lower(a + b) == Lower(a) + Lower(b)
  {
    LowerAt(a);
    LowerAt(b);
    LowerAt(a + b);
  }

  /** The extension of a name with a dot-free tail after a dot is that tail, lower-cased. */
  lemma ExtensionAfterDot(x: string, seg: string)
    requires '.' !in seg
    ensures Extension(x + ['.'] + seg) == Lower(seg)
  {
    LowerConcat(x + ['.'], seg);
    LowerConcat(x, ['.']);
    assert Lower(['.']) == ['.'];
    assert '.' !in Lower(seg);
    LastSegmentAfterDot(Lower(x), Lower(seg));
  }

  /** An alternative name for a file with an extension keeps that extension. */
  lemma CandidateKeepsExtension(file: string, k: nat)
    requires SplitExt(file).1 != []
    ensures Extension(Candidate(SplitExt(file).0, SplitExt(file).1, k)) == Extension(file)
  {
    var (base, ext) := SplitExt(file);
    var seg := ext[1..];
    assert ext == ['.'] + seg;
    assert file == base + ['.'] + seg;
    assert Candidate(base, ext, k) == (base + "_" + Decimal(k)) + ['.'] + seg;
    ExtensionAfterDot(base, seg);
    ExtensionAfterDot(base + "_" + Decimal(k), seg);
  }

  /** An alternative name for a file without an extension ends in a digit. */
  lemma CandidateEndsInDigit(file: string, k: nat)
    requires SplitExt(file).1 == []
    ensures Extension(Candidate(SplitExt(file).0, SplitExt(file).1, k)) != ContainerExtension
  {
    var (base, ext) := SplitExt(file);
    var c := Candidate(base, ext, k);
    var digits := Decimal(k);
    assert c == base + "_" + digits;
    assert c[|c| - 1] == digits[|digits| - 1];
    var s := Lower(c);
    assert '0' <= s[|s| - 1] <= '9';
    var r := LastSegment(s);
    assert r[|r| - 1] == s[|s| - 1];
  }

  /**
   * An alternative name never has the container extension unless the
   * original did.
   */
  lemma CandidateExtension(file: string, k: nat)
    requires Extension(file) != ContainerExtension
    ensures Extension(Candidate(SplitExt(file).0, SplitExt(file).1, k)) != ContainerExtension
  {
    if SplitExt(file).1 != [] {
      CandidateKeepsExtension(file, k);
    } else {
      CandidateEndsInDigit(file, k);
    }
  }
}
