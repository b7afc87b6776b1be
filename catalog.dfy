/** The scheme catalog, the comparator the estimate table is sorted with, the
    in-place sort, and the signature count shown for each scheme. */
module Catalog {
  import opened Common
  import opened SortKey

  /** One hash-based signature parameter set of the catalog. */
  datatype Scheme = Scheme(
    friendlyName: string,
    w: int,          // Winternitz parameter, in bits
    h: nat,          // tree height: the scheme offers 2^h one-time signatures
    sigSize: int,    // signature size in bytes
    sigWork: int,    // hash calls per signature
    keygenWork: int  // hash calls per key generation
  )

  /** Go's `<` on strings, as lexicographic order on characters. Go compares
      bytes; for valid UTF-8, whose encoding preserves the order of code
      points, the two orders agree. */
  predicate NameLess(a: string, b: string): (r: bool)
    ensures |a| < |b| && a == b[..|a|] ==> r
    ensures forall k | 0 <= k < |a| && k < |b| && a[k] != b[k] && (forall i | 0 <= i < k :: a[i] == b[i]) :: r == (a[k] < b[k])
  {
    if |a| == 0 then |b| > 0
    else if |b| == 0 then false
    else if a[0] != b[0] then a[0] < b[0]
    else NameLess(a[1..], b[1..])
  }

  lemma {:induction false} NameLessIrreflexive(a: string)
    ensures !NameLess(a, a)
  {
    if |a| > 0 {
      NameLessIrreflexive(a[1..]);
    }
  }

  lemma {:induction false} NameLessTransitive(a: string, b: string, c: string)
    requires NameLess(a, b) && NameLess(b, c)
    ensures NameLess(a, c)
  {
    if |a| > 0 && |b| > 0 && |c| > 0 && a[0] == b[0] && b[0] == c[0] {
      NameLessTransitive(a[1..], b[1..], c[1..]);
    }
  }

  lemma {:induction false} NameLessTotal(a: string, b: string)
    requires a != b
    ensures NameLess(a, b) || NameLess(b, a)
  {
    if |a| > 0 && |b| > 0 && a[0] == b[0] {
      assert a == [a[0]] + a[1..] && b == [b[0]] + b[1..];
      NameLessTotal(a[1..], b[1..]);
    }
  }

  /** Of two names, at most one sorts before the other. */
  lemma NameLessAsymmetric(a: string, b: string)
    ensures NameLess(a, b) ==> !NameLess(b, a)
  {
    if NameLess(a, b) && NameLess(b, a) {
      NameLessTransitive(a, b, a);
      NameLessIrreflexive(a);
    }
  }

  /** The comparator handed to `sort.Slice`. Under ByName the tie-break
      compares a row's W with itself, so two rows with equal names are never
      ordered either way. */
  predicate Less(ordering: Ordering, x: Scheme, y: Scheme): (r: bool)
    ensures r ==> InOrder(ordering, x, y) && !InOrder(ordering, y, x)
  {
    match ordering
    case ByName =>
      if x.friendlyName == y.friendlyName then x.w < x.w
      else
        NameLessAsymmetric(x.friendlyName, y.friendlyName);
        NameLess(x.friendlyName, y.friendlyName)
    case BySigSize => x.sigSize < y.sigSize
    case BySigWork => x.sigWork < y.sigWork
    case ByKeygenWork => x.keygenWork < y.keygenWork
  }

  /** The order the report promises: non-decreasing in the selected key. */
  predicate InOrder(ordering: Ordering, x: Scheme, y: Scheme)
  {
    match ordering
    case ByName => x.friendlyName == y.friendlyName || NameLess(x.friendlyName, y.friendlyName)
    case BySigSize => x.sigSize <= y.sigSize
    case BySigWork => x.sigWork <= y.sigWork
    case ByKeygenWork => x.keygenWork <= y.keygenWork
  }

  /** Every adjacent (indeed every) pair of rows is in order. */
  predicate Sorted(ordering: Ordering, s: seq<Scheme>)
  {
    forall i, j | 0 <= i < j < |s| :: InOrder(ordering, s[i], s[j])
  }

  /** The comparator is irreflexive, and rows with the same name are unordered. */
  lemma LessIrreflexive(ordering: Ordering, x: Scheme, y: Scheme)
    ensures !Less(ordering, x, x)
    ensures ordering == ByName && x.friendlyName == y.friendlyName ==> !Less(ordering, x, y) && !Less(ordering, y, x)
  {
  }

  /** The comparator is transitive. */
  lemma LessTransitive(ordering: Ordering, x: Scheme, y: Scheme, z: Scheme)
    requires Less(ordering, x, y) && Less(ordering, y, z)
    ensures Less(ordering, x, z)
  {
    if ordering == ByName {
      NameLessTransitive(x.friendlyName, y.friendlyName, z.friendlyName);
      if x.friendlyName == z.friendlyName {
        NameLessIrreflexive(x.friendlyName);
        NameLessTransitive(x.friendlyName, y.friendlyName, x.friendlyName);
      }
    }
  }

  /** "y does not sort before x" is exactly the promised order of x before y. */
  lemma NotLessIsInOrder(ordering: Ordering, x: Scheme, y: Scheme)
    ensures !Less(ordering, y, x) <==> InOrder(ordering, x, y)
  {
    if ordering == ByName && x.friendlyName != y.friendlyName {
      NameLessTotal(x.friendlyName, y.friendlyName);
      if NameLess(x.friendlyName, y.friendlyName) && NameLess(y.friendlyName, x.friendlyName) {
        NameLessTransitive(x.friendlyName, y.friendlyName, x.friendlyName);
        NameLessIrreflexive(x.friendlyName);
      }
    }
  }

  /** The index of a row in `a[from..]` that no other row there sorts before. */
  method LeastFrom(ordering: Ordering, a: array<Scheme>, from: nat) returns (m: nat)
    requires from < a.Length
    ensures from <= m < a.Length
    ensures forall q | from <= q < a.Length :: !Less(ordering, a[q], a[m])
  {
    m := from;
    var k := from + 1;
    while k < a.Length
      invariant from <= m < k <= a.Length
      invariant forall q | from <= q < k :: !Less(ordering, a[q], a[m])
    {
      if Less(ordering, a[k], a[m]) {
        forall q | from <= q < k
          ensures !Less(ordering, a[q], a[k])
        {
          if Less(ordering, a[q], a[k]) {
            LessTransitive(ordering, a[q], a[k], a[m]);
          }
        }
        LessIrreflexive(ordering, a[k], a[k]);
        m := k;
      }
      k := k + 1;
    }
  }

  /** Exchanges two rows of the catalog. */
  method Swap(a: array<Scheme>, i: nat, j: nat)
    requires i < a.Length && j < a.Length
    modifies a
    ensures a[i] == old(a[j]) && a[j] == old(a[i])
    ensures forall k | 0 <= k < a.Length && k != i && k != j :: a[k] == old(a[k])
    ensures multiset(a[..]) == multiset(old(a[..]))
  {
    a[i], a[j] := a[j], a[i];
  }

  /** Sorts the catalog in place with the comparator: afterwards the rows are
      in the selected order and are a permutation of the rows before. */
  method SortCatalog(a: array<Scheme>, ordering: Ordering)
    modifies a
    ensures Sorted(ordering, a[..])
    ensures multiset(a[..]) == multiset(old(a[..]))
  {
    var i := 0;
    while i < a.Length
      invariant 0 <= i <= a.Length
      invariant forall p, q | 0 <= p < q < i :: InOrder(ordering, a[p], a[q])
      invariant forall p, q | 0 <= p < i <= q < a.Length :: InOrder(ordering, a[p], a[q])
      invariant multiset(a[..]) == multiset(old(a[..]))
    {
      var m := LeastFrom(ordering, a, i);
      forall q | i <= q < a.Length
        ensures InOrder(ordering, a[m], a[q])
      {
        NotLessIsInOrder(ordering, a[m], a[q]);
      }
      Swap(a, i, m);
      i := i + 1;
    }
  }

  /** Two schemes whose keygen work differs can be sorted by keygen work in
      one way only: the cheaper one first. */
  lemma {:induction false} KeygenOrderOfTwo(s: seq<Scheme>, cheap: Scheme, dear: Scheme)
    requires cheap.keygenWork < dear.keygenWork
    requires multiset(s) == multiset([dear, cheap])
    requires Sorted(ByKeygenWork, s)
    ensures s == [cheap, dear]
  {
    assert |s| == |multiset(s)| == 2;
    assert s[0] in multiset(s) && s[1] in multiset(s);
    assert InOrder(ByKeygenWork, s[0], s[1]);
  }

  /** 2^k, unbounded. */
  function Pow2(k: nat): (r: nat)
    ensures r >= 1
  {
    if k == 0 then 1 else 2 * Pow2(k - 1)
  }

  const TwoTo63: int := 0x8000_0000_0000_0000
  const TwoTo64: int := 0x1_0000_0000_0000_0000

  /** Reduces an integer to Go's 64-bit two's-complement `int`. */
  function Wrap64(x: int): (r: int)
    ensures -TwoTo63 <= r < TwoTo63
    ensures (r - x) % TwoTo64 == 0
  {
    var m := x % TwoTo64;
    if m < TwoTo63 then m else m - TwoTo64
  }

  lemma {:induction false} Pow2Add(a: nat, b: nat)
    ensures Pow2(a + b) == Pow2(a) * Pow2(b)
  {
    if a > 0 {
      Pow2Add(a - 1, b);
    }
  }

  lemma {:induction false} Pow2Monotone(a: nat, b: nat)
    requires a <= b
    ensures Pow2(a) <= Pow2(b)
  {
    if a < b {
      Pow2Monotone(a, b - 1);
    }
  }

  lemma Pow2Of63And64()
    ensures Pow2(63) == TwoTo63 && Pow2(64) == TwoTo64
  {
    assert Pow2(4) == 0x10 && Pow2(3) == 0x8;
    Pow2Add(4, 4);
    Pow2Add(4, 3);
    assert Pow2(8) == 0x100 && Pow2(7) == 0x80;
    Pow2Add(8, 8);
    Pow2Add(8, 7);
    assert Pow2(16) == 0x1_0000 && Pow2(15) == 0x8000;
    Pow2Add(16, 16);
    Pow2Add(16, 15);
    assert Pow2(32) == 0x1_0000_0000 && Pow2(31) == 0x8000_0000;
    Pow2Add(32, 32);
    Pow2Add(32, 31);
  }

  /** The "Signatures" column: Go's `1 << alg.H` on a 64-bit `int`. */
  function NumSignatures(h: nat): (r: int)
    ensures -TwoTo63 <= r < TwoTo63
    ensures (r - Pow2(h)) % TwoTo64 == 0
  {
    Wrap64(Pow2(h))
  }

  /** The column shows the exact count 2^h while it fits a signed 64-bit
      int, the sign bit at h = 63, and 0 from h = 64 on. */
  lemma NumSignaturesValue(h: nat)
    ensures h <= 62 ==> NumSignatures(h) == Pow2(h) && NumSignatures(h) > 0
    ensures h == 63 ==> NumSignatures(h) == -TwoTo63
    ensures h >= 64 ==> NumSignatures(h) == 0
  {
    Pow2Of63And64();
    if h <= 62 {
      Pow2Monotone(h, 62);
      Pow2Add(62, 1);
      assert Pow2(h) < TwoTo63;
      assert Pow2(h) % TwoTo64 == Pow2(h);
    } else if h >= 64 {
      var k := Pow2(h - 64);
      Pow2Add(64, h - 64);
      assert Pow2(h) == TwoTo64 * k;
      MultipleMod(k);
    }
  }

  lemma MultipleMod(k: nat)
    ensures (TwoTo64 * k) % TwoTo64 == 0
  {
  }

  /** Each extra level of the tree doubles the count, as long as it fits. */
  lemma NumSignaturesDoubles(h: nat)
    requires h < 62
    ensures NumSignatures(h + 1) == 2 * NumSignatures(h)
  {
    NumSignaturesValue(h);
    NumSignaturesValue(h + 1);
  }

  /** One row of the estimate table, without its two durations. */
  datatype EstimateRow = EstimateRow(friendlyName: string, w: int, signatures: int, sigSize: int)

  function RowOf(alg: Scheme): (r: EstimateRow)
    ensures r.friendlyName == alg.friendlyName && r.w == alg.w && r.sigSize == alg.sigSize
    ensures alg.h <= 62 ==> r.signatures == Pow2(alg.h)
  {
    NumSignaturesValue(alg.h);
    EstimateRow(alg.friendlyName, alg.w, NumSignatures(alg.h), alg.sigSize)
  }

  /** Sorts the catalog in place, then lays out one row per scheme in the
      sorted order. */
  method PrintEstimates(algs: array<Scheme>, ordering: Ordering) returns (rows: seq<EstimateRow>)
    modifies algs
    ensures Sorted(ordering, algs[..])
    ensures multiset(algs[..]) == multiset(old(algs[..]))
    ensures |rows| == algs.Length
    ensures forall i | 0 <= i < algs.Length :: rows[i] == RowOf(algs[i])
  {
    SortCatalog(algs, ordering);
    rows := [];
    for i := 0 to algs.Length
      invariant |rows| == i
      invariant forall k | 0 <= k < i :: rows[k] == RowOf(algs[k])
    {
      rows := rows + [RowOf(algs[i])];
    }
  }
}
