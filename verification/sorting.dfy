/** `SortFunction` and the `std::sort` call: the three orderings of the
    product list, shown to be strict weak orderings, and a sort proved to
    produce an ordered permutation. */
module Sorting {
  import opened Store
  import opened Entry

  /** The global `sort` once the arguments are parsed: 1 by name, 2 by
      publisher, 3 by size. */
  type SortMode = m: int | 1 <= m <= 3 witness 1

  const BY_NAME: SortMode := 1
  const BY_PUBLISHER: SortMode := 2
  const BY_SIZE: SortMode := 3

  /** ASCII case folding. */
  function Lower(c: char): char
  {
    if 'A' <= c <= 'Z' then (c as int + 32) as char else c
  }

  function Fold(s: string): string
  {
    seq(|s|, i requires 0 <= i < |s| => Lower(s[i]))
  }

  /** Lexicographic "less than" by code unit; a proper prefix comes first. */
  predicate LexLess(a: string, b: string)
  {
    if a == [] then b != []
    else if b == [] then false
    else a[0] < b[0] || (a[0] == b[0] && LexLess(a[1..], b[1..]))
  }

  /** lstrcmpi(a, b) < 0 */
  predicate LessIgnoringCase(a: string, b: string)
  {
    LexLess(Fold(a), Fold(b))
  }

  /** SortFunction(x, y) under the given mode: it never holds between two
      entries of the same rank. */
  predicate Less(mode: SortMode, x: ProductEntry, y: ProductEntry): (r: bool)
    ensures r ==> RankOf(mode, x) != RankOf(mode, y)
  {
    LexLessIrreflexive(Fold(x.name));
    LexLessIrreflexive(Fold(x.publisher));
    match mode
    case 1 => LessIgnoringCase(x.name, y.name)
    case 2 => LessIgnoringCase(x.publisher, y.publisher)
    case 3 => x.size > y.size
  }

  /** No later entry is strictly less than an earlier one. */
  predicate Sorted(mode: SortMode, s: seq<ProductEntry>)
  {
    forall i, j :: 0 <= i < j < |s| ==> !Less(mode, s[j], s[i])
  }

  /** What a mode compares entries by. */
  datatype Rank = Text(t: string) | Bytes(n: int)

  /** The rank of an entry under a mode: its folded name, its folded
      publisher, or its size. */
  function RankOf(mode: SortMode, x: ProductEntry): Rank
  {
    match mode
    case 1 => Text(Fold(x.name))
    case 2 => Text(Fold(x.publisher))
    case 3 => Bytes(x.size)
  }

  // ---------------------------------------------------------------------
  // LexLess is a strict total order

  lemma {:induction false} LexLessIrreflexive(a: string)
    ensures !LexLess(a, a)
  {
    if a != [] {
      LexLessIrreflexive(a[1..]);
    }
  }

  lemma {:induction false} LexLessTransitive(a: string, b: string, c: string)
    ensures LexLess(a, b) && LexLess(b, c) ==> LexLess(a, c)
  {
    if a != [] && b != [] && c != [] && a[0] == b[0] == c[0] {
      LexLessTransitive(a[1..], b[1..], c[1..]);
    }
  }

  lemma {:induction false} LexLessTotal(a: string, b: string)
    ensures a == b || LexLess(a, b) || LexLess(b, a)
  {
    if a != [] && b != [] && a[0] == b[0] {
      LexLessTotal(a[1..], b[1..]);
      if a[1..] == b[1..] {
        assert a == [a[0]] + a[1..] && b == [b[0]] + b[1..];
      }
    }
  }

  // ---------------------------------------------------------------------
  // SortFunction is a strict weak ordering, as std::sort requires

  lemma LessIrreflexive(mode: SortMode, x: ProductEntry)
    ensures !Less(mode, x, x)
  {
    LexLessIrreflexive(Fold(x.name));
    LexLessIrreflexive(Fold(x.publisher));
  }

  lemma LessTransitive(mode: SortMode, x: ProductEntry, y: ProductEntry, z: ProductEntry)
    ensures Less(mode, x, y) && Less(mode, y, z) ==> Less(mode, x, z)
  {
    LexLessTransitive(Fold(x.name), Fold(y.name), Fold(z.name));
    LexLessTransitive(Fold(x.publisher), Fold(y.publisher), Fold(z.publisher));
  }

  /** Two entries neither of which is less than the other are exactly those
      of the same rank (the same folded name, the same folded publisher, the
      same size), so "equivalent" is an equivalence relation. */
  lemma EquivalentIffSameRank(mode: SortMode, x: ProductEntry, y: ProductEntry)
    ensures !Less(mode, x, y) && !Less(mode, y, x) <==> RankOf(mode, x) == RankOf(mode, y)
  {
    LexLessTotal(Fold(x.name), Fold(y.name));
    LexLessTotal(Fold(x.publisher), Fold(y.publisher));
    LexLessIrreflexive(Fold(x.name));
    LexLessIrreflexive(Fold(x.publisher));
  }

  /** Strings that differ only in the case of ASCII letters compare alike
      against any third string. */
  lemma CaseIsIgnored(a: string, a': string, b: string)
    requires |a| == |a'| && forall i :: 0 <= i < |a| ==> Lower(a[i]) == Lower(a'[i])
    ensures LessIgnoringCase(a, b) == LessIgnoringCase(a', b)
    ensures LessIgnoringCase(b, a) == LessIgnoringCase(b, a')
  {
    assert Fold(a) == Fold(a');
  }

  /** "apple" comes before "Banana" ignoring case, although 'B' comes before
      'a' as a code unit. */
  lemma AppleBeforeBanana()
    ensures LessIgnoringCase("apple", "Banana")
    ensures LexLess("Banana", "apple")
  {
    assert Fold("Banana")[0] == 'b';
    assert Fold("apple")[0] == 'a';
  }

  /** Sorted by size means largest first. */
  lemma SortedBySize(s: seq<ProductEntry>)
    ensures Sorted(BY_SIZE, s) <==> forall i, j :: 0 <= i < j < |s| ==> s[i].size >= s[j].size
  {
  }

  // ---------------------------------------------------------------------
  // The sort

  /** Putting `x` just before the first element it is less than keeps a
      sorted sequence sorted. */
  lemma InsertSorted(mode: SortMode, r: seq<ProductEntry>, k: nat, x: ProductEntry)
    requires Sorted(mode, r) && k <= |r|
    requires forall j :: 0 <= j < k ==> !Less(mode, x, r[j])
    requires k < |r| ==> Less(mode, x, r[k])
    ensures Sorted(mode, r[..k] + [x] + r[k..])
  {
    var t := r[..k] + [x] + r[k..];
    forall i, j | 0 <= i < j < |t|
      ensures !Less(mode, t[j], t[i])
    {
      if i == k {
        LessTransitive(mode, t[j], x, r[k]);
        LessIrreflexive(mode, r[k]);
      }
    }
  }

  /** The insertion point for `x` in a sorted sequence: after every element
      `x` is not less than, before the first one it is less than. */
  method UpperBound(mode: SortMode, r: seq<ProductEntry>, x: ProductEntry) returns (k: nat)
    ensures k <= |r|
    ensures forall j :: 0 <= j < k ==> !Less(mode, x, r[j])
    ensures k < |r| ==> Less(mode, x, r[k])
  {
    k := 0;
    while k < |r| && !Less(mode, x, r[k])
      invariant k <= |r|
      invariant forall j :: 0 <= j < k ==> !Less(mode, x, r[j])
    {
      k := k + 1;
    }
  }

  /** In a sorted input no element is less than an earlier one, so each is
      inserted at the end of the sorted prefix. */
  lemma InsertAtEnd(mode: SortMode, s: seq<ProductEntry>, i: nat, k: nat)
    requires i < |s| && Sorted(mode, s) && k <= i
    requires k < i ==> Less(mode, s[i], s[k])
    ensures k == i
  {
    assert forall j :: 0 <= j < i ==> !Less(mode, s[i], s[j]);
  }

  /** One step of the insertion sort keeps its three invariants. */
  lemma InsertStep(mode: SortMode, s: seq<ProductEntry>, i: nat, r: seq<ProductEntry>, k: nat)
    requires i < |s| && Sorted(mode, r) && multiset(r) == multiset(s[..i])
    requires Sorted(mode, s) ==> r == s[..i]
    requires k <= |r|
    requires forall j :: 0 <= j < k ==> !Less(mode, s[i], r[j])
    requires k < |r| ==> Less(mode, s[i], r[k])
    ensures Sorted(mode, r[..k] + [s[i]] + r[k..])
    ensures multiset(r[..k] + [s[i]] + r[k..]) == multiset(s[..i + 1])
    ensures Sorted(mode, s) ==> r[..k] + [s[i]] + r[k..] == s[..i + 1]
  {
    InsertSorted(mode, r, k, s[i]);
    assert r == r[..k] + r[k..];
    assert s[..i + 1] == s[..i] + [s[i]];
    if Sorted(mode, s) {
      assert |r| == i;
      InsertAtEnd(mode, s, i, k);
      assert r[..k] == r;
    }
  }

  /** std::sort(products.begin(), products.end(), SortFunction): an
      insertion sort that yields an ordered permutation of its input and
      leaves an already ordered input as it is. */
  method SortEntries(s: seq<ProductEntry>, mode: SortMode) returns (r: seq<ProductEntry>)
    ensures Sorted(mode, r)
    ensures multiset(r) == multiset(s)
    ensures Sorted(mode, s) ==> r == s
  {
    r := [];
    var i := 0;
    while i < |s|
      invariant i <= |s|
      invariant Sorted(mode, r)
      invariant multiset(r) == multiset(s[..i])
      invariant Sorted(mode, s) ==> r == s[..i]
    {
      var k := UpperBound(mode, r, s[i]);
      InsertStep(mode, s, i, r, k);
      r := r[..k] + [s[i]] + r[k..];
      i := i + 1;
    }
    assert s[..i] == s;
  }
}
