/**
 * The two sort.Slice calls of main: `dirs` by lower-cased name, ascending,
 * and `files` by size, largest first. sort.Slice is not stable, so the
 * model promises a sorted permutation and nothing about the order of ties.
 */
module Ordering {
  import opened GoStrings
  import opened Entries

  /**
   * What sort.Slice asks of its less function: a strict weak order
   * (asymmetric, and "not less" is transitive).
   */
  ghost predicate StrictWeakOrder<T(!new)>(less: (T, T) -> bool) {
    && (forall x, y :: less(x, y) ==> !less(y, x))
    && (forall x, y, z :: !less(y, x) && !less(z, y) ==> !less(z, x))
  }

  /** The order sort.Slice leaves behind: no element is less than one before it. */
  ghost predicate SortedBy<T>(s: seq<T>, less: (T, T) -> bool) {
    forall i, j :: 0 <= i < j < |s| ==> !less(s[j], s[i])
  }

  /** sort.Slice(a, less), done here by insertion sort on the array in place. */
  method SortSlice<T(!new)>(a: array<T>, less: (T, T) -> bool)
    requires StrictWeakOrder(less)
    modifies a
    ensures SortedBy(a[..], less)
    ensures multiset(a[..]) == old(multiset(a[..]))
  {
    for i := 0 to a.Length
      invariant SortedBy(a[..i], less)
      invariant multiset(a[..]) == old(multiset(a[..]))
    {
      var j := i;
      while j > 0 && less(a[j], a[j - 1])
        invariant 0 <= j <= i
        invariant forall p, q :: 0 <= p < q <= i && p != j && q != j ==> !less(a[q], a[p])
        invariant forall q :: j < q <= i ==> !less(a[q], a[j])
        invariant multiset(a[..]) == old(multiset(a[..]))
      {
        a[j - 1], a[j] := a[j], a[j - 1];
        j := j - 1;
      }
    }
    assert a[..a.Length] == a[..];
  }

  /** The comparator of sortEntries: strings.ToLower(x.name) < strings.ToLower(y.name). */
  function DirLess(x: Entry, y: Entry): bool {
    Less(ToLower(x.name), ToLower(y.name))
  }

  /** The comparator of the files sort: files[i].size > files[j].size. */
  function FileLess(x: Entry, y: Entry): bool {
    x.size > y.size
  }

  lemma DirLessIsStrictWeakOrder()
    ensures StrictWeakOrder(DirLess)
  {
    forall x, y | DirLess(x, y) ensures !DirLess(y, x) {
      LessAsymmetric(ToLower(x.name), ToLower(y.name));
    }
    forall x, y, z | !DirLess(y, x) && !DirLess(z, y) ensures !DirLess(z, x) {
      var kx, ky, kz := ToLower(x.name), ToLower(y.name), ToLower(z.name);
      LessTrichotomy(kx, ky);
      LessTrichotomy(ky, kz);
      if Less(kx, ky) && Less(ky, kz) {
        LessTransitive(kx, ky, kz);
      }
      LessAsymmetric(kx, kz);
      LessIrreflexive(kx);
    }
  }

  lemma FileLessIsStrictWeakOrder()
    ensures StrictWeakOrder(FileLess)
  {
  }

  /** Sorted directories have non-decreasing lower-cased names. */
  lemma SortedDirsAscend(s: seq<Entry>)
    requires SortedBy(s, DirLess)
    ensures forall i, j :: 0 <= i < j < |s| ==> LessEq(ToLower(s[i].name), ToLower(s[j].name))
  {
    forall i, j | 0 <= i < j < |s| ensures LessEq(ToLower(s[i].name), ToLower(s[j].name)) {
      LessTrichotomy(ToLower(s[i].name), ToLower(s[j].name));
    }
  }

  /** Sorted files have non-increasing sizes. */
  lemma SortedFilesDescend(s: seq<Entry>)
    requires SortedBy(s, FileLess)
    ensures forall i, j :: 0 <= i < j < |s| ==> s[i].size >= s[j].size
  {
  }
}
