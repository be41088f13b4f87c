/** What the list pages share: the status filter, the search box, the sort toggle and the
    numeric sorts. Orders that compare strings with `localeCompare` are not modelled. */
module ListPages {
  import opened Wrappers
  import Text
  import Seqs
  import Sorting

  /** The status filter's value that keeps every record. */
  const AllStatuses := "all"

  datatype SortDir = Asc | Desc

  /** The column the list is sorted by and the direction. */
  datatype SortState<K> = SortState(key: K, dir: SortDir)

  /** `toggleSort(key)`: the same column flips the direction, another column is taken in
      ascending order. */
  function ToggleSort<K(==)>(s: SortState<K>, k: K): (r: SortState<K>)
    ensures r.key == k
    ensures s.key == k ==> r.dir != s.dir
    ensures s.key != k ==> r.dir == Asc
  {
    if s.key == k then s.(dir := if s.dir == Asc then Desc else Asc) else SortState(k, Asc)
  }

  /** Clicking a column twice comes back to where it started when the column was already the
      sort column, and ends descending on it otherwise. */
  lemma ToggleTwice<K>(s: SortState<K>, k: K)
    ensures ToggleSort(ToggleSort(s, k), k) == if s.key == k then s else SortState(k, Desc)
  {
  }

  /** The status filter: `all` keeps everything, any other value only the exact matches, in
      their order. */
  function ByStatus<T(!new)>(s: seq<T>, statut: T -> string, filter: string): (r: seq<T>)
    ensures filter == AllStatuses ==> r == s
    ensures forall x :: x in r <==> x in s && (filter == AllStatuses || statut(x) == filter)
  {
    if filter == AllStatuses then s
    else
      var keep := (x: T) => statut(x) == filter;
      assert forall x :: x in Seqs.Filter(s, keep) <==> x in s && keep(x) by {
        forall x { Seqs.FilterMembers(s, keep, x); }
      }
      Seqs.Filter(s, keep)
  }

  /** `field.toLowerCase().includes(search.toLowerCase())`: the lowercased search text, spaces
      included, occurs in the lowercased field. */
  predicate Mentions(field: string, search: string) {
    Text.Contains(Text.Lower(field), Text.Lower(search))
  }

  /** The search box: a text that trims to nothing keeps everything; otherwise the records
      the page's test accepts are kept, in their order. */
  function BySearch<T(!new)>(s: seq<T>, search: string, matches: T -> bool): (r: seq<T>)
    ensures Text.Blank(search) ==> r == s
    ensures forall x :: x in r <==> x in s && (Text.Blank(search) || matches(x))
  {
    if Text.Blank(search) then s
    else
      assert forall x :: x in Seqs.Filter(s, matches) <==> x in s && matches(x) by {
        forall x { Seqs.FilterMembers(s, matches, x); }
      }
      Seqs.Filter(s, matches)
  }

  /** The search ignores the case of the search text. */
  lemma MentionsIgnoresCase(field: string, search: string)
    ensures Mentions(field, search) <==> Mentions(field, Text.Lower(search))
  {
    Text.LowerIdempotent(search);
  }

  /** `result.sort((a, b) => dir === 'asc' ? cmp : -cmp)` for a numeric `cmp = key(a) - key(b)`:
      the same records, ordered by the key in the chosen direction, records with equal keys in
      the order they came in. */
  function Arrange<T(!new)>(s: seq<T>, key: T -> real, dir: SortDir): (r: seq<T>)
    ensures multiset(r) == multiset(s)
    ensures forall x :: x in r <==> x in s
    ensures forall i, j :: 0 <= i < j < |r| ==> if dir == Asc then key(r[i]) <= key(r[j]) else key(r[i]) >= key(r[j])
    ensures Sorting.KeepsTies(r, s, key)
  {
    var r := if dir == Asc then Sorting.SortBy(s, key) else Sorting.SortDescBy(s, key);
    assert forall x :: x in r <==> x in s by {
      forall x ensures x in r <==> x in s {
        assert x in r <==> x in multiset(r);
        assert x in s <==> x in multiset(s);
      }
    }
    r
  }

  /** The date a list shows a record by: its latest stamp, a missing stamp read as the epoch. */
  function LatestStamp(stamps: seq<int>): (r: int)
    ensures forall i :: 0 <= i < |stamps| ==> stamps[i] <= r
    ensures |stamps| > 0 ==> r in stamps
    ensures |stamps| == 0 ==> r == 0
  {
    if |stamps| == 0 then 0
    else if |stamps| == 1 then stamps[0]
    else
      var rest := LatestStamp(stamps[1..]);
      assert forall i :: 1 <= i < |stamps| ==> stamps[i] == stamps[1..][i - 1];
      if stamps[0] >= rest then stamps[0] else rest
  }

  /** The date key of a record that carries a creation and a modification stamp: the later of
      the two, a missing stamp read as the epoch. */
  function TouchedKey(created: Option<int>, modified: Option<int>): (r: real)
    ensures created.GetOr(0) as real <= r && modified.GetOr(0) as real <= r
    ensures r == created.GetOr(0) as real || r == modified.GetOr(0) as real
  {
    LatestStamp([created.GetOr(0), modified.GetOr(0)]) as real
  }
}
