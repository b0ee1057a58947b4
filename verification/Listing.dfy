/** Directory listings: entries in strictly ascending name order. */
module Listing {

  /** What a directory listing says about one child: its inode and its size
      and kind at the time the listing was taken. */
  datatype Entry<N> = Entry(name: string, inode: N, isDir: bool, size: nat)

  /** Go's byte-wise string order. */
  predicate Less(a: string, b: string) {
    if b == "" then false
    else if a == "" then true
    else if a[0] != b[0] then a[0] < b[0]
    else Less(a[1..], b[1..])
  }

  lemma {:induction false} LessTotal(a: string, b: string)
    ensures Less(a, b) || a == b || Less(b, a)
    ensures !(Less(a, b) && Less(b, a))
    ensures a == b ==> !Less(a, b)
  {
    if a != "" && b != "" && a[0] == b[0] {
      LessTotal(a[1..], b[1..]);
      assert a == [a[0]] + a[1..] && b == [b[0]] + b[1..];
    }
  }

  lemma {:induction false} LessTransitive(a: string, b: string, c: string)
    requires Less(a, b) && Less(b, c)
    ensures Less(a, c)
  {
    if a != "" && a[0] == b[0] && b[0] == c[0] {
      LessTransitive(a[1..], b[1..], c[1..]);
    }
  }

  ghost predicate Sorted<N>(es: seq<Entry<N>>) {
    forall i, j :: 0 <= i < j < |es| ==> Less(es[i].name, es[j].name)
  }

  ghost function Elements<N>(es: seq<Entry<N>>): set<Entry<N>> {
    set e | e in es
  }

  ghost predicate DistinctNames<N>(s: set<Entry<N>>) {
    forall d, e :: d in s && e in s && d.name == e.name ==> d == e
  }

  /** Insertion before the first entry with a greater name. */
  function Insert<N>(es: seq<Entry<N>>, e: Entry<N>): (r: seq<Entry<N>>)
    ensures Elements(r) == Elements(es) + {e}
  {
    if es == [] then [e]
    else if Less(e.name, es[0].name) then [e] + es
    else
      var rest := Insert(es[1..], e);
      assert Elements(es) == {es[0]} + Elements(es[1..]);
      assert Elements([es[0]] + rest) == {es[0]} + Elements(rest);
      [es[0]] + rest
  }

  /** Sorting by name (sort.Slice). */
  function Sort<N>(es: seq<Entry<N>>): (r: seq<Entry<N>>)
    ensures Elements(r) == Elements(es)
  {
    if es == [] then []
    else
      assert Elements(es) == Elements(es[..|es| - 1]) + {es[|es| - 1]};
      Insert(Sort(es[..|es| - 1]), es[|es| - 1])
  }

  lemma {:induction false} InsertSorted<N>(es: seq<Entry<N>>, e: Entry<N>)
    requires Sorted(es) && forall d :: d in es ==> d.name != e.name
    ensures Sorted(Insert(es, e))
  {
    if es != [] {
      if Less(e.name, es[0].name) {
        forall j | 0 <= j < |es| ensures Less(e.name, es[j].name) {
          if j > 0 { LessTransitive(e.name, es[0].name, es[j].name); }
        }
      } else {
        LessTotal(e.name, es[0].name);
        InsertSorted(es[1..], e);
        var rest := Insert(es[1..], e);
        forall j | 0 <= j < |rest| ensures Less(es[0].name, rest[j].name) {
          assert rest[j] in Elements(rest);
          assert rest[j] == e || rest[j] in es[1..];
        }
      }
    }
  }

  /** Sorting any enumeration of distinctly named entries is strictly ascending. */
  lemma {:induction false} SortSorted<N>(es: seq<Entry<N>>)
    requires forall i, j :: 0 <= i < j < |es| ==> es[i].name != es[j].name
    ensures Sorted(Sort(es))
  {
    if es != [] {
      var init, last := es[..|es| - 1], es[|es| - 1];
      SortSorted(init);
      forall d | d in Sort(init) ensures d.name != last.name {
        assert d in Elements(Sort(init));
        assert d in init;
      }
      InsertSorted(Sort(init), last);
    }
  }

  lemma NonEmpty<N>(es: seq<Entry<N>>)
    ensures es != [] ==> Elements(es) != {}
  {
    if es != [] { assert es[0] in Elements(es); }
  }

  /** A set of entries has at most one ascending listing. */
  lemma {:induction false} SortedUnique<N>(a: seq<Entry<N>>, b: seq<Entry<N>>)
    requires Sorted(a) && Sorted(b) && Elements(a) == Elements(b)
    ensures a == b
  {
    if a == [] {
      NonEmpty(b);
    } else {
      assert a[0] in Elements(b);
      var j :| 0 <= j < |b| && b[j] == a[0];
      assert b[0] in Elements(a);
      var i :| 0 <= i < |a| && a[i] == b[0];
      LessTotal(a[0].name, b[0].name);
      TailElements(a);
      TailElements(b);
      SortedUnique(a[1..], b[1..]);
      assert a == [a[0]] + a[1..] && b == [b[0]] + b[1..];
    }
  }

  lemma TailElements<N>(a: seq<Entry<N>>)
    requires Sorted(a) && a != []
    ensures Sorted(a[1..]) && Elements(a[1..]) == Elements(a) - {a[0]}
  {
    LessTotal(a[0].name, a[0].name);
    assert forall e :: e in a[1..] ==> e in a && e != a[0];
    forall e | e in Elements(a) && e != a[0] ensures e in a[1..] {
      var k :| 0 <= k < |a| && a[k] == e;
      assert a[1..][k - 1] == e;
    }
  }

  /** The ascending listing of a set of distinctly named entries. */
  ghost function Ascending<N>(s: set<Entry<N>>): (es: seq<Entry<N>>)
    requires DistinctNames(s)
    ensures Sorted(es) && Elements(es) == s
  {
    if s == {} then []
    else
      var e :| e in s;
      var rest := Ascending(s - {e});
      assert forall d :: d in rest ==> d in Elements(rest);
      InsertSorted(rest, e);
      Insert(rest, e)
  }
}
