/** Directory-listing normalisation (`FS.ReadDir`, ftp.go:127-144): the
    listing is sorted by name in place and the `.` and `..` pseudo-entries
    are dropped. */
module Directory {
  import opened Names
  import opened FileInfos

  /** The two pseudo-entries a listing may contain. */
  predicate IsDot(name: string) {
    name == "." || name == ".."
  }

  /** No entry sorts before an earlier one: the order `sort.Slice` leaves
      behind with `entries[i].Name < entries[j].Name` as its less function. */
  predicate SortedByName(s: seq<Entry>) {
    forall i, j :: 0 <= i < j < |s| ==> !Less(s[j].name, s[i].name)
  }

  /** The entries of `s`, in order, that are not pseudo-entries. */
  function DropDots(s: seq<Entry>): (r: seq<Entry>)
    ensures |r| <= |s|
    ensures forall e :: e in r ==> e in s && !IsDot(e.name)
  {
    if s == [] then []
    else if IsDot(s[|s| - 1].name) then DropDots(s[..|s| - 1])
    else DropDots(s[..|s| - 1]) + [s[|s| - 1]]
  }

  /** The entries behind a sequence of `fileinfo` values
      (`fs.FileInfoToDirEntry` is the identity here). */
  function Entries(infos: seq<FileInfo>): (r: seq<Entry>)
    ensures |r| == |infos|
    ensures forall i :: 0 <= i < |infos| ==> r[i] == infos[i].e
  {
    seq(|infos|, i requires 0 <= i < |infos| => infos[i].e)
  }

  /** What `ReadDir` promises of its result `out` for the listing `listing`:
      sorted by name, and exactly the listed entries other than `.` and `..`. */
  predicate Normalised(out: seq<Entry>, listing: seq<Entry>) {
    SortedByName(out) && multiset(out) == multiset(DropDots(listing))
  }

  /** `DropDots` keeps every copy of an ordinary entry and no pseudo-entry. */
  lemma {:induction false} DropDotsCount(s: seq<Entry>, e: Entry)
    ensures multiset(DropDots(s))[e] == if IsDot(e.name) then 0 else multiset(s)[e]
  {
    if s != [] {
      var init, last := s[..|s| - 1], s[|s| - 1];
      assert s == init + [last];
      DropDotsCount(init, e);
    }
  }

  /** Dropping pseudo-entries from two permutations of a listing gives two
      permutations. */
  lemma DropDotsPermutation(s: seq<Entry>, t: seq<Entry>)
    requires multiset(s) == multiset(t)
    ensures multiset(DropDots(s)) == multiset(DropDots(t))
  {
    forall e
      ensures multiset(DropDots(s))[e] == multiset(DropDots(t))[e]
    {
      DropDotsCount(s, e);
      DropDotsCount(t, e);
    }
  }

  /** Dropping entries from a sorted listing leaves it sorted. */
  lemma {:induction false} DropDotsSorted(s: seq<Entry>)
    requires SortedByName(s)
    ensures SortedByName(DropDots(s))
  {
    if s != [] {
      var init, last := s[..|s| - 1], s[|s| - 1];
      assert SortedByName(init) by {
        forall i, j | 0 <= i < j < |init| ensures !Less(init[j].name, init[i].name) {
          assert init[i] == s[i] && init[j] == s[j];
        }
      }
      DropDotsSorted(init);
      if !IsDot(last.name) {
        var d := DropDots(init);
        forall i | 0 <= i < |d|
          ensures !Less(last.name, d[i].name)
        {
          assert d[i] in init;
          var k :| 0 <= k < |init| && init[k] == d[i];
          assert s[k] == d[i];
        }
        var r := d + [last];
        forall i, j | 0 <= i < j < |r|
          ensures !Less(r[j].name, r[i].name)
        {
          if j < |d| {
            assert r[i] == d[i] && r[j] == d[j];
          }
        }
      }
    }
  }

  /** A normalised listing holds no pseudo-entry, holds only listed entries,
      and is no longer than the listing. */
  lemma NormalisedSubset(out: seq<Entry>, listing: seq<Entry>)
    requires Normalised(out, listing)
    ensures forall i :: 0 <= i < |out| ==> !IsDot(out[i].name) && out[i] in listing
    ensures |out| <= |listing|
  {
    forall i | 0 <= i < |out|
      ensures !IsDot(out[i].name) && out[i] in listing
    {
      assert out[i] in multiset(out);
      DropDotsCount(listing, out[i]);
    }
    calc {
      |out|;
      |multiset(out)|;
      |multiset(DropDots(listing))|;
      |DropDots(listing)|;
    }
  }

  /** A normalised listing whose names are all different is strictly
      increasing by name. */
  lemma NormalisedStrict(out: seq<Entry>, listing: seq<Entry>)
    requires Normalised(out, listing)
    requires forall i, j :: 0 <= i < j < |out| ==> out[i].name != out[j].name
    ensures forall i, j :: 0 <= i < j < |out| ==> Less(out[i].name, out[j].name)
  {
    forall i, j | 0 <= i < j < |out|
      ensures Less(out[i].name, out[j].name)
    {
      LessTotal(out[i].name, out[j].name);
    }
  }

  /** Filtering ".", "..", "b.txt", "a.txt" keeps "b.txt", "a.txt". */
  lemma DropDotsExample(d1: Entry, d2: Entry, b: Entry, a: Entry)
    requires d1.name == "." && d2.name == ".." && b.name == "b.txt" && a.name == "a.txt"
    ensures DropDots([d1, d2, b, a]) == [b, a]
  {
    assert [d1][..0] == [] && DropDots([d1]) == [];
    assert [d1, d2][..1] == [d1] && DropDots([d1, d2]) == [];
    assert [d1, d2, b][..2] == [d1, d2] && DropDots([d1, d2, b]) == [b];
    assert [d1, d2, b, a][..3] == [d1, d2, b];
  }

  /** The listing ".", "..", "b.txt", "a.txt" normalises to "a.txt", "b.txt"
      and to nothing else. */
  lemma ReadDirExample(d1: Entry, d2: Entry, b: Entry, a: Entry, out: seq<Entry>)
    requires d1.name == "." && d2.name == ".." && b.name == "b.txt" && a.name == "a.txt"
    requires Normalised(out, [d1, d2, b, a])
    ensures out == [a, b]
  {
    DropDotsExample(d1, d2, b, a);
    var m := multiset(out);
    assert m == multiset{a, b};
    assert |out| == |m| == 2;
    assert out[0] in m && out[1] in m;
    assert Less(a.name, b.name);
    assert !Less(out[1].name, out[0].name);
    if out[0] == b {
      assert false;
    }
    if out[1] == a {
      assert false;
    }
    assert out == [out[0], out[1]];
  }

  /** The state of one insertion step: position `j` holds the entry being
      inserted, which sorts before everything after it up to `i`; the other
      entries of `s[..i + 1]` are in order. */
  predicate Inserting(s: seq<Entry>, j: nat, i: nat)
    requires j <= i < |s|
  {
    && (forall k, l :: 0 <= k < l <= i && k != j && l != j ==> !Less(s[l].name, s[k].name))
    && (forall l :: j < l <= i ==> Less(s[j].name, s[l].name))
  }

  /** Once the inserted entry does not sort before its left neighbour, the
      whole prefix is in order. */
  lemma InsertionDone(s: seq<Entry>, j: nat, i: nat)
    requires j <= i < |s| && Inserting(s, j, i)
    requires j > 0 ==> !Less(s[j].name, s[j - 1].name)
    ensures SortedByName(s[..i + 1])
  {
    forall k | 0 <= k < j
      ensures !Less(s[j].name, s[k].name)
    {
      if k < j - 1 {
        NotLessTransitive(s[k].name, s[j - 1].name, s[j].name);
      }
    }
    forall l | j < l <= i
      ensures !Less(s[l].name, s[j].name)
    {
      LessAsymmetric(s[j].name, s[l].name);
    }
    var p := s[..i + 1];
    forall k, l | 0 <= k < l < |p|
      ensures !Less(p[l].name, p[k].name)
    {
      assert p[k] == s[k] && p[l] == s[l];
    }
  }

  /** Exchanging the entries at `j - 1` and `j`. */
  method SwapDown(a: array<Entry>, j: nat)
    requires 0 < j < a.Length
    modifies a
    ensures a[..] == old(a[..])[j - 1 := old(a[j])][j := old(a[j - 1])]
    ensures multiset(a[..]) == multiset(old(a[..]))
  {
    a[j - 1], a[j] := a[j], a[j - 1];
  }

  /** Moves the entry at `i` left until it no longer sorts before its
      neighbour, so that `a[..i + 1]` is sorted; entries after `i` stay put. */
  method InsertAt(a: array<Entry>, i: nat)
    requires i < a.Length && SortedByName(a[..i])
    modifies a
    ensures SortedByName(a[..i + 1])
    ensures multiset(a[..]) == multiset(old(a[..]))
    ensures a[i + 1..] == old(a[i + 1..])
  {
    var j := i;
    assert Inserting(a[..], j, i) by {
      forall k, l | 0 <= k < l <= i && k != j && l != j
        ensures !Less(a[l].name, a[k].name)
      {
        assert a[k] == a[..i][k] && a[l] == a[..i][l];
      }
    }
    while j > 0 && Less(a[j].name, a[j - 1].name)
      invariant 0 <= j <= i
      invariant Inserting(a[..], j, i)
      invariant multiset(a[..]) == multiset(old(a[..]))
      invariant a[i + 1..] == old(a[i + 1..])
    {
      SwapDown(a, j);
      j := j - 1;
    }
    InsertionDone(a[..], j, i);
  }

  /** `sort.Slice(entries, less)` with `less` comparing names: afterwards the
      array is sorted by name and holds the same entries. */
  method SortByName(a: array<Entry>)
    modifies a
    ensures SortedByName(a[..])
    ensures multiset(a[..]) == multiset(old(a[..]))
  {
    var i := 0;
    while i < a.Length
      invariant 0 <= i <= a.Length
      invariant SortedByName(a[..i])
      invariant multiset(a[..]) == multiset(old(a[..]))
    {
      InsertAt(a, i);
      i := i + 1;
    }
    assert a[..i] == a[..];
  }
}
