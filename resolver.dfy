/** Entry resolution (`FS.getEntry`, ftp.go:146-168): list the parent of a
    path and take the first entry whose name is the path's base name. */
module Resolver {
  import opened Results
  import opened FileInfos
  import opened FtpErrors
  import opened Paths

  /** Index of the first entry named `base`, if there is one. */
  function FirstMatch(entries: seq<Entry>, base: string): (r: Option<nat>)
    ensures r.Some? ==> r.value < |entries| && entries[r.value].name == base
    ensures r.Some? ==> forall k :: 0 <= k < r.value ==> entries[k].name != base
    ensures r.None? ==> forall k :: 0 <= k < |entries| ==> entries[k].name != base
  {
    if entries == [] then None
    else if entries[0].name == base then Some(0)
    else match FirstMatch(entries[1..], base)
      case None => None
      case Some(i) => Some(i + 1)
  }

  /** What `getEntry(name)` returns when the server's listings are `listings`:
      the listing of `Dir(name)` fails when that directory is not listed. */
  function Resolve(listings: map<string, seq<Entry>>, name: string): (r: Result<Entry, Error>)
    ensures r.Success? ==>
      Dir(name) in listings && r.value in listings[Dir(name)] && r.value.name == Base(name)
    ensures r.Failure? ==>
      (Dir(name) !in listings && r.error == ListError(Dir(name))) ||
      (Dir(name) in listings && r.error == NotFound(Base(name), listings[Dir(name)]))
  {
    var parent := Dir(name);
    if parent !in listings then Failure(ListError(parent))
    else
      var entries := listings[parent];
      match FirstMatch(entries, Base(name))
      case None => Failure(NotFound(Base(name), entries))
      case Some(i) => Success(entries[i])
  }

  /** Resolution succeeds exactly when the parent listing holds an entry
      named by the base name, and then returns such a listed entry. */
  lemma ResolveSucceedsIff(listings: map<string, seq<Entry>>, name: string)
    ensures Resolve(listings, name).Success? <==>
      Dir(name) in listings && exists e :: e in listings[Dir(name)] && e.name == Base(name)
    ensures Resolve(listings, name).Success? ==>
      Resolve(listings, name).value.name == Base(name) &&
      Resolve(listings, name).value in listings[Dir(name)]
  {
    if Dir(name) in listings {
      var entries := listings[Dir(name)];
      if e :| e in entries && e.name == Base(name) {
        var k :| 0 <= k < |entries| && entries[k] == e;
        assert FirstMatch(entries, Base(name)).Some?;
      }
    }
  }

  /** On duplicate names the first one in listing order wins. */
  lemma ResolveFirstWins(listings: map<string, seq<Entry>>, name: string, k: nat)
    requires Dir(name) in listings
    requires k < |listings[Dir(name)]| && listings[Dir(name)][k].name == Base(name)
    requires forall j :: 0 <= j < k ==> listings[Dir(name)][j].name != Base(name)
    ensures Resolve(listings, name) == Success(listings[Dir(name)][k])
  {
    assert FirstMatch(listings[Dir(name)], Base(name)).Some?;
  }

  /** The failures: a failed parent listing names the parent; a missing base
      name reports the base name and every sibling listed. */
  lemma ResolveFailures(listings: map<string, seq<Entry>>, name: string)
    ensures Dir(name) !in listings ==> Resolve(listings, name) == Failure(ListError(Dir(name)))
    ensures Dir(name) in listings && (forall e :: e in listings[Dir(name)] ==> e.name != Base(name)) ==>
      Resolve(listings, name) == Failure(NotFound(Base(name), listings[Dir(name)]))
  {
    ResolveSucceedsIff(listings, name);
  }

  /** "/x/y" under a parent "/x" that lists only "z" is not found. */
  lemma ResolveNotFoundExample(listings: map<string, seq<Entry>>, z: Entry)
    requires "/x" in listings && listings["/x"] == [z] && z.name == "z"
    ensures Resolve(listings, "/x/y") == Failure(NotFound("y", [z]))
  {
    SplitExample();
  }
}
