/** The split of a slash-separated path into parent directory and base name
    that `getEntry` performs with Go's `path.Dir` and `path.Base`
    (ftp.go:147, ftp.go:152). `Base` follows Go's rules in full; `Dir`
    follows them except that it does not remove `.` and `..` elements or
    collapse repeated slashes inside the parent (the part of `path.Clean`
    that only matters for names outside `fs.ValidPath`). */
module Paths {
  import opened Results

  /** Index of the last '/' in `s`, if any (`strings.LastIndex(s, "/")`). */
  function LastSlash(s: string): (r: Option<nat>)
    ensures r.Some? ==> r.value < |s| && s[r.value] == '/'
    ensures r.Some? ==> forall k :: r.value < k < |s| ==> s[k] != '/'
    ensures r.None? ==> forall k :: 0 <= k < |s| ==> s[k] != '/'
  {
    if |s| == 0 then None
    else if s[|s| - 1] == '/' then Some(|s| - 1)
    else LastSlash(s[..|s| - 1])
  }

  /** `s` without its trailing slashes. */
  function TrimTrailingSlashes(s: string): (r: string)
    ensures |r| <= |s| && r == s[..|r|]
    ensures r == "" || r[|r| - 1] != '/'
    ensures forall k :: |r| <= k < |s| ==> s[k] == '/'
  {
    if s != "" && s[|s| - 1] == '/' then TrimTrailingSlashes(s[..|s| - 1]) else s
  }

  /** `path.Base`: the last element, after trailing slashes are removed;
      "." for the empty path and "/" for a path of slashes only. */
  function Base(name: string): (r: string)
    ensures r != ""
    ensures r == "/" || '/' !in r
    ensures name == "" ==> r == "."
  {
    if name == "" then "."
    else
      var p := TrimTrailingSlashes(name);
      var q := match LastSlash(p) case None => p case Some(i) => p[i + 1..];
      if q == "" then "/" else q
  }

  /** `path.Dir`: everything before the last slash, without trailing slashes;
      "." when there is no slash and "/" when only the root is left. */
  function Dir(name: string): (r: string)
    ensures r != ""
    ensures '/' !in name ==> r == "."
  {
    match LastSlash(name)
    case None => "."
    case Some(i) =>
      var d := TrimTrailingSlashes(name[..i]);
      if d == "" then "/" else d
  }

  /** A name without slashes is its own base, in the current directory. */
  lemma SplitUnslashed(base: string)
    requires base != "" && '/' !in base
    ensures Dir(base) == "." && Base(base) == base
  {
    assert LastSlash(base).None?;
  }

  /** Joining a parent and a base with a slash and splitting again gives
      back the two parts. */
  lemma SplitRejoins(dir: string, base: string)
    requires dir != "" && dir[|dir| - 1] != '/'
    requires base != "" && '/' !in base
    ensures Dir(dir + "/" + base) == dir
    ensures Base(dir + "/" + base) == base
  {
    var name := dir + "/" + base;
    assert name[|dir|] == '/';
    assert forall k :: |dir| < k < |name| ==> name[k] == base[k - |dir| - 1];
    var i := LastSlash(name);
    assert i == Some(|dir|);
    assert name[..|dir|] == dir;
    assert TrimTrailingSlashes(name) == name;
    assert name[|dir| + 1..] == base;
  }

  /** The split of "/x/y" is parent "/x" and base "y". */
  lemma SplitExample()
    ensures Dir("/x/y") == "/x" && Base("/x/y") == "y"
  {
    SplitRejoins("/x", "y");
  }
}
