/** The adapter itself: `File`, the open-file handle, and `FS`, the
    filesystem over one FTP session (ftp.go:54-168). */
module Ftp {
  import opened Results
  import opened FileInfos
  import opened FtpErrors
  import opened Paths
  import opened Directory
  import opened Resolver
  import opened Streams
  import opened Session

  class File {
    const info: FileInfo
    const resp: Response

    constructor (info: FileInfo, resp: Response)
      ensures this.info == info && this.resp == resp
    {
      this.info, this.resp := info, resp;
    }

    /** The metadata captured when the file was opened; never fails. */
    function Stat(): (r: Result<FileInfo, Error>)
      ensures r.Success? && r.value == info
    {
      Success(info)
    }

    /** Reads from the stream; end-of-file is passed through as it is, not
        turned into an error, and the bytes read before a failure are
        still counted. */
    method Read(b: array<byte>) returns (n: nat, st: ReadStatus)
      requires resp.Valid()
      modifies resp, b
      ensures resp.Valid() && resp.closedAt == old(resp.closedAt)
      ensures n == old(resp.NextCount(b.Length)) && st == old(resp.NextStatus(b.Length))
      ensures resp.pos == old(resp.pos) + n && n <= b.Length
      ensures b[..n] == resp.data[old(resp.pos)..resp.pos] && b[n..] == old(b[n..])
      ensures old(resp.closedAt).None? && old(resp.pos) == |resp.data| ==> n == 0 && st == Eof
      ensures (old(resp.closedAt).None? && resp.endsWithData && resp.Breaks() && old(resp.pos) < resp.pos &&
               resp.pos == resp.Stop()) ==> n > 0 && st == ReadFailed(StreamError)
    {
      var k, s := resp.Read(b);
      if s.Eof? {
        return k, s;
      }
      if s.ReadFailed? {
        return k, ReadFailed(s.error);
      }
      return k, ReadOk;
    }

    /** Drains the stream to its end and only then closes it. A failed drain
        is reported and the close is not attempted; a stream already read to
        its end drains nothing and is closed. */
    method Close() returns (err: Option<Error>)
      requires resp.Valid()
      modifies resp
      ensures resp.Valid()
      ensures old(resp.closedAt).Some? ==>
        err == Some(StreamError) && resp.closedAt == old(resp.closedAt) && resp.pos == old(resp.pos)
      ensures old(resp.closedAt).None? && resp.Breaks() ==>
        err == Some(StreamError) && resp.closedAt == None && resp.pos == resp.Stop()
      ensures old(resp.closedAt).None? && !resp.Breaks() ==>
        resp.pos == |resp.data| && resp.closedAt == Some(|resp.data|) &&
        err == (if resp.closeFails then Some(CloseError) else None)
    {
      var discarded, drainErr := DrainAll(resp);
      if drainErr.Some? {
        return drainErr;
      }
      var closeErr := resp.Close();
      if closeErr.Some? {
        return closeErr;
      }
      return None;
    }
  }

  class FS {
    const c: Conn

    /** `NewFS`. */
    constructor (c: Conn)
      ensures this.c == c
    {
      this.c := c;
    }

    /** `getEntry`: lists the parent of `name` once and returns the first
        entry named by its base name. */
    method GetEntry(name: string) returns (r: Result<Entry, Error>)
      modifies c
      ensures c.commands == old(c.commands) + [ListCmd(Dir(name))]
      ensures r == Resolve(c.listings, name)
    {
      var parent := Dir(name);
      var listed := c.List(parent);
      if listed.Failure? {
        return Failure(listed.error);
      }
      var entries := listed.value;
      var base := Base(name);
      var entry: Option<Entry> := None;
      var i := 0;
      while i < |entries|
        invariant 0 <= i <= |entries|
        invariant entry == None
        invariant forall k :: 0 <= k < i ==> entries[k].name != base
      {
        if entries[i].name == base {
          entry := Some(entries[i]);
          break;
        }
        i := i + 1;
      }
      if entry == None {
        var derefed: seq<Entry> := [];
        var j := 0;
        while j < |entries|
          invariant 0 <= j <= |entries|
          invariant derefed == entries[..j]
        {
          derefed := derefed + [entries[j]];
          j := j + 1;
        }
        assert derefed == entries;
        assert FirstMatch(entries, base) == None;
        return Failure(NotFound(base, derefed));
      }
      assert FirstMatch(entries, base) == Some(i);
      return Success(entry.value);
    }

    /** `Open`: resolves the entry first and starts the transfer only when
        that succeeds; the handle carries the resolved metadata and a stream
        at its first byte. */
    method Open(name: string) returns (r: Result<File, Error>)
      modifies c
      ensures Resolve(c.listings, name).Failure? ==>
        r == Failure(Resolve(c.listings, name).error) &&
        c.commands == old(c.commands) + [ListCmd(Dir(name))]
      ensures Resolve(c.listings, name).Success? ==>
        c.commands == old(c.commands) + [ListCmd(Dir(name)), RetrCmd(name)]
      ensures Resolve(c.listings, name).Success? && name !in c.streams ==>
        r == Failure(RetrError(name))
      ensures Resolve(c.listings, name).Success? && name in c.streams ==>
        r.Success? && fresh(r.value) && fresh(r.value.resp) && r.value.resp.Valid() &&
        r.value.info == FileInfo(Resolve(c.listings, name).value) &&
        r.value.resp.data == c.streams[name].data && r.value.resp.breaksAt == c.streams[name].breaksAt &&
        r.value.resp.endsWithData == c.streams[name].endsWithData &&
        r.value.resp.closeFails == c.streams[name].closeFails &&
        r.value.resp.pos == 0 && r.value.resp.closedAt == None
    {
      var entry := GetEntry(name);
      if entry.Failure? {
        return Failure(entry.error);
      }
      var resp := c.Retr(name);
      if resp.Failure? {
        return Failure(resp.error);
      }
      var f := new File(FileInfo(entry.value), resp.value);
      return Success(f);
    }

    /** `Stat`: the metadata of the resolved entry, or the resolution error. */
    method Stat(name: string) returns (r: Result<FileInfo, Error>)
      modifies c
      ensures c.commands == old(c.commands) + [ListCmd(Dir(name))]
      ensures r.Success? <==> Resolve(c.listings, name).Success?
      ensures r.Success? ==> r.value == FileInfo(Resolve(c.listings, name).value) && r.value.Name() == Base(name)
      ensures r.Failure? ==> r.error == Resolve(c.listings, name).error
    {
      var entry := GetEntry(name);
      if entry.Failure? {
        return Failure(entry.error);
      }
      return Success(FileInfo(entry.value));
    }

    /** `ReadDir`: lists `name` once; on success the entries are sorted by
        name with `.` and `..` dropped, and on failure there is no partial
        result. */
    method ReadDir(name: string) returns (r: Result<seq<FileInfo>, Error>)
      modifies c
      ensures c.commands == old(c.commands) + [ListCmd(name)]
      ensures name !in c.listings ==> r == Failure(ListError(name))
      ensures name in c.listings ==> r.Success? && Normalised(Entries(r.value), c.listings[name])
    {
      var listed := c.List(name);
      if listed.Failure? {
        return Failure(listed.error);
      }
      var listing := listed.value;
      var entries := new Entry[|listing|](k requires 0 <= k < |listing| => listing[k]);
      assert entries[..] == listing;
      SortByName(entries);
      ghost var sorted := entries[..];
      var ds: seq<FileInfo> := [];
      var i := 0;
      while i < entries.Length
        invariant 0 <= i <= entries.Length
        invariant Entries(ds) == DropDots(sorted[..i])
      {
        var e := entries[i];
        assert sorted[..i + 1][..i] == sorted[..i] && sorted[i] == e;
        if e.name != "." && e.name != ".." {
          ds := ds + [FileInfo(e)];
        }
        i := i + 1;
      }
      assert sorted[..i] == sorted;
      DropDotsSorted(sorted);
      DropDotsPermutation(sorted, listing);
      return Success(ds);
    }
  }
}
