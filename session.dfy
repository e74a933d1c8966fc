/** The FTP session the adapter wraps (the client's `*ServerConn`), reduced
    to what the adapter uses: listing a directory and starting a transfer.
    The server's answers are fixed inputs, and every command issued is
    recorded so that the order of commands can be stated. */
module Session {
  import opened Results
  import opened FileInfos
  import opened FtpErrors
  import opened Streams

  datatype Command = ListCmd(path: string) | RetrCmd(path: string)

  /** What `List(path)` gives: the directory's entries, in the server's
      order, or an error when the server cannot list it. */
  function ListResult(listings: map<string, seq<Entry>>, path: string): Result<seq<Entry>, Error>
  {
    if path in listings then Success(listings[path]) else Failure(ListError(path))
  }

  class Conn {
    /** The directories the server can list, and their entries. */
    const listings: map<string, seq<Entry>>
    /** The files the server can send. */
    const streams: map<string, StreamSpec>
    /** The commands issued so far, oldest first. */
    var commands: seq<Command>

    constructor (listings: map<string, seq<Entry>>, streams: map<string, StreamSpec>)
      ensures this.listings == listings && this.streams == streams && commands == []
    {
      this.listings, this.streams, commands := listings, streams, [];
    }

    method List(path: string) returns (r: Result<seq<Entry>, Error>)
      modifies this
      ensures commands == old(commands) + [ListCmd(path)]
      ensures r == ListResult(listings, path)
    {
      commands := commands + [ListCmd(path)];
      r := ListResult(listings, path);
    }

    /** Starts the transfer of `path`: a fresh stream at its first byte. */
    method Retr(path: string) returns (r: Result<Response, Error>)
      modifies this
      ensures commands == old(commands) + [RetrCmd(path)]
      ensures path !in streams ==> r == Failure(RetrError(path))
      ensures path in streams ==> r.Success? && fresh(r.value) && r.value.Valid()
      ensures path in streams ==> r.value.data == streams[path].data && r.value.breaksAt == streams[path].breaksAt
      ensures path in streams ==> r.value.endsWithData == streams[path].endsWithData
      ensures path in streams ==> r.value.closeFails == streams[path].closeFails
      ensures path in streams ==> r.value.pos == 0 && r.value.closedAt == None
    {
      commands := commands + [RetrCmd(path)];
      if path !in streams {
        return Failure(RetrError(path));
      }
      var resp := new Response(streams[path]);
      r := Success(resp);
    }
  }
}
