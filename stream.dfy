/** The data stream of one transfer (the client's `*Response`) as a byte
    sequence with a cursor, and the drain that `File.Close` performs with
    `io.Copy(io.Discard, resp)` (ftp.go:81). */
module Streams {
  import opened Results
  import opened FtpErrors

  newtype byte = x: int | 0 <= x < 256

  /** Size of the buffer `io.Discard` reads into while draining. */
  const DrainBufferSize: nat := 8192

  /** What a `Read` call signals besides its byte count: nothing, `io.EOF`,
      or an error. */
  datatype ReadStatus = ReadOk | Eof | ReadFailed(error: Error)

  /** A transfer as the server will deliver it: its bytes, the point at which
      the connection breaks (if it does), whether the read that delivers the
      last available bytes already reports end-of-file or the break along
      with them (as `io.Reader` allows), and whether closing will fail. */
  datatype StreamSpec = StreamSpec(data: seq<byte>, breaksAt: Option<nat>, endsWithData: bool, closeFails: bool)

  class Response {
    const data: seq<byte>
    const breaksAt: Option<nat>
    const endsWithData: bool
    const closeFails: bool
    /** Number of bytes read so far. */
    var pos: nat
    /** The cursor at the moment the stream was closed, once it is. */
    var closedAt: Option<nat>

    /** The transfer breaks before all of `data` is delivered. */
    predicate Breaks() {
      breaksAt.Some? && breaksAt.value < |data|
    }

    /** How far reading can get. */
    function Stop(): (r: nat)
      ensures r <= |data|
      ensures r == |data| <==> !Breaks()
    {
      if Breaks() then breaksAt.value else |data|
    }

    ghost predicate Valid()
      reads this
    {
      pos <= Stop()
    }

    constructor (spec: StreamSpec)
      ensures data == spec.data && breaksAt == spec.breaksAt
      ensures endsWithData == spec.endsWithData && closeFails == spec.closeFails
      ensures pos == 0 && closedAt == None
      ensures Valid()
    {
      data, breaksAt, endsWithData, closeFails := spec.data, spec.breaksAt, spec.endsWithData, spec.closeFails;
      pos, closedAt := 0, None;
    }

    /** The byte count the next read into a buffer of `len` bytes returns. */
    function NextCount(len: nat): nat
      reads this
    {
      if closedAt.Some? || pos >= Stop() then 0
      else if len < Stop() - pos then len
      else Stop() - pos
    }

    /** How a read that reaches the end of what can be read ends: with an
        error at a break, with end-of-file otherwise. */
    function Terminal(): ReadStatus {
      if Breaks() then ReadFailed(StreamError) else Eof
    }

    /** The status the next read into a buffer of `len` bytes returns. */
    function NextStatus(len: nat): ReadStatus
      reads this
    {
      if closedAt.Some? then ReadFailed(StreamError)
      else if pos < Stop() && !(endsWithData && pos + NextCount(len) == Stop()) then ReadOk
      else Terminal()
    }

    /** Reads the next bytes into `b`: as many as fit, up to where reading
        can get; at the end of the data it signals end-of-file, at a break
        or after close an error, either on a read of its own or, when
        `endsWithData`, together with the last bytes. */
    method Read(b: array<byte>) returns (n: nat, st: ReadStatus)
      requires Valid()
      modifies this, b
      ensures Valid() && closedAt == old(closedAt)
      ensures n == old(NextCount(b.Length)) && st == old(NextStatus(b.Length))
      ensures pos == old(pos) + n && n <= b.Length
      ensures b[..n] == data[old(pos)..pos] && b[n..] == old(b[n..])
      ensures old(closedAt).None? && old(pos) == |data| ==> n == 0 && st == Eof
      ensures old(closedAt).None? && old(pos) < Stop() && b.Length > 0 ==> n > 0
      ensures st != ReadOk ==> closedAt.Some? || pos == Stop()
    {
      if closedAt.Some? {
        return 0, ReadFailed(StreamError);
      }
      if pos == Stop() {
        return 0, Terminal();
      }
      n := if b.Length < Stop() - pos then b.Length else Stop() - pos;
      forall k | 0 <= k < n {
        b[k] := data[pos + k];
      }
      pos := pos + n;
      st := if endsWithData && pos == Stop() then Terminal() else ReadOk;
    }

    /** Closes the data connection, recording where the cursor stood. */
    method Close() returns (err: Option<Error>)
      modifies this
      ensures pos == old(pos)
      ensures old(closedAt).None? ==> closedAt == Some(pos) && err == (if closeFails then Some(CloseError) else None)
      ensures old(closedAt).Some? ==> closedAt == old(closedAt) && err == None
    {
      if closedAt.Some? {
        return None;
      }
      closedAt := Some(pos);
      err := if closeFails then Some(CloseError) else None;
    }
  }

  /** `io.Copy(io.Discard, r)`: reads into a scratch buffer until end-of-file
      (a success) or an error. It consumes everything up to where reading can
      get, and reports the number of bytes it discarded. */
  method DrainAll(r: Response) returns (n: nat, err: Option<Error>)
    requires r.Valid()
    modifies r
    ensures r.Valid() && r.closedAt == old(r.closedAt)
    ensures old(r.closedAt).Some? ==> err == Some(StreamError) && r.pos == old(r.pos) && n == 0
    ensures old(r.closedAt).None? ==> r.pos == r.Stop() && n == r.Stop() - old(r.pos)
    ensures old(r.closedAt).None? ==> err == if r.Breaks() then Some(StreamError) else None
  {
    var buf := new byte[DrainBufferSize];
    n := 0;
    while true
      invariant r.Valid() && r.closedAt == old(r.closedAt)
      invariant old(r.pos) <= r.pos && n == r.pos - old(r.pos)
      invariant old(r.closedAt).Some? ==> r.pos == old(r.pos)
      decreases r.Stop() - r.pos
    {
      var k, st := r.Read(buf);
      n := n + k;
      if st.Eof? {
        return n, None;
      }
      if st.ReadFailed? {
        return n, Some(st.error);
      }
    }
  }
}
