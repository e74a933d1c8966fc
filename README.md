# ftp: an FTP session as a read-only filesystem, modelled in Dafny

The Go package `ftp` (one file, `ftp.go`) turns a connection of the
`jlaffaye/ftp` client into an `io/fs` filesystem. `FS.Open`, `FS.Stat` and
`FS.ReadDir` list remote directories and start transfers. `File` wraps one
transfer's data stream. `fileinfo` projects a listing entry onto
`fs.FileInfo`. This project models that adapter and proves what it promises.

The FTP client is not modelled. It is replaced by abstract inputs:

- `Session.Conn` stands for the client's `ServerConn`. Its listings and
  its transferable files are fixed maps, and it records every command it
  is sent (`ListCmd`, `RetrCmd`). Because of that log the model can say
  that a failed `Open` never starts a transfer. `Session.ListResult` gives
  the answer to a list command: the directory's entries if the server lists
  it, a listing error otherwise. It is an input of the model, not something
  proved.
- `Streams.Response` stands for the client's `Response`. It is a byte
  sequence with a cursor, an optional point where the connection breaks,
  a flag that says whether the read delivering the last bytes also reports
  end-of-file or the break (as `io.Reader` allows), and a flag that says
  whether closing fails. `closedAt` records where the
  cursor stood when the stream was closed, so "drained before closed"
  reads as `closedAt == Some(|data|)`.

Modules: `Results` (Option, Result), `FileInfos` (entries, `fs.FileMode`
bits, `fileinfo`), `FtpErrors` (one constructor per kind of failure),
`Names` (Go's `<` on strings), `Paths` (`path.Dir`, `path.Base`),
`Directory` (sorting and the dot filter of `ReadDir`), `Resolver` (the
lookup of `getEntry`), `Streams`, `Session` and `Ftp` (`File`, `FS`).

Two points of the code's behaviour are worth stating plainly:

- The listing is sorted with `sort.Slice`, which is not stable, and names
  may repeat. So a directory listing comes out in non-decreasing name
  order, not necessarily strictly increasing. `Directory.NormalisedStrict`
  proves strict order when all names differ.
- Mode translation of an unknown entry type panics in the code. Here it is
  the precondition `KnownType` of `FileInfo.Mode`.

## Model

| member | source | states |
|---|---|---|
| `FileInfos.FileInfo.Name` | ftp.go:21-23 | the name is the entry's own name, unchanged (a plain projection; `FileInfos.ProjectionExample` and `Ftp.FS.Stat` state it in use) |
| `FileInfos.FileInfo.Size` | ftp.go:25-27 | the unsigned size is reinterpreted as a signed 64-bit integer: the result lies in the int64 range, is congruent to the size modulo 2^64, and equals the size below 2^63 |
| `FileInfos.FileInfo.Mode` | ftp.go:29-40 | for the three entry types the mode is 0, `ModeDir` or `ModeSymlink`: regular exactly for a file, directory bit exactly for a folder, symlink type exactly for a link, so file gives 0, folder `ModeDir`, link `ModeSymlink`; other types are excluded by the precondition |
| `FileInfos.FileInfo.IsDir` | ftp.go:46-48 | `IsDir` holds exactly when `Mode` has the directory bit, and exactly when `Mode` is `ModeDir` |
| `FileInfos.ProjectionExample` | ftp.go:21-48 | a 42-byte file "data.txt" has name "data.txt", size 42, mode 0 and is not a directory |
| `FileInfos.SizeWrapExample` | ftp.go:25-27 | a size of 2^64 - 1 reads as -1 |
| `Names.Less` | ftp.go:132 | the comparison the sort uses: a proper prefix sorts before the longer name, and no name sorts before its own prefix |
| `Names.LessIrreflexive` | ftp.go:132 | no name sorts before itself |
| `Names.LessTransitive` | ftp.go:132 | the name order of the sort is transitive |
| `Names.LessAsymmetric` | ftp.go:132 | two names are never each before the other |
| `Names.LessTotal` | ftp.go:132 | two different names are always ordered one way or the other |
| `Names.NotLessTransitive` | ftp.go:132 | "not before" is transitive, so the sort's result order is well defined |
| `Paths.LastSlash` | ftp.go:147 | the index found holds a slash and no slash follows it; no index means no slash at all |
| `Paths.Base` | ftp.go:152 | the base name is never empty and contains no slash unless it is "/" itself; the empty path has base "." |
| `Paths.Dir` | ftp.go:147 | the parent is never empty, and a name without slashes has parent "." |
| `Paths.SplitUnslashed` | ftp.go:147-152 | a slash-free name is its own base and lives in "." |
| `Paths.SplitRejoins` | ftp.go:147-152 | splitting `dir + "/" + base` gives back `dir` and `base` |
| `Paths.SplitExample` | ftp.go:147-152 | "/x/y" splits into parent "/x" and base "y" |
| `Directory.DropDots` | ftp.go:134-140 | the filter keeps only listed entries, none named "." or "..", and never grows the listing |
| `Directory.DropDotsCount` | ftp.go:134-141 | every ordinary entry keeps its number of copies and pseudo-entries keep none |
| `Directory.DropDotsPermutation` | ftp.go:132-141 | filtering two permutations of a listing gives two permutations |
| `Directory.DropDotsSorted` | ftp.go:132-141 | filtering a listing sorted by name leaves it sorted |
| `Directory.NormalisedSubset` | ftp.go:132-142 | a `ReadDir` result holds no "." or "..", holds only listed entries, and is no longer than the listing |
| `Directory.NormalisedStrict` | ftp.go:132 | when all names differ, a `ReadDir` result is strictly increasing by name |
| `Directory.ReadDirExample` | ftp.go:127-144 | the listing ".", "..", "b.txt", "a.txt" can only come out as "a.txt", "b.txt" |
| `Directory.SortByName` | ftp.go:132 | after the in-place sort the array is sorted by name and is a permutation of what it held |
| `Directory.InsertAt` | ftp.go:132 | one insertion step extends the sorted prefix by one entry, keeps the array's contents, and leaves the entries after it in place |
| `Resolver.FirstMatch` | ftp.go:153-159 | the index found is the first whose name equals the base exactly; no index means no entry has that name |
| `Resolver.Resolve` | ftp.go:146-168 | what `getEntry` returns: on success a listed entry of the parent named by the base name; on failure a listing error with the parent path, or not-found with the base name and the whole listing |
| `Resolver.ResolveSucceedsIff` | ftp.go:146-168 | resolution succeeds exactly when the parent listing has an entry named by the base name, and then returns a listed entry with that name |
| `Resolver.ResolveFirstWins` | ftp.go:153-159 | with duplicate names the first in listing order is returned |
| `Resolver.ResolveFailures` | ftp.go:148-151 | a failed parent listing fails with the parent path; a missing base name fails as not found with the base name and every sibling |
| `Resolver.ResolveNotFoundExample` | ftp.go:160-166 | "/x/y" under a parent "/x" listing only "z" fails as not found with "y" and sibling "z" |
| `Session.Conn.List` | ftp.go:128 | one list command is logged and the answer is the directory's listing or a listing error |
| `Session.Conn.Retr` | ftp.go:109 | one transfer command is logged; an unknown file fails, a known one gives a fresh stream at byte 0, open |
| `Streams.Response.Read` | ftp.go:67 | bytes from the cursor are copied into the buffer and the rest of the buffer is untouched; end of data gives end-of-file, a break or a closed stream an error, either alone or together with the last bytes |
| `Streams.Response.Close` | ftp.go:85 | the stream is closed where the cursor stands, reporting the close failure if there is one |
| `Streams.DrainAll` | ftp.go:81-83 | the drain consumes everything up to where reading can get and succeeds exactly when the stream neither broke nor was closed |
| `Ftp.File.Stat` | ftp.go:61-63 | the handle's metadata is returned without failure |
| `Ftp.File.Read` | ftp.go:66-75 | a read returns the stream's own count and status, so end-of-file passes through unchanged and the bytes delivered with a failure are still counted; reads at the end keep returning zero bytes and end-of-file |
| `Ftp.File.Close` | ftp.go:78-90 | the stream is drained before it is closed; if the drain fails no close is attempted; a fully read stream is still closed after an empty drain |
| `Ftp.FS.constructor` | ftp.go:98-101 | the filesystem wraps the given session |
| `Ftp.FS.GetEntry` | ftp.go:146-168 | exactly one listing of the parent is issued and the result is the first exact base-name match, or the failure `Resolve` gives |
| `Ftp.FS.Open` | ftp.go:104-115 | a failed resolution returns its error and issues no transfer; otherwise one transfer follows and the handle carries the resolved metadata and a stream at byte 0 |
| `Ftp.FS.Stat` | ftp.go:118-124 | succeeds exactly when resolution does, with the resolved entry's metadata whose name is the base name |
| `Ftp.FS.ReadDir` | ftp.go:127-144 | one listing is issued; on failure an error with no entries; on success the listed entries without "." and "..", sorted by name |

## Left out

- The network. The client's `ServerConn` and `Response` are replaced by the fixed-answer models above. A listing cannot change between two calls, and a listing fails only for a directory the server does not list.
- `Streams.Response.Read` always delivers as many bytes as fit and are available. A real reader may return fewer, and that is not modelled. Bytes can come together with end-of-file or an error only on the read that reaches the end of what can be read.
- Names are Dafny strings, sequences of Unicode characters. The Go code compares names as byte strings. The model assumes names are valid UTF-8, where byte order and character order agree. A name in another encoding (Latin-1, GBK) cannot be represented.
- `Streams.Response.Close` on a stream that is already closed is modelled as doing nothing and succeeding. The client's own behaviour there is not part of this model, and the adapter never closes twice.
- `ModTime` and `Sys` (ftp.go:42-52), and the entry's time and link target. They are opaque pass-through values.
- Error message text, the context added by `errors.Wrap` and `errors.Errorf`, and the listing printed in the not-found message. Only the kind of error and its path, base name and siblings are kept.
- The `log.Printf` of a close failure (ftp.go:86). It is a diagnostic side channel.
- `Paths.Dir`: does not remove `.` and `..` elements or collapse repeated slashes inside the parent, as Go's `path.Clean` would. For names that satisfy `fs.ValidPath` the result is the same.
- `sort.Slice` is modelled by an insertion sort. Only the sorted-and-permuted result is promised, not the Go algorithm or its order among equal names.
- `fs.FileInfoToDirEntry` (ftp.go:141) is treated as the identity on the projected `fileinfo`.
- `FileInfos.FileInfo.Mode`: an unknown entry type is excluded by a precondition instead of panicking.
- Reading or closing after `Close`. The Go code does not guard against it. The model's stream reports an error.
- Concurrency and sharing one session between handles. The code has none, and they are the caller's obligation.
