/** Directory entries as the FTP client reports them, Go's `fs.FileMode`
    bits, and the `fileinfo` projection of an entry onto the `fs.FileInfo`
    contract (ftp.go:17-52). */
module FileInfos {

  /** Go's `uint64`, the type of an entry's size. */
  newtype uint64 = x: int | 0 <= x < 0x1_0000_0000_0000_0000

  /** The client's `EntryType`, an `int` enumeration. */
  type EntryType = int

  const EntryTypeFile: EntryType := 0
  const EntryTypeFolder: EntryType := 1
  const EntryTypeLink: EntryType := 2

  /** The three kinds of entry the FTP client promises to produce. */
  predicate KnownType(t: EntryType) {
    t == EntryTypeFile || t == EntryTypeFolder || t == EntryTypeLink
  }

  /** One line of a remote listing (modification time and link target left out). */
  datatype Entry = Entry(name: string, typ: EntryType, size: uint64)

  /** Go's `fs.FileMode`: a 32-bit word whose top bits give the file type. */
  type FileMode = bv32

  const ModeDir: FileMode := 1 << 31
  const ModeSymlink: FileMode := 1 << 27
  const ModeDevice: FileMode := 1 << 26
  const ModeNamedPipe: FileMode := 1 << 25
  const ModeSocket: FileMode := 1 << 24
  const ModeCharDevice: FileMode := 1 << 21
  const ModeIrregular: FileMode := 1 << 19
  /** The bits that make up a mode's type. */
  const ModeType: FileMode :=
    ModeDir | ModeSymlink | ModeNamedPipe | ModeSocket | ModeDevice | ModeCharDevice | ModeIrregular
  /** The Unix permission bits. */
  const ModePerm: FileMode := 0x1FF

  /** `FileMode.IsDir`. */
  predicate IsDirMode(m: FileMode) {
    m & ModeDir != 0
  }

  /** `FileMode.IsRegular`: no type bit set. */
  predicate IsRegularMode(m: FileMode) {
    m & ModeType == 0
  }

  /** `FileMode.Type() == ModeSymlink`. */
  predicate IsSymlinkMode(m: FileMode) {
    m & ModeType == ModeSymlink
  }

  const TwoTo63: int := 0x8000_0000_0000_0000
  const TwoTo64: int := 0x1_0000_0000_0000_0000

  /** The `fileinfo` wrapper: an `fs.FileInfo` view of one entry. */
  datatype FileInfo = FileInfo(e: Entry) {

    function Name(): string {
      e.name
    }

    /** `int64(e.Size)`: the unsigned size reinterpreted as a signed 64-bit
        integer, so sizes of 2^63 bytes and more come out negative. */
    function Size(): (r: int)
      ensures -TwoTo63 <= r < TwoTo63
      ensures (r - e.size as int) % TwoTo64 == 0
      ensures e.size as int < TwoTo63 ==> r == e.size as int
    {
      if e.size as int < TwoTo63 then e.size as int else e.size as int - TwoTo64
    }

    /** The type translation; the client never reports any other type, and
        the Go code panics if it did. */
    function Mode(): (r: FileMode)
      requires KnownType(e.typ)
      ensures IsRegularMode(r) <==> e.typ == EntryTypeFile
      ensures IsDirMode(r) <==> e.typ == EntryTypeFolder
      ensures IsSymlinkMode(r) <==> e.typ == EntryTypeLink
      ensures r & ModePerm == 0
      ensures r == 0 || r == ModeDir || r == ModeSymlink
    {
      if e.typ == EntryTypeFile then 0
      else if e.typ == EntryTypeFolder then ModeDir
      else ModeSymlink
    }

    /** `IsDir` agrees with the directory bit of `Mode` whenever `Mode` is defined. */
    function IsDir(): (r: bool)
      ensures KnownType(e.typ) ==> (r <==> IsDirMode(Mode()))
      ensures KnownType(e.typ) ==> (r <==> Mode() == ModeDir)
    {
      e.typ == EntryTypeFolder
    }
  }

  /** A plain file of 42 bytes named "data.txt" projects to exactly those values. */
  lemma ProjectionExample(e: Entry)
    requires e.name == "data.txt" && e.size == 42 && e.typ == EntryTypeFile
    ensures FileInfo(e).Name() == "data.txt"
    ensures FileInfo(e).Size() == 42
    ensures !FileInfo(e).IsDir()
    ensures FileInfo(e).Mode() == 0
  {
  }

  /** A size beyond the signed range wraps around: 2^64 - 1 bytes reads as -1. */
  lemma SizeWrapExample(e: Entry)
    requires e.size as int == TwoTo64 - 1
    ensures FileInfo(e).Size() == -1
  {
  }
}
