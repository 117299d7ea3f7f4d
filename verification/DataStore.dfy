/** DataStore: the store over an in-memory buffer and a temporary file. System calls may return
    short counts and may fail; a method that can throw says so in `ok`. */
module DataStores {
  import opened ByteStrings
  import opened ByteStore

  /** A file on disk; a path and all descriptors opened on it refer to the same object. */
  class TempFile {
    var bytes: string

    constructor ()
      ensures bytes == ""
    {
      bytes := "";
    }
  }

  /** A descriptor opened with O_APPEND: writes go to the end of the file and leave the shared
      offset there, reads start at the offset and advance it. */
  class Descriptor {
    const file: TempFile
    var pos: nat

    constructor (file: TempFile)
      ensures this.file == file && pos == 0
    {
      this.file := file;
      pos := 0;
    }

    /** write(2): any part of the data may be taken, or none. */
    method Write(data: string) returns (n: int)
      modifies this, file
      ensures n <= |data|
      ensures n <= 0 ==> file.bytes == old(file.bytes) && pos == old(pos)
      ensures n > 0 ==> file.bytes == old(file.bytes) + data[..n] && pos == |file.bytes|
    {
      n :| -1 <= n <= |data|;
      if n > 0 {
        file.bytes := file.bytes + data[..n];
        pos := |file.bytes|;
      }
    }

    /** read(2): a short count is possible, nothing only at the end of the file. */
    method Read(count: nat) returns (ok: bool, data: string)
      requires pos <= |file.bytes|
      modifies this`pos
      ensures !ok ==> pos == old(pos) && data == ""
      ensures ok ==> |data| <= count && pos == old(pos) + |data| <= |file.bytes|
      ensures ok ==> data == file.bytes[old(pos)..pos]
      ensures ok && data == "" ==> count == 0 || pos == |file.bytes|
    {
      ok := *;
      data := "";
      if ok && count > 0 && pos < |file.bytes| {
        var n: nat :| 1 <= n <= count && pos + n <= |file.bytes|;
        data := file.bytes[pos..pos + n];
        pos := pos + n;
      }
    }
  }

  /** write_all: everything is written, or the call throws with a part of it written. */
  method WriteAll(fd: Descriptor, data: string) returns (ok: bool)
    modifies fd, fd.file
    ensures old(fd.file.bytes) <= fd.file.bytes <= old(fd.file.bytes) + data
    ensures ok ==> fd.file.bytes == old(fd.file.bytes) + data
    ensures ok && data != "" ==> fd.pos == |fd.file.bytes|
    ensures data == "" ==> ok && fd.pos == old(fd.pos)
  {
    var offset := 0;
    assert data[..0] == "";
    while offset < |data|
      invariant offset <= |data|
      invariant fd.file.bytes == old(fd.file.bytes) + data[..offset]
      invariant offset > 0 ==> fd.pos == |fd.file.bytes|
      invariant offset == 0 ==> fd.pos == old(fd.pos)
    {
      var written := fd.Write(data[offset..]);
      if written <= 0 {
        return false;
      }
      assert data[..offset + written] == data[..offset] + data[offset..][..written];
      offset := offset + written;
    }
    assert data[..offset] == data;
    ok := true;
  }

  /** copy_fd_contents: `total` bytes of the source file, read through a descriptor of its own. */
  method CopyContents(source: TempFile, target: Descriptor, total: nat) returns (ok: bool)
    requires target.file != source && total <= |source.bytes|
    modifies target, target.file
    ensures ok ==> target.file.bytes == old(target.file.bytes) + source.bytes[..total]
    ensures ok && total > 0 ==> target.pos == |target.file.bytes|
    ensures ok && total == 0 ==> target.pos == old(target.pos)
  {
    var opens: bool := *;
    if !opens {
      return false;
    }
    var from := new Descriptor(source);
    var offset := 0;
    assert source.bytes[..0] == "";
    while offset < total
      invariant offset <= total && from.file == source && from.pos == offset
      invariant target.file.bytes == old(target.file.bytes) + source.bytes[..offset]
      invariant offset > 0 ==> target.pos == |target.file.bytes|
      invariant offset == 0 ==> target.pos == old(target.pos)
    {
      var got, piece := from.Read(Min(8192, total - offset));
      if !got || piece == "" {
        return false;
      }
      var wrote := WriteAll(target, piece);
      if !wrote {
        return false;
      }
      assert source.bytes[..offset + |piece|] == source.bytes[..offset] + piece;
      offset := offset + |piece|;
    }
    ok := true;
  }

  /** The read loop: short counts are made up for until the end of the file. */
  method ReadFully(fd: Descriptor, count: nat) returns (ok: bool, bytes: string)
    requires fd.pos <= |fd.file.bytes|
    modifies fd`pos
    ensures fd.pos <= |fd.file.bytes|
    ensures ok ==> |bytes| == Min(count, |fd.file.bytes| - old(fd.pos))
    ensures ok ==> fd.pos == old(fd.pos) + |bytes| && bytes == fd.file.bytes[old(fd.pos)..fd.pos]
    ensures !ok ==> bytes == ""
  {
    bytes := "";
    while |bytes| < count
      invariant |bytes| <= count && fd.pos == old(fd.pos) + |bytes| <= |fd.file.bytes|
      invariant bytes == fd.file.bytes[old(fd.pos)..fd.pos]
    {
      var got, piece := fd.Read(count - |bytes|);
      if !got {
        return false, "";
      }
      if piece == "" {
        break;
      }
      assert fd.file.bytes[old(fd.pos)..fd.pos] == bytes + piece;
      bytes := bytes + piece;
    }
    ok := true;
  }

  class DataStore {
    var mode: Mode
    var bufferLimit: nat
    var currentSize: nat
    var readOffset: nat
    var dataBuffer: string
    var fileFd: Descriptor?
    var path: TempFile?
    ghost var Repr: set<object>

    /** What is owned; holds even after a call that threw. */
    ghost predicate Owned()
      reads this, Repr
      ensures Owned() ==> this in Repr
    {
      && this in Repr
      && (path != null ==> path in Repr)
      && (fileFd != null ==> fileFd in Repr && path != null && fileFd.file == path)
    }

    ghost predicate Valid()
      reads this, Repr
      ensures Valid() ==> Owned()
    {
      && Owned()
      && readOffset <= currentSize
      && (mode == Ram ==> fileFd == null && path == null && |dataBuffer| == currentSize <= bufferLimit)
      && (mode == File ==> fileFd != null && dataBuffer == "" &&
                           |path.bytes| == currentSize && fileFd.pos <= currentSize)
    }

    ghost function Model(): (s: Store)
      requires Valid()
      reads this, Repr
      ensures ByteStore.Valid(s) && |s.data| == currentSize && s.mode == mode && s.cursor == readOffset
      ensures s.limit == bufferLimit
    {
      Store(mode, bufferLimit, if mode == Ram then dataBuffer else path.bytes, readOffset,
            if mode == Ram then 0 else fileFd.pos)
    }

    constructor ()
      ensures Valid() && fresh(Repr) && Model() == Empty(BUFFER_LIMIT)
    {
      mode, bufferLimit, currentSize, readOffset, dataBuffer := Ram, BUFFER_LIMIT, 0, 0, "";
      fileFd, path := null, null;
      Repr := {this};
    }

    /** On failure nothing already stored is lost. */
    method Append(data: string) returns (ok: bool)
      requires Valid()
      modifies Repr
      ensures Owned() && fresh(Repr - old(Repr))
      ensures ok ==> Valid() && Model() == Appended(old(Model()), data)
      ensures !ok ==> currentSize == old(currentSize) &&
                      if mode == Ram then Valid() && Model() == old(Model())
                      else path != null && old(Model()).data <= path.bytes <= old(Model()).data + data
    {
      if data == "" {
        return true;
      }
      if mode == Ram && currentSize + |data| <= bufferLimit {
        dataBuffer := dataBuffer + data;
        currentSize := currentSize + |data|;
        return true;
      }
      if mode == Ram {
        ok := SwitchToFileMode();
        if !ok {
          return;
        }
      }
      ok := WriteAll(fileFd, data);
      if ok {
        currentSize := currentSize + |data|;
      }
    }

    /** On failure the store stays in RAM mode, unchanged. */
    method SwitchToFileMode() returns (ok: bool)
      requires Valid()
      modifies Repr
      ensures Valid() && fresh(Repr - old(Repr))
      ensures Model() == if ok then Spilled(old(Model())) else old(Model())
      ensures ok ==> mode == File
      ensures !ok ==> mode == Ram
    {
      if mode == File {
        return true;
      }
      var opens: bool := *;
      if !opens {
        return false;
      }
      path := new TempFile();
      fileFd := new Descriptor(path);
      Repr := Repr + {path, fileFd};
      if dataBuffer != "" {
        ok := WriteAll(fileFd, dataBuffer);
        if !ok {
          fileFd := null;
          path := null;
          return;
        }
      }
      dataBuffer := "";
      mode := File;
      ok := true;
    }

    method Read(length: nat) returns (ok: bool, bytes: string)
      requires Valid()
      modifies Repr
      ensures Valid() && Repr == old(Repr)
      ensures ok ==> bytes == ReadBytes(old(Model()), length) && Model() == AfterRead(old(Model()), length)
      ensures !ok ==> Model().data == old(Model()).data && readOffset == old(readOffset)
    {
      if length == 0 || readOffset >= currentSize {
        return true, "";
      }
      var toRead := Min(length, currentSize - readOffset);
      if mode == Ram {
        bytes := dataBuffer[readOffset..readOffset + toRead];
        readOffset := readOffset + toRead;
        return true, bytes;
      }
      ok, bytes := ReadFully(fileFd, toRead);
      if ok {
        readOffset := readOffset + |bytes|;
      }
    }

    /** Reopening the file moves the descriptor's offset back to the start as well. */
    method ResetReadPosition() returns (ok: bool)
      requires Valid()
      modifies Repr
      ensures Owned() && fresh(Repr - old(Repr))
      ensures ok ==> Valid() && Model() == Rewound(old(Model()))
      ensures old(mode) == Ram ==> ok
    {
      readOffset := 0;
      if mode == File && fileFd != null {
        fileFd := null;
        var opens: bool := *;
        if !opens {
          return false;
        }
        fileFd := new Descriptor(path);
        Repr := Repr + {fileFd};
      }
      ok := true;
    }

    method Clear()
      requires Owned()
      modifies Repr
      ensures Valid() && fresh(Repr - old(Repr))
      ensures Model() == Empty(bufferLimit) && bufferLimit == old(bufferLimit)
    {
      dataBuffer, currentSize, readOffset, mode := "", 0, 0, Ram;
      fileFd := null;
      path := null;
    }

    /** The copy constructor; in file mode the copy has a file of its own. */
    static method CopyOf(other: DataStore) returns (ok: bool, c: DataStore)
      requires other.Valid()
      ensures fresh(c.Repr)
      ensures ok ==> c.Valid() && c.Model() == Copied(other.Model())
    {
      c := new DataStore();
      c.bufferLimit := other.bufferLimit;
      if other.mode == Ram {
        c.dataBuffer := other.dataBuffer;
        c.currentSize := other.currentSize;
        return true, c;
      }
      ok := c.SwitchToFileMode();
      if !ok {
        return;
      }
      c.currentSize := other.currentSize;
      if c.currentSize > 0 {
        ok := CopyContents(other.path, c.fileFd, c.currentSize);
        assert other.path.bytes[..other.currentSize] == other.path.bytes;
      }
    }

    /** Assignment takes its operand by value and swaps with the copy. */
    method Assign(other: DataStore) returns (ok: bool)
      requires Valid() && other.Valid()
      modifies Repr
      ensures Valid() && fresh(Repr - old(Repr))
      ensures Model() == if ok then Copied(old(other.Model())) else old(Model())
    {
      var c: DataStore;
      ok, c := CopyOf(other);
      if !ok {
        return;
      }
      mode, bufferLimit, currentSize, readOffset, dataBuffer :=
        c.mode, c.bufferLimit, c.currentSize, c.readOffset, c.dataBuffer;
      fileFd, path := c.fileFd, c.path;
      Repr := {this} + c.Repr;
    }
  }
}
