/**
 * The in-memory file system the importer hands to the archive lister
 * (backend/internal/importer/memory_filesystem.go).
 */
module MemoryFs {
  import opened Wrappers

  newtype byte = x: int | 0 <= x < 256

  /** The `io/fs` errors these files return. */
  datatype FsError = ErrClosed | ErrInvalid | ErrNotExist | EOF

  /** `fs.PathError{Op, Path, Err}`. */
  datatype PathError = PathError(op: string, path: string, err: FsError)

  /** `MemoryFileInfo`: a name and a size. */
  datatype FileInfo = FileInfo(name: string, size: nat)

  /** The `io.Seek*` constants. */
  const SeekStart: int := 0
  const SeekCurrent: int := 1
  const SeekEnd: int := 2

  /** The position a `Seek` moves to, or why it does not move. */
  function SeekTarget(pos: int, size: nat, offset: int, whence: int): (r: Result<nat, FsError>)
    ensures r.Ok? ==> r.value <= size
    ensures r.Err? ==> r.error == ErrInvalid
    ensures whence !in {SeekStart, SeekCurrent, SeekEnd} ==> r.Err?
  {
    if whence != SeekStart && whence != SeekCurrent && whence != SeekEnd then Err(ErrInvalid)
    else
      var abs := if whence == SeekStart then offset
                 else if whence == SeekCurrent then pos + offset
                 else size + offset;
      if abs < 0 then Err(ErrInvalid)
      else if abs > size then Ok(size)
      else Ok(abs)
  }

  /** A known whence moves to the requested target clamped to the end, and
      fails exactly when the target is negative. */
  lemma SeekTargetMeaning(pos: int, size: nat, offset: int, whence: int)
    requires whence in {SeekStart, SeekCurrent, SeekEnd}
    ensures var abs := if whence == SeekStart then offset
                       else if whence == SeekCurrent then pos + offset
                       else size + offset;
      && (SeekTarget(pos, size, offset, whence).Err? <==> abs < 0)
      && (abs >= 0 ==> SeekTarget(pos, size, offset, whence) == Ok(if abs > size then size else abs))
  {
  }

  /** Seeking to the current position, or to the end, and seeking there again
      gives the same place. */
  lemma SeekFixedPoints(pos: nat, size: nat, offset: int)
    requires pos <= size
    ensures SeekTarget(pos, size, 0, SeekCurrent) == Ok(pos)
    ensures SeekTarget(pos, size, 0, SeekEnd) == Ok(size)
    ensures var r := SeekTarget(pos, size, offset, SeekStart);
      r.Ok? ==> SeekTarget(r.value, size, 0, SeekCurrent) == r
  {
  }

  /** `MemoryFile`: one file's content with a read position. */
  class MemoryFile {
    const name: string
    const content: seq<byte>
    var pos: int
    var closed: bool

    ghost predicate Valid()
      reads this
    {
      0 <= pos <= |content|
    }

    constructor (name: string, content: seq<byte>)
      ensures Valid() && this.name == name && this.content == content
      ensures pos == 0 && !closed
    {
      this.name := name;
      this.content := content;
      pos := 0;
      closed := false;
    }

    /** `Stat`: the file's name and its content length. */
    function Stat(): (info: FileInfo)
      ensures info.name == name && info.size == |content|
    {
      FileInfo(name, |content|)
    }

    /** `Read`: copy as much as fits from the position on, advance past it,
        and report `EOF` together with the bytes that reach the end. */
    method Read(p: array<byte>) returns (n: nat, err: Option<FsError>)
      requires Valid()
      modifies this`pos, p
      ensures Valid()
      ensures old(closed) ==> n == 0 && err == Some(ErrClosed) && pos == old(pos) && p[..] == old(p[..])
      ensures !closed && old(pos) == |content| ==> n == 0 && err == Some(EOF) && pos == old(pos) && p[..] == old(p[..])
      ensures !closed && old(pos) < |content| ==>
        && n == (if p.Length < |content| - old(pos) then p.Length else |content| - old(pos))
        && p[..n] == content[old(pos)..old(pos) + n] && p[n..] == old(p[n..])
        && pos == old(pos) + n
        && (err == Some(EOF) <==> pos == |content|) && (err == None || err == Some(EOF))
    {
      if closed {
        return 0, Some(ErrClosed);
      }
      if pos >= |content| {
        return 0, Some(EOF);
      }
      n := if p.Length < |content| - pos then p.Length else |content| - pos;
      var from := pos;
      forall i | 0 <= i < n {
        p[i] := content[from + i];
      }
      pos := pos + n;
      err := None;
      if pos >= |content| {
        err := Some(EOF);
      }
    }

    /** `Close`: marks the file closed; closing again changes nothing. */
    method Close()
      modifies this`closed
      ensures closed
    {
      if closed {
        return;
      }
      closed := true;
    }

    /** `Seek`: move to the place `SeekTarget` gives; a closed file, an unknown
        whence or a negative target leave the position where it was. */
    method Seek(offset: int, whence: int) returns (abs: int, err: Option<FsError>)
      requires Valid()
      modifies this`pos
      ensures Valid()
      ensures closed ==> abs == 0 && err == Some(ErrClosed) && pos == old(pos)
      ensures !closed ==> match SeekTarget(old(pos), |content|, offset, whence)
        case Ok(t) => abs == t && pos == t && err == None
        case Err(e) => abs == 0 && err == Some(e) && pos == old(pos)
    {
      if closed {
        return 0, Some(ErrClosed);
      }
      if whence == SeekStart {
        abs := offset;
      } else if whence == SeekCurrent {
        abs := pos + offset;
      } else if whence == SeekEnd {
        abs := |content| + offset;
      } else {
        return 0, Some(ErrInvalid);
      }
      if abs < 0 {
        return 0, Some(ErrInvalid);
      }
      if abs > |content| {
        abs := |content|;
      }
      pos := abs;
      err := None;
    }
  }

  /** `MemoryFileSystem`: preloaded contents by file name. */
  class MemoryFileSystem {
    const files: map<string, seq<byte>>

    constructor (files: map<string, seq<byte>>)
      ensures this.files == files
    {
      this.files := files;
    }

    /** `Open`: a fresh file at position 0 for a known name, `ErrNotExist` otherwise. */
    method Open(name: string) returns (f: MemoryFile?, err: Option<PathError>)
      ensures name in files ==>
        f != null && fresh(f) && err == None && f.Valid()
        && f.name == name && f.content == files[name] && f.pos == 0 && !f.closed
      ensures name !in files ==> f == null && err == Some(PathError("open", name, ErrNotExist))
    {
      if name in files {
        f := new MemoryFile(name, files[name]);
        return f, None;
      }
      return null, Some(PathError("open", name, ErrNotExist));
    }

    /** `Stat`: the size of a known file, `ErrNotExist` otherwise. */
    function Stat(path: string): (r: Result<FileInfo, PathError>)
      ensures path in files <==> r.Ok?
      ensures r.Ok? ==> r.value == FileInfo(path, |files[path]|)
      ensures r.Err? ==> r.error == PathError("stat", path, ErrNotExist)
    {
      if path in files then Ok(FileInfo(path, |files[path]|))
      else Err(PathError("stat", path, ErrNotExist))
    }
  }

  /** The file system's `Stat` and the opened file's `Stat` agree. */
  method StatAgrees(fsys: MemoryFileSystem, name: string) returns (same: bool)
    requires name in fsys.files
    ensures same
  {
    var f, _ := fsys.Open(name);
    same := fsys.Stat(name) == Ok(f.Stat());
  }
}
