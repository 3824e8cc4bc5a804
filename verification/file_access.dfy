/**
 * The file operations of the update tracker (`get_file_timestamp`,
 * `read_file_contents`, `write_file_contents`) over an abstract file system:
 * a map from path to the file's modification time, its content and whether
 * it can be opened for reading. The POSIX variant is modelled.
 */
module FileAccess {
  import opened Wrappers
  import opened JsonField

  /** A file as the tracker sees it through `stat` and `fopen`. */
  datatype FileEntry = FileEntry(mtime: int, content: string, readable: bool)

  type Files = map<string, FileEntry>

  /** `get_file_timestamp`: the modification time, or 0 when `stat` fails. */
  function Timestamp(files: Files, path: string): (ts: int)
    ensures path !in files ==> ts == 0
    ensures ts != 0 ==> path in files && ts == files[path].mtime
  {
    if path in files then files[path].mtime else 0
  }

  /**
   * `read_file_contents` into a buffer of `maxSize` characters: None when the
   * file cannot be opened or no byte is read, otherwise the first bytes of the
   * file, at most `maxSize - 1` of them.
   */
  function ReadFile(files: Files, path: string, maxSize: nat): (r: Option<string>)
    requires maxSize >= 1
    ensures r.None? <==>
      path !in files || !files[path].readable || files[path].content == [] || maxSize == 1
    ensures r.Some? ==>
      var c := files[path].content;
      |r.value| == (if |c| < maxSize then |c| else maxSize - 1) && r.value == c[..|r.value|]
  {
    if path !in files || !files[path].readable then None
    else
      var c := files[path].content;
      var n := if |c| < maxSize then |c| else maxSize - 1;
      if n > 0 then Some(c[..n]) else None
  }

  /** The buffer after a successful read: the bytes read, then NULs. */
  function Padded(data: string, size: nat): (b: string)
    requires |data| <= size
    ensures |b| == size && b[..|data|] == data
    ensures forall i :: |data| <= i < size ==> b[i] == '\0'
  {
    data + seq(size - |data|, _ => '\0')
  }

  /** The extractor reads a padded buffer as the data it holds. */
  lemma ParseOfPadded(data: string, size: nat, key: string, maxLen: nat)
    requires |data| < size && maxLen >= 1
    ensures ParseJsonValue(Padded(data, size), key, maxLen) == ParseJsonValue(data, key, maxLen)
  {
    var rest := seq(size - |data| - 1, _ => '\0');
    assert Padded(data, size) == data + ['\0'] + rest;
    ParseStopsAtNul(data, rest, key, maxLen);
  }

  /** The file system the tracker and the simulator share. */
  class FileSystem {
    var files: Files
    /** Whether `fopen(path, "wb")` succeeds, possibly after creating `tmp`. */
    var acceptsWrites: bool

    constructor(files0: Files, acceptsWrites0: bool)
      ensures files == files0 && acceptsWrites == acceptsWrites0
    {
      files := files0;
      acceptsWrites := acceptsWrites0;
    }

    method GetFileTimestamp(path: string) returns (ts: int)
      ensures ts == Timestamp(files, path)
      ensures ts != 0 ==> path in files && ts == files[path].mtime
    {
      if path in files {
        ts := files[path].mtime;
      } else {
        ts := 0;
      }
    }

    /**
     * Clears `buffer` once the file is open, then copies in at most
     * `buffer.Length - 1` bytes; succeeds when at least one byte was read.
     */
    method ReadFileContents(path: string, buffer: array<char>) returns (ok: bool)
      requires buffer.Length >= 1
      modifies buffer
      ensures ok == ReadFile(files, path, buffer.Length).Some?
      ensures ok ==> buffer[..] == Padded(ReadFile(files, path, buffer.Length).value, buffer.Length)
      ensures path !in files || !files[path].readable ==> buffer[..] == old(buffer[..])
      ensures !ok && path in files && files[path].readable ==>
        forall j :: 0 <= j < buffer.Length ==> buffer[j] == '\0'
    {
      if path !in files || !files[path].readable {
        return false;
      }
      var i := 0;
      while i < buffer.Length
        invariant 0 <= i <= buffer.Length
        invariant forall j :: 0 <= j < i ==> buffer[j] == '\0'
      {
        buffer[i] := '\0';
        i := i + 1;
      }
      var c := files[path].content;
      var n := if |c| < buffer.Length then |c| else buffer.Length - 1;
      i := 0;
      while i < n
        invariant 0 <= i <= n
        invariant buffer[..i] == c[..i]
        invariant forall j :: i <= j < buffer.Length ==> buffer[j] == '\0'
      {
        buffer[i] := c[i];
        i := i + 1;
        assert buffer[..i] == buffer[..i - 1] + [c[i - 1]];
      }
      ok := n > 0;
      if ok {
        assert buffer[..] == Padded(c[..n], buffer.Length);
      }
    }

    /**
     * Writes the C string `content` when the file can be opened for writing;
     * the file then has the new modification time `mtime`.
     */
    method WriteFileContents(path: string, content: string, mtime: int) returns (ok: bool)
      modifies this
      ensures ok == old(acceptsWrites) && acceptsWrites == old(acceptsWrites)
      ensures files == if ok then old(files)[path := FileEntry(mtime, CStr(content), true)] else old(files)
    {
      ok := acceptsWrites;
      if ok {
        files := files[path := FileEntry(mtime, CStr(content), true)];
      }
    }
  }
}
