/** Job files as the storage backend handles them: the whole file is loaded when
    it is opened, read and changed in memory, and written back on close. */
module FileHandles {
  import opened Text

  const O_RDONLY := 0
  const O_WRONLY := 1
  const O_RDWR := 2
  const O_CREAT := 64

  const READ_STEP := 8192

  predicate Creates(mode: nat) {
    mode % 4 == O_RDWR && mode / O_CREAT % 2 == 1
  }

  class Disk {
    var files: map<Bytes, Bytes>

    constructor (files: map<Bytes, Bytes>)
      ensures this.files == files
    {
      this.files := files;
    }
  }

  /** gzread: up to `step` bytes from a position. */
  function ReadChunk(data: Bytes, at: nat, step: nat): Bytes
    requires at <= |data|
  {
    data[at..if |data| - at < step then |data| else at + step]
  }

  /** s with buf written over it at off <= |s|, growing it when needed. */
  function Splice(s: Bytes, off: nat, buf: Bytes): Bytes
    requires off <= |s|
  {
    s[..off] + buf + (if off + |buf| < |s| then s[off + |buf|..] else [])
  }

  class FileHandle {
    const filename: Bytes
    const filemode: nat
    var filedata: array<byte>
    var eof: nat
    var offset: nat
    var modified: bool

    ghost predicate Valid()
      reads this
    {
      filedata.Length == eof
    }

    ghost function View(): Bytes
      reads this, filedata
    {
      filedata[..]
    }

    /** The loading part of open: chunks are appended until one comes short. */
    constructor Load(fname: Bytes, mode: nat, data: Bytes)
      ensures Valid() && fresh(filedata) && View() == data
      ensures filename == fname && filemode == mode && !modified
    {
      filename, filemode := fname, mode;
      modified, offset := false, 0;
      var loaded: Bytes := [];
      var diff := READ_STEP;
      while diff == READ_STEP
        invariant 0 <= diff <= READ_STEP
        invariant |loaded| <= |data| && loaded == data[..|loaded|]
        invariant diff < READ_STEP ==> |loaded| == |data|
        decreases |data| - |loaded| + diff, diff
      {
        var buf := ReadChunk(data, |loaded|, READ_STEP);
        diff := |buf|;
        assert data[..|loaded| + diff] == data[..|loaded|] + buf;
        loaded := loaded + buf;
      }
      assert data[..|data|] == data;
      filedata := new byte[|loaded|](i requires 0 <= i < |loaded| => loaded[i]);
      eof := |loaded|;
    }

    /** glite_jppsbe_pread, for offsets up to the end of the file. */
    method Pread(nbytes: nat, off: nat) returns (buf: Bytes)
      requires Valid() && off <= eof
      modifies `offset
      ensures Valid() && View() == old(View())
      ensures buf == ReadChunk(View(), off, nbytes)
      ensures |buf| == (if off + nbytes <= eof then nbytes else eof - off)
      ensures forall i :: 0 <= i < |buf| ==> buf[i] == View()[off + i]
    {
      var toRead := if off + nbytes > eof then eof - off else nbytes;
      buf := filedata[off..off + toRead];
      offset := off + toRead;
    }

    /** The file grown to the given size; bytes past the old end are not set. */
    method Grow(size: nat)
      requires Valid() && size >= eof
      modifies `filedata, `eof
      ensures Valid() && fresh(filedata) && eof == size
      ensures View()[..old(eof)] == old(View())
    {
      var grown := new byte[size];
      forall i | 0 <= i < eof { grown[i] := filedata[i]; }
      assert grown[..old(eof)] == old(filedata[..]);
      filedata, eof := grown, size;
    }

    /** glite_jppsbe_pwrite. A read-only handle is left alone, and 0 is returned
        all the same. */
    method Pwrite(buf: Bytes, off: nat)
      requires Valid()
      modifies this, filedata
      ensures Valid() && (filedata == old(filedata) || fresh(filedata))
      ensures filemode % 4 == O_RDONLY ==> View() == old(View()) && modified == old(modified)
      ensures filemode % 4 != O_RDONLY && off <= old(eof) ==> View() == Splice(old(View()), off, buf)
      ensures filemode % 4 != O_RDONLY ==>
                modified && eof >= off + |buf| && View()[off..off + |buf|] == buf
      ensures filemode % 4 != O_RDONLY ==> eof == if old(eof) >= off + |buf| then old(eof) else off + |buf|
      ensures filemode % 4 != O_RDONLY ==>
                forall k :: 0 <= k < old(eof) && !(off <= k < off + |buf|) ==> View()[k] == old(View())[k]
    {
      if filemode % 4 == O_RDONLY { return; }
      if off + |buf| > eof {
        Grow(off + |buf|);
      }
      ghost var before := filedata[..];
      for i := 0 to |buf|
        invariant Valid() && eof >= off + |buf| && (filedata == old(filedata) || fresh(filedata))
        invariant |before| == filedata.Length
        invariant forall k :: 0 <= k < filedata.Length ==>
          filedata[k] == if off <= k < off + i then buf[k - off] else before[k]
      {
        filedata[off + i] := buf[i];
      }
      modified := true;
      assert View()[off..off + |buf|] == buf;
      if off <= old(eof) {
        assert View() == Splice(old(View()), off, buf);
      }
    }

    /** glite_jppsbe_append: no look at the mode. */
    method Append(buf: Bytes)
      requires Valid()
      modifies this, filedata
      ensures Valid() && fresh(filedata)
      ensures modified && View() == old(View()) + buf
    {
      var at := eof;
      Grow(eof + |buf|);
      for i := 0 to |buf|
        invariant Valid() && eof == at + |buf| && fresh(filedata)
        invariant filedata[..at + i] == old(filedata[..]) + buf[..i]
      {
        filedata[at + i] := buf[i];
        assert filedata[..at + i + 1] == filedata[..at + i] + [buf[i]];
      }
      modified := true;
    }

    /** glite_jppsbe_close_file: a changed file is written back whole. */
    method Close(disk: Disk)
      requires Valid()
      modifies disk
      ensures disk.files == if modified then old(disk.files)[filename := View()] else old(disk.files)
    {
      if modified {
        assert filedata[..eof] == filedata[..];
        disk.files := disk.files[filename := filedata[..eof]];
      }
    }
  }

  /** What open finds: the file's bytes, or nothing for a new one. */
  function OpenView(files: map<Bytes, Bytes>, fname: Bytes, mode: nat): Option<Bytes> {
    if mode % 4 == 3 then None
    else if fname in files then Some(files[fname])
    else if Creates(mode) then Some([])
    else None
  }

  /** An existing file opens with its bytes in any mode but the fourth, a missing one
      empty, for reading and writing with leave to create only. */
  lemma OpenViewMeans(files: map<Bytes, Bytes>, fname: Bytes, mode: nat)
    ensures OpenView(files, fname, mode).Some? <==>
      mode % 4 != 3 && (fname in files || (mode % 4 == 2 && mode / 64 % 2 == 1))
    ensures OpenView(files, fname, mode).Some? ==>
      OpenView(files, fname, mode).value == if fname in files then files[fname] else []
  {
  }

  /** glite_jppsbe_open_file; null when the file cannot be opened. */
  method OpenFile(disk: Disk, fname: Bytes, mode: nat) returns (h: FileHandle?)
    modifies disk
    ensures h == null <==> OpenView(old(disk.files), fname, mode).None?
    ensures h != null ==> fresh(h) && fresh(h.filedata) && h.Valid() && !h.modified
                          && h.filename == fname && h.filemode == mode
                          && h.View() == OpenView(old(disk.files), fname, mode).value
    ensures disk.files == if fname !in old(disk.files) && Creates(mode) then old(disk.files)[fname := []]
                          else old(disk.files)
  {
    if mode % 4 == 3 || (fname !in disk.files && !Creates(mode)) {
      return null;
    }
    if fname !in disk.files {
      disk.files := disk.files[fname := []];
    }
    h := new FileHandle.Load(fname, mode, disk.files[fname]);
  }

  // ----- whole sessions ------------------------------------------------------------

  datatype FileOp = Read(nbytes: nat, at: nat) | Write(buf: Bytes, off: nat) | Extend(tail: Bytes)

  function ApplyOp(mode: nat, s: Bytes, op: FileOp): Bytes {
    match op
    case Read(_, _) => s
    case Write(buf, off) => if mode % 4 == O_RDONLY || off > |s| then s else Splice(s, off, buf)
    case Extend(tail) => s + tail
  }

  function ApplyOps(mode: nat, s: Bytes, ops: seq<FileOp>): Bytes
    decreases ops
  {
    if ops == [] then s else ApplyOps(mode, ApplyOp(mode, s, ops[0]), ops[1..])
  }

  predicate OpWrites(mode: nat, op: FileOp) {
    op.Extend? || (op.Write? && mode % 4 != O_RDONLY)
  }

  predicate OpInRange(s: Bytes, op: FileOp) {
    match op
    case Read(_, at) => at <= |s|
    case Write(_, off) => off <= |s|
    case Extend(_) => true
  }

  function OpResult(s: Bytes, op: FileOp): seq<Bytes>
    requires OpInRange(s, op)
  {
    if op.Read? then [ReadChunk(s, op.at, op.nbytes)] else []
  }

  /** Offsets stay within the file as it is when they are used. */
  predicate InRange(mode: nat, s: Bytes, ops: seq<FileOp>)
    decreases ops
  {
    ops == [] || (OpInRange(s, ops[0]) && InRange(mode, ApplyOp(mode, s, ops[0]), ops[1..]))
  }

  /** What the reads of a session return, in order: each the bytes the plain string
      has at that point. */
  function ReadResults(mode: nat, s: Bytes, ops: seq<FileOp>): seq<Bytes>
    requires InRange(mode, s, ops)
    decreases ops
  {
    if ops == [] then []
    else OpResult(s, ops[0]) + ReadResults(mode, ApplyOp(mode, s, ops[0]), ops[1..])
  }

  /** Does a session change the handle's modified flag? */
  predicate Writes(mode: nat, ops: seq<FileOp>) {
    exists i :: 0 <= i < |ops| && OpWrites(mode, ops[i])
  }

  /** One call on an open file. */
  method OneOp(h: FileHandle, op: FileOp) returns (bufs: seq<Bytes>)
    requires h.Valid() && OpInRange(h.View(), op)
    modifies h, h.filedata
    ensures h.Valid() && (h.filedata == old(h.filedata) || fresh(h.filedata))
    ensures h.View() == ApplyOp(h.filemode, old(h.View()), op) && bufs == OpResult(old(h.View()), op)
    ensures h.modified == (old(h.modified) || OpWrites(h.filemode, op))
  {
    bufs := [];
    match op {
      case Read(nbytes, at) =>
        var buf := h.Pread(nbytes, at);
        bufs := [buf];
      case Write(buf, off) =>
        h.Pwrite(buf, off);
      case Extend(tail) =>
        h.Append(tail);
    }
  }

  /** What is left to do of a session: the final bytes and the reads still to come. */
  ghost predicate Remains(mode: nat, s: Bytes, ops: seq<FileOp>, i: nat, last: Bytes, bufs: seq<Bytes>) {
    i <= |ops| && InRange(mode, s, ops[i..]) && ApplyOps(mode, s, ops[i..]) == last
    && ReadResults(mode, s, ops[i..]) == bufs
  }

  lemma SessionTurn(mode: nat, s: Bytes, ops: seq<FileOp>, i: nat, last: Bytes, bufs: seq<Bytes>)
    returns (more: seq<Bytes>)
    requires i < |ops| && Remains(mode, s, ops, i, last, bufs)
    ensures OpInRange(s, ops[i]) && bufs == OpResult(s, ops[i]) + more
    ensures Remains(mode, ApplyOp(mode, s, ops[i]), ops, i + 1, last, more)
  {
    assert ops[i..][0] == ops[i] && ops[i..][1..] == ops[i + 1..];
    more := ReadResults(mode, ApplyOp(mode, s, ops[i]), ops[i + 1..]);
  }

  lemma SessionEnds(mode: nat, s: Bytes, ops: seq<FileOp>, last: Bytes, bufs: seq<Bytes>)
    requires Remains(mode, s, ops, |ops|, last, bufs)
    ensures last == s && bufs == []
  {
    assert ops[|ops|..] == [];
  }

  /** The calls of a session on an open file. */
  method RunOps(h: FileHandle, ops: seq<FileOp>) returns (bufs: seq<Bytes>)
    requires h.Valid() && InRange(h.filemode, h.View(), ops)
    modifies h, h.filedata
    ensures h.Valid() && (h.filedata == old(h.filedata) || fresh(h.filedata))
    ensures h.View() == ApplyOps(h.filemode, old(h.View()), ops)
    ensures bufs == ReadResults(h.filemode, old(h.View()), ops)
    ensures h.modified ==> old(h.modified) || Writes(h.filemode, ops)
    ensures !h.modified ==> h.View() == old(h.View())
  {
    ghost var last, results := ApplyOps(h.filemode, h.View(), ops), ReadResults(h.filemode, h.View(), ops);
    ghost var left := results;
    assert ops[0..] == ops;
    bufs := [];
    for i := 0 to |ops|
      invariant h.Valid() && (h.filedata == old(h.filedata) || fresh(h.filedata))
      invariant Remains(h.filemode, h.View(), ops, i, last, left) && results == bufs + left
      invariant !h.modified ==> h.View() == old(h.View())
      invariant h.modified ==> old(h.modified) || Writes(h.filemode, ops)
    {
      left := SessionTurn(h.filemode, h.View(), ops, i, last, left);
      var more := OneOp(h, ops[i]);
      assert bufs + (more + left) == bufs + more + left;
      bufs := bufs + more;
    }
    SessionEnds(h.filemode, h.View(), ops, last, left);
  }

  /** A session of reads, writes and appends acts on the stored file as on a plain
      byte string, in what it reads and in what it leaves; one that never writes leaves
      the disk as it was. */
  method Session(disk: Disk, fname: Bytes, mode: nat, ops: seq<FileOp>) returns (ok: bool, bufs: seq<Bytes>)
    requires OpenView(disk.files, fname, mode).Some? ==>
               InRange(mode, OpenView(disk.files, fname, mode).value, ops)
    modifies disk
    ensures ok <==> OpenView(old(disk.files), fname, mode).Some?
    ensures ok ==> var first := OpenView(old(disk.files), fname, mode).value;
      disk.files == old(disk.files)[fname := ApplyOps(mode, first, ops)] && bufs == ReadResults(mode, first, ops)
    ensures !ok || (fname in old(disk.files) && !Writes(mode, ops)) ==> disk.files == old(disk.files)
  {
    var h := OpenFile(disk, fname, mode);
    if h == null { return false, []; }
    bufs := RunOps(h, ops);
    h.Close(disk);
    ok := true;
  }
}
