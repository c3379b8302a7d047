/** The log sink of log_writer.go: it keeps console output in memory until a
    destination file is chosen, then hands the kept bytes to that file and
    writes everything after straight to it. */
module LogWriting {
  import opened Base

  /** An open `*os.File`, as far as the writer uses it: a path, the bytes
      written to it so far, and whether it is still open.  How many bytes the
      operating system accepts on each write is a parameter, so that short
      writes can be modelled. */
  class LogFile {
    const path: string
    var contents: seq<byte>
    var open: bool

    /** `os.Create` that succeeded: the file exists, is empty and is open. */
    constructor Create(path: string)
      ensures this.path == path && contents == [] && open
    {
      this.path := path;
      contents := [];
      open := true;
    }

    /** `(*os.File).Write`: the operating system takes the first `accepted`
        bytes of `p` (all of them when `accepted >= |p|`); a write that takes
        fewer than `|p|` reports an error, and a closed file takes nothing. */
    method Write(p: seq<byte>, accepted: nat) returns (n: nat, err: Option<Error>)
      modifies this
      ensures open == old(open)
      ensures !open ==> n == 0 && err == Some(FileClosed) && contents == old(contents)
      ensures open ==> n == Min(accepted, |p|) && contents == old(contents) + p[..n]
      ensures open ==> (err.None? <==> n == |p|) && (err.Some? ==> err == Some(ShortWrite))
    {
      if !open {
        n, err := 0, Some(FileClosed);
      } else {
        n := Min(accepted, |p|);
        contents := contents + p[..n];
        err := if n == |p| then None else Some(ShortWrite);
      }
    }

    /** `(*os.File).Close`: the first close succeeds, a later one reports that
        the file is already closed. */
    method Close() returns (err: Option<Error>)
      modifies this
      ensures !open && contents == old(contents)
      ensures err.None? <==> old(open)
      ensures err.Some? ==> err == Some(FileClosed)
    {
      err := if open then None else Some(FileClosed);
      open := false;
    }
  }

  /** `logWriter`: `buffer` is the `bytes.Buffer`, `file` the destination
      (null until `setFile` succeeds).

      The ghost state records what the writer has promised: `Written` is every
      byte some `Write` reported as written, in call order; `Retired` is what
      the earlier `LogFile` objects held when a later `setFile` replaced them
      (a record of what went where, not of what stays on disk: files are told
      apart by object, not by path); and `Ordered` holds as long as no flush
      into a new file was cut short. */
  class LogWriter {
    var buffer: seq<byte>
    var file: LogFile?
    ghost var Written: seq<byte>
    ghost var Retired: seq<byte>
    ghost var Ordered: bool

    /** Where the bytes of the current destination are: the buffer while no
        file is assigned, the file afterwards. */
    ghost function Current(): seq<byte>
      reads this, file
    {
      if file == null then buffer else file.contents
    }

    /** The single ordered log: as long as no flush was cut short, the bytes
        handed to the earlier `LogFile` objects, followed by the current
        destination, are exactly the bytes that were reported written, in the
        order of the writes; and once a file is assigned nothing is left
        behind in the buffer. */
    ghost predicate Valid()
      reads this, file
    {
      (file == null ==> Retired == []) &&
      (Ordered ==> Retired + Current() == Written && (file != null ==> buffer == []))
    }

    /** The zero `logWriter` of main.go:27: empty buffer, no file. */
    constructor ()
      ensures Valid() && Ordered
      ensures buffer == [] && file == null && Written == [] && Retired == []
    {
      buffer := [];
      file := null;
      Written, Retired, Ordered := [], [], true;
    }

    /** `setFile`: `create` is what `os.Create(path)` reports and `flushAccepted`
        how many buffered bytes the new file accepts from `buffer.WriteTo`.  A
        failed create changes nothing and is the only error returned; the
        flush's own error is dropped, and bytes the flush did not place stay in
        the buffer. */
    method SetFile(path: string, create: Option<Error>, flushAccepted: nat) returns (err: Option<Error>)
      requires Valid()
      modifies this
      ensures Valid()
      ensures err == create
      ensures create.Some? ==> unchanged(this)
      ensures create.None? ==> file != null && fresh(file) && file.path == path && file.open
      ensures create.None? ==>
        var k := Min(flushAccepted, |old(buffer)|);
        file.contents == old(buffer)[..k] && buffer == old(buffer)[k..]
      ensures create.None? ==> Written == old(Written)
      ensures create.None? ==> Retired == old(Retired) + (if old(file) == null then [] else old(file.contents))
      ensures create.None? ==> Ordered == (old(Ordered) && flushAccepted >= |old(buffer)|)
      ensures create.None? && old(Ordered) && old(file) == null ==> file.contents + buffer == old(Written)
      ensures create.None? && old(Ordered) && old(file) != null ==> file.contents == []
    {
      err := create;
      if create.None? {
        var f := new LogFile.Create(path);
        if |buffer| > 0 {
          var n, _ := f.Write(buffer, flushAccepted);
          buffer := buffer[n..];
        }
        if file != null {
          Retired := Retired + file.contents;
        }
        file := f;
        Ordered := Ordered && buffer == [];
      }
    }

    /** `Write`: while no file is assigned the bytes are appended to the buffer
        and all of them are reported written; afterwards they go to the file,
        which reports how many it took, and the buffer is left alone. */
    method Write(p: seq<byte>, accepted: nat) returns (n: nat, err: Option<Error>)
      requires Valid()
      modifies this, file
      ensures Valid()
      ensures file == old(file) && Retired == old(Retired) && Ordered == old(Ordered)
      ensures n <= |p| && Written == old(Written) + p[..n]
      ensures old(file) == null ==> n == |p| && err.None? && buffer == old(buffer) + p
      ensures old(file) != null ==> buffer == old(buffer) && file.open == old(file.open)
      ensures old(file) != null && !old(file.open) ==>
        n == 0 && err == Some(FileClosed) && file.contents == old(file.contents)
      ensures old(file) != null && old(file.open) ==>
        n == Min(accepted, |p|) && file.contents == old(file.contents) + p[..n]
        && (err.None? <==> n == |p|)
    {
      if file == null {
        buffer := buffer + p;
        n, err := |p|, None;
        assert p[..n] == p;
      } else {
        n, err := file.Write(p, accepted);
      }
      Written := Written + p[..n];
    }

    /** `Close`: nothing to do while no file is assigned; otherwise the file's
        own close. */
    method Close() returns (err: Option<Error>)
      requires Valid()
      modifies file
      ensures Valid()
      ensures file == null ==> err.None?
      ensures file != null ==> !file.open && file.contents == old(file.contents)
      ensures file != null ==> (err.None? <==> old(file.open))
    {
      if file == null {
        err := None;
      } else {
        err := file.Close();
      }
    }
  }

  /** The bytes of several writes, in order. */
  function Concat(ps: seq<seq<byte>>): seq<byte>
  {
    if ps == [] then [] else Concat(ps[..|ps| - 1]) + ps[|ps| - 1]
  }

  /** The console tee handing the writer `chunks`, one `Write` each, with
      the operating system taking every byte. */
  method WriteAll(w: LogWriter, chunks: seq<seq<byte>>)
    requires w.Valid() && (w.file != null ==> w.file.open)
    modifies w, w.file
    ensures w.Valid() && (w.file != null ==> w.file.open)
    ensures w.file == old(w.file) && w.Retired == old(w.Retired) && w.Ordered == old(w.Ordered)
    ensures w.Written == old(w.Written) + Concat(chunks)
  {
    var i := 0;
    while i < |chunks|
      invariant 0 <= i <= |chunks|
      invariant w.Valid() && (w.file != null ==> w.file.open)
      invariant w.file == old(w.file) && w.Retired == old(w.Retired) && w.Ordered == old(w.Ordered)
      invariant w.Written == old(w.Written) + Concat(chunks[..i])
    {
      var p := chunks[i];
      var _, _ := w.Write(p, |p|);
      assert p[..|p|] == p;
      assert chunks[..i + 1][..i] == chunks[..i];
      assert Concat(chunks[..i + 1]) == Concat(chunks[..i]) + p;
      i := i + 1;
    }
    assert chunks[..i] == chunks;
  }

  /** The tee's use of the writer in one run: the console's output chunks
      `before` arrive while no file is assigned, `setFile` then succeeds with
      a complete flush, and the chunks `after` follow.  The file ends up
      holding every chunk, in arrival order. */
  method OrderedLog(before: seq<seq<byte>>, path: string, after: seq<seq<byte>>)
    returns (log: seq<byte>)
    ensures log == Concat(before) + Concat(after)
  {
    var w := new LogWriter();
    WriteAll(w, before);
    assert w.Written == Concat(before) && w.Ordered && w.Retired == [];
    var _ := w.SetFile(path, None, |w.buffer|);
    assert w.Ordered && w.Retired == [] && w.file.open;
    WriteAll(w, after);
    assert w.Retired + w.file.contents == w.Written;
    log := w.file.contents;
  }
}
