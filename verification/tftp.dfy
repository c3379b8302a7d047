/** The read-request handler of tftp.go: it serves one file name only, names
    the per-device log file after the client's hardware address, points the
    console log there, and then streams the kernel image.  The neighbour
    table, the outcome of creating the log file, the image file and the
    outcome of streaming it are parameters. */
module Tftp {
  import opened Base
  import opened Text
  import opened Net
  import opened LogWriting

  /** The only file name the server hands out. */
  const KernelFilename: string := "vme50"

  /** `path.Join(dir, name)` for a `name` without slashes: the two joined by a
      single slash, or `name` alone when `dir` is empty. */
  function JoinPath(dir: string, name: string): (p: string)
    ensures |p| >= |name| && p[|p| - |name|..] == name
    ensures dir == "" ==> p == name
    ensures dir != "" ==> |p| == |dir| + 1 + |name| && p[..|dir| + 1] == dir + "/"
  {
    if dir == "" then name else dir + "/" + name
  }

  /** The log file of the device with hardware address `mac`: the
      lower-case hex of the address, two digits per byte, followed by
      ".log", inside `logFolder`. */
  function LogPath(logFolder: string, mac: HardwareAddr): (p: string)
    ensures |p| == (if logFolder == "" then 0 else |logFolder| + 1) + 2 * |mac| + 4
    ensures p[|p| - 2 * |mac| - 4..] == Hex(mac) + ".log"
    ensures logFolder != "" ==> |p| > |logFolder| && p[..|logFolder| + 1] == logFolder + "/"
  {
    JoinPath(logFolder, Hex(mac) + ".log")
  }

  /** Two devices never share a log file: within one folder the path
      determines the hardware address. */
  lemma LogPathInjective(logFolder: string, a: HardwareAddr, b: HardwareAddr)
    requires LogPath(logFolder, a) == LogPath(logFolder, b)
    ensures a == b
  {
    var p := LogPath(logFolder, a);
    assert |a| == |b|;
    var tail := p[|p| - 2 * |a| - 4..];
    assert tail == Hex(a) + ".log" == Hex(b) + ".log";
    assert Hex(a) == tail[..2 * |a|] == Hex(b);
    HexInjective(a, b);
  }

  /** The handler's side effects, in the order it performs them. */
  datatype Effect =
    | LogRedirected(path: string)     // writer.setFile
    | ImageOpened                     // os.Open of the image
    | ImageStreamed(data: seq<byte>)  // the opened file handed to ReadFrom

  /** `tftpReadHandler`.  `writer` is the global console log writer,
      `neighbours` the neighbour table read for the client's address
      `client`, `create` and `flushAccepted` what creating the log file and
      flushing into it do, `image` what opening the kernel image gives, and
      `stream` how streaming it to the client ends. */
  method ReadHandler(writer: LogWriter, filename: string, logFolder: string, client: IP,
                     neighbours: Result<seq<Neighbour>>, create: Option<Error>, flushAccepted: nat,
                     image: Result<seq<byte>>, stream: Option<Error>)
    returns (r: Flow<Option<Error>>, effects: seq<Effect>)
    requires writer.Valid()
    modifies writer
    ensures writer.Valid()
    ensures filename != KernelFilename ==>
      r == Normal(Some(NotExist)) && effects == [] && unchanged(writer)
    ensures filename == KernelFilename && neighbours.Err? ==>
      r == Fatal(NoNeighbourTable) && effects == [] && unchanged(writer)
    ensures filename == KernelFilename && neighbours.Ok? && MacOf(neighbours.value, client).None? ==>
      r == Fatal(NoClientMac) && effects == [] && unchanged(writer)
    ensures filename == KernelFilename && neighbours.Ok? && MacOf(neighbours.value, client).Some? ==>
      var path := LogPath(logFolder, MacOf(neighbours.value, client).value);
      && (create.Some? ==> unchanged(writer))
      && (create.None? ==> writer.file != null && fresh(writer.file) && writer.file.path == path)
      && (image.Err? ==> r == Normal(Some(image.error)) && effects == [LogRedirected(path)])
      && (image.Ok? ==> r == Normal(stream)
                        && effects == [LogRedirected(path), ImageOpened, ImageStreamed(image.value)])
    ensures filename == KernelFilename && neighbours.Ok? && MacOf(neighbours.value, client).Some?
            && create.None? ==>
      var k := Min(flushAccepted, |old(writer.buffer)|);
      && writer.file != null
      && writer.file.contents == old(writer.buffer)[..k]
      && writer.buffer == old(writer.buffer)[k..]
      && writer.Written == old(writer.Written)
  {
    effects := [];
    if filename != KernelFilename {
      return Normal(Some(NotExist)), effects;
    }

    var mac := GetMACAddress(neighbours, client);
    if mac.Fatal? {
      return Fatal(mac.reason), effects;
    }
    if mac.value.None? {
      return Fatal(NoClientMac), effects;
    }

    var path := LogPath(logFolder, mac.value.value);
    var _ := writer.SetFile(path, create, flushAccepted);
    effects := effects + [LogRedirected(path)];

    if image.Err? {
      return Normal(Some(image.error)), effects;
    }
    effects := effects + [ImageOpened];

    effects := effects + [ImageStreamed(image.value)];
    if stream.Some? {
      return Normal(stream), effects;
    }
    return Normal(None), effects;
  }
}
