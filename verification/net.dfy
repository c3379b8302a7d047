/** The searches of net.go: the neighbour-table lookup that turns a client's
    IP address into its hardware address, and the search for the local
    interface that carries a given address.  The tables the operating system
    returns are parameters. */
module Net {
  import opened Base

  /** A `net.IP`: 4 bytes for IPv4, 16 for IPv6 (IPv4 may also come in
      IPv4-in-IPv6 form). */
  type IP = seq<byte>

  type HardwareAddr = seq<byte>

  const V4InV6Prefix: seq<byte> := [0, 0, 0, 0, 0, 0, 0, 0, 0, 0, 0xff, 0xff]

  /** `net.IP.Equal`: byte equality of two addresses of the same length, and
      an IPv4 address equals its IPv4-in-IPv6 form. */
  predicate SameIP(a: IP, b: IP)
    ensures a == b ==> SameIP(a, b)
    ensures SameIP(a, b) && |a| == |b| ==> a == b
    ensures SameIP(a, b) && |a| != |b| ==> {|a|, |b|} == {4, 16}
  {
    if |a| == |b| then a == b
    else if |a| == 4 && |b| == 16 then b[..12] == V4InV6Prefix && b[12..] == a
    else if |a| == 16 && |b| == 4 then a[..12] == V4InV6Prefix && a[12..] == b
    else false
  }

  /** A 4-byte address equals a 16-byte one exactly when the latter is its
      IPv4-in-IPv6 form, whichever side each stands on. */
  lemma SameIPV4InV6(a: IP, b: IP)
    requires |a| == 4 && |b| == 16
    ensures SameIP(a, b) <==> b == V4InV6Prefix + a
    ensures SameIP(b, a) <==> b == V4InV6Prefix + a
  {
    if b == V4InV6Prefix + a {
      assert b[..12] == V4InV6Prefix && b[12..] == a;
    }
    if b[..12] == V4InV6Prefix && b[12..] == a {
      assert b == b[..12] + b[12..];
    }
  }

  lemma SameIPSymmetric(a: IP, b: IP)
    ensures SameIP(a, b) == SameIP(b, a)
  {
  }

  /** One entry of the neighbour table; an entry still being resolved has no
      hardware address (a nil `HardwareAddr`). */
  datatype Neighbour = Neighbour(ip: IP, hardwareAddr: Option<HardwareAddr>)

  /** `k` is the first entry of `table` whose address equals `ip`. */
  predicate FirstNeighbourAt(table: seq<Neighbour>, ip: IP, k: int)
  {
    0 <= k < |table| && SameIP(table[k].ip, ip)
    && forall j :: 0 <= j < k ==> !SameIP(table[j].ip, ip)
  }

  /** The reference definition of the lookup: the hardware address of the
      first entry whose address equals `ip`, nil when there is none. */
  function MacOf(table: seq<Neighbour>, ip: IP): (r: Option<HardwareAddr>)
    ensures r.Some? ==> exists k :: 0 <= k < |table| && SameIP(table[k].ip, ip) && table[k].hardwareAddr == r
  {
    if table == [] then None
    else if SameIP(table[0].ip, ip) then table[0].hardwareAddr
    else MacOf(table[1..], ip)
  }

  /** `MacOf` is the first match: the entry found is the first one with the
      wanted address, and the result is nil exactly when no entry has that
      address or the first one that has it carries no hardware address. */
  lemma {:induction false} MacOfIsFirstMatch(table: seq<Neighbour>, ip: IP)
    ensures forall k :: FirstNeighbourAt(table, ip, k) ==> MacOf(table, ip) == table[k].hardwareAddr
    ensures MacOf(table, ip).Some? ==>
      exists k :: FirstNeighbourAt(table, ip, k) && MacOf(table, ip) == table[k].hardwareAddr
    ensures MacOf(table, ip).None? <==>
      (forall j :: 0 <= j < |table| ==> !SameIP(table[j].ip, ip))
      || (exists k :: FirstNeighbourAt(table, ip, k) && table[k].hardwareAddr.None?)
  {
    if table != [] {
      var rest := table[1..];
      MacOfIsFirstMatch(rest, ip);
      if SameIP(table[0].ip, ip) {
        assert FirstNeighbourAt(table, ip, 0);
        forall k | FirstNeighbourAt(table, ip, k) ensures k == 0 {
        }
      } else {
        forall k | FirstNeighbourAt(table, ip, k) ensures FirstNeighbourAt(rest, ip, k - 1) {
          assert k > 0;
          forall j | 0 <= j < k - 1 ensures !SameIP(rest[j].ip, ip) {
            assert rest[j] == table[j + 1];
          }
        }
        forall k | FirstNeighbourAt(rest, ip, k) ensures FirstNeighbourAt(table, ip, k + 1) {
          forall j | 0 <= j < k + 1 ensures !SameIP(table[j].ip, ip) {
            if j > 0 { assert table[j] == rest[j - 1]; }
          }
        }
        if forall j :: 0 <= j < |rest| ==> !SameIP(rest[j].ip, ip) {
          forall j | 0 <= j < |table| ensures !SameIP(table[j].ip, ip) {
            if j > 0 { assert table[j] == rest[j - 1]; }
          }
        }
      }
    }
  }

  /** `getMACAddress`: `table` is what reading the neighbour table of the
      local interface gave; an unreadable table ends the process. */
  method GetMACAddress(table: Result<seq<Neighbour>>, ip: IP) returns (r: Flow<Option<HardwareAddr>>)
    ensures table.Err? ==> r == Fatal(NoNeighbourTable)
    ensures table.Ok? ==> r == Normal(MacOf(table.value, ip))
  {
    if table.Err? {
      return Fatal(NoNeighbourTable);
    }
    var list := table.value;
    for i := 0 to |list|
      invariant MacOf(list, ip) == MacOf(list[i..], ip)
    {
      assert list[i..][1..] == list[i + 1..];
      if SameIP(list[i].ip, ip) {
        return Normal(list[i].hardwareAddr);
      }
    }
    return Normal(None);
  }

  /** The dynamic type of a `net.Addr`: a `*net.IPNet` (possibly nil) or any
      other implementation. */
  datatype Addr = IPNet(ip: IP) | NilIPNet | OtherAddr

  /** A `net.Interface` together with what its `Addrs()` reports. */
  datatype Interface = Interface(index: int, name: string, addrs: Result<seq<Addr>>)

  /** What scanning one interface finds: the wanted address, nothing, or a
      reason to panic. */
  datatype Scan = Hit | Miss | Broken(err: Error)

  /** The inner loop of `getInterfaceWithAddress` over one address list: the
      single-value type assertion panics on an address that is not a
      `*net.IPNet`, and a nil `*net.IPNet` is skipped. */
  function ScanAddrs(addrs: seq<Addr>, wanted: IP): (r: Scan)
    ensures r.Broken? ==> r.err == TypeAssertion && exists j :: 0 <= j < |addrs| && addrs[j].OtherAddr?
    ensures r == Hit ==> exists j :: 0 <= j < |addrs| && addrs[j].IPNet? && SameIP(addrs[j].ip, wanted)
  {
    if addrs == [] then Miss
    else match addrs[0]
      case OtherAddr => Broken(TypeAssertion)
      case NilIPNet => ScanAddrs(addrs[1..], wanted)
      case IPNet(ip) => if SameIP(ip, wanted) then Hit else ScanAddrs(addrs[1..], wanted)
  }

  /** An address the inner loop passes over without stopping. */
  predicate PassedOver(a: Addr, wanted: IP)
  {
    a.NilIPNet? || (a.IPNet? && !SameIP(a.ip, wanted))
  }

  /** An address list is scanned to the end exactly when every address in
      it is a (possibly nil) `*net.IPNet` other than `wanted`. */
  lemma {:induction false} ScanAddrsMiss(addrs: seq<Addr>, wanted: IP)
    ensures ScanAddrs(addrs, wanted) == Miss <==> forall j :: 0 <= j < |addrs| ==> PassedOver(addrs[j], wanted)
  {
    if addrs != [] {
      ScanAddrsMiss(addrs[1..], wanted);
      assert forall j :: 0 < j < |addrs| ==> addrs[j] == addrs[1..][j - 1];
    }
  }

  /** The inner loop stops with a hit exactly at a `*net.IPNet` equal to
      `wanted` that follows only addresses it passes over. */
  lemma {:induction false} ScanAddrsHit(addrs: seq<Addr>, wanted: IP)
    ensures ScanAddrs(addrs, wanted) == Hit <==>
      exists j :: 0 <= j < |addrs| && addrs[j].IPNet? && SameIP(addrs[j].ip, wanted)
        && forall i :: 0 <= i < j ==> PassedOver(addrs[i], wanted)
  {
    if addrs != [] {
      var rest := addrs[1..];
      ScanAddrsHit(rest, wanted);
      if ScanAddrs(addrs, wanted) == Hit && !(addrs[0].IPNet? && SameIP(addrs[0].ip, wanted)) {
        var j :| 0 <= j < |rest| && rest[j].IPNet? && SameIP(rest[j].ip, wanted)
          && forall i :: 0 <= i < j ==> PassedOver(rest[i], wanted);
        assert addrs[j + 1] == rest[j];
        forall i | 0 <= i < j + 1 ensures PassedOver(addrs[i], wanted) {
          if i > 0 { assert addrs[i] == rest[i - 1]; }
        }
      }
      if exists j :: 0 <= j < |addrs| && addrs[j].IPNet? && SameIP(addrs[j].ip, wanted)
          && forall i :: 0 <= i < j ==> PassedOver(addrs[i], wanted) {
        var j :| 0 <= j < |addrs| && addrs[j].IPNet? && SameIP(addrs[j].ip, wanted)
          && forall i :: 0 <= i < j ==> PassedOver(addrs[i], wanted);
        if j > 0 {
          assert PassedOver(addrs[0], wanted);
          assert rest[j - 1] == addrs[j];
          forall i | 0 <= i < j - 1 ensures PassedOver(rest[i], wanted) {
            assert rest[i] == addrs[i + 1];
          }
        }
      }
    }
  }

  /** The inner loop panics exactly at an address that is not a
      `*net.IPNet` and follows only addresses it passes over. */
  lemma {:induction false} ScanAddrsBroken(addrs: seq<Addr>, wanted: IP)
    ensures ScanAddrs(addrs, wanted).Broken? <==>
      exists j :: 0 <= j < |addrs| && addrs[j].OtherAddr?
        && forall i :: 0 <= i < j ==> PassedOver(addrs[i], wanted)
  {
    if addrs != [] {
      var rest := addrs[1..];
      ScanAddrsBroken(rest, wanted);
      if ScanAddrs(addrs, wanted).Broken? && !addrs[0].OtherAddr? {
        var j :| 0 <= j < |rest| && rest[j].OtherAddr?
          && forall i :: 0 <= i < j ==> PassedOver(rest[i], wanted);
        assert addrs[j + 1] == rest[j];
        forall i | 0 <= i < j + 1 ensures PassedOver(addrs[i], wanted) {
          if i > 0 { assert addrs[i] == rest[i - 1]; }
        }
      }
      if exists j :: 0 <= j < |addrs| && addrs[j].OtherAddr?
          && forall i :: 0 <= i < j ==> PassedOver(addrs[i], wanted) {
        var j :| 0 <= j < |addrs| && addrs[j].OtherAddr?
          && forall i :: 0 <= i < j ==> PassedOver(addrs[i], wanted);
        if j > 0 {
          assert PassedOver(addrs[0], wanted);
          assert rest[j - 1] == addrs[j];
          forall i | 0 <= i < j - 1 ensures PassedOver(rest[i], wanted) {
            assert rest[i] == addrs[i + 1];
          }
        }
      }
    }
  }

  /** One interface of the outer loop: an error listing its addresses is
      the panic, otherwise the inner loop runs over them. */
  function ScanInterface(iface: Interface, wanted: IP): (r: Scan)
    ensures iface.addrs.Err? ==> r == Broken(iface.addrs.error)
    ensures r.Broken? && iface.addrs.Ok? ==> r.err == TypeAssertion
    ensures r == Hit ==> iface.addrs.Ok? && exists j :: (0 <= j < |iface.addrs.value|
      && iface.addrs.value[j].IPNet? && SameIP(iface.addrs.value[j].ip, wanted))
  {
    match iface.addrs
    case Err(e) => Broken(e)
    case Ok(addrs) => ScanAddrs(addrs, wanted)
  }

  /** The reference definition of the search over the interface list: the
      first interface, in enumeration order, whose scan stops decides. */
  function FindInterface(ifaces: seq<Interface>, wanted: IP): (r: Flow<Option<Interface>>)
    ensures !r.Fatal?
    ensures r.Normal? && r.value.Some? ==> r.value.value in ifaces
  {
    if ifaces == [] then Normal(None)
    else match ScanInterface(ifaces[0], wanted)
      case Hit => Normal(Some(ifaces[0]))
      case Broken(e) => Panic(e)
      case Miss => FindInterface(ifaces[1..], wanted)
  }

  /** `k` is the first interface whose scan does not pass over it. */
  predicate FirstStopAt(ifaces: seq<Interface>, wanted: IP, k: int)
  {
    0 <= k < |ifaces| && ScanInterface(ifaces[k], wanted) != Miss
    && forall j :: 0 <= j < k ==> ScanInterface(ifaces[j], wanted) == Miss
  }

  /** The search returns nil exactly when every interface was scanned to the
      end; otherwise the first interface where scanning stopped is returned,
      or its error is the panic. */
  lemma {:induction false} FindInterfaceIsFirstMatch(ifaces: seq<Interface>, wanted: IP)
    ensures FindInterface(ifaces, wanted) == Normal(None) <==>
      forall j :: 0 <= j < |ifaces| ==> ScanInterface(ifaces[j], wanted) == Miss
    ensures forall k :: FirstStopAt(ifaces, wanted, k) ==>
      FindInterface(ifaces, wanted) ==
        (if ScanInterface(ifaces[k], wanted) == Hit then Normal(Some(ifaces[k]))
         else Panic(ScanInterface(ifaces[k], wanted).err))
  {
    if ifaces != [] {
      var rest := ifaces[1..];
      FindInterfaceIsFirstMatch(rest, wanted);
      assert forall j :: 0 < j < |ifaces| ==> ifaces[j] == rest[j - 1];
      if ScanInterface(ifaces[0], wanted) == Miss {
        forall k | FirstStopAt(ifaces, wanted, k) ensures FirstStopAt(rest, wanted, k - 1) {
          assert k > 0;
          forall j | 0 <= j < k - 1 ensures ScanInterface(rest[j], wanted) == Miss {
            assert rest[j] == ifaces[j + 1];
          }
        }
      } else {
        forall k | FirstStopAt(ifaces, wanted, k) ensures k == 0 {
        }
      }
    }
  }

  /** When some interface stops the scan, a first one does. */
  lemma {:induction false} FirstStopExists(ifaces: seq<Interface>, wanted: IP, j: int)
    requires 0 <= j < |ifaces| && ScanInterface(ifaces[j], wanted) != Miss
    ensures exists k :: FirstStopAt(ifaces, wanted, k)
    decreases j
  {
    if forall i :: 0 <= i < j ==> ScanInterface(ifaces[i], wanted) == Miss {
      assert FirstStopAt(ifaces, wanted, j);
    } else {
      var i :| 0 <= i < j && ScanInterface(ifaces[i], wanted) != Miss;
      FirstStopExists(ifaces, wanted, i);
    }
  }

  /** The interface the search returns is the first, in enumeration order,
      whose scan stops, and it carries a `*net.IPNet` equal to `wanted`
      after only addresses the scan passes over. */
  lemma FoundInterfaceHasAddress(ifaces: seq<Interface>, wanted: IP, found: Interface)
    requires FindInterface(ifaces, wanted) == Normal(Some(found))
    ensures exists k :: (0 <= k < |ifaces| && ifaces[k] == found
      && forall j :: 0 <= j < k ==> ScanInterface(ifaces[j], wanted) == Miss)
    ensures found.addrs.Ok?
    ensures exists j :: (0 <= j < |found.addrs.value| && found.addrs.value[j].IPNet?
      && SameIP(found.addrs.value[j].ip, wanted)
      && forall i :: 0 <= i < j ==> PassedOver(found.addrs.value[i], wanted))
  {
    FindInterfaceIsFirstMatch(ifaces, wanted);
    var j :| 0 <= j < |ifaces| && ScanInterface(ifaces[j], wanted) != Miss;
    FirstStopExists(ifaces, wanted, j);
    var k :| FirstStopAt(ifaces, wanted, k);
    assert ifaces[k] == found && ScanInterface(found, wanted) == Hit;
    ScanAddrsHit(found.addrs.value, wanted);
  }

  /** The search panics on a listing error of the first interface whose scan
      stops, or on an address of it that is not a `*net.IPNet` and follows
      only addresses the scan passes over. */
  lemma SearchPanics(ifaces: seq<Interface>, wanted: IP, e: Error)
    requires FindInterface(ifaces, wanted) == Panic(e)
    ensures exists k :: (FirstStopAt(ifaces, wanted, k)
      && (ifaces[k].addrs.Err? ==> e == ifaces[k].addrs.error)
      && (ifaces[k].addrs.Ok? ==>
            (e == TypeAssertion
             && exists j :: (0 <= j < |ifaces[k].addrs.value| && ifaces[k].addrs.value[j].OtherAddr?
                 && forall i :: 0 <= i < j ==> PassedOver(ifaces[k].addrs.value[i], wanted)))))
  {
    FindInterfaceIsFirstMatch(ifaces, wanted);
    var j :| 0 <= j < |ifaces| && ScanInterface(ifaces[j], wanted) != Miss;
    FirstStopExists(ifaces, wanted, j);
    var k :| FirstStopAt(ifaces, wanted, k);
    if ifaces[k].addrs.Ok? {
      ScanAddrsBroken(ifaces[k].addrs.value, wanted);
    }
  }

  /** No interface carries `wanted` and every address list is readable and
      holds only `*net.IPNet` values: the search returns nil. */
  lemma NoInterfaceWithAddress(ifaces: seq<Interface>, wanted: IP)
    requires forall k :: 0 <= k < |ifaces| ==> ifaces[k].addrs.Ok?
    requires forall k, j :: 0 <= k < |ifaces| && 0 <= j < |ifaces[k].addrs.value| ==>
      PassedOver(ifaces[k].addrs.value[j], wanted)
    ensures FindInterface(ifaces, wanted) == Normal(None)
  {
    forall k | 0 <= k < |ifaces| ensures ScanInterface(ifaces[k], wanted) == Miss {
      ScanAddrsMiss(ifaces[k].addrs.value, wanted);
    }
    FindInterfaceIsFirstMatch(ifaces, wanted);
  }

  /** The search as main.go runs it: an error listing the interfaces panics. */
  function InterfaceLookup(ifaces: Result<seq<Interface>>, wanted: IP): (r: Flow<Option<Interface>>)
    ensures !r.Fatal?
    ensures ifaces.Err? ==> r == Panic(ifaces.error)
    ensures r.Normal? && r.value.Some? ==> ifaces.Ok? && r.value.value in ifaces.value
  {
    match ifaces
    case Err(e) => Panic(e)
    case Ok(list) => FindInterface(list, wanted)
  }

  /** `getInterfaceWithAddress`: nested loops with an early return, checked
      against `FindInterface`. */
  method GetInterfaceWithAddress(ifaces: Result<seq<Interface>>, wanted: IP)
    returns (r: Flow<Option<Interface>>)
    ensures ifaces.Err? ==> r == Panic(ifaces.error)
    ensures ifaces.Ok? ==> r == FindInterface(ifaces.value, wanted)
    ensures !r.Fatal?
  {
    if ifaces.Err? {
      return Panic(ifaces.error);
    }
    var list := ifaces.value;
    for i := 0 to |list|
      invariant FindInterface(list, wanted) == FindInterface(list[i..], wanted)
    {
      assert list[i..][1..] == list[i + 1..];
      if list[i].addrs.Err? {
        return Panic(list[i].addrs.error);
      }
      var addrs := list[i].addrs.value;
      for j := 0 to |addrs|
        invariant ScanAddrs(addrs, wanted) == ScanAddrs(addrs[j..], wanted)
      {
        assert addrs[j..][1..] == addrs[j + 1..];
        match addrs[j]
        case OtherAddr =>
          return Panic(TypeAssertion);
        case NilIPNet =>
        case IPNet(ip) =>
          if SameIP(ip, wanted) {
            return Normal(Some(list[i]));
          }
      }
    }
    return Normal(None);
  }
}
