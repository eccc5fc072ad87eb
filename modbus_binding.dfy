/**
 * The Lua binding of libmodbus (`modules/modbus/src/modbus-lua.c`): one
 * connection object holding a backend kind, a nullable libmodbus context and
 * a nullable register mapping, and the Lua methods that act on it.
 *
 * libmodbus itself and the remote device are not modelled; a `Bus` value
 * stands for them and answers every exchange the binding starts. Exchanges
 * are numbered by their position in the context's exchange log, so a `Bus`
 * can give different answers over time.
 */
module ModbusBinding {
  import opened CTypes
  import opened Wrappers

  /** Largest quantity of a Read Holding Registers request: section 6.3 of
      the Modbus Application Protocol Specification V1.1b3 allows 1 to 125
      (libmodbus's MODBUS_MAX_READ_REGISTERS). */
  const MODBUS_MAX_READ_REGISTERS: int := 125
  /** Largest Modbus TCP application data unit in bytes (libmodbus's
      MODBUS_TCP_MAX_ADU_LENGTH); the size of the receive buffers. */
  const MODBUS_TCP_MAX_ADU_LENGTH: int := 260
  /** A port number at or above this value is a serial baud rate. */
  const MIN_RTU_BAUD: int := 9600
  /** RTU defaults when the Lua caller omits them: parity 'N', 8 data bits, 1 stop bit. */
  const DEFAULT_PARITY: int := 78
  const DEFAULT_DATA_BITS: int := 8
  const DEFAULT_STOP_BITS: int := 1
  /** `mapping` defaults: holding registers from address 0, 100 of them. */
  const DEFAULT_MAPPING_START: int := 0
  const DEFAULT_MAPPING_COUNT: int := 100
  /** The `set_value` register type that names the holding registers. */
  const HOLDING_REGISTERS: int := 2
  /** Capacity of the C arrays `addresses[]`, `addr[]` and `value[]` of `read` and `write`. */
  const MAX_BATCH: int := 256

  datatype Backend = TCP | RTU

  /** What `new` hands to `modbus_new_tcp` or `modbus_new_rtu`. */
  datatype Settings =
    | TcpSettings(host: string, port: Int32)
    | RtuSettings(device: string, baud: Int32, parity: Byte, dataBits: Int32, stopBits: Int32)

  /** The contents of the 260-byte query buffer of `receive`. */
  type Adu = s: seq<Byte> | |s| == 260 witness seq(260, i => 0)

  /** One exchange the binding starts through the libmodbus context. */
  datatype Exchange =
    | Connect
    | SetSlave(slave: Int32)
    | ReadHolding(address: Int32, quantity: Int32)
    | WriteHolding(address: Int32, value: UInt16)
    | ReceiveIndication
    | SendReply(length: int)
    | RawReceive(maxLength: nat)

  /** libmodbus and the device at the other end, as answers to exchange number `n`. */
  datatype Bus = Bus(
    ok: nat -> bool,                      // connect, read or write number n succeeds
    errno: nat -> int,                    // errno left by a failed exchange n
    holding: (nat, int) -> UInt16,        // remote holding register a, as exchange n reads it
    indication: nat -> int,               // what modbus_receive returns at exchange n
    query: nat -> Adu,                    // the query buffer after modbus_receive at exchange n
    reply: nat -> int,                    // what modbus_reply returns at exchange n
    store: (nat, nat, UInt16) -> UInt16,  // register at offset i after modbus_reply n, from its old value
    stream: nat -> Option<seq<Byte>>      // bytes a raw recv at exchange n can deliver; None: recv fails
  )

  /** What a Lua method hands back to its caller. */
  datatype Ret<T> =
    | Value(value: T)       // one result
    | NilError(errno: int)  // nil and modbus_strerror(errno)
    | NoValues              // the C function returns 0 results
    | ArgError              // l_check_modbus raised "Expected l_modbus_t"

  /** The holding-register space of a mapping as a value: start address,
      count (both as the C `int` fields hold them) and the register array,
      None when `tab_registers` is NULL. */
  datatype Holding = Holding(start: Int32, count: Int32, regs: Option<seq<UInt16>>)

  /** The array covers every offset the count admits. */
  ghost predicate WellFormed(h: Holding) {
    h.regs.Some? ==> h.count <= |h.regs.value|
  }

  /** The backend `new` picks: TCP below port 9600, RTU otherwise. */
  function BackendFor(port: int): (b: Backend)
    ensures b == TCP <==> ToInt32(port) < MIN_RTU_BAUD
  {
    if ToInt32(port) < MIN_RTU_BAUD then TCP else RTU
  }

  /** The arguments `new` passes to libmodbus, after the C casts and defaults. */
  function SettingsFor(host: string, port: int, parity: Option<int>, dataBits: Option<int>, stopBits: Option<int>): (s: Settings)
    ensures s.TcpSettings? <==> BackendFor(port) == TCP
    ensures s.TcpSettings? ==> s.host == host && s.port == ToInt32(port)
    ensures s.RtuSettings? ==> s.device == host && s.baud == ToInt32(port)
    ensures s.RtuSettings? ==> s.parity == (if parity.None? then DEFAULT_PARITY else ToByte(parity.value))
    ensures s.RtuSettings? ==> s.dataBits == (if dataBits.None? then DEFAULT_DATA_BITS else ToInt32(dataBits.value))
    ensures s.RtuSettings? ==> s.stopBits == (if stopBits.None? then DEFAULT_STOP_BITS else ToInt32(stopBits.value))
  {
    if ToInt32(port) < MIN_RTU_BAUD then TcpSettings(host, ToInt32(port))
    else RtuSettings(host, ToInt32(port), ToByte(parity.GetOr(DEFAULT_PARITY)),
                     ToInt32(dataBits.GetOr(DEFAULT_DATA_BITS)), ToInt32(stopBits.GetOr(DEFAULT_STOP_BITS)))
  }

  /** A port below 9600 opens a TCP context on that port; anything else
      opens an RTU context with the port as baud rate, and each of parity,
      data bits and stop bits that is omitted defaults on its own to 'N', 8
      and 1. */
  lemma BackendChoice(host: string, port: int, parity: Option<int>, dataBits: Option<int>, stopBits: Option<int>)
    requires -TWO_31 <= port < TWO_31
    ensures port < MIN_RTU_BAUD ==> SettingsFor(host, port, parity, dataBits, stopBits) == TcpSettings(host, port)
    ensures port >= MIN_RTU_BAUD ==>
              var s := SettingsFor(host, port, parity, dataBits, stopBits);
              s.RtuSettings? && s.device == host && s.baud == port &&
              (parity.None? ==> s.parity == 'N' as int) &&
              (dataBits.None? ==> s.dataBits == 8) &&
              (stopBits.None? ==> s.stopBits == 1)
  {
  }

  /** The holding space of a mapping `mapping` allocates:
      `modbus_mapping_new_start_address` stores the unsigned start and count
      in `int` fields and leaves the array NULL when the count is 0, zeroed otherwise. */
  function FreshHolding(start: UInt32, count: UInt32): (h: Holding)
    ensures WellFormed(h)
    ensures h.regs.Some? <==> count != 0
    ensures h.regs.Some? ==> |h.regs.value| == count && forall i :: 0 <= i < count ==> h.regs.value[i] == 0
  {
    Holding(ToInt32(start), ToInt32(count), if count == 0 then None else Some(seq(count, i => 0)))
  }

  /** The register at `address` of an optional mapping, if the address is
      mapped: the offset rule `0 <= address - start < count` of `set_value`. */
  function RegisterAt(h: Option<Holding>, address: int): (v: Option<UInt16>)
    requires h.Some? ==> WellFormed(h.value)
    ensures v.Some? <==> h.Some? && h.value.regs.Some? && h.value.start <= address < h.value.start + h.value.count
  {
    if h.Some? && h.value.regs.Some? && 0 <= address - h.value.start < h.value.count
    then Some(h.value.regs.value[address - h.value.start])
    else None
  }

  /** After `mapping(start, count)` with both below 2^31, exactly the
      addresses start .. start+count-1 are mapped, each holding 0; whatever
      the previous mapping held is gone. */
  lemma FreshHoldingAddresses(start: UInt32, count: UInt32, address: int)
    requires start < TWO_31 && count < TWO_31
    ensures RegisterAt(Some(FreshHolding(start, count)), address) ==
              if start <= address < start + count then Some(0) else None
  {
  }

  /** The array offset `set_value` writes, or None when it returns -1. */
  function SetValueOffset(h: Option<Holding>, registerType: int, address: int): (off: Option<nat>)
    requires h.Some? ==> WellFormed(h.value)
    ensures off.Some? ==> h.Some? && h.value.regs.Some? && off.value < h.value.count <= |h.value.regs.value|
  {
    if h.Some? && ToUInt32(registerType) == HOLDING_REGISTERS && h.value.regs.Some?
       && 0 <= ToInt32(address) - h.value.start < h.value.count
    then Some(ToInt32(address) - h.value.start)
    else None
  }

  /** The mapping after `set_value(registerType, address, value)`. */
  function SetValueResult(h: Option<Holding>, registerType: int, address: int, value: int): (h': Option<Holding>)
    requires h.Some? ==> WellFormed(h.value)
    ensures h'.Some? ==> WellFormed(h'.value)
    ensures h'.Some? <==> h.Some?
  {
    match SetValueOffset(h, registerType, address)
    case None => h
    case Some(off) => Some(h.value.(regs := Some(h.value.regs.value[off := ToUInt16(value)])))
  }

  /** `set_value` succeeds exactly when the mapping exists, the type is 2,
      the holding array exists and the address falls in the mapped range. */
  lemma SetValueSucceedsIff(h: Option<Holding>, registerType: int, address: int)
    requires h.Some? ==> WellFormed(h.value)
    ensures SetValueOffset(h, registerType, address).Some? <==>
              ToUInt32(registerType) == HOLDING_REGISTERS && RegisterAt(h, ToInt32(address)).Some?
  {
  }

  /** A successful `set_value` writes the value at its address and nothing
      else: every other address reads as before. */
  lemma SetValueWritesOnlyTarget(h: Option<Holding>, registerType: int, address: int, value: int, other: int)
    requires h.Some? ==> WellFormed(h.value)
    requires SetValueOffset(h, registerType, address).Some?
    ensures RegisterAt(SetValueResult(h, registerType, address, value), ToInt32(address)) == Some(ToUInt16(value))
    ensures other != ToInt32(address) ==>
              RegisterAt(SetValueResult(h, registerType, address, value), other) == RegisterAt(h, other)
  {
  }

  /** A rejected `set_value` leaves the mapping as it was. */
  lemma SetValueRejectedUnchanged(h: Option<Holding>, registerType: int, address: int, value: int)
    requires h.Some? ==> WellFormed(h.value)
    requires SetValueOffset(h, registerType, address).None?
    ensures SetValueResult(h, registerType, address, value) == h
  {
  }

  /** The answer to a Read Holding Registers request: a device following
      section 6.3 answers quantities 1 to 125 only, with `quantity`
      consecutive registers. */
  function ReadHoldingAnswer(bus: Bus, n: nat, address: Int32, quantity: Int32): (regs: Option<seq<UInt16>>)
    ensures regs.Some? ==> |regs.value| == quantity && 1 <= quantity <= MODBUS_MAX_READ_REGISTERS
    ensures regs.Some? ==> forall j :: 0 <= j < quantity ==> regs.value[j] == bus.holding(n, address + j)
  {
    if 1 <= quantity <= MODBUS_MAX_READ_REGISTERS && bus.ok(n)
    then Some(seq(quantity, j => bus.holding(n, address + j)))
    else None
  }

  /** The quantity `mread` asks for: anything above the protocol limit is lowered to it. */
  function ClampQuantity(count: Int32): (q: Int32)
    ensures q <= MODBUS_MAX_READ_REGISTERS
    ensures count <= MODBUS_MAX_READ_REGISTERS ==> q == count
    ensures count > MODBUS_MAX_READ_REGISTERS ==> q == MODBUS_MAX_READ_REGISTERS
  {
    if count > MODBUS_MAX_READ_REGISTERS then MODBUS_MAX_READ_REGISTERS else count
  }

  /** The bytes of a `uint16_t` array as `lua_pushlstring` copies them, in
      host byte order (little-endian on the targets of this project). */
  function HostBytes(regs: seq<UInt16>): (b: seq<Byte>)
    ensures |b| == 2 * |regs|
  {
    if regs == [] then []
    else [regs[0] % 256, regs[0] / 256] + HostBytes(regs[1..])
  }

  /** Registers back from host-order bytes; an odd final byte is dropped. */
  function RegistersOf(b: seq<Byte>): (regs: seq<UInt16>)
    ensures |regs| == |b| / 2
  {
    if |b| < 2 then []
    else
      var r: UInt16 := (b[0] as int) + 256 * (b[1] as int);
      [r] + RegistersOf(b[2..])
  }

  /** The bytes `mread` returns decode to exactly the registers read. */
  lemma {:induction false} HostBytesRoundTrip(regs: seq<UInt16>)
    ensures RegistersOf(HostBytes(regs)) == regs
  {
    if regs != [] {
      HostBytesRoundTrip(regs[1..]);
      assert HostBytes(regs)[2..] == HostBytes(regs[1..]);
    }
  }

  /** What `mread(address, count)` returns when the connection is usable and
      the read is exchange number n. */
  function MReadReturn(bus: Bus, n: nat, address: int, count: int): (r: Ret<seq<Byte>>)
    ensures r.NilError? || r.Value?
    ensures r.NilError? <==> !bus.ok(n) || ToInt32(count) < 1
    ensures r.Value? ==> |r.value| % 2 == 0 && 2 <= |r.value| <= 2 * MODBUS_MAX_READ_REGISTERS
  {
    match ReadHoldingAnswer(bus, n, ToInt32(address), ClampQuantity(ToInt32(count)))
    case None => NilError(bus.errno(n))
    case Some(regs) => Value(HostBytes(regs))
  }

  /** `mread` either reports the error of the failed read or returns exactly
      2*count bytes, count after clamping, which decode to the remote
      registers address .. address+count-1. */
  lemma MReadReturnsCountRegisters(bus: Bus, n: nat, address: int, count: int)
    ensures MReadReturn(bus, n, address, count).NilError? || MReadReturn(bus, n, address, count).Value?
    ensures MReadReturn(bus, n, address, count).NilError? ==> MReadReturn(bus, n, address, count).errno == bus.errno(n)
    ensures MReadReturn(bus, n, address, count).Value? ==>
              var q := ClampQuantity(ToInt32(count));
              var b := MReadReturn(bus, n, address, count).value;
              |b| == 2 * q && 1 <= q <= MODBUS_MAX_READ_REGISTERS &&
              RegistersOf(b) == seq(q, j => bus.holding(n, ToInt32(address) + j))
  {
    var q := ClampQuantity(ToInt32(count));
    match ReadHoldingAnswer(bus, n, ToInt32(address), q)
    case None =>
    case Some(regs) =>
      HostBytesRoundTrip(regs);
      assert regs == seq(q, j => bus.holding(n, ToInt32(address) + j));
  }

  /** Asking for more than 125 registers behaves exactly like asking for 125. */
  lemma MReadClampsCount(bus: Bus, n: nat, address: int, count: int)
    requires ToInt32(count) > MODBUS_MAX_READ_REGISTERS
    ensures MReadReturn(bus, n, address, count) == MReadReturn(bus, n, address, MODBUS_MAX_READ_REGISTERS)
  {
  }

  /** The C ints `read` and `write` take from the Lua table. */
  function Addresses(values: seq<int>): seq<Int32>
  {
    seq(|values|, i requires 0 <= i < |values| => ToInt32(values[i]))
  }

  /** The exchanges of `read`: one single-register read per address. */
  function ReadRequests(addrs: seq<Int32>): seq<Exchange>
  {
    seq(|addrs|, i requires 0 <= i < |addrs| => ReadHolding(addrs[i], 1))
  }

  /** How far the loop of `read` gets: how many reads it issues and the table
      it builds, None once a read has failed. */
  datatype ReadProgress = ReadProgress(attempts: nat, table: Option<map<Int32, UInt16>>)

  /** The loop of `read` over `addrs`, its i-th read being exchange n+i. */
  function ReadRun(addrs: seq<Int32>, bus: Bus, n: nat): (r: ReadProgress)
    ensures r.attempts <= |addrs|
    ensures r.table.Some? ==> r.attempts == |addrs|
    decreases |addrs|
  {
    if addrs == [] then ReadProgress(0, Some(map[]))
    else
      var k := |addrs| - 1;
      var prev := ReadRun(addrs[..k], bus, n);
      if prev.table.None? then prev
      else match ReadHoldingAnswer(bus, n + k, addrs[k], 1)
        case None => ReadProgress(k + 1, None)
        case Some(regs) => ReadProgress(k + 1, Some(prev.table.value[addrs[k] := regs[0]]))
  }

  /** `read` returns nothing exactly when one of its reads fails. */
  lemma {:induction false} ReadRunFailsIff(addrs: seq<Int32>, bus: Bus, n: nat)
    ensures ReadRun(addrs, bus, n).table.None? <==> exists e :: n <= e < n + |addrs| && !bus.ok(e)
  {
    if addrs != [] {
      var k := |addrs| - 1;
      ReadRunFailsIff(addrs[..k], bus, n);
      if ReadRun(addrs[..k], bus, n).table.None? {
        var e :| n <= e < n + k && !bus.ok(e);
        assert n <= e < n + |addrs| && !bus.ok(e);
      }
    }
  }

  /** `read` stops at the first failed read: if read number i is the first
      to fail, exactly i+1 reads are issued. */
  lemma {:induction false} ReadRunStopsAtFirstFailure(addrs: seq<Int32>, bus: Bus, n: nat, i: nat)
    requires i < |addrs|
    requires forall e :: n <= e < n + i ==> bus.ok(e)
    requires !bus.ok(n + i)
    ensures ReadRun(addrs, bus, n).attempts == i + 1
    ensures ReadRun(addrs, bus, n).table.None?
  {
    var k := |addrs| - 1;
    if i < k {
      ReadRunStopsAtFirstFailure(addrs[..k], bus, n, i);
    } else {
      ReadRunFailsIff(addrs[..k], bus, n);
    }
  }

  /** One turn of the loop of `read`: read number i either extends the
      table or ends the whole run with i+1 reads and no table. */
  lemma ReadRunStep(addrs: seq<Int32>, bus: Bus, n: nat, i: nat, found: map<Int32, UInt16>, answer: Option<seq<UInt16>>)
    requires i < |addrs| && ReadRun(addrs[..i], bus, n) == ReadProgress(i, Some(found))
    requires answer == ReadHoldingAnswer(bus, n + i, addrs[i], 1)
    ensures answer.None? ==> ReadRun(addrs, bus, n) == ReadProgress(i + 1, None)
    ensures answer.Some? ==> ReadRun(addrs[..i + 1], bus, n) == ReadProgress(i + 1, Some(found[addrs[i] := answer.value[0]]))
  {
    assert addrs[..i + 1][..i] == addrs[..i];
    if !bus.ok(n + i) {
      ReadRunFailsIff(addrs[..i], bus, n);
      ReadRunStopsAtFirstFailure(addrs, bus, n, i);
    }
  }


  /** When every read succeeds, the table holds exactly the addresses read. */
  lemma {:induction false} ReadRunKeys(addrs: seq<Int32>, bus: Bus, n: nat)
    requires ReadRun(addrs, bus, n).table.Some?
    ensures ReadRun(addrs, bus, n).table.value.Keys == Elements(addrs)
  {
    if addrs != [] {
      var k := |addrs| - 1;
      assert ReadRun(addrs[..k], bus, n).table.Some?;
      ReadRunKeys(addrs[..k], bus, n);
      SetOfSnoc(addrs);
    }
  }

  /** When every read succeeds, the entry of an address is the value its
      last read returned. */
  lemma {:induction false} ReadRunEntry(addrs: seq<Int32>, bus: Bus, n: nat, i: nat)
    requires ReadRun(addrs, bus, n).table.Some?
    requires i < |addrs| && addrs[i] !in addrs[i + 1..]
    ensures addrs[i] in ReadRun(addrs, bus, n).table.value
    ensures ReadRun(addrs, bus, n).table.value[addrs[i]] == bus.holding(n + i, addrs[i])
  {
    var k := |addrs| - 1;
    assert ReadRun(addrs[..k], bus, n).table.Some?;
    if i < k {
      assert addrs[k] in addrs[i + 1..];
      assert addrs[..k][i + 1..] == addrs[i + 1..k];
      ReadRunEntry(addrs[..k], bus, n, i);
    }
  }

  /** The elements of a sequence, as a set. */
  function Elements(s: seq<Int32>): (e: set<Int32>)
    ensures forall a :: a in e <==> a in s
  {
    set a | a in s
  }

  /** The exchange log after one more turn of a loop that issues `requests`
      in order. */
  lemma LogGrows(log: seq<Exchange>, requests: seq<Exchange>, i: nat)
    requires i < |requests|
    ensures log + requests[..i] + [requests[i]] == log + requests[..i + 1]
  {
  }

  /** The elements of a non-empty sequence: those of its front, and its last. */
  lemma SetOfSnoc(s: seq<Int32>)
    requires s != []
    ensures Elements(s) == Elements(s[..|s| - 1]) + {s[|s| - 1]}
  {
    assert s == s[..|s| - 1] + [s[|s| - 1]];
  }

  /** The addresses of a `write` table, as the loop stores them in `addr[]`. */
  function WriteAddresses(pairs: seq<(int, int)>): seq<Int32>
  {
    seq(|pairs|, i requires 0 <= i < |pairs| => ToInt32(pairs[i].0))
  }

  /** The values of a `write` table, as the loop stores them in `value[]`. */
  function WriteValues(pairs: seq<(int, int)>): seq<Int32>
  {
    seq(|pairs|, i requires 0 <= i < |pairs| => ToInt32(pairs[i].1))
  }

  /** The exchanges of `write`: one register write per pair, every pair. */
  function WriteRequests(pairs: seq<(int, int)>): seq<Exchange>
  {
    seq(|pairs|, i requires 0 <= i < |pairs| => WriteHolding(ToInt32(pairs[i].0), ToUInt16(ToInt32(pairs[i].1))))
  }

  /** The table the loop of `write` builds: true or false per address, the
      i-th write being exchange n+i. */
  function WriteResults(addrs: seq<Int32>, bus: Bus, n: nat): (m: map<Int32, bool>)
    ensures forall a :: a in m && m[a] ==> exists i :: 0 <= i < |addrs| && addrs[i] == a && bus.ok(n + i)
    decreases |addrs|
  {
    if addrs == [] then map[]
    else
      var k := |addrs| - 1;
      WriteResults(addrs[..k], bus, n)[addrs[k] := bus.ok(n + k)]
  }

  /** One turn of the loop of `write`: write number i adds its outcome. */
  lemma WriteResultsStep(addrs: seq<Int32>, bus: Bus, n: nat, i: nat, results: map<Int32, bool>, ok: bool)
    requires i < |addrs| && results == WriteResults(addrs[..i], bus, n) && ok == bus.ok(n + i)
    ensures results[addrs[i] := ok] == WriteResults(addrs[..i + 1], bus, n)
  {
    assert addrs[..i + 1][..i] == addrs[..i];
  }


  /** `write` records an entry for every address it was given. */
  lemma {:induction false} WriteResultsKeys(addrs: seq<Int32>, bus: Bus, n: nat)
    ensures WriteResults(addrs, bus, n).Keys == Elements(addrs)
  {
    if addrs != [] {
      WriteResultsKeys(addrs[..|addrs| - 1], bus, n);
      SetOfSnoc(addrs);
    }
  }

  /** Each pair's outcome is recorded whatever the other writes did: the
      entry of an address is the outcome of its last write. */
  lemma {:induction false} WriteResultsEntry(addrs: seq<Int32>, bus: Bus, n: nat, i: nat)
    requires i < |addrs| && addrs[i] !in addrs[i + 1..]
    ensures addrs[i] in WriteResults(addrs, bus, n)
    ensures WriteResults(addrs, bus, n)[addrs[i]] == bus.ok(n + i)
  {
    var k := |addrs| - 1;
    if i < k {
      assert addrs[k] in addrs[i + 1..];
      assert addrs[..k][i + 1..] == addrs[i + 1..k];
      WriteResultsEntry(addrs[..k], bus, n, i);
    }
  }

  /** The two batch policies side by side: with the same device, a failed
      exchange makes `read` return nothing, while `write` still records
      true for an address whose own write succeeded. */
  lemma BatchPoliciesDiffer(readAddrs: seq<Int32>, writeAddrs: seq<Int32>, bus: Bus, n: nat, k: nat, i: nat)
    requires k < |readAddrs| && !bus.ok(n + k)
    requires i < |writeAddrs| && bus.ok(n + i) && writeAddrs[i] !in writeAddrs[i + 1..]
    ensures ReadRun(readAddrs, bus, n).table.None?
    ensures writeAddrs[i] in WriteResults(writeAddrs, bus, n) && WriteResults(writeAddrs, bus, n)[writeAddrs[i]]
  {
    ReadRunFailsIff(readAddrs, bus, n);
    WriteResultsEntry(writeAddrs, bus, n, i);
  }

  /** The registers of a mapping after `modbus_reply` number m has served a request. */
  function ReplyEffect(h: Option<Holding>, bus: Bus, m: nat): (h': Option<Holding>)
    ensures h'.Some? <==> h.Some?
    ensures h.Some? ==> h'.value.start == h.value.start && h'.value.count == h.value.count
    ensures h.Some? ==> (h'.value.regs.Some? <==> h.value.regs.Some?)
    ensures h.Some? && h.value.regs.Some? ==> |h'.value.regs.value| == |h.value.regs.value|
  {
    match h
    case None => None
    case Some(hv) =>
      match hv.regs
      case None => h
      case Some(rs) => Some(hv.(regs := Some(Served(rs, bus, m))))
  }

  /** The register array after `modbus_reply` number m. */
  function Served(rs: seq<UInt16>, bus: Bus, m: nat): seq<UInt16>
  {
    seq<UInt16>(|rs|, i requires 0 <= i < |rs| => bus.store(m, i, rs[i]))
  }

  /** The number of bytes `uart_read` asks `recv` for: the Lua integer as a
      `size_t`, lowered to the buffer size. A negative request wraps to a
      huge `size_t` and so asks for a full buffer. */
  function UartLimit(length: int): (len: nat)
    ensures len <= MODBUS_TCP_MAX_ADU_LENGTH
    ensures 0 <= length <= MODBUS_TCP_MAX_ADU_LENGTH ==> len == length
    ensures MODBUS_TCP_MAX_ADU_LENGTH < length < TWO_64 || -TWO_63 <= length < 0 ==> len == MODBUS_TCP_MAX_ADU_LENGTH
  {
    var len := ToSizeT(length);
    if len > MODBUS_TCP_MAX_ADU_LENGTH then MODBUS_TCP_MAX_ADU_LENGTH else len
  }

  /** What `uart_read` hands back: recv's count, and the bytes when there are some. */
  datatype UartData = UartData(status: int, data: Option<seq<Byte>>)

  /** `uart_read` with recv's result kept signed: -1 on failure, otherwise
      the bytes read (at most `len` of those available), returned only when
      there is at least one. */
  function UartReadResult(available: Option<seq<Byte>>, len: nat): (u: UartData)
    ensures u.data.Some? <==> u.status > 0
    ensures u.data.Some? ==> |u.data.value| == u.status <= len
    ensures available.None? ==> u == UartData(-1, None)
    ensures available.Some? && u.data.Some? ==> u.data.value <= available.value
  {
    match available
    case None => UartData(-1, None)
    case Some(s) =>
      var got := if |s| <= len then s else s[..len];
      if |got| > 0 then UartData(|got|, Some(got)) else UartData(0, None)
  }

  /** The decision `uart_read` makes as written: recv's `ssize_t` result is
      stored in a `size_t`, then tested with `ret > 0` and used as the
      length handed to `lua_pushlstring`. Returns whether a string is pushed
      and how many bytes of the 260-byte buffer it asks for. */
  function UartPushAsWritten(recvResult: int): (p: (bool, SizeT))
    ensures p.1 == ToSizeT(recvResult)
    ensures p.0 <==> ToSizeT(recvResult) != 0
  {
    var ret := ToSizeT(recvResult);
    (ret > 0, ret)
  }

  /** When recv fails and returns -1, the code as written reads the result
      as SIZE_MAX and asks `lua_pushlstring` for SIZE_MAX bytes of the
      260-byte buffer, instead of returning -1 alone. */
  lemma UartReadErrorPushesSizeMax()
    ensures UartPushAsWritten(-1).0
    ensures UartPushAsWritten(-1).1 == TWO_64 - 1 > MODBUS_TCP_MAX_ADU_LENGTH
  {
  }

  /** With the result kept signed, a failed recv returns -1 alone, and any
      bytes returned lie within the buffer. */
  lemma UartReadStaysInBuffer(available: Option<seq<Byte>>, length: int)
    ensures available.None? ==> UartReadResult(available, UartLimit(length)) == UartData(-1, None)
    ensures UartReadResult(available, UartLimit(length)).data.Some? ==>
              |UartReadResult(available, UartLimit(length)).data.value| <= MODBUS_TCP_MAX_ADU_LENGTH
  {
  }

  /** The outcome of a connect or single write that is exchange n. */
  function Acknowledged(bus: Bus, n: nat): (r: Ret<int>)
    ensures r == Value(0) <==> bus.ok(n)
    ensures r != Value(0) ==> r == NilError(bus.errno(n))
  {
    if bus.ok(n) then Value(0) else NilError(bus.errno(n))
  }

  /** The `lua_next` walk of `read`: the table's values, as C `int`s, in the
      first |values| slots of a 256-entry array. */
  method CollectAddresses(values: seq<int>) returns (addresses: array<Int32>)
    requires |values| <= MAX_BATCH
    ensures fresh(addresses) && addresses.Length == MAX_BATCH
    ensures addresses[..|values|] == Addresses(values)
  {
    addresses := new Int32[MAX_BATCH];
    var i := 0;
    while i < |values|
      invariant 0 <= i <= |values|
      invariant addresses[..i] == Addresses(values)[..i]
    {
      addresses[i] := ToInt32(values[i]);
      i := i + 1;
    }
  }

  /** The `lua_next` walk of `write`: keys into `addr[]`, values into
      `value[]`, both as C `int`s. */
  method CollectPairs(pairs: seq<(int, int)>) returns (addr: array<Int32>, value: array<Int32>)
    requires |pairs| <= MAX_BATCH
    ensures fresh(addr) && fresh(value) && addr != value
    ensures addr.Length == MAX_BATCH && value.Length == MAX_BATCH
    ensures addr[..|pairs|] == WriteAddresses(pairs)
    ensures value[..|pairs|] == WriteValues(pairs)
  {
    addr := new Int32[MAX_BATCH];
    value := new Int32[MAX_BATCH];
    var i := 0;
    while i < |pairs|
      invariant 0 <= i <= |pairs|
      invariant addr[..i] == WriteAddresses(pairs)[..i]
      invariant value[..i] == WriteValues(pairs)[..i]
    {
      addr[i] := ToInt32(pairs[i].0);
      value[i] := ToInt32(pairs[i].1);
      i := i + 1;
    }
  }

  /** The second loop of `read`: one single-register read per collected
      address, leaving the loop at the first failure. */
  method ReadEach(c: Context, addresses: array<Int32>, count: nat, ghost addrs: seq<Int32>, bus: Bus)
    returns (table: Option<map<Int32, UInt16>>)
    requires count == |addrs| <= addresses.Length && addresses[..count] == addrs
    modifies c
    ensures c.exchanges == old(c.exchanges) + ReadRequests(addrs)[..ReadRun(addrs, bus, |old(c.exchanges)|).attempts]
    ensures table == ReadRun(addrs, bus, |old(c.exchanges)|).table
  {
    ghost var requests := ReadRequests(addrs);
    ghost var n := |c.exchanges|;
    var found: map<Int32, UInt16> := map[];
    var i := 0;
    while i < count
      invariant 0 <= i <= count
      invariant ReadRun(addrs[..i], bus, n) == ReadProgress(i, Some(found))
      invariant c.exchanges == old(c.exchanges) + requests[..i]
      invariant |c.exchanges| == n + i
    {
      assert addresses[i] == addresses[..count][i];
      var answer := c.ReadRegisters(addresses[i], 1, bus);
      LogGrows(old(c.exchanges), requests, i);
      ReadRunStep(addrs, bus, n, i, found, answer);
      if answer.None? {
        return None;
      }
      found := found[addresses[i] := answer.value[0]];
      i := i + 1;
    }
    assert addrs[..i] == addrs;
    assert requests[..i] == requests;
    table := Some(found);
  }

  /** The second loop of `write`: one register write per collected pair,
      every pair, recording each outcome under its address. */
  method WriteEach(c: Context, addr: array<Int32>, value: array<Int32>, pairs: seq<(int, int)>, bus: Bus)
    returns (results: map<Int32, bool>)
    requires |pairs| <= addr.Length && |pairs| <= value.Length
    requires addr[..|pairs|] == WriteAddresses(pairs) && value[..|pairs|] == WriteValues(pairs)
    modifies c
    ensures c.exchanges == old(c.exchanges) + WriteRequests(pairs)
    ensures results == WriteResults(WriteAddresses(pairs), bus, |old(c.exchanges)|)
  {
    ghost var addrs := WriteAddresses(pairs);
    ghost var requests := WriteRequests(pairs);
    ghost var n := |c.exchanges|;
    results := map[];
    var i := 0;
    while i < |pairs|
      invariant 0 <= i <= |pairs|
      invariant results == WriteResults(addrs[..i], bus, n)
      invariant c.exchanges == old(c.exchanges) + requests[..i]
      invariant |c.exchanges| == n + i
    {
      assert addr[i] == addr[..|pairs|][i] && value[i] == value[..|pairs|][i];
      var ok := c.WriteRegister(addr[i], ToUInt16(value[i]), bus);
      LogGrows(old(c.exchanges), requests, i);
      WriteResultsStep(addrs, bus, n, i, results, ok);
      results := results[addr[i] := ok];
      i := i + 1;
    }
    assert addrs[..i] == addrs;
    assert requests[..i] == requests;
  }

  /** The native libmodbus context (`modbus_t`): the settings it was created
      with and the exchanges started through it. */
  class Context {
    const settings: Settings
    var exchanges: seq<Exchange>

    constructor (settings: Settings)
      ensures this.settings == settings && exchanges == []
    {
      this.settings := settings;
      exchanges := [];
    }

    /** `modbus_read_registers`: one Read Holding Registers exchange. */
    method ReadRegisters(address: Int32, quantity: Int32, bus: Bus) returns (regs: Option<seq<UInt16>>)
      modifies this
      ensures exchanges == old(exchanges) + [ReadHolding(address, quantity)]
      ensures regs == ReadHoldingAnswer(bus, |old(exchanges)|, address, quantity)
    {
      regs := ReadHoldingAnswer(bus, |exchanges|, address, quantity);
      exchanges := exchanges + [ReadHolding(address, quantity)];
    }

    /** `modbus_write_register`: one Write Single Register exchange; true
        when it is acknowledged. */
    method WriteRegister(address: Int32, value: UInt16, bus: Bus) returns (ok: bool)
      modifies this
      ensures exchanges == old(exchanges) + [WriteHolding(address, value)]
      ensures ok == bus.ok(|old(exchanges)|)
    {
      ok := bus.ok(|exchanges|);
      exchanges := exchanges + [WriteHolding(address, value)];
    }
  }

  /** A `modbus_mapping_t` as the binding allocates it: the coil, discrete
      input and input register spaces are empty, the holding registers are
      `tabRegisters`, offset by `startRegisters`. */
  class Mapping {
    const startBits: Int32
    const nbBits: Int32
    const startInputBits: Int32
    const nbInputBits: Int32
    const startInputRegisters: Int32
    const nbInputRegisters: Int32
    const startRegisters: Int32
    const nbRegisters: Int32
    const tabRegisters: array?<UInt16>

    ghost predicate Valid() {
      tabRegisters != null ==> nbRegisters <= tabRegisters.Length
    }

    /** The holding space as a value. */
    ghost function View(): (h: Holding)
      reads this, tabRegisters
      requires Valid()
      ensures WellFormed(h)
    {
      Holding(startRegisters, nbRegisters, if tabRegisters == null then None else Some(tabRegisters[..]))
    }

    /** `modbus_mapping_new_start_address(0, 0, 0, 0, start, count, 0, 0)`. */
    constructor HoldingOnly(start: UInt32, count: UInt32)
      ensures Valid() && (tabRegisters != null ==> fresh(tabRegisters))
      ensures View() == FreshHolding(start, count)
      ensures nbBits == 0 && nbInputBits == 0 && nbInputRegisters == 0
    {
      startBits, nbBits := 0, 0;
      startInputBits, nbInputBits := 0, 0;
      startInputRegisters, nbInputRegisters := 0, 0;
      startRegisters, nbRegisters := ToInt32(start), ToInt32(count);
      if count == 0 {
        tabRegisters := null;
      } else {
        var tab := new UInt16[count](i => 0);
        assert tab[..] == seq(count, i => 0);
        tabRegisters := tab;
      }
    }
  }

  /** The `l_modbus_t` userdata behind every connection object. */
  class Connection {
    const backend: Backend
    var ctx: Context?
    var mapping: Mapping?

    ghost predicate Valid()
      reads this, mapping
    {
      mapping != null ==> mapping.Valid()
    }

    /** The argument check `l_check_modbus` performs: the context is not NULL. */
    predicate Usable()
      reads this
    {
      ctx != null
    }

    /** The register array the connection currently owns, if any. */
    ghost function Registers(): set<object>
      reads this, mapping
    {
      if mapping != null && mapping.tabRegisters != null then {mapping.tabRegisters} else {}
    }

    /** The holding space of the current mapping as a value. */
    ghost function Holding(): (h: Option<Holding>)
      reads this, mapping, Registers()
      requires Valid()
      ensures h.Some? ==> WellFormed(h.value)
    {
      if mapping == null then None else Some(mapping.View())
    }

    /** `new`: the userdata is created with a NULL mapping; the context is
        whatever libmodbus returns (`nativeOk` false: NULL). */
    constructor (host: string, port: int, parity: Option<int>, dataBits: Option<int>, stopBits: Option<int>, nativeOk: bool)
      ensures Valid()
      ensures backend == BackendFor(port)
      ensures mapping == null
      ensures ctx != null <==> nativeOk
      ensures ctx != null ==> fresh(ctx) && ctx.settings == SettingsFor(host, port, parity, dataBits, stopBits) && ctx.exchanges == []
    {
      backend := BackendFor(port);
      mapping := null;
      if nativeOk {
        ctx := new Context(SettingsFor(host, port, parity, dataBits, stopBits));
      } else {
        ctx := null;
      }
    }

    /** `new` as Lua sees it: the connection and the C function's status,
        1 when libmodbus created a context, -1 otherwise. */
    static method Init(host: string, port: int, parity: Option<int>, dataBits: Option<int>, stopBits: Option<int>, nativeOk: bool)
      returns (c: Connection, status: int)
      ensures fresh(c) && c.Valid() && c.mapping == null && c.backend == BackendFor(port)
      ensures c.Usable() <==> nativeOk
      ensures status == if nativeOk then 1 else -1
    {
      c := new Connection(host, port, parity, dataBits, stopBits, nativeOk);
      status := if c.ctx == null then -1 else 1;
    }

    /** `connect`. */
    method Connect(bus: Bus) returns (r: Ret<int>)
      modifies ctx
      ensures !Usable() ==> r == ArgError
      ensures Usable() ==> ctx.exchanges == old(ctx.exchanges) + [Exchange.Connect]
      ensures Usable() ==> r == Acknowledged(bus, |old(ctx.exchanges)|)
    {
      if ctx == null {
        return ArgError;
      }
      var n := |ctx.exchanges|;
      ctx.exchanges := ctx.exchanges + [Exchange.Connect];
      r := if bus.ok(n) then Value(0) else NilError(bus.errno(n));
    }

    /** `mapping(start, count)`: frees the old mapping, then installs one
        with only a holding space (defaults: start 0, count 100). `allocOk`
        false stands for libmodbus failing to allocate, leaving it NULL. */
    method NewMapping(start: Option<int>, count: Option<int>, allocOk: bool) returns (r: Ret<int>)
      requires Valid()
      modifies this
      ensures Valid() && ctx == old(ctx)
      ensures !Usable() ==> r == ArgError && mapping == old(mapping)
      ensures Usable() ==> r == Value(0) && (mapping != null <==> allocOk)
      ensures Usable() && mapping != null ==>
                fresh(mapping) && (mapping.tabRegisters != null ==> fresh(mapping.tabRegisters)) &&
                mapping.nbBits == 0 && mapping.nbInputBits == 0 && mapping.nbInputRegisters == 0 &&
                Holding() == Some(FreshHolding(ToUInt32(start.GetOr(DEFAULT_MAPPING_START)),
                                               ToUInt32(count.GetOr(DEFAULT_MAPPING_COUNT))))
    {
      if ctx == null {
        return ArgError;
      }
      if mapping != null {
        mapping := null;
      }
      var startAddress := ToUInt32(start.GetOr(DEFAULT_MAPPING_START));
      var registerCount := ToUInt32(count.GetOr(DEFAULT_MAPPING_COUNT));
      if allocOk {
        mapping := new Mapping.HoldingOnly(startAddress, registerCount);
      }
      r := Value(0);
    }

    /** `set_value(type, address, value)`: writes one holding register in
        place; 0 on success, -1 otherwise. */
    method SetValue(registerType: int, address: int, value: int) returns (r: Ret<int>)
      requires Valid()
      modifies Registers()
      ensures Valid()
      ensures !Usable() ==> r == ArgError && Holding() == old(Holding())
      ensures Usable() ==>
                r == Value(if SetValueOffset(old(Holding()), registerType, address).Some? then 0 else -1)
      ensures Usable() ==> Holding() == SetValueResult(old(Holding()), registerType, address, value)
    {
      if ctx == null {
        return ArgError;
      }
      var registerAddress := ToInt32(address);
      var registerValue := ToUInt16(value);
      if mapping != null {
        if ToUInt32(registerType) == HOLDING_REGISTERS && mapping.tabRegisters != null {
          var offset := registerAddress - mapping.startRegisters;
          if offset >= 0 && offset < mapping.nbRegisters {
            mapping.tabRegisters[offset] := registerValue;
            return Value(0);
          }
        }
      }
      r := Value(-1);
    }

    /** `receive`: one blocking receive and, only when it returned a
        positive length, one reply served from the mapping. Lua gets the
        whole 260-byte query buffer; the status is pushed beneath it and
        dropped by `return 1`. */
    method Receive(bus: Bus) returns (r: Ret<Adu>)
      requires Valid()
      modifies ctx, Registers()
      ensures Valid()
      ensures !Usable() ==> r == ArgError && Holding() == old(Holding())
      ensures Usable() ==>
                var n := |old(ctx.exchanges)|;
                r == Value(bus.query(n)) &&
                ctx.exchanges == old(ctx.exchanges) + [ReceiveIndication] +
                                 (if bus.indication(n) > 0 then [SendReply(bus.indication(n))] else []) &&
                Holding() == (if bus.indication(n) > 0 then ReplyEffect(old(Holding()), bus, n + 1) else old(Holding()))
    {
      if ctx == null {
        return ArgError;
      }
      var n := |ctx.exchanges|;
      ctx.exchanges := ctx.exchanges + [ReceiveIndication];
      var query := bus.query(n);
      var ret := bus.indication(n);
      if ret > 0 {
        ctx.exchanges := ctx.exchanges + [SendReply(ret)];
        if mapping != null && mapping.tabRegisters != null {
          var tab := mapping.tabRegisters;
          ghost var before := tab[..];
          forall i | 0 <= i < tab.Length {
            tab[i] := bus.store(n + 1, i, tab[i]);
          }
          assert tab[..] == ReplyEffect(Some(mapping.View().(regs := Some(before))), bus, n + 1).value.regs.value;
        }
        ret := bus.reply(n + 1);
      }
      r := Value(query);
    }

    /** `close`: frees the mapping and the context; afterwards every method
        fails the argument check. */
    method Close() returns (r: Ret<int>)
      requires Valid()
      modifies this
      ensures Valid() && ctx == null && !Usable()
      ensures !old(Usable()) ==> r == ArgError && mapping == old(mapping)
      ensures old(Usable()) ==> r == Value(0) && mapping == null
    {
      if ctx == null {
        return ArgError;
      }
      if mapping != null {
        mapping := null;
      }
      if ctx != null {
        ctx := null;
      }
      r := Value(0);
    }

    /** `slave(id)`: hands the slave id to libmodbus and returns 0 whatever it says. */
    method SetSlave(slave: int) returns (r: Ret<int>)
      modifies ctx
      ensures !Usable() ==> r == ArgError
      ensures Usable() ==> r == Value(0) && ctx.exchanges == old(ctx.exchanges) + [Exchange.SetSlave(ToInt32(slave))]
    {
      if ctx == null {
        return ArgError;
      }
      ctx.exchanges := ctx.exchanges + [Exchange.SetSlave(ToInt32(slave))];
      r := Value(0);
    }

    /** `mread(address, count)`: one Read Holding Registers request for at
        most 125 registers; the registers come back as 2*count bytes. */
    method MRead(address: int, count: int, bus: Bus) returns (r: Ret<seq<Byte>>)
      modifies ctx
      ensures !Usable() ==> r == ArgError
      ensures Usable() ==>
                ctx.exchanges == old(ctx.exchanges) + [ReadHolding(ToInt32(address), ClampQuantity(ToInt32(count)))]
      ensures Usable() ==> r == MReadReturn(bus, |old(ctx.exchanges)|, address, count)
    {
      if ctx == null {
        return ArgError;
      }
      var addr := ToInt32(address);
      var quantity := ToInt32(count);
      if quantity > MODBUS_MAX_READ_REGISTERS {
        quantity := MODBUS_MAX_READ_REGISTERS;
      }
      var n := |ctx.exchanges|;
      var answer := ctx.ReadRegisters(addr, quantity, bus);
      if answer.None? {
        return NilError(bus.errno(n));
      }
      r := Value(HostBytes(answer.value));
    }

    /** `mwrite(address, value)`: one Write Single Register request. */
    method MWrite(address: int, value: int, bus: Bus) returns (r: Ret<int>)
      modifies ctx
      ensures !Usable() ==> r == ArgError
      ensures Usable() ==>
                ctx.exchanges == old(ctx.exchanges) + [WriteHolding(ToInt32(address), ToUInt16(ToInt32(value)))]
      ensures Usable() ==> r == Acknowledged(bus, |old(ctx.exchanges)|)
    {
      if ctx == null {
        return ArgError;
      }
      var n := |ctx.exchanges|;
      var ok := ctx.WriteRegister(ToInt32(address), ToUInt16(ToInt32(value)), bus);
      r := if ok then Value(0) else NilError(bus.errno(n));
    }

    /** `read{a1, a2, ...}`: one single-register read per address, in table
        order; the first failure ends the call with no results, otherwise
        the table address -> value is returned. */
    method Read(values: seq<int>, bus: Bus) returns (r: Ret<map<Int32, UInt16>>)
      requires |values| <= MAX_BATCH
      modifies ctx
      ensures !Usable() ==> r == ArgError
      ensures Usable() ==>
                var addrs := Addresses(values);
                var run := ReadRun(addrs, bus, |old(ctx.exchanges)|);
                ctx.exchanges == old(ctx.exchanges) + ReadRequests(addrs)[..run.attempts] &&
                r == (if run.table.Some? then Value(run.table.value) else NoValues)
    {
      if ctx == null {
        return ArgError;
      }
      var addresses := CollectAddresses(values);
      var table := ReadEach(ctx, addresses, |values|, Addresses(values), bus);
      r := if table.Some? then Value(table.value) else NoValues;
    }

    /** `write{[a1] = v1, ...}`: one register write per pair, every pair
        whatever the others did; `results` is the table of per-address
        outcomes the C code builds, and Lua is returned 0. */
    method Write(pairs: seq<(int, int)>, bus: Bus) returns (r: Ret<int>, results: map<Int32, bool>)
      requires |pairs| <= MAX_BATCH
      modifies ctx
      ensures !Usable() ==> r == ArgError
      ensures Usable() ==> r == Value(0)
      ensures Usable() ==> ctx.exchanges == old(ctx.exchanges) + WriteRequests(pairs)
      ensures Usable() ==> results == WriteResults(WriteAddresses(pairs), bus, |old(ctx.exchanges)|)
    {
      results := map[];
      if ctx == null {
        return ArgError, results;
      }
      var addr, value := CollectPairs(pairs);
      results := WriteEach(ctx, addr, value, pairs, bus);
      r := Value(0);
    }

    /** `uart_read(length)`, with recv's result kept signed (recv's -1
        would otherwise be read as SIZE_MAX; see UartPushAsWritten): at
        most 260 bytes, returned only when recv delivered some. */
    method UartRead(length: int, bus: Bus) returns (r: Ret<UartData>)
      modifies ctx
      ensures !Usable() ==> r == ArgError
      ensures Usable() ==> ctx.exchanges == old(ctx.exchanges) + [RawReceive(UartLimit(length))]
      ensures Usable() ==> r == Value(UartReadResult(bus.stream(|old(ctx.exchanges)|), UartLimit(length)))
    {
      var len := ToSizeT(length);
      if len > MODBUS_TCP_MAX_ADU_LENGTH {
        len := MODBUS_TCP_MAX_ADU_LENGTH;
      }
      if ctx == null {
        return ArgError;
      }
      var n := |ctx.exchanges|;
      ctx.exchanges := ctx.exchanges + [RawReceive(len)];
      var ret: int;
      var query: seq<Byte> := [];
      match bus.stream(n) {
        case None =>
          ret := -1;
        case Some(s) =>
          query := if |s| <= len then s else s[..len];
          ret := |query|;
      }
      if ret > 0 {
        return Value(UartData(ret, Some(query)));
      }
      r := Value(UartData(ret, None));
    }
  }

  /** After `close`, a later call fails the argument check instead of
      reaching libmodbus. */
  method UseAfterClose(c: Connection, bus: Bus) returns (r: Ret<seq<Byte>>)
    requires c.Valid() && c.Usable()
    modifies c, c.ctx
    ensures r == ArgError && c.mapping == null && c.ctx == null
  {
    var closed := c.Close();
    r := c.MRead(0, 1, bus);
  }
}
