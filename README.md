# node.lua core: the Modbus Lua binding and the `lnode` launcher

This project models two C components of node.lua and proves properties of
the models in Dafny.

**The Modbus binding** is `modules/modbus/src/modbus-lua.c`. It gives Lua a
`modbus` connection object. The object wraps a libmodbus context (`modbus_t`),
an optional register mapping (`modbus_mapping_t`) and a backend kind (TCP or
RTU). Its methods are:

- `new`, `connect`, `slave`, `close`;
- `mapping` and `set_value`, which run a local register table for server use;
- `receive`, which serves one request from that table;
- `read`, `write`, `mread` and `mwrite`, which read and write the holding registers of a remote device;
- `uart_read`, a raw byte read.

The model is `modbus_binding.dfy`.

- **Connection, Mapping and Context.** These are classes whose fields the methods update in place.
- **The C casts.** The source applies `(int)`, `(unsigned int)`, `(uint16_t)`, `(char)` and `size_t` casts to Lua integers. Each one is written out as an explicit reduction in `ctypes.dfy`.
- **libmodbus and the remote device.** Neither is modelled. A `Bus` value stands for them and answers exchange number n, where n is the position of the exchange in the context's log. Every Context method appends to that log, so each method states the exact exchanges it starts.
- **`read` and `write`.** Each is a `lua_next` walk that fills fixed 256-entry C arrays, followed by a loop of libmodbus calls. Both are kept as loops over arrays and proved against the specification functions `ReadRun` and `WriteResults`.

**The launcher** is `core/deps/lnode/src/main.c`. It scans `argv[1]` for an option:

| option | mode |
|---|---|
| `-d` | daemon |
| `-l` | info |
| `-e` | eval |
| `-p` | print |
| `-r` | require |
| `-v` | version |
| `-` | script from standard input, when nothing follows it; a following argument is run as the script |
| any other word starting with `-` | skip it |
| anything else | the argument is the script |

It then picks the script argument, creates and sets up a Lua state, dispatches on the mode, closes the state and exits with the status of what it ran.

The model is `lnode_main.dfy`.

- **A run.** It is the exit code plus the sequence of runtime calls made.
- **Arguments.** Each `argv` string is a sequence of bytes (chars below 256), so lengths are counted in bytes as the C library counts them.
- **The Lua runtime.** A `Host` value stands for it: whether the state can be created, and the status of each script, library or file run.
- **Status reporting.** `lnode_report_message` and `lnode_dochunk` are modelled on an abstract Lua stack.

Two facts about the code that the model keeps:

- `mread` returns the registers in host byte order (little-endian on the targets), not in the big-endian order of Modbus frames.
- `mapping` frees the old mapping before it allocates the new one, so a failed allocation leaves the connection without a mapping.

## Model

| member | source | states |
|---|---|---|
| CTypes.ToInt32 | modules/modbus/src/modbus-lua.c:72 | `(int)` of a Lua integer is congruent to it modulo 2^32 and is the identity on the int range |
| CTypes.ToUInt32 | modules/modbus/src/modbus-lua.c:163-164 | `(unsigned int)` is reduction modulo 2^32, the identity on 0..2^32-1 |
| CTypes.ToUInt16 | modules/modbus/src/modbus-lua.c:183 | `(uint16_t)` is reduction modulo 2^16, the identity on 0..65535 |
| CTypes.ToSizeT | modules/modbus/src/modbus-lua.c:373 | `(size_t)` is reduction modulo 2^64; a negative value v becomes v + 2^64 (so -1 is SIZE_MAX) |
| CTypes.ToByte | modules/modbus/src/modbus-lua.c:73 | `(char)` keeps the low 8 bits; the identity on 0..255 |
| CTypes.UInt16OfInt32 | modules/modbus/src/modbus-lua.c:319-321 | passing a Lua integer through `int` before `uint16_t` keeps the same low 16 bits |
| ModbusBinding.BackendFor | modules/modbus/src/modbus-lua.c:82-106 | TCP exactly when the port, as an int, is below 9600 |
| ModbusBinding.SettingsFor | modules/modbus/src/modbus-lua.c:71-106 | TCP settings exactly when the backend is TCP, with the host and the int port; RTU settings carry the host as device, the int port as baud, and each of parity, data bits and stop bits either its own cast argument or, when omitted, its default 'N', 8, 1 |
| ModbusBinding.BackendChoice | modules/modbus/src/modbus-lua.c:71-106 | port < 9600 gives modbus_new_tcp(host, port); otherwise modbus_new_rtu with device host and baud port, where an omitted parity is 'N', omitted data bits 8 and omitted stop bits 1, each independently of the others |
| ModbusBinding.FreshHolding | modules/modbus/src/modbus-lua.c:163-171 | a new holding space has a register array exactly when count != 0, of count zeroed registers |
| ModbusBinding.RegisterAt | modules/modbus/src/modbus-lua.c:186-189 | an address is mapped iff a mapping with an array exists and start <= address < start + count |
| ModbusBinding.FreshHoldingAddresses | modules/modbus/src/modbus-lua.c:158-171 | after `mapping(start, count)`, exactly start..start+count-1 are mapped, all reading 0; the previous mapping is gone |
| ModbusBinding.SetValueOffset | modules/modbus/src/modbus-lua.c:185-190 | an offset is produced only for an existing array and lies inside count and the array |
| ModbusBinding.SetValueResult | modules/modbus/src/modbus-lua.c:185-198 | `set_value` keeps the mapping well formed and never creates or removes it |
| ModbusBinding.SetValueSucceedsIff | modules/modbus/src/modbus-lua.c:181-198 | `set_value` succeeds iff the type is 2 and the int address is mapped |
| ModbusBinding.SetValueWritesOnlyTarget | modules/modbus/src/modbus-lua.c:187-192 | a successful `set_value` makes the address read the uint16 value and leaves every other address as it was |
| ModbusBinding.SetValueRejectedUnchanged | modules/modbus/src/modbus-lua.c:197-198 | a rejected `set_value` changes nothing |
| ModbusBinding.ReadHoldingAnswer | modules/modbus/src/modbus-lua.c:301 | a successful register read returns exactly quantity registers, quantity in 1..125, each the device's register at address + j |
| ModbusBinding.ClampQuantity | modules/modbus/src/modbus-lua.c:295-298 | the `mread` quantity is unchanged when at most 125 and exactly 125 when larger |
| ModbusBinding.HostBytes | modules/modbus/src/modbus-lua.c:311 | the pushed string has 2 bytes per register |
| ModbusBinding.RegistersOf | modules/modbus/src/modbus-lua.c:311 | decoding yields one register per two bytes |
| ModbusBinding.HostBytesRoundTrip | modules/modbus/src/modbus-lua.c:311 | the bytes of a register array decode back to the same registers |
| ModbusBinding.MReadReturn | modules/modbus/src/modbus-lua.c:289-313 | `mread` on a usable connection returns either nil and an error, exactly when the read is refused (a failed exchange, or an int count below 1, which the modelled device refuses), or an even number of bytes, 2 to 250 |
| ModbusBinding.MReadReturnsCountRegisters | modules/modbus/src/modbus-lua.c:289-313 | `mread` returns nil and the error of the failed read, or 2*count bytes (count after clamping) that decode to the remote registers address..address+count-1 |
| ModbusBinding.MReadClampsCount | modules/modbus/src/modbus-lua.c:295-298 | a count above 125 behaves exactly as 125 |
| ModbusBinding.ReadRun | modules/modbus/src/modbus-lua.c:270-286 | the run issues at most one read per address, and returns a table only after all of them |
| ModbusBinding.ReadRunFailsIff | modules/modbus/src/modbus-lua.c:272-275 | `read` returns nothing iff one of its reads fails |
| ModbusBinding.ReadRunStopsAtFirstFailure | modules/modbus/src/modbus-lua.c:270-275 | if read i is the first to fail, exactly i+1 reads are issued and nothing is returned |
| ModbusBinding.ReadRunStep | modules/modbus/src/modbus-lua.c:270-284 | one turn of the loop either adds the register read under its address or ends the run with no table |
| ModbusBinding.ReadRunKeys | modules/modbus/src/modbus-lua.c:269-286 | on success the table's keys are exactly the addresses given |
| ModbusBinding.ReadRunEntry | modules/modbus/src/modbus-lua.c:282-283 | on success each address maps to the register its last read returned |
| ModbusBinding.WriteResults | modules/modbus/src/modbus-lua.c:437-449 | an address is recorded true only if some write of that very address was acknowledged |
| ModbusBinding.WriteResultsStep | modules/modbus/src/modbus-lua.c:437-449 | one turn of the loop of `write` records that write's outcome under its address |
| ModbusBinding.WriteResultsKeys | modules/modbus/src/modbus-lua.c:435-449 | the per-address table of `write` has exactly the addresses given as keys |
| ModbusBinding.WriteResultsEntry | modules/modbus/src/modbus-lua.c:439-448 | each address records the outcome of its own last write, whatever the other writes did |
| ModbusBinding.BatchPoliciesDiffer | modules/modbus/src/modbus-lua.c:270-286 | with the same device, one failed read makes `read` return nothing, while `write` still records true for an address whose own write succeeded |
| ModbusBinding.ReplyEffect | modules/modbus/src/modbus-lua.c:209-211 | serving a request keeps the mapping's presence, start, count, array presence and array length |
| ModbusBinding.UartLimit | modules/modbus/src/modbus-lua.c:373-375 | `uart_read` asks for at most 260 bytes: the length itself when in 0..260, and 260 for a larger one or for a negative one, which wraps as size_t |
| ModbusBinding.UartReadResult | modules/modbus/src/modbus-lua.c:386-394 | (corrected) bytes are returned iff the count is positive, their number is the count, at most the limit, and they come from what is available; a failed recv gives -1 alone |
| ModbusBinding.UartPushAsWritten | modules/modbus/src/modbus-lua.c:386-392 | (as written) the length pushed is recv's result as size_t, and a string is pushed iff that is non-zero |
| ModbusBinding.UartReadErrorPushesSizeMax | modules/modbus/src/modbus-lua.c:386-392 | (as written) a failed recv (-1) is read as SIZE_MAX, passes `ret > 0`, and `lua_pushlstring` is asked for SIZE_MAX bytes of the 260-byte buffer instead of -1 being returned alone |
| ModbusBinding.UartReadStaysInBuffer | modules/modbus/src/modbus-lua.c:370-396 | (corrected) a failed recv returns -1 alone, and any bytes returned fit in the 260-byte buffer |
| ModbusBinding.Acknowledged | modules/modbus/src/modbus-lua.c:133-139 | 0 exactly when the exchange succeeds, else nil and the error of that exchange |
| ModbusBinding.CollectAddresses | modules/modbus/src/modbus-lua.c:254-265 | the first |values| slots of the 256-entry array hold the table's values as ints |
| ModbusBinding.CollectPairs | modules/modbus/src/modbus-lua.c:419-431 | the first slots of `addr[]` and `value[]` hold the keys and values as ints |
| ModbusBinding.ReadEach | modules/modbus/src/modbus-lua.c:269-286 | the loop logs exactly ReadRun's reads and returns ReadRun's table |
| ModbusBinding.WriteEach | modules/modbus/src/modbus-lua.c:435-449 | the loop logs one write per pair and builds WriteResults' table |
| ModbusBinding.Context.constructor | modules/modbus/src/modbus-lua.c:89 | a new context keeps its settings and has started no exchange |
| ModbusBinding.Context.ReadRegisters | modules/modbus/src/modbus-lua.c:272 | one Read Holding Registers exchange, answered by the device |
| ModbusBinding.Context.WriteRegister | modules/modbus/src/modbus-lua.c:439 | one Write Single Register exchange; true iff acknowledged |
| ModbusBinding.Mapping.HoldingOnly | modules/modbus/src/modbus-lua.c:166-170 | the mapping has only a holding space, equal to FreshHolding(start, count); the other three spaces have count 0 |
| ModbusBinding.Connection.constructor | modules/modbus/src/modbus-lua.c:80-106 | backend by port, no mapping, a context iff libmodbus creates one, with the computed settings |
| ModbusBinding.Connection.Init | modules/modbus/src/modbus-lua.c:69-115 | `new` returns 1 and a usable connection when libmodbus creates the context, -1 otherwise |
| ModbusBinding.Connection.Connect | modules/modbus/src/modbus-lua.c:129-140 | argument error without a context; otherwise one connect exchange, 0 or nil and the error |
| ModbusBinding.Connection.NewMapping | modules/modbus/src/modbus-lua.c:154-175 | the old mapping is dropped and a fresh holding-only mapping (defaults 0 and 100) installed when allocation succeeds; returns 0 |
| ModbusBinding.Connection.SetValue | modules/modbus/src/modbus-lua.c:177-199 | 0 when the address is writable, -1 otherwise; the mapping becomes SetValueResult of the old one |
| ModbusBinding.Connection.Receive | modules/modbus/src/modbus-lua.c:201-216 | one receive, a reply only after a positive receive, the mapping updated by that reply only, and the 260-byte buffer returned |
| ModbusBinding.Connection.Close | modules/modbus/src/modbus-lua.c:218-236 | mapping and context released, 0 returned; without a context an argument error |
| ModbusBinding.Connection.SetSlave | modules/modbus/src/modbus-lua.c:238-247 | the slave id as int is handed to libmodbus and 0 returned |
| ModbusBinding.Connection.MRead | modules/modbus/src/modbus-lua.c:289-313 | one read of the clamped quantity; the return is MReadReturn |
| ModbusBinding.Connection.MWrite | modules/modbus/src/modbus-lua.c:315-329 | one write of the value as uint16; 0 or nil and the error |
| ModbusBinding.Connection.Read | modules/modbus/src/modbus-lua.c:249-287 | the reads of ReadRun and its table, or no values after a failure |
| ModbusBinding.Connection.Write | modules/modbus/src/modbus-lua.c:403-453 | a write for every pair, the per-address table WriteResults, and 0 returned |
| ModbusBinding.Connection.UartRead | modules/modbus/src/modbus-lua.c:370-396 | (corrected) one raw receive of UartLimit(length) bytes; the result is UartReadResult |
| ModbusBinding.UseAfterClose | modules/modbus/src/modbus-lua.c:117-121 | after `close`, a call fails the argument check |
| LnodeMain.ScanOption | core/deps/lnode/src/main.c:197-232 | `-v` alone stops the launcher; the script index is 2 iff argv[1] starts with '-' and is not `-l`; each flag is set iff its option is argv[1]; `-` alone marks a stdin script |
| LnodeMain.PickFile | core/deps/lnode/src/main.c:234-239 | a file exists iff 0 < script < argc; it is argv[script], which marks a script |
| LnodeMain.SelectMode | core/deps/lnode/src/main.c:259-293 | precedence info > eval > print > require > script > usage, each iff the higher ones are off |
| LnodeMain.PrintChunk | core/deps/lnode/src/main.c:270 | the chunk is a prefix of `print(expr)`: the whole of it when it fits in PATH_MAX-1 bytes, exactly PATH_MAX-1 bytes of it otherwise |
| LnodeMain.LongExpressionLosesClosingParen | core/deps/lnode/src/main.c:268-273 | an expression too long for the buffer yields the first PATH_MAX-1 bytes of `print(` + expression: the closing parenthesis is lost |
| LnodeMain.Dispatch | core/deps/lnode/src/main.c:259-293 | eval, print and require without a file do nothing and yield 0; otherwise `init` is loaded first and then: eval runs the argument as `eval.lua`, print runs PrintChunk of it as `print.lua`, require loads the named library, each yielding that call's status; script mode runs the file, then the loop and exit chunks, and yields the file's status; info and usage yield 0 |
| LnodeMain.Launch | core/deps/lnode/src/main.c:177-297 | `-v` prints the version with no state; a failed state exits 1; a created state is always closed last and the exit code is the status of the dispatched mode; `-d` daemonises first |
| LnodeMain.NoArgumentsShowsUsage | core/deps/lnode/src/main.c:288-292 | without arguments the launcher prints version and usage |
| LnodeMain.PlainArgumentRunsScript | core/deps/lnode/src/main.c:234-239 | a non-option argv[1] is the script run, and its status is the exit code |
| LnodeMain.DashReadsStandardInput | core/deps/lnode/src/main.c:225-228 | `-` alone runs the script from standard input (no file name) |
| LnodeMain.ModeWithoutArgumentDoesNothing | core/deps/lnode/src/main.c:262-284 | `-e`, `-p` or `-r` with no argument only set up and close the state, exiting 0 |
| LnodeMain.ScriptModeAlwaysRunsLoop | core/deps/lnode/src/main.c:285-289 | in script mode the loop and exit chunks run whatever the script did, and the exit code is the file's status |
| LnodeMain.ErrorLine | core/deps/lnode/src/main.c:63-68 | the line is `lua: `, then exactly the message, then a newline |
| LnodeMain.ReportMessage | core/deps/lnode/src/main.c:76-83 | the status is returned unchanged; on error the message on top is printed and popped, otherwise nothing is printed or popped |
| LnodeMain.DoCall | core/deps/lnode/src/main.c:129-140 | the chunk is consumed and the handler removed; on failure the handler's message is left on top |
| LnodeMain.DoChunk | core/deps/lnode/src/main.c:142-148 | the status is the load status when loading failed, else the call status; the stack returns to its level before the load; a message is printed iff the status is an error |
| LnodeMain.FailedLoadNeverRuns | core/deps/lnode/src/main.c:142-148 | a chunk that failed to load is never run, and the load error is printed |

## Left out

- libmodbus internals are not modelled: framing, the TCP and RTU backends, timeouts, and which requests `modbus_reply` answers and how. The `Bus` oracle gives their results.
- `listen`, `uart_write`, `uart_fd` and `version` are not modelled. They forward to libmodbus or report a constant.
- The library's registration tables and `luaopen_lmodbus` are not modelled.
- The `printf` and `fprintf` diagnostics of `new` are not modelled.
- The Lua stack of the binding is not modelled; the arguments and results of each method are parameters and return values. `l_pushtable` is reduced to a map update.
- Freeing memory (`modbus_mapping_free`, `modbus_free`, `modbus_close`) is modelled only as dropping the reference.
- `luaL_checkudata` with a value that is not a modbus userdata is not modelled. Only the NULL-context half of the argument check is.
- ModbusBinding.ReadHoldingAnswer: the modelled device refuses every quantity below 1, as section 6.3 of the Modbus Application Protocol Specification V1.1b3 requires of a device. The binding itself does not check this (modules/modbus/src/modbus-lua.c:301 passes the int count on), and if libmodbus accepted a count below 1, line 311 would push `count * 2` bytes with a negative count read as a huge `size_t`. That case is not modelled.
- ModbusBinding.SetValueOffset: computes the offset with unbounded integers. The C subtraction `registerAddress - start_registers` can overflow `int`, which is undefined behaviour.
- ModbusBinding.Connection.Read: takes the table as the sequence of its values. The C code walks with `lua_next` but loops `lua_rawlen` times; the two counts differ for tables that are not sequences, and that difference is not modelled.
- ModbusBinding.Connection.Read: requires at most 256 entries. The C arrays hold 256 and nothing checks the bound; beyond it the behaviour is undefined.
- ModbusBinding.Connection.Write: requires at most 256 entries, for the same reason.
- ModbusBinding.Connection.Receive: the reply step `modbus_reply` is only described as an opaque per-register update. A reply with a NULL mapping is left to the oracle.
- ModbusBinding.Connection.UartRead: has no separate result for a NULL context. The C branch that returns -1 for a NULL handle (modules/modbus/src/modbus-lua.c:379-383) cannot be reached, because the argument check raises first; the model gives the argument error.
- ModbusBinding.Connection.Init: the C function returns -1 to Lua when libmodbus fails; the effect of that in the Lua runtime is not modelled.
- In the launcher, these are calls whose effects are not modelled: `signal`, `uv_setup_args`, daemonisation, `luaL_openlibs`/`lnode_openlibs` (one `OpenLibs` call), `lnode_path_init`, `luv_set_thread_cb`, `lnode_print_info`, `lnode_print_usage`.
- The SIGINT handling of `lnode_docall` is not modelled.
- The message handler and traceback text are not modelled: the call's error text is a parameter.
- `lnode_call_script`, `lnode_dolibrary` and `lnode_dofile` as seen by `main` are the `Host` oracle; `DoChunk` models the shared status logic that `lnode_dofile` applies.
- LnodeMain.Launch: the exit status is the full `int`; the operating system keeps only its low 8 bits.

## Findings

| source | as written | input that shows it | evidently intended | confidence | as-written member | corrected member |
|---|---|---|---|---|---|---|
| modules/modbus/src/modbus-lua.c:386-392 | recv's signed result is stored in a `size_t`, so a failure (-1) becomes SIZE_MAX, passes `ret > 0`, and `lua_pushlstring` is asked for SIZE_MAX bytes of the 260-byte `query` buffer (an over-read or a Lua error, depending on the Lua runtime) instead of -1 being returned | `uart_read(n)` on a connection whose recv fails and returns -1 | keep the result signed: return -1 alone on failure, bytes only for a positive count | not executed | ModbusBinding.UartReadErrorPushesSizeMax | ModbusBinding.UartReadStaysInBuffer |
