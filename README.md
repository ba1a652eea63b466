# dali2dali, modelled in Dafny

dali2dali copies packets from one DataLink server to another. This
project models its core and proves properties of that model:

- **Command line (`parameter_proc`, `getoptval`).** The option scan handles
  `-V`, `-h`, `-v…`, `-x file[:interval]`, `-m pattern` and `-r pattern`,
  plus the two server addresses.
- **Stream lists (`dl_read_streamlist`).** A `-m @file` or `-r @file` list is
  read, each line trimmed, blank lines and comment lines (`#`, `*`) skipped,
  and the rest joined with `|`.
- **State file (`dl_savestate`, `dl_recoverstate`).** Save writes one line,
  `<address> <packet ID> <packet time>`. Recovery takes the first line for the
  source's address.
- **Relay loop (`main`).** It connects both servers and repositions the source
  when a packet ID is known. It sends the match and reject patterns, then
  forwards every collected packet, retrying each write until it succeeds.
  Every few records, and once at the end, it saves the source's position.

Network calls, file system calls and their outcomes come from outside the
model: they are parameters (`Network`, `Io`, `StartupIo`). The rest is
modelled as the C code does it:

- the globals and the two connection descriptors are objects whose fields
  the methods update;
- the line trimming works in place on an array;
- the loops are `while` loops whose invariants tie them to specification
  functions.

The events `main` produces record every call it makes on its two
connections and on the state file, with that call's outcome, except the
final `dl_collect`: that call returns something other than a packet, ends
the loop and leaves no event. The lemmas about these events prove:

- every collected packet is written exactly once, in collection order;
- `dl_disconnect` is only called on an open link;
- intermediate saves follow a fixed cadence.

Modules, one per file:

| file | module | C source |
|---|---|---|
| wrappers.dfy | `Wrappers` | `Option`, the stand-in for a pointer that may be NULL |
| ctext.dfy | `CText` | `isspace`, C strings, the lines `dl_readline` returns |
| cnumbers.dfy | `CNumbers` | `printf`/`scanf` `%lld`, `strtoul(…, 0)`, the cast to `int` |
| files.dfy | `Files` | file contents and the outcomes of `open`/`write`/`close` |
| config.dfy | `StreamList` | `dl_read_streamlist` |
| connection.dfy | `Link` | the `DLCP` descriptor, cursors and packets |
| statefile.dfy | `StateFile` | `dl_savestate`, `dl_recoverstate` |
| arguments.dfy | `Arguments` | the option scan of `parameter_proc`, `getoptval`, the `-x` argument |
| events.dfy | `Events` | the calls of `main`'s relay and what they guarantee |
| relay.dfy | `Relay` | `parameter_proc` and `main` over the globals and descriptors |
| startup.dfy | `Startup` | what `parameter_proc` makes of whole command lines and files |

Behaviour kept as the code has it:

- **The packet counter.** It is incremented before the `>= stateint` test and
  again after it. With interval n, the first intermediate save therefore comes
  after record n/2 + 1, and later saves come every (n + 1)/2 records
  (`Events.CheckpointCadence`). With interval 2 that is record 2, then every
  record.
- **`dl_savestate` truncates the state file to one line.** A save erases the
  lines of every other address, even though recovery scans for one line
  among many (`StateFile.SaveThenRecover`, second clause).
- **The saving interval goes through `strtoul` with base 0.** A leading `0`
  reads as octal and `0x` as hexadecimal. The value is then cast to
  `unsigned int` and stored in an `int`, so `file:4294967396` is accepted as
  100 (`Arguments.IntervalWraps`). An empty interval (`file:`) is accepted as 0
  and turns intermediate saving off (`Arguments.IntervalEmpty`).
- **A failed state recovery is only logged.** The program goes on with the
  descriptor's initial cursor (`Startup.RecoveryOnlyMovesStart`,
  `Startup.UnreadableStateStartsFresh`).

## Model

| member | source | states |
|---|---|---|
| StreamList.TrimLine | libdali/config.c:70-79 | trims the line buffer in place: the text from `start` to `end` is the line without leading and trailing white space, everything before `end` is unchanged and every byte from `end` on is NUL |
| StreamList.TrimShape | libdali/config.c:72-79 | trimming removes exactly the leading and trailing white space: the result is a slice of the line, all of it outside the slice is white space, and it neither starts nor ends with white space |
| StreamList.ReadTrimmed | libdali/config.c:68-79 | a line copied into a buffer and trimmed there gives the trimmed line |
| StreamList.AddToString | libdali/config.c:86 | an appended pattern with its terminating NUL always fits the size bound |
| StreamList.AddStreams | libdali/config.c:68-93 | the read loop: no kept line gives no pattern, count 0 and no failure; a pattern that outgrows the bound sets the failure flag with no pattern; otherwise the pattern is the kept lines joined by `|` and the count is their number |
| StreamList.ReadStreamList | libdali/config.c:41-111 | the whole function: a missing file, any other open failure, a list too large, a list with no streams and a failed close each give no pattern; otherwise the joined kept lines and their count |
| StreamList.KeptMembers | libdali/config.c:72-83 | a string is one of the kept streams exactly when some line trims to it and it is neither empty nor starts with `#` or `*` |
| StreamList.KeptAppend | libdali/config.c:68-93 | compiling the lines of two files one after the other gives the streams of the first followed by those of the second |
| StreamList.KeptPrefixTooLarge | libdali/config.c:86-90 | once the pattern from the first lines is over the bound, the whole file's pattern is too, so returning early loses nothing |
| StreamList.TooLargeStops | libdali/config.c:86-90 | a list that is too large stays too large whatever lines follow |
| StreamList.SplitJoin | libdali/config.c:86 | splitting the joined pattern at each `|` gives back the streams when none contains `|` |
| StreamList.CompiledAlternatives | libdali/config.c:41-111 | a compiled pattern's alternatives are the kept streams in file order, and the count is their number |
| Files.OpenForReading | libdali/config.c:52-64 | opening fails with ENOENT exactly when the file does not exist; a readable file yields its contents |
| CText.LinesHaveNoNewline | libdali/statefile.c:125 | no line that is read back contains a newline |
| CText.LinesOfOneLine | libdali/statefile.c:125 | a file holding one line ended by a newline reads back as exactly that line |
| CNumbers.FormatLLLength | libdali/statefile.c:62-64 | a 64-bit value printed with `%lld` takes 1 to 20 characters |
| CNumbers.ScanFormatLL | libdali/statefile.c:132 | `%lld` scanning reads back a value printed with `%lld`, after any white space, and stops right after its last digit |
| CNumbers.ScanLL | libdali/statefile.c:132 | a successful `%lld` conversion is a 64-bit value and consumes at least one character |
| CNumbers.StrToULOfDigits | src/dali2dali.c:323 | `strtoul` with base 0 reads a printed non-negative value back and consumes all of it |
| CNumbers.StrToULStopsAfterDigits | src/dali2dali.c:323-325 | `strtoul` leaves `tail` at the first character after the digits |
| CNumbers.ToInt32Small | src/dali2dali.c:323 | a value below 2^31 survives the cast to `unsigned int` and then to `int` |
| CNumbers.ToInt32Wraps | src/dali2dali.c:323 | the cast drops a multiple of 2^32 |
| StateFile.StateRecordFits | libdali/statefile.c:45-64 | a descriptor's record always fits the 200-byte buffer, so `snprintf` never truncates it |
| StateFile.SaveState | libdali/statefile.c:42-79 | -1 without a descriptor or a path, or when the open fails (the file is then untouched); otherwise the file becomes the bytes of the record that `write` accepted, and the result is 0 exactly when the whole record was written and `close` succeeded |
| StateFile.ScanStateLine | libdali/statefile.c:132 | the address token is non-empty and has no white space; a packet time is only read after a packet ID; a complete line holds two 64-bit values |
| StateFile.ScanStateLineOfRecord | libdali/statefile.c:132 | scanning a written record gives back its address, packet ID and packet time |
| StateFile.SameAddressShort | libdali/statefile.c:143 | addresses shorter than the 100 compared bytes match exactly when they are equal |
| StateFile.RecoverState | libdali/statefile.c:94-167 | -1 without a descriptor or a path; 1 for a missing file and -1 for any other open failure, both with the cursor untouched; otherwise the cursor of the first complete line for the address (unchanged when there is none), the line numbers warned about, and 0, or -1 when `close` fails |
| StateFile.RecoverFindsFirstMatch | libdali/statefile.c:124-153 | the first complete line for the address decides the recovered cursor, whatever lines follow it |
| StateFile.RecoverWithoutMatch | libdali/statefile.c:124-158 | with no complete line for the address nothing is recovered |
| StateFile.SaveThenRecover | libdali/statefile.c:42-167 | a saved record for a white-space-free address recovers exactly the saved cursor with no warning, and nothing for any other address |
| StateFile.AsWrittenAgreesOnCompleteLines | libdali/statefile.c:124-153 | on files whose non-blank lines all hold three fields, the scan as written and the corrected scan agree |
| StateFile.AsWrittenRecoversUninitialised | libdali/statefile.c:132-150 | a line holding only the address makes the scan as written recover the uninitialised locals; the corrected scan recovers nothing there |
| Arguments.GetOptVal | src/dali2dali.c:355-368 | reference definition of `getoptval`: an option has a value exactly when a next argument exists and does not begin with `-`, and the value is that argument (its partners are `ScanFlag` and `ParseRender`) |
| Arguments.LeadingVs | src/dali2dali.c:203-206 | `strspn(…, "v")`: the length of the leading run of `v` |
| Arguments.Parse | src/dali2dali.c:191-257 | a command line that does not end the program names both a source and a destination |
| Arguments.ScanRecordsValues | src/dali2dali.c:207-231 | every value and address the scan records is an argument that does not begin with `-` |
| Arguments.ScanKeepsAddresses | src/dali2dali.c:224-236 | once set, the source and destination addresses are never replaced, and the verbosity only grows |
| Arguments.ParseRender | src/dali2dali.c:191-257 | parsing the command line rendered from a set of options gives those options back |
| Arguments.NoAddressExits | src/dali2dali.c:239-247 | a command line with only options ends the program |
| Arguments.FirstColon | src/dali2dali.c:317 | `strchr(…, ':')`: the index of the first colon, or none when there is no colon |
| Arguments.SplitStateArg | src/dali2dali.c:317-321 | the file name has no colon; without a colon it is the whole argument, otherwise name, colon and interval text rebuild the argument |
| Arguments.SplitAtColon | src/dali2dali.c:317-321 | a colon-free file name followed by `:t` splits back into the name and `t` |
| Arguments.Interval | src/dali2dali.c:323-329 | an accepted interval lies in 0..1e9 |
| Arguments.IntervalOfDecimal | src/dali2dali.c:323-325 | a decimal interval in range is accepted as written |
| Arguments.IntervalOutOfRange | src/dali2dali.c:325-329 | a decimal interval above 1e9 (and below 2^31) is rejected |
| Arguments.IntervalTrailing | src/dali2dali.c:323-329 | characters after the number make the interval invalid |
| Arguments.IntervalEmpty | src/dali2dali.c:323-325 | an empty interval is accepted as 0 |
| Arguments.IntervalWraps | src/dali2dali.c:323 | an interval written as n + 2^32 is accepted as n |
| Relay.DescriptorAddress | src/dali2dali.c:266-277 | the descriptor's copy of an address is a prefix of it that fits the 100-byte buffer |
| Relay.LoadList | src/dali2dali.c:279-301 | reference definition of list loading: an argument not beginning with `@` is kept; one beginning with `@` becomes the pattern compiled from the named file, and a file that gives none ends the program (its partners are `Dali2Dali.LoadPattern` and `Startup.MatchListAlternatives`) |
| Relay.Configure | src/dali2dali.c:179-339 | `parameter_proc` goes on to `main` only with both addresses set |
| Relay.Prepare | src/dali2dali.c:265-338 | loading the lists and the state file keeps the two addresses |
| Relay.ScanEnds | src/dali2dali.c:193-223 | `-V` and `-h` end the scan with status 0; an unknown option ends it with status 1 |
| Relay.ScanTakes | src/dali2dali.c:207-218 | an option that takes a value ends the program without one; otherwise the scan goes on two arguments later with the value stored |
| Relay.Dali2Dali.ScanCommandLine | src/dali2dali.c:191-237 | the `for` loop sets the globals and the two addresses as the option scan says, or gives its exit status |
| Relay.Dali2Dali.ScanArgument | src/dali2dali.c:193-236 | one turn of the loop moves the index forward and either exits with the scan's status or continues with the scan's globals |
| Relay.Dali2Dali.ScanVerbose | src/dali2dali.c:203-206 | a verbosity flag adds its run of `v` to `verbose` |
| Relay.Dali2Dali.ScanValue | src/dali2dali.c:207-218 | `-x`, `-m` and `-r` store the next argument, or exit without one |
| Relay.Dali2Dali.Store | src/dali2dali.c:209-217 | the option's global is set to the value and no other global changes |
| Relay.Dali2Dali.ScanAddress | src/dali2dali.c:224-236 | the first plain argument is the source, the second the destination, and a third exits |
| Relay.Dali2Dali.ParameterProc | src/dali2dali.c:179-339 | the outcome is `Configure`'s: an exit status, -1, or 0 with the globals, the interval and two fresh descriptors holding what `Configure` computes, the source at the recovered cursor |
| Relay.Dali2Dali.SetUp | src/dali2dali.c:265-338 | after the scan, the outcome and the new state are `Prepare`'s |
| Relay.Dali2Dali.LoadPattern | src/dali2dali.c:280-289 | loading one list argument gives `LoadList` |
| Relay.Dali2Dali.LoadLists | src/dali2dali.c:279-301 | the match list is loaded, then the reject list; success exactly when both load, with both globals replaced |
| Relay.Dali2Dali.SetUpState | src/dali2dali.c:313-336 | the interval is split off the file name and checked, and failure is an invalid interval only; the source cursor is the recovered one, whatever `dl_recoverstate` returns |
| Relay.Dali2Dali.Run | src/dali2dali.c:75-168 | `main` after `parameter_proc`: -1 exactly when a set-up call fails, with only those calls made and no file changed; otherwise every packet is collected and written once, in order, the saves are at the checkpoints and then at the final position, both links end closed, the source keeps its address, and only the state file changes, ending with the record of the final position cut to the bytes the last save wrote |
| Relay.Dali2Dali.Open | src/dali2dali.c:75-110 | connect the source, then the destination, then reposition when the packet ID is positive (whatever the result), then the match and reject patterns; a failed connect, match or reject ends `main` |
| Relay.Dali2Dali.Request | src/dali2dali.c:89-110 | the requests on the source and whether `main` goes on |
| Relay.Dali2Dali.Forward | src/dali2dali.c:112-154 | the collect loop: the calls interleave the collection and the one successful write of each packet, the saves are at the checkpoints, the source ends at the last packet, and only the state file changes |
| Relay.Dali2Dali.ForwardPacket | src/dali2dali.c:113-153 | one turn of the collect loop keeps the loop's invariant one packet further on |
| Relay.Dali2Dali.Deliver | src/dali2dali.c:125-141 | the write loop makes exactly the calls `Delivery` lists, and the destination is open afterwards exactly when its last reconnect succeeded |
| Relay.Dali2Dali.FailedWrite | src/dali2dali.c:126-141 | a failed write is followed by a disconnect only when the link is still open, then a reconnect, and a sleep when that fails |
| Relay.Dali2Dali.CountRecord | src/dali2dali.c:143-153 | the counter after each record is `CounterAfter`, and a save happens exactly at the records `SavesAtRecord` names |
| Relay.Dali2Dali.Close | src/dali2dali.c:156-166 | both links end closed, with a disconnect only on an open link; with a state file a final save at the source's position follows, and otherwise no file changes |
| Relay.Dali2Dali.ShutDown | src/dali2dali.c:156-162 | each link still open is disconnected, and both end closed |
| Relay.LoseLink | src/dali2dali.c:113 | a call that closes a socket leaves that link down and the other as it was |
| Relay.HangUp | src/dali2dali.c:157-162 | `dl_disconnect` is called exactly when the link is open, and the other link is unaffected |
| Relay.Execute | src/dali2dali.c:67-168 | the whole program: an exit or -1 from `parameter_proc` ends it with no call and no file change; otherwise the relay runs as `Run` says on the configuration `Configure` computes; after a clean shutdown with a state file whose final open succeeds, the file holds the record for the final position, cut to the bytes written |
| Events.InterleaveForwards | src/dali2dali.c:113-141 | when collections and successful writes alternate, the packets written are exactly the packets collected, in order, none skipped and none repeated |
| Events.DeliveryMilestones | src/dali2dali.c:126-141 | a delivery writes its packet successfully exactly once, at its end |
| Events.DeliveryHasNoSave | src/dali2dali.c:126-141 | delivering a packet saves nothing |
| Relay.LastSaveWins | src/dali2dali.c:144-166 | once only the state file has changed, writing it again leaves the files as if that write were the only one |
| Events.RetryStep | src/dali2dali.c:126-141 | one failed write with its disconnect and reconnect, followed by the rest of the delivery, is the delivery with that retry first |
| Events.DeliveryLive | src/dali2dali.c:126-141 | a delivery disconnects only an open link, leaves the destination open exactly when its last reconnect succeeded, and does not touch the source |
| Events.AppendRequests | src/dali2dali.c:89-110 | reposition, match and reject requests change neither link, write nothing and save nothing |
| Events.CollectStep | src/dali2dali.c:113-153 | one record extends the interleaving by its packet and the saves by its checkpoint, disconnects only open links, and leaves the source link as it was |
| Events.ForwardStep | src/dali2dali.c:113-153 | the loop turn for the packet at index `i` turns the events for the first `i` packets into those for the first `i + 1`, with one more checkpoint exactly when the state is saved |
| Events.MilestonesAppend | src/dali2dali.c:113-154 | the collections and writes of two stretches of calls are those of the first followed by those of the second |
| Events.CheckpointCadence | src/dali2dali.c:143-153 | with interval n there is no save before record n/2 + 1, one there, none in the next (n + 1)/2 - 1 records, and the pattern repeats every (n + 1)/2 records |
| Events.CounterBounded | src/dali2dali.c:143-153 | the packet counter never exceeds the interval, so it cannot overflow |
| Startup.ConfigureRendered | src/dali2dali.c:179-339 | a command line with `-x f:n` and a decimal interval in range configures state file f, interval n and every other option as given, with the source at the cursor recovered from f |
| Startup.RestartResumes | src/dali2dali.c:313-336 | when the state file holds the record a save wrote for the source at cursor c, the source starts at c |
| Startup.BadIntervalFails | src/dali2dali.c:317-329 | once both lists have loaded, an invalid interval makes `parameter_proc` return -1 |
| Startup.RecoveryOnlyMovesStart | src/dali2dali.c:332-335 | whatever the state file's system calls do, `parameter_proc` ends the same way with the same globals and interval |
| Startup.UnreadableStateStartsFresh | src/dali2dali.c:332-335 | a state file that is missing or cannot be opened leaves the source at its initial cursor |
| Startup.MatchListAlternatives | src/dali2dali.c:279-289 | the match pattern loaded from a list file has that file's kept streams as its alternatives, in order |

## Left out

- Signal handling (`term_handler`, `sigaction`, `dl_terminate`): a termination request that ends the collect loop early is not modelled. The loop ends when the packets in `Network` run out.
- The network protocol (`dl_connect`, `dl_position`, `dl_match`, `dl_reject`, `dl_collect`, `dl_write`, `dl_disconnect`): each call's outcome is an input of the model (`Network`, `Retry`).
- Whether a failing network call closed its socket is also an input (`Lost` events).
- `sleep(10)` is recorded as a `Slept` event; time is not modelled.
- The write loop ends because `Network` lists a finite number of failed writes per packet. A destination that never comes back is therefore not modelled.
- Logging, `usage`, the version report, `dl_loginit` and `setvbuf` produce only output. The verbosity is kept as a global but changes nothing else.
- `errno`: only the distinction between ENOENT and any other open failure is modelled (`Files.Opened`).
- `dlp_openfile`, `dl_readline`, `dl_addtostring` and `dl_newdlcp` are not part of this model. The model assumes the following about them:
  - reading splits the file at each newline, and a final line without a newline is still returned;
  - lines that fit their buffers are preconditions (`LinesFit`, `StateFileFits`);
  - `dl_addtostring` fails when the result and its NUL would exceed the bound;
  - `dl_newdlcp` copies at most 99 bytes of the address.
- The value of `MAXREGEXSIZE` is not part of this model: it is the parameter `maxSize`.
- `dl_newdlcp` failing to allocate (src/dali2dali.c:266-277), and with it the `exit(1)` there, is not modelled.
- The source's starting cursor before recovery is a parameter.
- The `error` flag for an empty command line (src/dali2dali.c:187-188, 306-311) is not modelled separately. With no arguments the scan finds no source address and the program exits with status 1 before that check.
- `exit()` is modelled as an `Exit` outcome rather than a process end.
- The file descriptor leaked when `dl_read_streamlist` returns early, or when `dl_savestate` fails to write, is not modelled. Memory ownership of the patterns is not modelled either.
- `-x` writes a NUL into the argument string. The model replaces the state file global with the name before the colon; the shared storage with `argv` is not modelled.
- `verbose` is a `short int` in the source (src/dali2dali.c:31). The model keeps it unbounded (`nat`), so its wrap-around after 32767 `v` characters is not modelled.
- Link.Connection.Collect: assumes that `dl_collect` sets the source descriptor's `pktid` and `pkttime` to those of the packet it returns. `dl_collect` is not part of this model, and the saved records and the final position depend on this assumption.
- CNumbers.StrToUL: assumes a 64-bit `unsigned long`, so values saturate at 2^64 - 1 and a negative value is negated modulo 2^64.
- Packet data, `writeack` and the log line for `verbose > 1` are not modelled.
- StateFile.RecoverState: models the corrected scan, which skips lines with fewer than three fields; the scan as written is `StateFile.RecoverAsWritten` (see Findings).

## Findings

`StateFile.RecoverAsWritten` models the scan of `dl_recoverstate` as
written, and the lemma `StateFile.AsWrittenRecoversUninitialised` exhibits
its defect. `StateFile.Recover` is the corrected scan, implemented by
`StateFile.RecoverState`; the rest of the model uses it.

| source | as written | input that shows it | evidently intended | confidence | as-written member | corrected member |
|---|---|---|---|---|---|---|
| libdali/statefile.c:132-150 | a line on which `sscanf` converts fewer than three fields is reported, but its address is still compared; on a match, `pktid` and `pkttime` are copied from the uninitialised locals `spktid` and `spkttime` | a state file holding the single line `<address>`, the source's own address with nothing after it | a line that does not hold all three fields is skipped after the warning, and the cursor stays as it was | not executed | StateFile.AsWrittenRecoversUninitialised | StateFile.RecoverState |
