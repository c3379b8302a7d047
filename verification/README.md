# erx-recovery, modelled in Dafny

erx-recovery reflashes an EdgeRouter X over its serial console. It finds
the local network interface that carries the server address. It serves
the kernel image over TFTP under the single name `vme50`. It drives the
bootloader menu through a goexpect session on picocom: wait for U-Boot,
choose "write to Flash via TFTP", answer the prompts, wait for the
transfer and the flash, reboot, wait for U-Boot again. Finally it checks
that the new kernel boots, counting "Bad Magic Number" messages when it
does not. Console output is teed into a log writer. The writer keeps the
output in memory until the first TFTP request names the device, then
moves it into a per-device log file named after the device's hardware
address.

This project models that core:

- `base.dfy` holds the shared value types: errors, bootloader statuses,
  reasons for `log.Fatalf`, and `Flow`, a result that may be normal, a
  panic or a fatal exit.
- `text.dfy` covers how `%d` and `%x` render numbers and bytes, reading
  them back, and the unanchored search the console matcher performs.
- `log_writer.dfy` models `logWriter` and the `*os.File` it writes to as
  classes updated in place.
- `net.dfy` models the neighbour-table lookup and the interface search.
  Each is a loop method checked against a first-match reference
  function.
- `expect.dfy` is the console, reduced to what the sequencer relies on.
  The device's behaviour is a script of replies, one per wait. `RunSteps`
  is the reference meaning of a batch. `Console` is a class whose
  methods consume replies and append to a transcript.
- `tftp.dfy` models the read handler.
- `boot.dfy` models `waitForUBoot`, `flashAndReboot`, `verifyBoot`, `run`
  and `main` from the interface search on.
- `boot_properties.dfy` states what the sequencer guarantees over the
  reference behaviour:
  - the order of the stages;
  - the texts typed into the console;
  - the `verifyBoot` classification and bad-magic count;
  - what the transfer check accepts;
  - the exit status.

Exit status: a Go panic exits with status 2. `log.Fatalf` and
`os.Exit(1)` exit with status 1.

## Model

| member | source | states |
|---|---|---|
| Text.Decimal | main.go:182 | `%d` of a natural number: non-empty, digits only, a single digit exactly below ten, a leading zero only for zero |
| Text.DecimalRoundTrip | main.go:182 | reading back the decimal digits of `n` gives `n` |
| Text.DecimalInjective | main.go:182 | different sizes never print the same |
| Text.DecimalPrefixBound | main.go:182 | if the digits of `a` begin the digits of `b`, then `b` is `a`, or `a` is positive and `b` is at least ten times `a` |
| Text.IntDecimal | main.go:92 | `%d` of a signed count: a minus sign exactly for negative values, then digits |
| Text.IntDecimalInjective | main.go:92 | different counts never print the same |
| Text.Hex | tftp.go:49 | `%x` of a byte slice: two hex digits per byte |
| Text.HexRoundTrip | tftp.go:49 | reading the hex back gives the bytes |
| Text.HexInjective | tftp.go:49 | different addresses never print the same |
| Text.Contains | main.go:182 | the unanchored search the console matcher does for a literal pattern: a found pattern is no longer than the output, and a pattern the output starts with is found |
| Text.ContainsWithin | main.go:182 | a pattern is found in any output that contains it |
| LogWriting.LogFile.Create | log_writer.go:14 | a created file has the given path, no contents and is open |
| LogWriting.LogFile.Write | log_writer.go:28 | a file write appends the accepted prefix of the bytes; a short write is an error; a closed file takes nothing |
| LogWriting.LogFile.Close | log_writer.go:36 | closing keeps the contents; only the first close succeeds |
| LogWriting.LogWriter.constructor | main.go:27 | the zero writer: empty buffer, no file, an empty ordered log |
| LogWriting.LogWriter.SetFile | log_writer.go:13-21 | a failed create changes nothing and is the error returned; a successful one assigns a fresh open file, flushes the buffer's accepted prefix into it, and keeps the rest buffered; the log stays ordered exactly when the flush was complete |
| LogWriting.LogWriter.Write | log_writer.go:23-29 | with no file, the bytes are buffered and all reported written; otherwise the file takes them and the buffer is untouched; every reported byte joins the ordered log |
| LogWriting.LogWriter.Close | log_writer.go:31-37 | no file: no error; otherwise the file's own close |
| LogWriting.WriteAll | log_writer.go:23-29 | a run of writes extends the log by their concatenation and keeps it ordered |
| LogWriting.OrderedLog | log_writer.go:13-29 | output written before and after a complete `setFile` ends up in the file, in arrival order |
| Net.SameIP | net.go:17 | `net.IP.Equal`: equal addresses are equal; addresses of one length are equal only when identical; addresses of different lengths are equal only for a 4-byte and a 16-byte address |
| Net.SameIPV4InV6 | net.go:17 | a 4-byte address equals a 16-byte one, on either side, exactly when the latter is its IPv4-in-IPv6 form |
| Net.SameIPSymmetric | net.go:17 | `net.IP.Equal` is symmetric, including the IPv4-in-IPv6 form |
| Net.MacOf | net.go:16-22 | a result comes from an entry whose IP equals the client's |
| Net.MacOfIsFirstMatch | net.go:16-22 | the lookup returns the hardware address of the first entry with the client's IP; nil exactly when no entry matches or that entry has no address |
| Net.GetMACAddress | net.go:10-23 | an unreadable neighbour table is fatal; otherwise the loop returns the first-match result |
| Net.ScanAddrs | net.go:37-41 | a stop on a bad address is the type-assertion panic at an address that is not a `*net.IPNet`; a hit is a `*net.IPNet` equal to the wanted address |
| Net.ScanAddrsMiss | net.go:37-41 | an address list is passed over exactly when every address is a possibly-nil `*net.IPNet` other than the wanted one |
| Net.ScanAddrsHit | net.go:37-41 | the scan finds the interface exactly when some address is a `*net.IPNet` equal to the wanted one and every address before it is passed over |
| Net.ScanAddrsBroken | net.go:37-41 | the scan panics on the type assertion exactly when some address is not a `*net.IPNet` and every address before it is passed over |
| Net.ScanInterface | net.go:32-41 | an interface whose addresses cannot be listed stops the search with that error; otherwise a stop is the type-assertion panic, and a hit holds a `*net.IPNet` equal to the wanted address |
| Net.FindInterface | net.go:31-44 | the search never ends fatally, and an interface it returns is one of those listed |
| Net.FindInterfaceIsFirstMatch | net.go:31-44 | nil exactly when every interface is scanned to the end; otherwise the first interface where scanning stopped decides: found, or its error panics |
| Net.FirstStopExists | net.go:31-44 | if the scan of some interface stops, there is a first interface whose scan stops |
| Net.FoundInterfaceHasAddress | net.go:31-44 | a returned interface is the first whose scan stops; its addresses were readable, and one of them is a `*net.IPNet` equal to the wanted address with only passed-over addresses before it |
| Net.SearchPanics | net.go:31-44 | a panic comes from the first interface whose scan stops: its address-listing error, or the type-assertion panic at an address that is not a `*net.IPNet` |
| Net.NoInterfaceWithAddress | net.go:31-44 | readable lists of plain addresses without the wanted one give nil |
| Net.InterfaceLookup | net.go:25-29 | a listing error is the panic; the search never exits fatally; a returned interface is one of those listed |
| Net.GetInterfaceWithAddress | net.go:25-45 | a listing error panics; the nested loops return what the first-match search returns |
| Expect.Outcome | main.go:109-120 | the intended switch: a wait succeeds exactly when an OK case matched; a matched Continue case fails with its status; no match is a timeout; a closed console is its own error |
| Base.StatusCode | main.go:83 | both statuses are built with code 0, `codes.OK` (also main.go:173) |
| Expect.OutcomeAsWritten | main.go:109-120 | the switch with goexpect as published: a wait succeeds exactly when an OK case, or a Continue case whose status has code 0, matched |
| Expect.OutcomeReadingsDiffer | main.go:83 | the two readings differ exactly on a matched Continue case with a code-0 status |
| Expect.RunSteps | main.go:143-161 | a batch records at most one transcript line per step |
| Expect.RunOneWait | main.go:204-209 | a batch of one wait ends as that wait does |
| Expect.Planned | main.go:143-158 | a batch that goes as planned leaves one transcript line per step |
| Expect.RunStepsFollowsPlan | main.go:143-161 | a batch without error performs every step as planned; a failed batch follows the plan up to the failing wait and stops there |
| Expect.SentOnlyAfterMatches | main.go:143-158 | every text is sent only after all earlier waits succeeded; a batch without error sends its planned texts in order |
| Expect.PlannedWaitsSucceed | main.go:143-158 | planned waits succeed |
| Expect.PlannedSends | main.go:143-158 | the planned transcript sends the batch's texts |
| Expect.RunStepsAppend | main.go:75-79 | running two parts one after the other is running them joined; the second part never runs after a failure |
| Expect.FailedPrefixDecides | main.go:75-79 | once a prefix has failed, the rest changes nothing |
| Expect.SentTextsAppend | main.go:143-158 | the texts sent by joined transcripts are joined |
| Expect.SendsAppend | main.go:143-158 | the texts of joined batches are joined |
| Expect.StoppedAtCons | main.go:143-161 | a planned step in front of a stopped run gives a longer run stopped at the same wait |
| Expect.Console.constructor | main.go:65 | the spawned session starts with the device's reply script and an empty transcript |
| Expect.Console.ExpectSwitchCase | main.go:109-120 | one wait on several cases consumes one reply and records its outcome |
| Expect.Console.Expect | main.go:205 | a single-pattern wait succeeds exactly when the reply matches it |
| Expect.Console.Send | main.go:198 | sending records the text and consumes no reply |
| Expect.Console.ExpectBatch | main.go:143-158 | the batch's error and transcript are exactly the reference batch's |
| Tftp.JoinPath | tftp.go:49 | the joined path ends with the name; with an empty folder it is the name, otherwise the folder, one slash and the name |
| Tftp.LogPath | tftp.go:49 | the log path ends in the lower-case hex of the address and ".log" and sits inside the log folder |
| Tftp.LogPathInjective | tftp.go:49 | two devices never share a log file |
| Tftp.ReadHandler | tftp.go:32-67 | a name other than `vme50`: not-exist error with no effect; unreadable table or unknown client: fatal; otherwise the log is redirected to the device's file (a failed create leaves the writer as it was; a successful one flushes the buffer's accepted prefix into the new file and keeps the written log), then the image's open error or the stream's outcome is returned |
| Boot.UBootSteps | main.go:95-101 | two waits |
| Boot.MenuSteps | main.go:143-158 | fourteen steps whose waits all have the 30-second timeout |
| Boot.TransferSteps | main.go:163-185 | three waits, the second for the transfer pattern of the image size with a one-minute timeout |
| Boot.RestartSteps | main.go:187-201 | five steps: the only sends are a newline third and "reboot" last |
| Boot.FlashSteps | main.go:143-201 | the 22 steps of `flashAndReboot`: the wait for the transfer start follows the 14 menu steps, and "reboot" is sent last |
| Boot.BootSteps | main.go:75-77 | the 26 steps before `verifyBoot`: the U-Boot waits, the flashing, then the U-Boot waits again |
| Boot.TransferPattern | main.go:182 | the transfer line is the fixed prefix followed by the digits of the image size |
| Boot.ExpectOrPanic | main.go:204-209 | the expect's error is the panic, and the console shows that wait |
| Boot.WaitForUBoot | main.go:95-101 | the separator then the version line; the first failure is the panic |
| Boot.AwaitTransfer | main.go:163-185 | transfer start, transfer complete, flash done; the first failure is the panic |
| Boot.RestartIntoShell | main.go:187-201 | kernel start and activation prompt, a newline, the shell prompt, then "reboot"; the first failure is the panic |
| Boot.FlashAndReboot | main.go:140-202 | the whole dialogue runs as the reference batch of all its steps |
| Boot.Repeat | main.go:125-132 | `n` copies of one wait |
| Boot.LeadingMatches | main.go:125-132 | the number of bad magic numbers in a row before the first failed wait |
| Boot.BadMagicText | main.go:91-93 | the message is the count in decimal between fixed words |
| Boot.BadMagicTextInjective | main.go:91-93 | the message gives the count back |
| Boot.VerifyBootSpec | main.go:104-138 | never a fatal exit; the first transcript line is the wait for "Booting image at" |
| Boot.BadMagicSession | main.go:123-135 | the flash-corrupt branch returns a bad-magic error counting one plus the further matches, after the transcript so far |
| Boot.VerifyBootAsWritten | main.go:104-138 | as written, `verifyBoot` returns nil exactly when the image starts booting and then either the activation prompt or a bad magic number is seen |
| Boot.CountBadMagic | main.go:124-132 | the loop ends with one plus the number of further bad magic numbers, having waited once more than that |
| Boot.VerifyBoot | main.go:104-138 | `verifyBoot` returns, consumes and records exactly what its reference behaviour says |
| Boot.BootStepsInStages | main.go:75-77 | the waits before `verifyBoot` are the three calls' steps in order |
| Boot.FlashCycle | main.go:75-77 | `waitForUBoot`, `flashAndReboot`, `waitForUBoot`; the first failure is the panic |
| Boot.Sequence | main.go:75-79 | the flash cycle then `verifyBoot`, as the reference run |
| Boot.Finish | main.go:75-79 | after the flash cycle's trace: its failure is the panic, and the transcript extends the trace |
| Boot.RunSpec | main.go:64-80 | the reference run never exits fatally, and succeeds only when every planned wait before `verifyBoot` succeeded |
| Boot.Run | main.go:64-80 | a spawn error is returned with nothing shown; otherwise the log writer is closed and the run follows the reference |
| Boot.Conclude | main.go:56-61 | "Boot successful" exactly for a nil result; a crash exactly for a panic; an abort exactly for a fatal exit |
| Boot.ExitCode | main.go:56-61 | status 0 exactly after a successful boot; 2 exactly for a panic |
| Boot.Start | main.go:32-62 | no interface with the address: a fatal exit; a listing or stat error: a panic; otherwise how the run ends decides |
| BootProperties.TransferCheckBound | main.go:182 | if the transfer pattern for `f` is found in the report of `g` bytes, then `g` is `f`, or `f` is positive and `g` is at least ten times `f` |
| BootProperties.TransferCheckRejectsNeighbours | main.go:182 | a report one byte more than the image never passes, nor (for a non-empty image) one byte less |
| BootProperties.TransferCheckIsUnanchored | main.go:182 | the report of 12345 bytes passes the check for a 1234-byte image |
| BootProperties.TransferCheckAcceptsSize | main.go:182 | the exact size passes wherever it appears |
| BootProperties.VerifyBootOutcomes | main.go:104-138 | a panic exactly when "Booting image at" is missed; the activation prompt means success; a bad magic number gives the counted error; any other switch error is returned as it is |
| BootProperties.BadMagicCountPositive | main.go:123-135 | a bad-magic error counts at least one and comes only from the flash-corrupt case |
| BootProperties.LeadingMatchesOfRun | main.go:125-132 | `n` matches followed by a failure count `n` |
| BootProperties.BadMagicCount | main.go:123-135 | `n` further bad magic numbers before a failed wait give the count `n + 1` |
| BootProperties.ThreeBadMagicNumbers | main.go:123-135 | three bad magic numbers in a row, then silence, give the count three |
| BootProperties.ThreeCountedText | main.go:91-93 | that error reads "bad magic number (3 counted)" |
| BootProperties.BadMagicIgnoredAsWritten | main.go:83 | as written, a bad magic number after "Booting image at" gives nil, where the intended reading gives the counted error |
| BootProperties.VerifyBootReadingsAgree | main.go:104-138 | on every other reply script the code as written and the intended reading agree |
| BootProperties.RetryExhaustedAsWritten | main.go:173 | as written, an exhausted "Retry count exceeded" ends the wait as "Got it" does |
| BootProperties.RetryExhaustedPanics | main.go:163-176 | in the intended reading, an exhausted retry fails the batch with the retry status after that one wait |
| BootProperties.WaitsOnly | main.go:124-132 | batches of waits only record waits |
| BootProperties.VerifyBootSendsNothing | main.go:104-138 | `verifyBoot` types nothing into the console |
| BootProperties.NoSends | main.go:95-101 | steps that only wait send nothing |
| BootProperties.AskSends | main.go:146-155 | a prompt and its answer send the answer |
| BootProperties.MenuSends | main.go:143-158 | the menu batch sends "2", "y", the device address, the server address and the kernel name, in order |
| BootProperties.FlashSendsInOrder | main.go:140-202 | `flashAndReboot` sends the menu answers, then a newline, then "reboot" |
| BootProperties.BootSendsInOrder | main.go:75-77 | the flash cycle sends exactly the texts of `flashAndReboot` |
| BootProperties.RunStagesInOrder | main.go:75-79 | with no failed wait, the run's transcript begins with every planned step; otherwise the run panics with the failed wait's error, its transcript having followed the plan up to that wait |
| BootProperties.RunSendsFlashTexts | main.go:64-80 | a run that does not panic sends exactly the flash texts; every text follows only successful waits |
| BootProperties.NoSentTexts | main.go:104-138 | a transcript of waits holds no sent text |
| BootProperties.RunStepsErrors | main.go:204-209 | a failed wait's error is a timeout, a closed console or a case status |
| BootProperties.RunOutcomes | main.go:64-80 | a run never exits fatally; a panic carries a wait's error; a returned error is a timeout, a closed console or a bad magic number counted at least once |
| BootProperties.ExitStatus | main.go:56-61 | status 0 exactly for a successful run, 2 exactly for a panic, 1 for a returned error or a fatal exit |
| BootProperties.SuccessfulBoot | main.go:104-138 | a run succeeds exactly when every planned wait succeeds, then "Booting image at" and then the activation prompt |

## Left out

- The goexpect library is abstract. Its regular-expression engine, timing, buffering, `Tee` and `Verbose` are left out. A wait is answered by a scripted reply that says which case matched first. Timeouts are labels.
- The `Rt: 10` retry count of the "Retry count exceeded" case is left out. Its reply is taken to be the outcome after the library's retries.
- Spawning picocom and `defer e.Close()` are left out. The spawn's error is a parameter.
- Send failures are left out: the model's sends always succeed. In the source, the errors of the direct `e.Send` calls (main.go:198, main.go:201) are ignored. A failed `BSnd` inside `ExpectBatch` ends the batch with that error, which main.go:160 raises as a panic.
- `startTFTP`, the TFTP server goroutine and the `ListenAndServe` failure path are left out.
- The concurrency between the TFTP handler and the console tee, which share the writer, is left out. So is a handler's `log.Fatalf` ending a run that is in progress.
- `rf.(tftp.OutgoingTransfer)` always holds for this server, so its panic is left out. The client's IP is a parameter.
- Reading the neighbour table and listing interfaces and their addresses (netlink, `net.Interfaces`) are inputs. `net.ParseIP` is left out: the parsed address is a parameter.
- `path.Join` is modelled only for a name without slashes. Cleaning of the folder (such as `./logs` becoming `logs`) is left out.
- Flag parsing, terminal colours and `log` output are left out. So is creating the log folder with `os.Stat`/`os.Mkdir`.
- The image file opened by the handler is never closed by the source. The model does not track it.
- LogWriting.LogWriter.SetFile: files are told apart by object, not by path. Each successful `os.Create` is a new `LogFile`, and `Retired` records what the replaced one was given. On disk, a second read request from the same device gets the same path (tftp.go:49), and `os.Create` (log_writer.go:14) truncates that file. The console output logged before the repeat request, such as the restart after "Retry count exceeded; starting again" (main.go:172), is then lost from disk. The model does not capture that truncation.
- Boot.CountBadMagic: the count is an unbounded integer. The overflow of Go's `int` is left out; it is unreachable in practice.
- Boot.CountBadMagic: the source loop has no bound. A device that prints "Bad Magic Number" within every one-second wait keeps `verifyBoot` counting forever. The model's reply script is finite, so every run of the loop ends; the non-terminating run is not represented.
- Expect.Outcome: follows the evidently intended reading, where a matched Continue case fails with its status. The code as written succeeds there, because both statuses are built with code 0; `Expect.OutcomeAsWritten` models that, and the Findings below give the consequences.
- Library error texts are not modelled. Errors are named by kind.

## Findings

| source | as written | input that shows it | evidently intended | confidence | as-written member | corrected member |
|---|---|---|---|---|---|---|
| main.go:83 | `statusFlashCorrupt` has code 0, so the matched bad-magic case returns a nil error; `errors.Is` is false and `verifyBoot` returns nil, so the run logs "Boot successful" | "Booting image at" matches, then "Bad Magic Number" matches | the flash-corrupt error, counted, failing the run with exit status 1 | medium, not executed; rests on goexpect's published `Status.Err`, which is nil for code 0 | BootProperties.BadMagicIgnoredAsWritten | BootProperties.BadMagicCount |
| main.go:173 | the retry status has code 0, so after its ten retries the "Retry count exceeded" case returns nil and the batch succeeds as if the transfer had started | an eleventh "Retry count exceeded" before "Got it" | the retry status ends the batch and `flashAndReboot` panics with it | medium, not executed; rests on goexpect's published `Status.Err` and `Case.Retry` | BootProperties.RetryExhaustedAsWritten | BootProperties.RetryExhaustedPanics |

The rest of the model uses the corrected reading, `Expect.Outcome`.

## Notes

`getMACAddress` is easily read as "nil exactly when no neighbour entry
matches"; the model follows the code instead. It returns the hardware address of the first neighbour entry
with the client's IP, and that address may itself be nil. So "nil exactly
when no entry matches" does not hold as written. `Net.MacOfIsFirstMatch`
states the exact condition.

`flashAndReboot` and `run` are each split into a few methods in the
model (`AwaitTransfer`, `RestartIntoShell`, `FlashCycle`, `Sequence`).
The split is a proof structure. The order of calls and the panic points
are those of the source.
