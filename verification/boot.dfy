/** The boot sequencer of main.go: it waits for the bootloader, walks its
    menu to flash the image the device fetches over TFTP, waits for the
    bootloader again and checks that the new kernel boots.  The console is
    the scripted `Console`; every failed plain expect panics, which ends the
    run at once. */
module Boot {
  import opened Base
  import opened Text
  import opened Net
  import opened Expect
  import opened LogWriting
  import opened Tftp

  /** The `-device-ip` and `-local-ip` flags. */
  datatype Config = Config(deviceIP: string, localIP: string)

  /** The separator line the bootloader prints before its version. */
  const Separator: string := "=============================================="

  /** `waitForUBoot`: the separator within a minute, then the version line
      within ten seconds. */
  function UBootSteps(): (ss: seq<Step>)
    ensures |ss| == 2 && forall i :: 0 <= i < |ss| ==> ss[i].Wait?
  {
    [Exp(Separator, 60), Exp("UBoot Version", 10)]
  }

  /** A prompt of the bootloader menu and the answer typed to it. */
  function Ask(prompt: string, answer: string): seq<Step>
  {
    [Exp(prompt, 30), SendText(answer)]
  }

  /** The first batch of `flashAndReboot`: the bootloader menu, answered with
      operation 2, confirmation, both addresses and the kernel file name,
      until the download starts. */
  function MenuSteps(cfg: Config): (ss: seq<Step>)
    ensures |ss| == 14
    ensures forall i :: 0 <= i < |ss| && ss[i].Wait? ==> ss[i].timeout == 30
  {
    [ Exp("Please choose the operation:", 30),
      Exp("2: Load system code then write to Flash via TFTP", 30) ]
    + Ask("default: ", "2")
    + Ask("Are you sure\\?", "y")
    + Ask("Input device IP.* ==:", cfg.deviceIP + "\n")
    + Ask("Input server IP.* ==:", cfg.localIP + "\n")
    + Ask("Input Linux Kernel filename .* ==:", KernelFilename + "\n")
    + [ Exp("ETH_STATE_ACTIVE", 30),
        Exp("Loading:", 30) ]
  }

  /** The two-case switch, run as a one-step batch, that waits up to ten
      minutes for the TFTP transfer to start; the bootloader giving up counts
      as an error. */
  const TransferStartCases: seq<Case> :=
    [ Case("Got it", OK),
      Case("Retry count exceeded; starting again", Continue(RetryCountExceeded)) ]

  const TransferPrefix: string := "Bytes transferred = "

  /** The line the bootloader prints once it holds the whole image, built
      from the image's size. */
  function TransferPattern(filesize: nat): (p: string)
    ensures |p| > |TransferPrefix| && p[..|TransferPrefix|] == TransferPrefix
    ensures AllDigits(p[|TransferPrefix|..]) && DecimalValue(p[|TransferPrefix|..]) == filesize
  {
    var p := TransferPrefix + Decimal(filesize);
    assert p[|TransferPrefix|..] == Decimal(filesize);
    DecimalRoundTrip(filesize);
    p
  }

  const RebootSteps: seq<Step> :=
    [ Exp("Starting kernel \\.\\.\\.", 60),
      Exp("Please press Enter to activate this console", 60) ]

  const ShellPrompt: string := "root@(.+):/#"

  /** The middle of `flashAndReboot`: the transfer starts, the whole image
      arrives and the bootloader has written it to flash. */
  function TransferSteps(filesize: nat): (ss: seq<Step>)
    ensures |ss| == 3 && forall i :: 0 <= i < |ss| ==> ss[i].Wait?
    ensures ss[1] == Exp(TransferPattern(filesize), 60)
  {
    [Wait(TransferStartCases, 600)] + [Exp(TransferPattern(filesize), 60)] + [Exp("Done!", 60)]
  }

  /** The end of `flashAndReboot`: the new kernel starts, the console is
      activated and the device is told to reboot. */
  function RestartSteps(): (ss: seq<Step>)
    ensures |ss| == 5 && ss[|ss| - 1] == SendText("reboot\n")
    ensures forall i :: 0 <= i < |ss| && ss[i].SendText? ==>
      (i == 2 && ss[i].text == "\n") || (i == 4 && ss[i].text == "reboot\n")
  {
    RebootSteps + [SendText("\n")] + [Exp(ShellPrompt, 1)] + [SendText("reboot\n")]
  }

  /** Everything `flashAndReboot` does, in order: the menu, then the wait
      for the transfer to start, and "reboot" last. */
  function FlashSteps(cfg: Config, filesize: nat): (ss: seq<Step>)
    ensures |ss| == 22 && ss[14] == Wait(TransferStartCases, 600)
    ensures ss[21] == SendText("reboot\n")
  {
    MenuSteps(cfg) + TransferSteps(filesize) + RestartSteps()
  }

  /** The waits of `run` before `verifyBoot`, in order: U-Boot is awaited
      before and after the flashing. */
  function BootSteps(cfg: Config, filesize: nat): (ss: seq<Step>)
    ensures |ss| == 26 && ss[..2] == UBootSteps() && ss[24..] == UBootSteps()
    ensures ss[2..24] == FlashSteps(cfg, filesize)
  {
    UBootSteps() + FlashSteps(cfg, filesize) + UBootSteps()
  }

  /** The texts `flashAndReboot` types into the console, in order. */
  function FlashSends(cfg: Config): seq<string>
  {
    ["2", "y", cfg.deviceIP + "\n", cfg.localIP + "\n", KernelFilename + "\n", "\n", "reboot\n"]
  }

  /** `expectOrPanic`: a plain expect whose failure becomes the panic. */
  method ExpectOrPanic(console: Console, pattern: string, timeout: Seconds) returns (panic: Option<Error>)
    modifies console
    ensures var t := RunSteps([Exp(pattern, timeout)], old(console.replies));
      panic == t.err && console.Shows(old(console.transcript), t)
  {
    panic := console.Expect(pattern, timeout);
  }

  /** `waitForUBoot`. */
  method WaitForUBoot(console: Console) returns (panic: Option<Error>)
    modifies console
    ensures var t := RunSteps(UBootSteps(), old(console.replies));
      panic == t.err && console.Shows(old(console.transcript), t)
  {
    ghost var r0, e0 := console.replies, console.transcript;
    assert UBootSteps() == [Exp(Separator, 60)] + [Exp("UBoot Version", 10)];
    RunStepsAppend([Exp(Separator, 60)], [Exp("UBoot Version", 10)], r0);
    panic := ExpectOrPanic(console, Separator, 60);
    ghost var t := RunSteps([Exp(Separator, 60)], r0);
    if panic.Some? {
      return;
    }
    panic := ExpectOrPanic(console, "UBoot Version", 10);
    assert console.Shows(e0, Then(t, [Exp("UBoot Version", 10)]));
  }

  /** One more part of a run, seen on the console: if the transcript so far
      is `t`'s and the part then ran on the replies `t` left, the console
      shows `t` continued by the part. */
  lemma Continued(e0: seq<Event>, t: Trace, part: seq<Step>, transcript: seq<Event>, replies: seq<Reply>)
    requires t.err.None?
    requires var u := RunSteps(part, t.rest); replies == u.rest && transcript == e0 + t.events + u.events
    ensures var n := Then(t, part); replies == n.rest && transcript == e0 + n.events
  {
  }

  /** The part of `flashAndReboot` from "Waiting for TFTP connection" to
      "Flashing": a failed wait is the panic. */
  method AwaitTransfer(console: Console, filesize: nat) returns (panic: Option<Error>)
    modifies console
    ensures var t := RunSteps(TransferSteps(filesize), old(console.replies));
      panic == t.err && console.Shows(old(console.transcript), t)
  {
    ghost var r0, e0 := console.replies, console.transcript;
    var start := [Wait(TransferStartCases, 600)];
    var complete := [Exp(TransferPattern(filesize), 60)];
    RunStepsAppend(start, complete, r0);
    RunStepsAppend(start + complete, [Exp("Done!", 60)], r0);

    panic := console.ExpectBatch(start);
    ghost var t := RunSteps(start, r0);
    if panic.Some? {
      return;
    }

    panic := ExpectOrPanic(console, TransferPattern(filesize), 60);
    Continued(e0, t, complete, console.transcript, console.replies);
    t := Then(t, complete);
    if panic.Some? {
      return;
    }

    panic := ExpectOrPanic(console, "Done!", 60);
    Continued(e0, t, [Exp("Done!", 60)], console.transcript, console.replies);
  }

  /** The part of `flashAndReboot` from "Rebooting" on: the kernel's start
      messages, then a newline to activate the console, the shell prompt,
      and the reboot command. */
  method RestartIntoShell(console: Console) returns (panic: Option<Error>)
    modifies console
    ensures var t := RunSteps(RestartSteps(), old(console.replies));
      panic == t.err && console.Shows(old(console.transcript), t)
  {
    ghost var r0, e0 := console.replies, console.transcript;
    var activate := [SendText("\n")];
    var prompt := [Exp(ShellPrompt, 1)];
    RunStepsAppend(RebootSteps, activate, r0);
    RunStepsAppend(RebootSteps + activate, prompt, r0);
    RunStepsAppend(RebootSteps + activate + prompt, [SendText("reboot\n")], r0);

    panic := console.ExpectBatch(RebootSteps);
    ghost var t := RunSteps(RebootSteps, r0);
    if panic.Some? {
      return;
    }

    console.Send("\n");
    Continued(e0, t, activate, console.transcript, console.replies);
    t := Then(t, activate);

    panic := ExpectOrPanic(console, ShellPrompt, 1);
    Continued(e0, t, prompt, console.transcript, console.replies);
    t := Then(t, prompt);
    if panic.Some? {
      return;
    }

    console.Send("reboot\n");
    Continued(e0, t, [SendText("reboot\n")], console.transcript, console.replies);
  }

  /** `flashAndReboot`: each part runs only after the parts before it
      succeeded, and the first failure is the panic. */
  method FlashAndReboot(console: Console, cfg: Config, filesize: nat) returns (panic: Option<Error>)
    modifies console
    ensures var t := RunSteps(FlashSteps(cfg, filesize), old(console.replies));
      panic == t.err && console.Shows(old(console.transcript), t)
  {
    ghost var r0, e0 := console.replies, console.transcript;
    RunStepsAppend(MenuSteps(cfg), TransferSteps(filesize), r0);
    RunStepsAppend(MenuSteps(cfg) + TransferSteps(filesize), RestartSteps(), r0);

    panic := console.ExpectBatch(MenuSteps(cfg));
    ghost var t := RunSteps(MenuSteps(cfg), r0);
    if panic.Some? {
      return;
    }

    panic := AwaitTransfer(console, filesize);
    Continued(e0, t, TransferSteps(filesize), console.transcript, console.replies);
    t := Then(t, TransferSteps(filesize));
    if panic.Some? {
      return;
    }

    panic := RestartIntoShell(console);
    Continued(e0, t, RestartSteps(), console.transcript, console.replies);
  }

  const BootingImage: string := "Booting image at"
  const ActivatePrompt: string := "Please press Enter to activate this console"
  const BadMagicPattern: string := "Bad Magic Number"

  /** The switch of `verifyBoot`: the activation prompt means the kernel
      booted, a bad magic number means the flash is corrupt. */
  const VerifyCases: seq<Case> :=
    [ Case(ActivatePrompt, OK),
      Case(BadMagicPattern, Continue(FlashCorrupt)) ]

  /** One more bad magic number within a second. */
  const BadMagicStep: Step := Exp(BadMagicPattern, 1)

  /** `n` copies of one step. */
  function Repeat(s: Step, n: nat): (steps: seq<Step>)
    ensures |steps| == n && forall i :: 0 <= i < n ==> steps[i] == s
  {
    if n == 0 then [] else Repeat(s, n - 1) + [s]
  }

  /** How many replies in a row, from the start, match the first case. */
  function LeadingMatches(replies: seq<Reply>): (n: nat)
    ensures n <= |replies|
    ensures forall i :: 0 <= i < n ==> replies[i] == Matched(0)
    ensures n < |replies| ==> replies[n] != Matched(0)
  {
    if replies != [] && replies[0] == Matched(0) then 1 + LeadingMatches(replies[1..]) else 0
  }

  /** The value of a function of main.go together with what it did on the
      console. */
  datatype Session = Session(result: Flow<Option<Error>>, events: seq<Event>, rest: seq<Reply>)

  /** The reference behaviour of `verifyBoot`: the image must start booting
      (or the run panics); then the switch decides: the activation prompt is
      success, anything but a bad magic number is returned as it is, and a
      bad magic number starts the count, which goes up by one for every
      further bad magic number until a wait fails. */
  function VerifyBootSpec(replies: seq<Reply>): (s: Session)
    ensures !s.result.Fatal?
    ensures s.events != [] && s.events[0].Waited? && s.events[0].patterns == [BootingImage]
  {
    RunOneWait([Case(BootingImage, OK)], 5, replies);
    var t := RunSteps([Exp(BootingImage, 5)], replies);
    if t.err.Some? then Session(Panic(t.err.value), t.events, t.rest)
    else
      var e := Outcome(VerifyCases, Next(t.rest));
      var seen := t.events + [Waited(Patterns(VerifyCases), e)];
      if e == Some(StatusError(FlashCorrupt)) then BadMagicSession(seen, Rest(t.rest))
      else Session(Normal(e), seen, Rest(t.rest))
  }

  /** The branch of `verifyBoot` taken when the switch reports the flash
      corrupt: after the transcript `seen`, one more bad magic number is
      counted for every further match, and the count is returned. */
  function BadMagicSession(seen: seq<Event>, replies: seq<Reply>): (s: Session)
    ensures s.result.Normal? && s.result.value.Some? && s.result.value.value.BadMagicNumber?
    ensures s.result.value.value.count == 1 + LeadingMatches(replies)
    ensures |s.events| >= |seen| && s.events[..|seen|] == seen
  {
    var count := 1 + LeadingMatches(replies);
    var c := RunSteps(Repeat(BadMagicStep, count), replies);
    Session(Normal(Some(BadMagicNumber(count))), seen + c.events, c.rest)
  }

  /** `verifyBoot` as main.go writes it, with goexpect as published: the
      switch hands back the matched status's `Err()`, which is nil for the
      code-0 status of the bad magic case, so `errors.Is` never sees the
      status and the function returns nil. */
  function VerifyBootAsWritten(replies: seq<Reply>): (s: Session)
    ensures !s.result.Fatal?
    ensures s.result == Normal(None) <==>
      (Next(replies) == Matched(0) && (Next(Rest(replies)) == Matched(0) || Next(Rest(replies)) == Matched(1)))
  {
    RunOneWait([Case(BootingImage, OK)], 5, replies);
    var t := RunSteps([Exp(BootingImage, 5)], replies);
    if t.err.Some? then Session(Panic(t.err.value), t.events, t.rest)
    else
      var e := OutcomeAsWritten(VerifyCases, Next(t.rest));
      var seen := t.events + [Waited(Patterns(VerifyCases), e)];
      if e == Some(StatusError(FlashCorrupt)) then BadMagicSession(seen, Rest(t.rest))
      else Session(Normal(e), seen, Rest(t.rest))
  }

  const BadMagicPrefix: string := "bad magic number ("
  const BadMagicSuffix: string := " counted)"

  /** `errBadMagicNumber.Error`: the count in decimal between fixed words. */
  function BadMagicText(count: int): (s: string)
    ensures |s| > |BadMagicPrefix| + |BadMagicSuffix|
    ensures s[..|BadMagicPrefix|] == BadMagicPrefix && s[|s| - |BadMagicSuffix|..] == BadMagicSuffix
    ensures s[|BadMagicPrefix|..|s| - |BadMagicSuffix|] == IntDecimal(count)
  {
    BadMagicPrefix + IntDecimal(count) + BadMagicSuffix
  }

  /** The message gives the count back: different counts never read the
      same. */
  lemma BadMagicTextInjective(a: int, b: int)
    requires BadMagicText(a) == BadMagicText(b)
    ensures a == b
  {
    var s := BadMagicText(a);
    assert IntDecimal(a) == s[|BadMagicPrefix|..|s| - |BadMagicSuffix|] == IntDecimal(b);
    IntDecimalInjective(a, b);
  }

  /** The counting loop of `verifyBoot`: it starts at one and waits for
      bad magic numbers until a wait fails. */
  method CountBadMagic(console: Console) returns (count: int)
    modifies console
    ensures count == 1 + LeadingMatches(old(console.replies))
    ensures console.Shows(old(console.transcript), RunSteps(Repeat(BadMagicStep, count), old(console.replies)))
  {
    ghost var r0, e0 := console.replies, console.transcript;
    count := 1;
    while true
      invariant count >= 1
      invariant LeadingMatches(r0) == count - 1 + LeadingMatches(console.replies)
      invariant var t := RunSteps(Repeat(BadMagicStep, count - 1), r0);
        t.err.None? && console.Shows(e0, t)
      decreases |console.replies|
    {
      ghost var before := console.replies;
      ghost var t := RunSteps(Repeat(BadMagicStep, count - 1), r0);
      RunStepsAppend(Repeat(BadMagicStep, count - 1), [BadMagicStep], r0);
      var err := console.Expect(BadMagicPattern, 1);
      Continued(e0, t, [BadMagicStep], console.transcript, console.replies);
      if err.Some? {
        break;
      }
      count := count + 1;
    }
  }

  /** `verifyBoot`. */
  method VerifyBoot(console: Console) returns (r: Flow<Option<Error>>)
    modifies console
    ensures var s := VerifyBootSpec(old(console.replies));
      r == s.result && console.replies == s.rest && console.transcript == old(console.transcript) + s.events
  {
    ghost var r0, e0 := console.replies, console.transcript;
    ghost var spec := VerifyBootSpec(r0);
    ghost var t := RunSteps([Exp(BootingImage, 5)], r0);
    var panic := ExpectOrPanic(console, BootingImage, 5);
    if panic.Some? {
      assert spec == Session(Panic(panic.value), t.events, t.rest);
      return Panic(panic.value);
    }
    var err := console.ExpectSwitchCase(VerifyCases, 5);
    ghost var seen := t.events + [Waited(Patterns(VerifyCases), err)];
    ConcatAssociates(e0, t.events, [Waited(Patterns(VerifyCases), err)]);
    if err == Some(StatusError(FlashCorrupt)) {
      var count := CountBadMagic(console);
      ghost var c := RunSteps(Repeat(BadMagicStep, count), Rest(t.rest));
      assert spec == Session(Normal(Some(BadMagicNumber(count))), seen + c.events, c.rest);
      ConcatAssociates(e0, seen, c.events);
      return Normal(Some(BadMagicNumber(count)));
    }
    assert spec == Session(Normal(err), seen, Rest(t.rest));
    return Normal(err);
  }

  /** How `run` ends after the waits that precede `verifyBoot` produced
      `t`: a failed wait is the panic, otherwise `verifyBoot` decides. */
  function Finish(t: Trace): (s: Session)
    ensures !s.result.Fatal?
    ensures |s.events| >= |t.events| && s.events[..|t.events|] == t.events
    ensures t.err.Some? ==> s.result == Panic(t.err.value)
  {
    if t.err.Some? then Session(Panic(t.err.value), t.events, t.rest)
    else
      var v := VerifyBootSpec(t.rest);
      Session(v.result, t.events + v.events, v.rest)
  }

  /** The reference behaviour of `run` once the console is up: the waits
      before `verifyBoot`, stopping at the first failure, then
      `verifyBoot`. */
  function RunSpec(cfg: Config, filesize: nat, replies: seq<Reply>): (s: Session)
    ensures !s.result.Fatal?
    ensures s.result == Normal(None) ==> RunSteps(BootSteps(cfg, filesize), replies).err.None?
  {
    Finish(RunSteps(BootSteps(cfg, filesize), replies))
  }

  /** The waits before `verifyBoot` are the three functions' steps run one
      after the other. */
  lemma BootStepsInStages(cfg: Config, filesize: nat, replies: seq<Reply>)
    ensures RunSteps(BootSteps(cfg, filesize), replies)
      == Then(Then(RunSteps(UBootSteps(), replies), FlashSteps(cfg, filesize)), UBootSteps())
  {
    RunStepsAppend(UBootSteps(), FlashSteps(cfg, filesize), replies);
    RunStepsAppend(UBootSteps() + FlashSteps(cfg, filesize), UBootSteps(), replies);
  }

  /** The part of `run` before `verifyBoot`: `waitForUBoot`,
      `flashAndReboot` and `waitForUBoot` again, in that order; the first
      failed wait is the panic and nothing after it runs. */
  method FlashCycle(console: Console, cfg: Config, filesize: nat) returns (panic: Option<Error>)
    modifies console
    ensures var t := RunSteps(BootSteps(cfg, filesize), old(console.replies));
      panic == t.err && console.Shows(old(console.transcript), t)
  {
    ghost var r0, e0 := console.replies, console.transcript;
    BootStepsInStages(cfg, filesize, r0);

    panic := WaitForUBoot(console);
    ghost var t := RunSteps(UBootSteps(), r0);
    if panic.Some? {
      return;
    }
    panic := FlashAndReboot(console, cfg, filesize);
    Continued(e0, t, FlashSteps(cfg, filesize), console.transcript, console.replies);
    t := Then(t, FlashSteps(cfg, filesize));
    if panic.Some? {
      return;
    }
    panic := WaitForUBoot(console);
    Continued(e0, t, UBootSteps(), console.transcript, console.replies);
  }

  /** The part of `run` after the console started: the flash cycle, then
      `verifyBoot`; a panic ends the run. */
  method Sequence(console: Console, cfg: Config, filesize: nat) returns (r: Flow<Option<Error>>)
    modifies console
    ensures var s := RunSpec(cfg, filesize, old(console.replies));
      r == s.result && console.replies == s.rest && console.transcript == old(console.transcript) + s.events
  {
    ghost var e0 := console.transcript;
    ghost var t := RunSteps(BootSteps(cfg, filesize), console.replies);
    var panic := FlashCycle(console, cfg, filesize);
    if panic.Some? {
      return Panic(panic.value);
    }
    ghost var e1 := console.transcript;
    assert e1 == e0 + t.events && console.replies == t.rest;
    r := VerifyBoot(console);
    ghost var v := VerifyBootSpec(t.rest);
    ConcatAssociates(e0, t.events, v.events);
  }

  /** `run`.  `spawn` is what starting picocom on the serial line reports
      and `script` how the device answers.  The log writer is closed right
      after the console starts. */
  method Run(writer: LogWriter, cfg: Config, filesize: nat, spawn: Option<Error>, script: seq<Reply>)
    returns (r: Flow<Option<Error>>, transcript: seq<Event>)
    requires writer.Valid()
    modifies writer.file
    ensures writer.Valid()
    ensures spawn.Some? ==> r == Normal(spawn) && transcript == []
    ensures spawn.Some? && writer.file != null ==> unchanged(writer.file)
    ensures spawn.None? && writer.file != null ==> !writer.file.open
    ensures spawn.None? ==> var s := RunSpec(cfg, filesize, script); r == s.result && transcript == s.events
  {
    if spawn.Some? {
      return Normal(spawn), [];
    }
    var console := new Console(script);
    var _ := writer.Close();
    r := Sequence(console, cfg, filesize);
    transcript := console.transcript;
  }

  /** How the process ends: "Boot successful", the error `run` returned,
      a panic, or `log.Fatalf`. */
  datatype Ending = BootSuccessful | BootFailed(err: Error) | Crashed(err: Error) | Aborted(reason: FatalReason)

  /** What `main` makes of the result of `run`. */
  function Conclude(r: Flow<Option<Error>>): (e: Ending)
    ensures e == BootSuccessful <==> r == Normal(None)
    ensures e.Crashed? <==> r.Panic?
    ensures e.Aborted? <==> r.Fatal?
  {
    match r
    case Normal(None) => BootSuccessful
    case Normal(Some(e)) => BootFailed(e)
    case Panic(e) => Crashed(e)
    case Fatal(reason) => Aborted(reason)
  }

  /** The exit status: 0 after a successful boot, 2 for a panic (the Go
      runtime's status), and 1 for `log.Fatalf` and `os.Exit(1)`. */
  function ExitCode(e: Ending): (code: nat)
    ensures code == 0 <==> e.BootSuccessful?
    ensures code == 2 <==> e.Crashed?
  {
    match e
    case BootSuccessful => 0
    case BootFailed(_) => 1
    case Crashed(_) => 2
    case Aborted(_) => 1
  }

  /** `main`, from the interface search on: `localAddr` is the parsed
      `-local-ip`, `ifaces` what listing the interfaces gives, `imageSize`
      what `os.Stat` reports for the image, `spawn` and `script` as for
      `run`.  The log writer is the package's zero `logWriter`. */
  method Start(cfg: Config, localAddr: IP, ifaces: Result<seq<Interface>>, imageSize: Result<nat>,
               spawn: Option<Error>, script: seq<Reply>)
    returns (ending: Ending, transcript: seq<Event>)
    ensures var found := InterfaceLookup(ifaces, localAddr);
      && (found.Panic? ==> ending == Crashed(found.err) && transcript == [])
      && (found == Normal(None) ==> ending == Aborted(NoLocalInterface) && transcript == [])
      && (found.Normal? && found.value.Some? ==>
            && (imageSize.Err? ==> ending == Crashed(imageSize.error) && transcript == [])
            && (imageSize.Ok? && spawn.Some? ==> ending == BootFailed(spawn.value) && transcript == [])
            && (imageSize.Ok? && spawn.None? ==>
                  var s := RunSpec(cfg, imageSize.value, script);
                  ending == Conclude(s.result) && transcript == s.events))
  {
    var found := GetInterfaceWithAddress(ifaces, localAddr);
    if found.Panic? {
      return Crashed(found.err), [];
    }
    if found.value.None? {
      return Aborted(NoLocalInterface), [];
    }
    if imageSize.Err? {
      return Crashed(imageSize.error), [];
    }
    var writer := new LogWriter();
    var r;
    r, transcript := Run(writer, cfg, imageSize.value, spawn, script);
    ending := Conclude(r);
  }
}
