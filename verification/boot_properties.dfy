/** What the boot sequencer of main.go guarantees, stated over its reference
    behaviour `RunSpec` and `VerifyBootSpec`: the order of the stages, the
    texts typed into the console, the classification `verifyBoot` makes, the
    bad-magic count, what the transfer-complete check accepts, and the exit
    status. */
module BootProperties {
  import opened Base
  import opened Text
  import opened Expect
  import opened Tftp
  import opened Boot

  // ---------------------------------------------------------------------
  // The transfer-complete check

  /** `TransferPrefix` has its capital B only at the start. */
  lemma OnlyLeadingB(i: int)
    requires 0 < i < |TransferPrefix|
    ensures TransferPrefix[i] != 'B'
  {
  }

  /** The check is an unanchored search for the pattern built from the
      image size `f`.  If the bootloader reports `g` bytes and the pattern
      is found in that line, then `g` is `f` or has more digits than `f`
      and starts with them, so it is at least ten times `f` (and the
      pattern for an empty image is found only in the report of 0 bytes). */
  lemma {:induction false} TransferCheckBound(f: nat, g: nat)
    requires Contains(TransferPattern(g), TransferPattern(f))
    ensures g == f || (f >= 1 && g >= 10 * f)
  {
    var line, pat := TransferPattern(g), TransferPattern(f);
    var n := |TransferPrefix|;
    var i :| 0 <= i <= |line| && OccursAt(line, pat, i);
    assert line[i] == pat[0] == 'B';
    if i != 0 {
      if i < n {
        assert line[i] == TransferPrefix[i];
        OnlyLeadingB(i);
      }
      assert false;
    }
    assert i == 0;
    var df, dg := Decimal(f), Decimal(g);
    assert line == TransferPrefix + dg && pat == TransferPrefix + df;
    assert line[..|pat|] == pat;
    assert dg[..|df|] == line[n..|pat|] == pat[n..] == df;
    DecimalPrefixBound(f, g);
  }

  /** A report one byte longer than the image, or (for a non-empty image)
      one byte shorter, never satisfies the check. */
  lemma TransferCheckRejectsNeighbours(f: nat)
    ensures !Contains(TransferPattern(f + 1), TransferPattern(f))
    ensures f >= 1 ==> !Contains(TransferPattern(f - 1), TransferPattern(f))
  {
    if Contains(TransferPattern(f + 1), TransferPattern(f)) {
      TransferCheckBound(f, f + 1);
    }
    if f >= 1 && Contains(TransferPattern(f - 1), TransferPattern(f)) {
      TransferCheckBound(f, f - 1);
    }
  }

  /** The search is unanchored: the pattern for 1234 bytes is found in the
      report of 12345 bytes. */
  lemma TransferCheckIsUnanchored()
    ensures Contains(TransferPattern(12345), TransferPattern(1234))
  {
    assert Decimal(1234) == Decimal(123) + [DigitChar(4)];
    assert Decimal(12345) == Decimal(1234) + [DigitChar(5)];
    var line := TransferPattern(12345);
    assert line == TransferPattern(1234) + [DigitChar(5)];
    assert OccursAt(line, TransferPattern(1234), 0);
  }

  /** The report of exactly the image size satisfies the check wherever it
      stands in the console output. */
  lemma TransferCheckAcceptsSize(before: string, after: string, f: nat)
    ensures Contains(before + TransferPattern(f) + after, TransferPattern(f))
  {
    ContainsWithin(before, TransferPattern(f), after);
  }

  // ---------------------------------------------------------------------
  // verifyBoot

  /** The three-way classification of `verifyBoot`, once the image started
      booting: the activation prompt is success, a bad magic number is the
      counted error, and anything else is the switch's own error, returned
      unchanged.  Before that, a missing "Booting image at" panics. */
  lemma VerifyBootOutcomes(replies: seq<Reply>)
    ensures var r := VerifyBootSpec(replies).result;
      (r.Panic? <==> Next(replies) != Matched(0))
      && (r.Panic? ==> r.err == Timeout || r.err == ConsoleEnded)
      && !r.Fatal?
    ensures Next(replies) == Matched(0) ==>
      var reply := Next(Rest(replies));
      var r := VerifyBootSpec(replies).result;
      && (r == Normal(None) <==> reply == Matched(0))
      && (reply == Matched(1) ==>
            r == Normal(Some(BadMagicNumber(1 + LeadingMatches(Rest(Rest(replies)))))))
      && (reply != Matched(0) && reply != Matched(1) ==>
            r == Normal(Some(if reply == ConsoleGone then ConsoleEnded else Timeout)))
  {
    RunOneWait([Case(BootingImage, OK)], 5, replies);
  }

  /** The bad-magic count is never below one, and a `BadMagicNumber` result
      comes only from the flash-corrupt case of the switch. */
  lemma BadMagicCountPositive(replies: seq<Reply>)
    ensures var r := VerifyBootSpec(replies).result;
      r.Normal? && r.value.Some? && r.value.value.BadMagicNumber? ==>
        r.value.value.count >= 1 && Next(replies) == Matched(0) && Next(Rest(replies)) == Matched(1)
  {
    VerifyBootOutcomes(replies);
  }

  /** `n` replies in a row that match the first case. */
  function Matches(n: nat): (rs: seq<Reply>)
    ensures |rs| == n && forall i :: 0 <= i < n ==> rs[i] == Matched(0)
  {
    seq(n, _ => Matched(0))
  }

  lemma {:induction false} LeadingMatchesOfRun(n: nat, tail: seq<Reply>)
    requires Next(tail) != Matched(0)
    ensures LeadingMatches(Matches(n) + tail) == n
  {
    if n == 0 {
      assert Matches(0) + tail == tail;
    } else {
      assert (Matches(n) + tail)[1..] == Matches(n - 1) + tail;
      LeadingMatchesOfRun(n - 1, tail);
    }
  }

  /** The count is one for the switch's bad magic number plus one for every
      further bad magic number before the first wait that fails. */
  lemma BadMagicCount(n: nat, last: Reply, later: seq<Reply>)
    requires last != Matched(0)
    ensures VerifyBootSpec([Matched(0), Matched(1)] + Matches(n) + [last] + later).result
      == Normal(Some(BadMagicNumber(n + 1)))
  {
    var replies := [Matched(0), Matched(1)] + Matches(n) + [last] + later;
    assert Rest(Rest(replies)) == Matches(n) + ([last] + later);
    LeadingMatchesOfRun(n, [last] + later);
    VerifyBootOutcomes(replies);
  }

  /** A device that prints "Bad Magic Number" three times and then falls
      silent fails the run with "bad magic number (3 counted)". */
  lemma ThreeBadMagicNumbers()
    ensures VerifyBootSpec([Matched(0), Matched(1), Matched(0), Matched(0), TimedOut]).result
      == Normal(Some(BadMagicNumber(3)))
  {
    BadMagicCount(2, TimedOut, []);
    assert [Matched(0), Matched(1)] + Matches(2) + [TimedOut] + []
      == [Matched(0), Matched(1), Matched(0), Matched(0), TimedOut];
  }

  lemma ThreeCountedText()
    ensures BadMagicText(3) == "bad magic number (3 counted)"
  {
    assert IntDecimal(3) == "3";
  }

  // The code-0 statuses of main.go:83 and main.go:173

  /** As written, a device that prints "Bad Magic Number" once the image
      starts booting passes `verifyBoot`, so the run reports a successful
      boot; the intended reading fails it with the bad magic numbers
      counted. */
  lemma BadMagicIgnoredAsWritten(later: seq<Reply>)
    ensures VerifyBootAsWritten([Matched(0), Matched(1)] + later).result == Normal(None)
    ensures VerifyBootSpec([Matched(0), Matched(1)] + later).result
      == Normal(Some(BadMagicNumber(1 + LeadingMatches(later))))
  {
    var replies := [Matched(0), Matched(1)] + later;
    assert Rest(Rest(replies)) == later;
    VerifyBootOutcomes(replies);
  }

  /** Everywhere else the code as written and the intended reading agree. */
  lemma VerifyBootReadingsAgree(replies: seq<Reply>)
    requires !(Next(replies) == Matched(0) && Next(Rest(replies)) == Matched(1))
    ensures VerifyBootAsWritten(replies) == VerifyBootSpec(replies)
  {
    RunOneWait([Case(BootingImage, OK)], 5, replies);
    OutcomeReadingsDiffer(VerifyCases, Next(Rest(replies)));
  }

  /** As written, a "Retry count exceeded" report that outlasts its retries
      ends the wait for the transfer exactly as "Got it" does. */
  lemma RetryExhaustedAsWritten()
    ensures OutcomeAsWritten(TransferStartCases, Matched(1)) == None
    ensures OutcomeAsWritten(TransferStartCases, Matched(1)) == OutcomeAsWritten(TransferStartCases, Matched(0))
  {
  }

  /** In the intended reading the exhausted retries end the batch with the
      retry status, which `flashAndReboot` raises as a panic. */
  lemma RetryExhaustedPanics(filesize: nat, later: seq<Reply>)
    ensures RunSteps(TransferSteps(filesize), [Matched(1)] + later).err == Some(StatusError(RetryCountExceeded))
    ensures RunSteps(TransferSteps(filesize), [Matched(1)] + later).events
      == [Waited(Patterns(TransferStartCases), Some(StatusError(RetryCountExceeded)))]
  {
    var steps := TransferSteps(filesize);
    assert steps[0] == Wait(TransferStartCases, 600);
  }

  /** A batch of waits only records waits. */
  lemma {:induction false} WaitsOnly(steps: seq<Step>, replies: seq<Reply>)
    requires forall i :: 0 <= i < |steps| ==> steps[i].Wait?
    ensures forall i :: 0 <= i < |RunSteps(steps, replies).events| ==> RunSteps(steps, replies).events[i].Waited?
    decreases |steps|
  {
    if steps != [] {
      WaitsOnly(steps[1..], Rest(replies));
    }
  }

  lemma VerifyBootSendsNothing(replies: seq<Reply>)
    ensures forall i :: 0 <= i < |VerifyBootSpec(replies).events| ==> VerifyBootSpec(replies).events[i].Waited?
  {
    var t := RunSteps([Exp(BootingImage, 5)], replies);
    WaitsOnly([Exp(BootingImage, 5)], replies);
    if t.err.None? {
      var count := 1 + LeadingMatches(Rest(t.rest));
      WaitsOnly(Repeat(BadMagicStep, count), Rest(t.rest));
    }
  }

  // ---------------------------------------------------------------------
  // run

  /** Steps that only wait send nothing. */
  lemma {:induction false} NoSends(steps: seq<Step>)
    requires forall i :: 0 <= i < |steps| ==> steps[i].Wait?
    ensures Sends(steps) == []
  {
    if steps != [] {
      NoSends(steps[1..]);
    }
  }

  lemma AskSends(prompt: string, answer: string)
    ensures Sends(Ask(prompt, answer)) == [answer]
  {
    var steps := Ask(prompt, answer);
    assert steps[1..] == [SendText(answer)] && steps[1..][1..] == [];
    assert Sends(steps[1..]) == [answer] + Sends([]);
  }

  lemma MenuSends(cfg: Config)
    ensures Sends(MenuSteps(cfg)) == ["2", "y", cfg.deviceIP + "\n", cfg.localIP + "\n", KernelFilename + "\n"]
  {
    var head := [Exp("Please choose the operation:", 30),
                 Exp("2: Load system code then write to Flash via TFTP", 30)];
    var a0, a1 := Ask("default: ", "2"), Ask("Are you sure\\?", "y");
    var a2 := Ask("Input device IP.* ==:", cfg.deviceIP + "\n");
    var a3 := Ask("Input server IP.* ==:", cfg.localIP + "\n");
    var a4 := Ask("Input Linux Kernel filename .* ==:", KernelFilename + "\n");
    var tail := [Exp("ETH_STATE_ACTIVE", 30), Exp("Loading:", 30)];
    NoSends(head);
    NoSends(tail);
    AskSends("default: ", "2");
    AskSends("Are you sure\\?", "y");
    AskSends("Input device IP.* ==:", cfg.deviceIP + "\n");
    AskSends("Input server IP.* ==:", cfg.localIP + "\n");
    AskSends("Input Linux Kernel filename .* ==:", KernelFilename + "\n");
    SendsAppend(head, a0);
    SendsAppend(head + a0, a1);
    SendsAppend(head + a0 + a1, a2);
    SendsAppend(head + a0 + a1 + a2, a3);
    SendsAppend(head + a0 + a1 + a2 + a3, a4);
    SendsAppend(head + a0 + a1 + a2 + a3 + a4, tail);
  }

  /** The texts `flashAndReboot` plans to send are the menu choice, the
      confirmation, both addresses, the kernel file name, the newline that
      activates the console and the reboot command, in that order. */
  lemma FlashSendsInOrder(cfg: Config, filesize: nat)
    ensures Sends(FlashSteps(cfg, filesize)) == FlashSends(cfg)
  {
    var menu := MenuSteps(cfg);
    MenuSends(cfg);
    NoSends(TransferSteps(filesize));
    NoSends(RebootSteps);
    SendsAppend(RebootSteps, [SendText("\n")]);
    SendsAppend(RebootSteps + [SendText("\n")], [Exp(ShellPrompt, 1)]);
    SendsAppend(RebootSteps + [SendText("\n")] + [Exp(ShellPrompt, 1)], [SendText("reboot\n")]);
    assert Sends(RestartSteps()) == ["\n", "reboot\n"];
    SendsAppend(menu, TransferSteps(filesize));
    SendsAppend(menu + TransferSteps(filesize), RestartSteps());
  }

  lemma BootSendsInOrder(cfg: Config, filesize: nat)
    ensures Sends(BootSteps(cfg, filesize)) == FlashSends(cfg)
  {
    FlashSendsInOrder(cfg, filesize);
    NoSends(UBootSteps());
    SendsAppend(UBootSteps(), FlashSteps(cfg, filesize));
    SendsAppend(UBootSteps() + FlashSteps(cfg, filesize), UBootSteps());
  }

  /** The stages of `run` come in order and the first failed wait ends the
      run: if every wait before `verifyBoot` succeeds, the transcript starts
      with all of them as planned; otherwise the run panics with that wait's
      error, the transcript follows the plan up to that wait and ends there. */
  lemma RunStagesInOrder(cfg: Config, filesize: nat, replies: seq<Reply>)
    ensures var s := RunSpec(cfg, filesize, replies);
      var t := RunSteps(BootSteps(cfg, filesize), replies);
      && (t.err.None? ==> |s.events| >= |BootSteps(cfg, filesize)| && s.events[..|BootSteps(cfg, filesize)|] == Planned(BootSteps(cfg, filesize)))
      && (t.err.Some? ==> s.result == Panic(t.err.value) && StoppedAt(s.events, BootSteps(cfg, filesize), t.err))
  {
    var t := RunSteps(BootSteps(cfg, filesize), replies);
    RunStepsFollowsPlan(BootSteps(cfg, filesize), replies);
    if t.err.None? {
      var s := RunSpec(cfg, filesize, replies);
      assert s.events == t.events + VerifyBootSpec(t.rest).events;
      assert s.events[..|t.events|] == t.events;
    }
  }

  /** A run that does not panic typed exactly the flash texts, each after
      every wait before it had succeeded. */
  lemma RunSendsFlashTexts(cfg: Config, filesize: nat, replies: seq<Reply>)
    ensures var s := RunSpec(cfg, filesize, replies);
      !s.result.Panic? ==> SentTexts(s.events) == FlashSends(cfg)
    ensures var s := RunSpec(cfg, filesize, replies);
      forall k, j :: 0 <= j < k < |s.events| && s.events[k].Sent? && s.events[j].Waited? ==>
        s.events[j].outcome.None?
  {
    var steps := BootSteps(cfg, filesize);
    var t := RunSteps(steps, replies);
    var s := RunSpec(cfg, filesize, replies);
    SentOnlyAfterMatches(steps, replies);
    if t.err.None? {
      var v := VerifyBootSpec(t.rest);
      VerifyBootSendsNothing(t.rest);
      BootSendsInOrder(cfg, filesize);
      assert s.events == t.events + v.events;
      SentTextsAppend(t.events, v.events);
      NoSentTexts(v.events);
      forall k, j | 0 <= j < k < |s.events| && s.events[k].Sent? && s.events[j].Waited?
        ensures s.events[j].outcome.None?
      {
        assert k < |t.events|;
        assert s.events[k] == t.events[k] && s.events[j] == t.events[j];
      }
    }
  }

  lemma {:induction false} NoSentTexts(events: seq<Event>)
    requires forall i :: 0 <= i < |events| ==> events[i].Waited?
    ensures SentTexts(events) == []
  {
    if events != [] {
      NoSentTexts(events[1..]);
    }
  }

  /** What a run can end with: a panic carries the error of a failed wait,
      and an error returned normally is `verifyBoot`'s: a timeout, the
      console going away, or a bad magic number counted at least once. */
  lemma {:induction false} RunStepsErrors(steps: seq<Step>, replies: seq<Reply>)
    ensures var e := RunSteps(steps, replies).err;
      e.Some? ==> e.value == Timeout || e.value == ConsoleEnded || e.value.StatusError?
    decreases |steps|
  {
    if steps != [] {
      match steps[0]
      case SendText(_) => RunStepsErrors(steps[1..], replies);
      case Wait(_, _) => RunStepsErrors(steps[1..], Rest(replies));
    }
  }

  lemma RunOutcomes(cfg: Config, filesize: nat, replies: seq<Reply>)
    ensures var r := RunSpec(cfg, filesize, replies).result;
      && !r.Fatal?
      && (r.Panic? ==> r.err == Timeout || r.err == ConsoleEnded || r.err.StatusError?)
      && (r.Normal? && r.value.Some? ==>
            r.value.value == Timeout || r.value.value == ConsoleEnded
            || (r.value.value.BadMagicNumber? && r.value.value.count >= 1))
  {
    var t := RunSteps(BootSteps(cfg, filesize), replies);
    RunStepsErrors(BootSteps(cfg, filesize), replies);
    if t.err.None? {
      VerifyBootOutcomes(t.rest);
      BadMagicCountPositive(t.rest);
    }
  }

  /** The process exits with 0 exactly when the run ended without error,
      with 2 exactly when it panicked, and with 1 otherwise. */
  lemma ExitStatus(r: Flow<Option<Error>>)
    ensures ExitCode(Conclude(r)) == 0 <==> r == Normal(None)
    ensures ExitCode(Conclude(r)) == 2 <==> r.Panic?
    ensures ExitCode(Conclude(r)) == 1 <==> (r.Normal? && r.value.Some?) || r.Fatal?
  {
  }

  /** A successful boot needs every planned wait to succeed and the
      activation prompt to follow "Booting image at". */
  lemma SuccessfulBoot(cfg: Config, filesize: nat, replies: seq<Reply>)
    ensures var s := RunSpec(cfg, filesize, replies);
      var t := RunSteps(BootSteps(cfg, filesize), replies);
      s.result == Normal(None) <==>
        t.err.None? && Next(t.rest) == Matched(0) && Next(Rest(t.rest)) == Matched(0)
  {
    var t := RunSteps(BootSteps(cfg, filesize), replies);
    if t.err.None? {
      VerifyBootOutcomes(t.rest);
    }
  }
}
