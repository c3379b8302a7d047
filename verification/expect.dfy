/** The console session main.go drives through goexpect, reduced to what the
    boot sequencer relies on.  The device's behaviour is a script of replies,
    one per wait: which case of the wait matched first, or how the wait ended
    without a match.  Everything waited for and sent is kept in a transcript.
    A plain expect is a switch with one case tagged OK. */
module Expect {
  import opened Base

  /** Timeouts are labels only: the time itself is not modelled. */
  type Seconds = nat

  /** What a matched case makes the wait return: success, or the case's
      status as the error. */
  datatype Tag = OK | Continue(status: Status)

  datatype Case = Case(pattern: string, tag: Tag)

  /** How the device answers one wait.  `Matched(k)` means the `k`-th case of
      the wait was the first to match; an index past the last case stands for
      output that no case recognises, so the wait runs out of time. */
  datatype Reply = Matched(index: nat) | TimedOut | ConsoleGone

  /** One item of an expect batch. */
  datatype Step = Wait(cases: seq<Case>, timeout: Seconds) | SendText(text: string)

  /** One line of the transcript: the patterns of a wait with how it ended,
      or a text sent to the device. */
  datatype Event = Waited(patterns: seq<string>, outcome: Option<Error>) | Sent(text: string)

  /** A plain expect of one pattern. */
  function Exp(pattern: string, timeout: Seconds): Step
  {
    Wait([Case(pattern, OK)], timeout)
  }

  function Patterns(cases: seq<Case>): (ps: seq<string>)
    ensures |ps| == |cases| && forall i :: 0 <= i < |cases| ==> ps[i] == cases[i].pattern
  {
    if cases == [] then [] else [cases[0].pattern] + Patterns(cases[1..])
  }

  /** The reply the next wait gets; once the script is used up the device
      stays silent and every wait times out. */
  function Next(replies: seq<Reply>): Reply
  {
    if replies == [] then TimedOut else replies[0]
  }

  function Rest(replies: seq<Reply>): seq<Reply>
  {
    if replies == [] then [] else replies[1..]
  }

  /** What a wait on `cases` returns for `reply`: nothing when an OK case
      matched, the status of a matched Continue case, and otherwise the
      reason the wait ended. */
  function Outcome(cases: seq<Case>, reply: Reply): (e: Option<Error>)
    ensures e.None? <==> reply.Matched? && reply.index < |cases| && cases[reply.index].tag == OK
    ensures reply == ConsoleGone ==> e == Some(ConsoleEnded)
    ensures reply == TimedOut || (reply.Matched? && reply.index >= |cases|) ==> e == Some(Timeout)
    ensures reply.Matched? && reply.index < |cases| && cases[reply.index].tag.Continue? ==>
      e == Some(StatusError(cases[reply.index].tag.status))
    ensures e.Some? ==> e.value in {Timeout, ConsoleEnded} || e.value.StatusError?
  {
    match reply
    case TimedOut => Some(Timeout)
    case ConsoleGone => Some(ConsoleEnded)
    case Matched(k) =>
      if k < |cases| then
        match cases[k].tag
        case OK => None
        case Continue(s) => Some(StatusError(s))
      else Some(Timeout)
  }

  /** What the switch returns for `reply` with goexpect as published: a
      matched case hands back its status's `Err()`, which is nil for a status
      whose code is `codes.OK`, so a matched Continue case built with code 0
      succeeds like an OK case.  `Outcome`, used everywhere else, is the
      behaviour main.go evidently intends. */
  function OutcomeAsWritten(cases: seq<Case>, reply: Reply): (e: Option<Error>)
    ensures e.None? <==> (reply.Matched? && reply.index < |cases|
      && (cases[reply.index].tag == OK || StatusCode(cases[reply.index].tag.status) == 0))
  {
    match reply
    case Matched(k) =>
      if k < |cases| then
        match cases[k].tag
        case OK => None
        case Continue(s) => if StatusCode(s) == 0 then None else Some(StatusError(s))
      else Some(Timeout)
    case _ => Outcome(cases, reply)
  }

  /** The two readings differ exactly on a matched Continue case whose status
      has code 0: there the intended one fails with the status and the
      published one succeeds. */
  lemma OutcomeReadingsDiffer(cases: seq<Case>, reply: Reply)
    ensures OutcomeAsWritten(cases, reply) != Outcome(cases, reply) <==>
      reply.Matched? && reply.index < |cases| && cases[reply.index].tag.Continue?
      && StatusCode(cases[reply.index].tag.status) == 0
  {
  }

  /** What running some steps did: the transcript lines, the error that
      stopped the run (if any), and the replies still to come. */
  datatype Trace = Trace(events: seq<Event>, err: Option<Error>, rest: seq<Reply>)

  /** The reference semantics of an expect batch: the steps in order, each
      send performed, each wait answered by the next reply, and the first
      wait that fails ending the batch with its error. */
  function RunSteps(steps: seq<Step>, replies: seq<Reply>): (t: Trace)
    ensures |t.events| <= |steps|
    decreases |steps|
  {
    if steps == [] then Trace([], None, replies)
    else match steps[0]
      case SendText(text) =>
        var t := RunSteps(steps[1..], replies);
        Trace([Sent(text)] + t.events, t.err, t.rest)
      case Wait(cases, _) =>
        var e := Outcome(cases, Next(replies));
        if e.Some? then Trace([Waited(Patterns(cases), e)], e, Rest(replies))
        else
          var t := RunSteps(steps[1..], Rest(replies));
          Trace([Waited(Patterns(cases), None)] + t.events, t.err, t.rest)
  }

  /** A batch of one wait ends as that wait does. */
  lemma RunOneWait(cases: seq<Case>, timeout: Seconds, replies: seq<Reply>)
    ensures var e := Outcome(cases, Next(replies));
      RunSteps([Wait(cases, timeout)], replies) == Trace([Waited(Patterns(cases), e)], e, Rest(replies))
  {
    assert [Wait(cases, timeout)][1..] == [];
  }

  /** The transcript of the steps when every wait succeeds. */
  function Planned(steps: seq<Step>): (p: seq<Event>)
    ensures |p| == |steps|
  {
    if steps == [] then []
    else
      match steps[0]
      case SendText(text) => [Sent(text)] + Planned(steps[1..])
      case Wait(cases, _) => [Waited(Patterns(cases), None)] + Planned(steps[1..])
  }

  /** The texts the steps send, in order. */
  function Sends(steps: seq<Step>): seq<string>
  {
    if steps == [] then []
    else
      match steps[0]
      case SendText(text) => [text] + Sends(steps[1..])
      case Wait(_, _) => Sends(steps[1..])
  }

  /** The texts sent according to a transcript, in order. */
  function SentTexts(events: seq<Event>): seq<string>
  {
    if events == [] then []
    else
      match events[0]
      case Sent(text) => [text] + SentTexts(events[1..])
      case Waited(_, _) => SentTexts(events[1..])
  }

  /** `events` performed the planned steps up to a wait that failed with
      `err`, that failure being the last event. */
  predicate StoppedAt(events: seq<Event>, steps: seq<Step>, err: Option<Error>)
  {
    var n := |events|;
    1 <= n <= |steps| && steps[n - 1].Wait?
    && events[..n - 1] == Planned(steps)[..n - 1]
    && events[n - 1] == Waited(Patterns(steps[n - 1].cases), err)
  }

  /** The event a step leaves when it goes as planned. */
  function PlannedEvent(s: Step): Event
  {
    match s
    case SendText(text) => Sent(text)
    case Wait(cases, _) => Waited(Patterns(cases), None)
  }

  /** A step that went as planned, in front of a run that stopped, gives a
      longer run that stopped at the same wait. */
  lemma StoppedAtCons(s: Step, steps: seq<Step>, events: seq<Event>, err: Option<Error>)
    requires StoppedAt(events, steps, err)
    ensures StoppedAt([PlannedEvent(s)] + events, [s] + steps, err)
  {
    var all := [s] + steps;
    assert all[1..] == steps;
    assert Planned(all) == [PlannedEvent(s)] + Planned(steps);
    var n := |events|;
    assert ([PlannedEvent(s)] + events)[..n] == [PlannedEvent(s)] + events[..n - 1];
    assert Planned(all)[..n] == [PlannedEvent(s)] + Planned(steps)[..n - 1];
  }

  /** A batch follows its plan: a batch without error performs every step as
      planned; a batch with error performs the planned steps up to a wait
      that fails, with that failure as the batch's error, and nothing after
      it. */
  lemma {:induction false} RunStepsFollowsPlan(steps: seq<Step>, replies: seq<Reply>)
    ensures var t := RunSteps(steps, replies);
      t.err.None? ==> t.events == Planned(steps)
    ensures var t := RunSteps(steps, replies);
      t.err.Some? ==> StoppedAt(t.events, steps, t.err)
    decreases |steps|
  {
    if steps != [] {
      var t := RunSteps(steps, replies);
      assert steps == [steps[0]] + steps[1..];
      match steps[0] {
        case SendText(text) =>
          var u := RunSteps(steps[1..], replies);
          RunStepsFollowsPlan(steps[1..], replies);
          if u.err.Some? {
            StoppedAtCons(steps[0], steps[1..], u.events, u.err);
          }
        case Wait(cases, _) =>
          var e := Outcome(cases, Next(replies));
          if e.None? {
            var u := RunSteps(steps[1..], Rest(replies));
            RunStepsFollowsPlan(steps[1..], Rest(replies));
            if u.err.Some? {
              StoppedAtCons(steps[0], steps[1..], u.events, u.err);
            }
          }
      }
    }
  }

  /** Every text a batch sends was sent only after all the waits before it
      had succeeded, and the texts sent are the planned ones, in order, up to
      the point where the batch stopped. */
  lemma SentOnlyAfterMatches(steps: seq<Step>, replies: seq<Reply>)
    ensures var t := RunSteps(steps, replies);
      forall k, j :: 0 <= j < k < |t.events| && t.events[k].Sent? && t.events[j].Waited? ==>
        t.events[j].outcome.None?
    ensures var t := RunSteps(steps, replies);
      t.err.None? ==> SentTexts(t.events) == Sends(steps)
  {
    RunStepsFollowsPlan(steps, replies);
    var t := RunSteps(steps, replies);
    PlannedWaitsSucceed(steps);
    if t.err.Some? {
      var n := |t.events|;
      forall k, j | 0 <= j < k < n && t.events[k].Sent? && t.events[j].Waited?
        ensures t.events[j].outcome.None?
      {
        assert t.events[j] == t.events[..n - 1][j] == Planned(steps)[j];
      }
    } else {
      PlannedSends(steps);
    }
  }

  lemma {:induction false} PlannedWaitsSucceed(steps: seq<Step>)
    ensures forall j :: 0 <= j < |steps| && Planned(steps)[j].Waited? ==> Planned(steps)[j].outcome.None?
  {
    if steps != [] {
      PlannedWaitsSucceed(steps[1..]);
      assert forall j :: 0 < j < |steps| ==> Planned(steps)[j] == Planned(steps[1..])[j - 1];
    }
  }

  lemma {:induction false} PlannedSends(steps: seq<Step>)
    ensures SentTexts(Planned(steps)) == Sends(steps)
  {
    if steps != [] {
      PlannedSends(steps[1..]);
      var p := Planned(steps);
      assert p[1..] == Planned(steps[1..]);
    }
  }

  /** Continues a run with more steps: a run that already failed stays as it
      is, otherwise the steps run on the replies it left and their transcript
      follows its own. */
  function Then(t: Trace, steps: seq<Step>): Trace
  {
    if t.err.Some? then t
    else
      var u := RunSteps(steps, t.rest);
      Trace(t.events + u.events, u.err, u.rest)
  }

  /** Running `a` then `b` is running `a + b`: if `a` fails, `b` never runs;
      otherwise `b` continues on the replies `a` left. */
  lemma {:induction false} RunStepsAppend(a: seq<Step>, b: seq<Step>, replies: seq<Reply>)
    ensures RunSteps(a + b, replies) == Then(RunSteps(a, replies), b)
    decreases |a|
  {
    if a == [] {
      assert a + b == b;
    } else {
      assert (a + b)[1..] == a[1..] + b;
      match a[0]
      case SendText(_) =>
        RunStepsAppend(a[1..], b, replies);
      case Wait(_, _) =>
        RunStepsAppend(a[1..], b, Rest(replies));
    }
  }

  /** Once a prefix of a batch has failed, nothing after it runs: the whole
      batch ends exactly as that prefix did. */
  lemma FailedPrefixDecides(done: seq<Step>, all: seq<Step>, replies: seq<Reply>)
    requires done <= all && RunSteps(done, replies).err.Some?
    ensures RunSteps(all, replies) == RunSteps(done, replies)
  {
    assert all == done + all[|done|..];
    RunStepsAppend(done, all[|done|..], replies);
  }

  lemma {:induction false} SentTextsAppend(a: seq<Event>, b: seq<Event>)
    ensures SentTexts(a + b) == SentTexts(a) + SentTexts(b)
  {
    if a == [] {
      assert a + b == b;
    } else {
      assert (a + b)[1..] == a[1..] + b;
      SentTextsAppend(a[1..], b);
    }
  }

  lemma {:induction false} SendsAppend(a: seq<Step>, b: seq<Step>)
    ensures Sends(a + b) == Sends(a) + Sends(b)
  {
    if a == [] {
      assert a + b == b;
    } else {
      assert (a + b)[1..] == a[1..] + b;
      SendsAppend(a[1..], b);
    }
  }

  lemma ConcatAssociates(a: seq<Event>, b: seq<Event>, c: seq<Event>)
    ensures a + b + c == a + (b + c)
  {
  }

  /** The goexpect session `e` of main.go: the device's remaining replies and
      the transcript so far. */
  class Console {
    var replies: seq<Reply>
    var transcript: seq<Event>

    constructor (script: seq<Reply>)
      ensures replies == script && transcript == []
    {
      replies := script;
      transcript := [];
    }

    /** The console now shows the effect of running the steps that produced
        `t`, starting from the transcript `before`. */
    ghost predicate Shows(before: seq<Event>, t: Trace)
      reads this
    {
      replies == t.rest && transcript == before + t.events
    }

    /** `ExpectSwitchCase`: one wait on several cases, answered by the next
        reply. */
    method ExpectSwitchCase(cases: seq<Case>, timeout: Seconds) returns (err: Option<Error>)
      modifies this
      ensures err == Outcome(cases, Next(old(replies)))
      ensures replies == Rest(old(replies))
      ensures transcript == old(transcript) + [Waited(Patterns(cases), err)]
      ensures Shows(old(transcript), RunSteps([Wait(cases, timeout)], old(replies)))
    {
      assert [Wait(cases, timeout)][1..] == [];
      err := Outcome(cases, Next(replies));
      transcript := transcript + [Waited(Patterns(cases), err)];
      replies := Rest(replies);
    }

    /** `Expect`: a wait on a single pattern; it succeeds exactly when the
        reply is that pattern's match. */
    method Expect(pattern: string, timeout: Seconds) returns (err: Option<Error>)
      modifies this
      ensures err.None? <==> Next(old(replies)) == Matched(0)
      ensures Shows(old(transcript), RunSteps([Exp(pattern, timeout)], old(replies)))
      ensures err == RunSteps([Exp(pattern, timeout)], old(replies)).err
    {
      assert [Exp(pattern, timeout)][1..] == [];
      err := ExpectSwitchCase([Case(pattern, OK)], timeout);
    }

    /** `Send`: the text goes to the device as it is. */
    method Send(text: string)
      modifies this
      ensures replies == old(replies) && transcript == old(transcript) + [Sent(text)]
      ensures Shows(old(transcript), RunSteps([SendText(text)], old(replies)))
    {
      assert [SendText(text)][1..] == [];
      transcript := transcript + [Sent(text)];
    }

    /** `ExpectBatch`: the steps in order, stopping at the first wait that
        fails. */
    method ExpectBatch(steps: seq<Step>) returns (err: Option<Error>)
      modifies this
      ensures err == RunSteps(steps, old(replies)).err
      ensures Shows(old(transcript), RunSteps(steps, old(replies)))
    {
      var i := 0;
      ghost var done: seq<Event> := [];
      while i < |steps|
        invariant 0 <= i <= |steps|
        invariant transcript == old(transcript) + done
        invariant var t := RunSteps(steps[i..], replies);
          RunSteps(steps, old(replies)) == Trace(done + t.events, t.err, t.rest)
      {
        ghost var r, d0 := replies, done;
        assert steps[i..][0] == steps[i] && steps[i..][1..] == steps[i + 1..];
        match steps[i] {
          case SendText(text) =>
            ghost var u := RunSteps(steps[i + 1..], r);
            assert RunSteps(steps[i..], r) == Trace([Sent(text)] + u.events, u.err, u.rest);
            Send(text);
            done := done + [Sent(text)];
            ConcatAssociates(old(transcript), d0, [Sent(text)]);
            ConcatAssociates(d0, [Sent(text)], u.events);
          case Wait(cases, timeout) =>
            err := ExpectSwitchCase(cases, timeout);
            if err.Some? {
              assert RunSteps(steps[i..], r) == Trace([Waited(Patterns(cases), err)], err, Rest(r));
              done := done + [Waited(Patterns(cases), err)];
              ConcatAssociates(old(transcript), d0, [Waited(Patterns(cases), err)]);
              return;
            }
            ghost var u := RunSteps(steps[i + 1..], Rest(r));
            assert RunSteps(steps[i..], r) == Trace([Waited(Patterns(cases), None)] + u.events, u.err, u.rest);
            done := done + [Waited(Patterns(cases), err)];
            ConcatAssociates(old(transcript), d0, [Waited(Patterns(cases), err)]);
            ConcatAssociates(d0, [Waited(Patterns(cases), None)], u.events);
        }
        i := i + 1;
      }
      err := None;
    }
  }
}
