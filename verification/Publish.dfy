/** The parent and the worker process of one pack or extraction, joined by pipes. */
module Publish {
  import opened Common
  import Frames

  type Path = string

  /** What the worker tells the parent; `Note` stands for phases, progress and warnings. */
  datatype Event =
    | Note
    | TemporaryArtifact(path: Path)
    | CommitStarted
    | Committed
    | MutationStarted
    | Mounted
    | Succeeded
    | Failed(cancelled: bool)

  datatype Verdict = Success | CancelledReport | ErrorReport

  // ---------- The event loop of the parent ----------

  datatype Reaction = Continue(committed: bool, protect: bool) | Stop(verdict: Verdict)

  function React(expected: Option<Path>, committed: bool, event: Event): Reaction {
    match event
    case Note => Continue(committed, false)
    case TemporaryArtifact(path) => if expected == Some(path) then Continue(committed, false) else Stop(ErrorReport)
    case CommitStarted => Continue(committed, true)
    case MutationStarted => Continue(committed, true)
    case Committed => Continue(true, false)
    case Mounted => Stop(ErrorReport)
    case Succeeded => Stop(Success)
    case Failed(cancelled) => Stop(if cancelled then CancelledReport else ErrorReport)
  }

  /** The verdict on what was read before the pipe ended, cleanly or not. */
  function Judge(expected: Option<Path>, committed: bool, events: seq<Event>, clean: bool): Verdict
    decreases |events|
  {
    if events == [] then (if committed && clean then Success else ErrorReport)
    else match React(expected, committed, events[0])
      case Stop(verdict) => verdict
      case Continue(now, _) => Judge(expected, now, events[1..], clean)
  }

  /** Events that end the loop: a report, a mount, or an artifact that the parent does not expect. */
  predicate Ends(expected: Option<Path>, e: Event) {
    e.Succeeded? || e.Failed? || e.Mounted? || (e.TemporaryArtifact? && expected != Some(e.path))
  }

  predicate Ended(expected: Option<Path>, events: seq<Event>) {
    exists i :: 0 <= i < |events| && Ends(expected, events[i])
  }

  /** Events that do not end the loop only decide whether a commit was acknowledged. */
  lemma {:induction false} JudgeRest(expected: Option<Path>, committed: bool, events: seq<Event>, n: nat, clean: bool)
    requires n <= |events| && !Ended(expected, events[..n])
    ensures Judge(expected, committed, events, clean) ==
            Judge(expected, committed || Committed in events[..n], events[n..], clean)
    decreases n
  {
    if n == 0 {
      assert events[0..] == events;
    } else {
      assert !Ends(expected, events[..n][0]);
      assert events[..n] == [events[0]] + events[1..][..n - 1];
      assert events[1..][n - 1..] == events[n..];
      var rest := events[1..][..n - 1];
      forall i | 0 <= i < |rest| ensures !Ends(expected, rest[i]) {
        assert !Ends(expected, events[..n][i + 1]);
      }
      JudgeRest(expected, React(expected, committed, events[0]).committed, events[1..], n - 1, clean);
    }
  }

  /** Once the loop has ended, later events and the way the pipe closes do not matter. */
  lemma {:induction false} JudgeStable(expected: Option<Path>, committed: bool, events: seq<Event>, later: seq<Event>,
                                       clean: bool, clean': bool)
    requires Ended(expected, events)
    ensures Judge(expected, committed, events + later, clean') == Judge(expected, committed, events, clean)
    ensures Ended(expected, events + later)
    decreases |events|
  {
    var i :| 0 <= i < |events| && Ends(expected, events[i]);
    assert Ends(expected, (events + later)[i]);
    assert (events + later)[1..] == events[1..] + later;
    if !Ends(expected, events[0]) {
      assert Ends(expected, events[1..][i - 1]);
      JudgeStable(expected, React(expected, committed, events[0]).committed, events[1..], later, clean, clean');
    }
  }

  /** What a verdict says about the events it was reached on. */
  lemma {:induction false} JudgeMeans(expected: Option<Path>, committed: bool, events: seq<Event>, clean: bool)
    ensures Judge(expected, committed, events, clean) == Success ==>
              Succeeded in events || ((committed || Committed in events) && clean)
    ensures Judge(expected, committed, events, clean) == CancelledReport ==> Failed(true) in events
    decreases |events|
  {
    if events != [] {
      assert events == [events[0]] + events[1..];
      if !Ends(expected, events[0]) {
        JudgeMeans(expected, React(expected, committed, events[0]).committed, events[1..], clean);
      }
    }
  }

  /** Without a failure report or an unexpected artifact, success is reported exactly for an acknowledged commit. */
  lemma {:induction false} JudgeSuccess(expected: Option<Path>, committed: bool, events: seq<Event>, clean: bool)
    requires forall e :: e in events ==> !Ends(expected, e) || e == Succeeded
    ensures Judge(expected, committed, events, clean) == Success <==>
            Succeeded in events || ((committed || Committed in events) && clean)
    decreases |events|
  {
    if events != [] {
      assert events == [events[0]] + events[1..];
      assert events[0] in events;
      if events[0] != Succeeded {
        JudgeSuccess(expected, React(expected, committed, events[0]).committed, events[1..], clean);
      }
    }
  }

  /** `e` is the first event that ends the loop. */
  ghost predicate EndsWith(expected: Option<Path>, events: seq<Event>, e: Event) {
    exists i :: EndsAt(expected, events, e, i)
  }

  ghost predicate EndsAt(expected: Option<Path>, events: seq<Event>, e: Event, i: int) {
    0 <= i < |events| && events[i] == e && Ends(expected, e) && !Ended(expected, events[..i])
  }

  /**
   What the user is told: cancelled if the first event that ends the loop reports a cancellation, success if it reports
   one or if there is none and a commit was acknowledged before a clean end, an error in every other case.
   */
  ghost predicate Tells(expected: Option<Path>, events: seq<Event>, clean: bool, verdict: Verdict) {
    && (verdict == CancelledReport <==> EndsWith(expected, events, Failed(true)))
    && (verdict == Success <==>
          EndsWith(expected, events, Succeeded) || (!Ended(expected, events) && Committed in events && clean))
  }

  /** Adding an event in front. */
  lemma EndsWithStep(expected: Option<Path>, events: seq<Event>, e: Event)
    requires events != []
    ensures EndsWith(expected, events, e) <==>
            if Ends(expected, events[0]) then events[0] == e else EndsWith(expected, events[1..], e)
  {
    if EndsWith(expected, events, e) {
      var i :| EndsAt(expected, events, e, i);
      EndsAtStep(expected, events, e, i);
    }
    if EndsWith(expected, events[1..], e) {
      var i :| EndsAt(expected, events[1..], e, i);
      EndsAtStep(expected, events, e, i + 1);
    }
    EndsAtStep(expected, events, e, 0);
  }

  lemma EndsAtStep(expected: Option<Path>, events: seq<Event>, e: Event, i: nat)
    requires events != []
    ensures EndsAt(expected, events, e, i) <==>
            if i == 0 then Ends(expected, events[0]) && events[0] == e
            else !Ends(expected, events[0]) && EndsAt(expected, events[1..], e, i - 1)
  {
    if 0 < i <= |events| {
      EndedStep(expected, events[..i]);
      assert events[..i][1..] == events[1..][..i - 1];
    }
  }

  lemma EndedStep(expected: Option<Path>, events: seq<Event>)
    requires events != []
    ensures Ended(expected, events) <==> Ends(expected, events[0]) || Ended(expected, events[1..])
  {
    if Ended(expected, events) && !Ends(expected, events[0]) {
      var i :| 0 <= i < |events| && Ends(expected, events[i]);
      assert Ends(expected, events[1..][i - 1]);
    }
    if Ended(expected, events[1..]) {
      var i :| 0 <= i < |events[1..]| && Ends(expected, events[1..][i]);
      assert Ends(expected, events[i + 1]);
    }
  }

  /** The loop tells the user exactly this, on any events. */
  lemma JudgeTells(expected: Option<Path>, events: seq<Event>, clean: bool)
    ensures Tells(expected, events, clean, Judge(expected, false, events, clean))
  {
    JudgeTellsFrom(expected, false, events, clean);
  }

  lemma {:induction false} JudgeTellsFrom(expected: Option<Path>, committed: bool, events: seq<Event>, clean: bool)
    ensures Judge(expected, committed, events, clean) == CancelledReport <==> EndsWith(expected, events, Failed(true))
    ensures Judge(expected, committed, events, clean) == Success <==>
            EndsWith(expected, events, Succeeded) || (!Ended(expected, events) && (committed || Committed in events) && clean)
    decreases |events|
  {
    if events != [] {
      EndsWithStep(expected, events, Failed(true));
      EndsWithStep(expected, events, Succeeded);
      EndedStep(expected, events);
      assert events == [events[0]] + events[1..];
      if !Ends(expected, events[0]) {
        JudgeTellsFrom(expected, React(expected, committed, events[0]).committed, events[1..], clean);
      }
    }
  }

  /** A commit or a mutation is announced before the loop ends. */
  ghost predicate Announces(expected: Option<Path>, events: seq<Event>) {
    exists i :: AnnouncedAt(expected, events, i)
  }

  ghost predicate AnnouncedAt(expected: Option<Path>, events: seq<Event>, i: int) {
    0 <= i < |events| && (events[i] == CommitStarted || events[i] == MutationStarted) && !Ended(expected, events[..i])
  }

  /** What the loop knows while it goes on. */
  ghost predicate Hearing(expected: Option<Path>, committed: bool, heard: seq<Event>) {
    !Ended(expected, heard) && (committed <==> Committed in heard)
  }

  /** The verdict when nothing more comes. */
  lemma JudgeEnd(expected: Option<Path>, committed: bool, heard: seq<Event>, clean: bool)
    requires Hearing(expected, committed, heard)
    ensures Judge(expected, false, heard, clean) == if committed && clean then Success else ErrorReport
  {
    assert heard[..|heard|] == heard && heard[|heard|..] == [];
    JudgeRest(expected, false, heard, |heard|, clean);
  }

  lemma EndedPrefix(expected: Option<Path>, events: seq<Event>, n: nat, i: nat)
    ensures n < i <= |events| && Ends(expected, events[n]) ==> Ended(expected, events[..i])
  {
    if n < i <= |events| && Ends(expected, events[n]) {
      assert Ends(expected, events[..i][n]);
    }
  }

  lemma AnnouncedInPart(expected: Option<Path>, heard: seq<Event>, later: seq<Event>, i: nat)
    requires i < |heard|
    ensures AnnouncedAt(expected, heard + later, i) <==> AnnouncedAt(expected, heard, i)
  {
    assert (heard + later)[..i] == heard[..i] && (heard + later)[i] == heard[i];
  }

  lemma AnnouncesMore(expected: Option<Path>, heard: seq<Event>, later: seq<Event>)
    requires Ended(expected, heard)
    ensures Announces(expected, heard) <==> Announces(expected, heard + later)
  {
    if Announces(expected, heard) {
      var i :| AnnouncedAt(expected, heard, i);
      AnnouncedInPart(expected, heard, later, i);
    }
    if Announces(expected, heard + later) {
      var i :| AnnouncedAt(expected, heard + later, i);
      var n :| 0 <= n < |heard| && Ends(expected, heard[n]);
      assert (heard + later)[n] == heard[n];
      EndedPrefix(expected, heard + later, n, i);
      AnnouncedInPart(expected, heard, later, i);
    }
  }

  lemma AnnouncesSnoc(expected: Option<Path>, heard: seq<Event>, event: Event)
    requires !Ended(expected, heard)
    ensures Announces(expected, heard + [event]) <==>
            Announces(expected, heard) || event == CommitStarted || event == MutationStarted
  {
    assert (heard + [event])[..|heard|] == heard;
    assert AnnouncedAt(expected, heard + [event], |heard|) <==> event == CommitStarted || event == MutationStarted;
    if Announces(expected, heard) {
      var i :| AnnouncedAt(expected, heard, i);
      AnnouncedInPart(expected, heard, [event], i);
    }
    if Announces(expected, heard + [event]) {
      var i :| AnnouncedAt(expected, heard + [event], i);
      if i < |heard| { AnnouncedInPart(expected, heard, [event], i); }
    }
  }

  /** One more event. */
  lemma HearOne(expected: Option<Path>, committed: bool, heard: seq<Event>, event: Event)
    requires Hearing(expected, committed, heard)
    ensures Announces(expected, heard + [event]) <==>
            Announces(expected, heard) || event == CommitStarted || event == MutationStarted
    ensures match React(expected, committed, event)
            case Continue(now, _) => Hearing(expected, now, heard + [event])
            case Stop(v) => Ended(expected, heard + [event]) && forall clean :: Judge(expected, false, heard + [event], clean) == v
  {
    var more := heard + [event];
    assert more[..|heard|] == heard && more[|heard|..] == [event];
    AnnouncesSnoc(expected, heard, event);
    forall clean | true
      ensures Judge(expected, false, more, clean) == Judge(expected, committed, [event], clean)
    {
      JudgeRest(expected, false, more, |heard|, clean);
    }
    if Ends(expected, event) {
      assert Ends(expected, more[|heard|]);
    } else {
      forall i | 0 <= i < |more| ensures !Ends(expected, more[i]) {
        if i < |heard| { assert !Ends(expected, heard[i]); }
      }
    }
  }

  /** The invariant of the loop: also whether a commit was announced. */
  ghost predicate Listening(expected: Option<Path>, committed: bool, heard: seq<Event>, was: bool, protected: bool) {
    Hearing(expected, committed, heard) && (protected <==> was || Announces(expected, heard))
  }

  lemma ListeningOn(expected: Option<Path>, committed: bool, heard: seq<Event>, event: Event, was: bool, protected: bool)
    requires Listening(expected, committed, heard, was, protected)
    ensures match React(expected, committed, event)
            case Continue(now, protect) => Listening(expected, now, heard + [event], was, protected || protect)
            case Stop(v) =>
              && Ended(expected, heard + [event]) && Judge(expected, false, heard + [event], false) == v
              && (protected <==> was || Announces(expected, heard + [event]))
  {
    HearOne(expected, committed, heard, event);
  }

  /** Once the loop has stopped, the rest of the stream does not matter. */
  lemma JudgeStopped(expected: Option<Path>, heard: seq<Event>, stream: Frames.Drained<Event>)
    requires Ended(expected, heard) && heard <= stream.values
    ensures Judge(expected, false, stream.values, stream.clean) == Judge(expected, false, heard, false) == Judge(expected, false, heard, true)
    ensures Announces(expected, stream.values) <==> Announces(expected, heard)
  {
    var later := stream.values[|heard|..];
    assert stream.values == heard + later;
    JudgeStable(expected, false, heard, later, false, stream.clean);
    JudgeStable(expected, false, heard, later, true, stream.clean);
    AnnouncesMore(expected, heard, later);
  }

  datatype ParentCommand = Cancel | Unmount

  class OperationHandle {
    const expected: Option<Path>
    /** No system call of the parent fails without a reason. */
    const working: bool
    var cancelling: bool
    var protected: bool
    var inputOpen: bool
    var commands: seq<ParentCommand>
    var killed: bool
    /** What exists on disk, as far as the parent can see it. */
    var files: set<Path>
    ghost var finished: Option<Verdict>

    constructor (expected: Option<Path>, files: set<Path>, working: bool)
      ensures this.expected == expected && this.files == files && this.working == working && finished == None
      ensures !cancelling && !protected && inputOpen && commands == [] && !killed
    {
      this.expected, this.files, this.working := expected, files, working;
      cancelling, protected, inputOpen, commands, killed, finished := false, false, true, [], false, None;
    }

    /** `force_close` kills without a look at `protected`. */
    method ForceClose()
      modifies this`killed
      ensures killed
    {
      killed := true;
    }

    /** Removes the expected artifact if it can, and nothing else. */
    method CleanupExpected() returns (removed: bool)
      modifies this`files
      ensures files == if removed && expected.Some? then old(files) - {expected.value} else old(files)
      ensures working ==> removed
    {
      var fail := Disturbed(working);
      removed := !fail;
      if removed && expected.Some? {
        files := files - {expected.value};
      }
    }

    /** At most one cancel command was sent. */
    ghost predicate OneCancel()
      reads this
    {
      commands == [] || (commands == [Cancel] && cancelling)
    }

    /** The event thread may announce the commit and close the command pipe at any time. */
    method EventThread()
      modifies this`protected, this`inputOpen
      ensures old(protected) ==> protected
      ensures inputOpen ==> old(inputOpen)
    {
      var announce: bool, close: bool := *, *;
      protected, inputOpen := protected || announce, inputOpen && !close;
    }

    /**
     At most one cancel command is ever sent, and none by a call that finds the commit announced.  The event thread runs
     between the steps, so a command can still follow an announcement that arrives during the call.  The first call that
     finds no announcement writes the command unless the pipe was closed or the write fails.
     */
    method RequestCancel() returns (r: Result<bool>)
      requires OneCancel()
      modifies this`cancelling, this`commands, this`protected, this`inputOpen
      ensures OneCancel() && (old(protected) ==> protected) && (inputOpen ==> old(inputOpen))
      ensures old(protected) ==> r == Ok(false) && cancelling == old(cancelling) && commands == old(commands)
      ensures !old(protected) ==> cancelling
      ensures !old(protected) && old(cancelling) ==> r == Ok(true) && commands == old(commands)
      ensures !old(protected) && !old(cancelling) && r.Ok? ==> r == Ok(false) && commands == old(commands) + [Cancel]
      ensures r.Err? ==> r == Err(Io) && commands == old(commands)
      ensures r.Err? ==> !old(protected) && !old(cancelling) && !(working && inputOpen)
    {
      if protected {
        return Ok(false);
      }
      EventThread();
      var before := cancelling;
      cancelling := true;
      if before {
        return Ok(true);
      }
      EventThread();
      var broken := Disturbed(working);
      if !inputOpen || broken {
        return Err(Io);
      }
      commands := commands + [Cancel];
      r := Ok(false);
    }

    /**
     The loop of `run_events` over the byte stream of the worker, then the closing of the command pipe.  `heard` is what was
     read, all of the stream if `clean`; a failing read ends the loop like a torn stream.
     */
    method RunEvents(source: Frames.ByteSource, decode: seq<byte> -> Option<Event>)
      returns (verdict: Verdict, ghost heard: seq<Event>, ghost clean: bool)
      modifies this, source
      ensures Frames.Heard(Frames.Drain(decode, old(source.rest)), heard, clean)
      ensures verdict == Judge(expected, false, heard, clean) && Tells(expected, heard, clean, verdict)
      ensures !clean && !Ended(expected, heard) ==> verdict == ErrorReport
      ensures protected <==> old(protected) || Announces(expected, heard)
      ensures source.reliable ==> var stream := Frames.Drain(decode, old(source.rest));
        && verdict == Judge(expected, false, stream.values, stream.clean) && Tells(expected, stream.values, stream.clean, verdict)
        && (protected <==> old(protected) || Announces(expected, stream.values))
      ensures !inputOpen && finished == Some(verdict) && cancelling == old(cancelling) && commands == old(commands)
      ensures verdict == Success ==> files == old(files) && killed == old(killed)
      ensures verdict != Success ==> killed && files <= old(files) && forall p :: p in old(files) - files ==> Some(p) == expected
      ensures verdict != Success && working && expected.Some? ==> expected.value !in files
    {
      ghost var stream := Frames.Drain(decode, source.rest);
      verdict, heard, clean := ReadEvents(source, decode);
      JudgeTells(expected, heard, clean);
      JudgeTells(expected, stream.values, stream.clean);
      if Ended(expected, heard) {
        JudgeStopped(expected, heard, stream);
      }
      if verdict != Success {
        killed := true;
        var removed := CleanupExpected();
      }
      inputOpen := false;
      finished := Some(verdict);
    }

    /** The loop over the events. */
    method ReadEvents(source: Frames.ByteSource, decode: seq<byte> -> Option<Event>)
      returns (verdict: Verdict, ghost heard: seq<Event>, ghost clean: bool)
      modifies this`protected, source
      ensures Frames.Heard(Frames.Drain(decode, old(source.rest)), heard, clean)
      ensures verdict == Judge(expected, false, heard, clean)
      ensures !clean && !Ended(expected, heard) ==> verdict == ErrorReport
      ensures protected <==> old(protected) || Announces(expected, heard)
      ensures source.reliable ==> Ended(expected, heard) || Frames.Drain(decode, old(source.rest)) == Frames.Drained(heard, clean)
    {
      var committed := false;
      ghost var stream := Frames.Drain(decode, source.rest);
      heard, clean := [], false;
      while true
        invariant Listening(expected, committed, heard, old(protected), protected)
        invariant Frames.Ahead(stream, heard, Frames.Drain(decode, source.rest))
        decreases |source.rest|
      {
        var next := Frames.Hear(source, decode, stream, heard);
        if next.Err? {
          JudgeEnd(expected, committed, heard, false);
          return ErrorReport, heard, false;
        }
        if next.value.None? {
          JudgeEnd(expected, committed, heard, true);
          return if committed then Success else ErrorReport, heard, true;
        }
        var event := next.value.value;
        ListeningOn(expected, committed, heard, event, old(protected), protected);
        heard := heard + [event];
        match React(expected, committed, event) {
          case Stop(v) =>
            return v, heard, false;
          case Continue(now, protect) =>
            committed := now;
            if protect {
              protected := true;
            }
        }
      }
    }
  }

  /** `heard` as far as the receiver of unmount commands was there: what the commands say to the operation. */
  ghost predicate Obeyed(heard: seq<ParentCommand>, cancelled: bool, unmounts: nat) {
    && (cancelled <==> Cancel in heard)
    && unmounts == multiset(heard)[Unmount]
  }

  /**
   The command thread of the worker: it ends when the parent's pipe ends or fails, and that cancels the operation like a
   command; only a lost receiver of unmount commands ends it otherwise, and `receiver` says that it is there.
   */
  method ReadCommands(source: Frames.ByteSource, decode: seq<byte> -> Option<ParentCommand>, receiver: bool)
    returns (cancelled: bool, unmounts: nat, lost: bool, ghost heard: seq<ParentCommand>)
    modifies source
    ensures Frames.Heard(Frames.Drain(decode, old(source.rest)), heard, false)
    ensures lost ==> Obeyed(heard, cancelled, unmounts) && Unmount in heard
    ensures receiver ==> !lost
    ensures !lost ==> cancelled && unmounts == multiset(heard)[Unmount] + 1
    ensures !lost && source.reliable ==> heard == Frames.Drain(decode, old(source.rest)).values
  {
    ghost var stream := Frames.Drain(decode, source.rest);
    cancelled, unmounts, lost, heard := false, 0, false, [];
    while true
      invariant Obeyed(heard, cancelled, unmounts) && !lost
      invariant Frames.Ahead(stream, heard, Frames.Drain(decode, source.rest))
      decreases |source.rest|
    {
      var next := Frames.Hear(source, decode, stream, heard);
      if next.Err? || next.value.None? {
        return true, unmounts + 1, false, heard;
      }
      heard := heard + [next.value.value];
      match next.value.value {
        case Cancel =>
          cancelled := true;
        case Unmount =>
          lost := Disturbed(receiver);
          unmounts := unmounts + 1;
          if lost {
            return;
          }
      }
    }
  }

  // ---------- The two processes ----------

  datatype Content = Theirs | Partial | Whole

  /** How far the worker is. */
  datatype Stage = Idle | Building | Built | Announced | Renamed | Acknowledged | Failing(cancelled: bool) | Done(ok: bool)

  datatype Parent = Reading(committed: bool) | Decided(verdict: Verdict) | Killed(verdict: Verdict) | Finished(verdict: Verdict)

  /** How far a thread inside `request_cancel` is: it found no announcement, or it is about to write the command. */
  datatype Ask = Checked | Sending

  /** The output and the private sibling that the parent chose for this operation. */
  datatype Config = Config(output: Path, temporary: Path, expected: Option<Path>)

  datatype Sys = Sys(
    stage: Stage, alive: bool, cancelled: bool, disk: map<Path, Content>,
    sent: seq<Event>, torn: bool, read: nat,
    commands: nat, inputClosed: bool, cancelling: bool, protected: bool, parent: Parent, cleaned: bool, asks: map<nat, Ask>)

  datatype Action =
    // worker
    | SendNote | SendArtifact | Create | Finish | Fail(byCancel: bool, removed: bool)
    | StartCommit(delivered: bool) | Rename | Acknowledge(delivered: bool) | Report(delivered: bool) | Exit | ReadCommand
    // either process killed the worker, or it crashed
    | Die(tearing: bool)
    // parent
    | CheckProtected(thread: nat) | SwapCancelling(thread: nat) | SendCancel(thread: nat, delivered: bool)
    | ReadEvent | ReadEnd | Kill | Clean(removed: bool) | Leave
    // somebody else
    | Occupy

  ghost predicate GoodConfig(c: Config) {
    c.temporary != c.output && c.expected != Some(c.output)
  }

  ghost predicate Installed(c: Config, s: Sys) {
    c.output in s.disk && s.disk[c.output] == Whole
  }

  predicate CanWork(c: Config, s: Sys, a: Action) {
    s.alive &&
    match a
    case SendNote => !s.stage.Done?
    case SendArtifact => s.stage == Building
    case Create => s.stage == Idle && c.temporary !in s.disk
    case Finish => s.stage == Building
    case Fail(byCancel, _) =>
      && (s.stage == Idle || s.stage == Building || s.stage == Built || s.stage == Announced)
      && (byCancel ==> s.cancelled && s.stage != Announced)
    case StartCommit(_) => s.stage == Built
    case Rename => s.stage == Announced && c.temporary in s.disk && c.output !in s.disk
    case Acknowledge(_) => s.stage == Renamed
    case Report(_) => s.stage == Acknowledged || s.stage.Failing?
    case Exit => s.stage.Done?
    case ReadCommand => s.commands > 0 || s.inputClosed
    case Die(_) => true
    case _ => false
  }

  function NextStage(s: Sys, a: Action): Stage {
    match a
    case Create => Building
    case Finish => Built
    case Fail(byCancel, _) => Failing(byCancel)
    case StartCommit(_) => Announced
    case Rename => Renamed
    case Acknowledge(_) => Acknowledged
    case Report(_) => Done(s.stage == Acknowledged)
    case _ => s.stage
  }

  function NextDisk(c: Config, s: Sys, a: Action): map<Path, Content>
    requires CanWork(c, s, a)
  {
    match a
    case Create => s.disk[c.temporary := Partial]
    case Finish => s.disk[c.temporary := Whole]
    case Fail(_, removed) => if removed then s.disk - {c.temporary} else s.disk
    case Rename => s.disk[c.output := s.disk[c.temporary]] - {c.temporary}
    case _ => s.disk
  }

  /** What the step puts into the pipe; a failed write is ignored by the worker. */
  function Said(c: Config, stage: Stage, a: Action): seq<Event> {
    match a
    case SendNote => [Note]
    case SendArtifact => [TemporaryArtifact(c.temporary)]
    case StartCommit(delivered) => if delivered then [CommitStarted] else []
    case Acknowledge(delivered) => if delivered then [Committed] else []
    case Report(delivered) =>
      if !delivered then [] else (match stage case Failing(byCancel) => [Failed(byCancel)] case _ => [Succeeded])
    case _ => []
  }

  function Work(c: Config, s: Sys, a: Action): Sys
    requires CanWork(c, s, a)
  {
    s.(stage := NextStage(s, a), disk := NextDisk(c, s, a), sent := s.sent + Said(c, s.stage, a),
       alive := a != Exit && !a.Die?, torn := a == Die(true), cancelled := s.cancelled || a == ReadCommand,
       commands := if a == ReadCommand && s.commands > 0 then s.commands - 1 else s.commands)
  }

  predicate CanControl(c: Config, s: Sys, a: Action) {
    match a
    case CheckProtected(t) => t !in s.asks
    case SwapCancelling(t) => t in s.asks && s.asks[t] == Checked
    case SendCancel(t, delivered) => t in s.asks && s.asks[t] == Sending && (delivered ==> !s.inputClosed)
    case ReadEvent => s.parent.Reading? && s.read < |s.sent|
    case ReadEnd => s.parent.Reading? && s.read == |s.sent| && !s.alive
    case Kill => s.parent.Decided? && s.parent.verdict != Success
    case Clean(_) => s.parent.Killed?
    case Leave => s.parent.Decided? && s.parent.verdict == Success && (s.inputClosed ==> !s.alive)
    case Occupy => c.output !in s.disk
    case _ => false
  }

  /** Cleanup names the expected artifact and nothing else; an outsider may take the output name. */
  function ControlDisk(c: Config, disk: map<Path, Content>, a: Action): map<Path, Content> {
    match a
    case Clean(removed) => if removed && c.expected.Some? then disk - {c.expected.value} else disk
    case Occupy => disk[c.output := Theirs]
    case _ => disk
  }

  function NextParent(c: Config, s: Sys, a: Action): Parent
    requires CanControl(c, s, a)
  {
    match a
    case ReadEvent =>
      (match React(c.expected, s.parent.committed, s.sent[s.read])
       case Stop(verdict) => Decided(verdict)
       case Continue(committed, _) => Reading(committed))
    case ReadEnd => Decided(if s.parent.committed && !s.torn then Success else ErrorReport)
    case Kill => Killed(s.parent.verdict)
    case Clean(_) => Finished(s.parent.verdict)
    case Leave => if s.inputClosed then Finished(Success) else s.parent
    case _ => s.parent
  }

  /** `request_cancel`, one access at a time, for any number of threads. */
  function NextAsks(s: Sys, a: Action): map<nat, Ask> {
    match a
    case CheckProtected(t) => if s.protected then s.asks else s.asks[t := Checked]
    case SwapCancelling(t) => if s.cancelling then s.asks - {t} else s.asks[t := Sending]
    case SendCancel(t, _) => s.asks - {t}
    case _ => s.asks
  }

  function Control(c: Config, s: Sys, a: Action): Sys
    requires CanControl(c, s, a)
  {
    s.(parent := NextParent(c, s, a), disk := ControlDisk(c, s.disk, a),
       read := if a == ReadEvent then s.read + 1 else s.read,
       protected := s.protected || (a == ReadEvent && s.sent[s.read] == CommitStarted),
       cancelling := s.cancelling || a.SwapCancelling?, asks := NextAsks(s, a),
       commands := if a.SendCancel? && a.delivered then s.commands + 1 else s.commands,
       inputClosed := s.inputClosed || a.Clean? || a == Leave,
       alive := s.alive && a != Kill, cleaned := if a.Clean? then a.removed else s.cleaned)
  }

  predicate Can(c: Config, s: Sys, a: Action) {
    CanWork(c, s, a) || CanControl(c, s, a)
  }

  function Do(c: Config, s: Sys, a: Action): Sys
    requires Can(c, s, a)
  {
    if CanWork(c, s, a) then Work(c, s, a) else Control(c, s, a)
  }

  /** A fresh private name, nothing sent, and at most somebody else's file at the output. */
  ghost predicate Initial(c: Config, s: Sys) {
    && s.stage == Idle && s.alive && !s.cancelled && s.sent == [] && !s.torn && s.read == 0
    && s.commands == 0 && !s.inputClosed && !s.cancelling && !s.protected && s.parent == Reading(false) && !s.cleaned && s.asks == map[]
    && c.temporary !in s.disk && (c.output in s.disk ==> s.disk[c.output] == Theirs)
  }

  ghost predicate Run(c: Config, states: seq<Sys>, actions: seq<Action>) {
    && |states| == |actions| + 1 && Initial(c, states[0])
    && forall i :: 0 <= i < |actions| ==> Can(c, states[i], actions[i]) && states[i + 1] == Do(c, states[i], actions[i])
  }

  // ---------- What every step keeps ----------

  predicate Past(stage: Stage) {
    stage == Renamed || stage == Acknowledged || stage == Done(true)
  }

  /** The disk: the output is somebody else's, or whole and installed by the rename. */
  ghost predicate DiskInv(c: Config, s: Sys) {
    && (c.output in s.disk ==> s.disk[c.output] == if Past(s.stage) then Whole else Theirs)
    && (Past(s.stage) ==> c.output in s.disk)
    && (s.alive && (s.stage == Built || s.stage == Announced) ==> c.temporary in s.disk && s.disk[c.temporary] == Whole)
  }

  /** The pipe: what each message says about the worker that sent it. */
  ghost predicate PipeInv(c: Config, s: Sys) {
    && (Committed in s.sent ==> s.stage == Acknowledged || s.stage == Done(true))
    && (Succeeded in s.sent ==> s.stage == Done(true))
    && (Failed(true) in s.sent ==> s.stage == Done(false) && CommitStarted !in s.sent)
    && (Failed(false) in s.sent ==> s.stage == Done(false) && Failed(true) !in s.sent)
    && (s.stage == Failing(true) ==> CommitStarted !in s.sent)
    && (CommitStarted in s.sent ==> s.stage != Idle && s.stage != Building && s.stage != Built)
    && MutationStarted !in s.sent && Mounted !in s.sent
    && (forall p :: TemporaryArtifact(p) in s.sent ==> p == c.temporary)
  }

  /** The parent while it reads: it knows exactly what its part of the stream says. */
  ghost predicate ReadInv(c: Config, s: Sys) {
    && s.read <= |s.sent|
    && (s.parent.Reading? ==> (s.parent.committed <==> Committed in s.sent[..s.read]) && !Ended(c.expected, s.sent[..s.read]))
    && (s.protected <==> CommitStarted in s.sent[..s.read])
  }

  /** The verdict is the one of the event loop on everything the worker ever said. */
  ghost predicate Judged(c: Config, s: Sys, v: Verdict) {
    v == Judge(c.expected, false, s.sent, !s.torn) && (!s.alive || Ended(c.expected, s.sent))
  }

  ghost predicate ParentInv(c: Config, s: Sys) {
    && (!s.parent.Reading? ==> Judged(c, s, s.parent.verdict))
    && (s.parent.Killed? ==> !s.alive)
    && (s.parent.Finished? ==> !s.alive)
    && (s.parent.Finished? && s.parent.verdict != Success && s.cleaned && c.expected.Some? ==> c.expected.value !in s.disk)
  }

  ghost predicate Inv(c: Config, s: Sys) {
    DiskInv(c, s) && PipeInv(c, s) && ReadInv(c, s) && ParentInv(c, s)
  }

  lemma InitialInv(c: Config, s: Sys)
    requires GoodConfig(c) && Initial(c, s)
    ensures Inv(c, s)
  {
  }

  lemma WorkKeepsDisk(c: Config, s: Sys, a: Action)
    requires GoodConfig(c) && DiskInv(c, s) && CanWork(c, s, a)
    ensures DiskInv(c, Work(c, s, a))
  {
  }

  lemma WorkKeepsPipe(c: Config, s: Sys, a: Action)
    requires PipeInv(c, s) && CanWork(c, s, a)
    ensures PipeInv(c, Work(c, s, a))
  {
    var said, t := Said(c, s.stage, a), Work(c, s, a);
    assert t.sent == s.sent + said && t.stage == NextStage(s, a);
    forall e: Event | true ensures e in t.sent <==> e in s.sent || e in said {
    }
  }

  lemma WorkKeepsRead(c: Config, s: Sys, a: Action)
    requires ReadInv(c, s) && CanWork(c, s, a)
    ensures ReadInv(c, Work(c, s, a))
  {
    assert (s.sent + Said(c, s.stage, a))[..s.read] == s.sent[..s.read];
  }

  lemma WorkKeepsParent(c: Config, s: Sys, a: Action)
    requires ParentInv(c, s) && CanWork(c, s, a)
    ensures ParentInv(c, Work(c, s, a))
  {
    if Ended(c.expected, s.sent) {
      JudgeStable(c.expected, false, s.sent, Said(c, s.stage, a), !s.torn, a != Die(true));
    }
  }

  /** The parent's own steps and the outsider's leave whatever is at the output. */
  lemma ControlDiskAtOutput(c: Config, disk: map<Path, Content>, a: Action)
    requires GoodConfig(c) && (a == Occupy ==> c.output !in disk)
    ensures c.output in disk ==> c.output in ControlDisk(c, disk, a) && ControlDisk(c, disk, a)[c.output] == disk[c.output]
    ensures c.output !in disk && c.output in ControlDisk(c, disk, a) ==> a == Occupy && ControlDisk(c, disk, a)[c.output] == Theirs
  {
  }

  lemma ControlKeepsDisk(c: Config, s: Sys, a: Action)
    requires GoodConfig(c) && DiskInv(c, s) && ParentInv(c, s) && CanControl(c, s, a)
    ensures DiskInv(c, Control(c, s, a))
  {
    var t := Control(c, s, a);
    assert t.disk == ControlDisk(c, s.disk, a) && t.stage == s.stage && (t.alive ==> s.alive);
    ControlDiskAtOutput(c, s.disk, a);
    if s.alive {
      assert !a.Clean?;
      if c.temporary in s.disk { ControlDiskAtTemporary(c, s.disk, a); }
    }
  }

  lemma ControlDiskAtTemporary(c: Config, disk: map<Path, Content>, a: Action)
    requires GoodConfig(c) && !a.Clean? && c.temporary in disk
    ensures c.temporary in ControlDisk(c, disk, a) && ControlDisk(c, disk, a)[c.temporary] == disk[c.temporary]
  {
  }

  lemma ControlKeepsPipe(c: Config, s: Sys, a: Action)
    requires PipeInv(c, s) && CanControl(c, s, a)
    ensures PipeInv(c, Control(c, s, a))
  {
  }

  /** What one more event adds to the part of the stream that was read. */
  lemma OneMore(expected: Option<Path>, sent: seq<Event>, read: nat)
    requires read < |sent|
    ensures var before, after, e := sent[..read], sent[..read + 1], sent[read];
      && (Committed in after <==> Committed in before || e == Committed)
      && (CommitStarted in after <==> CommitStarted in before || e == CommitStarted)
      && (Ended(expected, after) ==> Ended(expected, before) || Ends(expected, e))
  {
    var before, after := sent[..read], sent[..read + 1];
    assert after == before + [sent[read]];
    if Ended(expected, after) && !Ends(expected, sent[read]) {
      var i :| 0 <= i < |after| && Ends(expected, after[i]);
      assert i < read && before[i] == after[i];
    }
  }

  lemma ReadOne(c: Config, s: Sys)
    requires ReadInv(c, s) && CanControl(c, s, ReadEvent)
    ensures ReadInv(c, Control(c, s, ReadEvent))
  {
    OneMore(c.expected, s.sent, s.read);
  }

  lemma DecideOne(c: Config, s: Sys)
    requires ReadInv(c, s) && CanControl(c, s, ReadEvent) && Ends(c.expected, s.sent[s.read])
    ensures Judged(c, s, React(c.expected, s.parent.committed, s.sent[s.read]).verdict)
  {
    JudgeRest(c.expected, false, s.sent, s.read, !s.torn);
    assert s.sent[s.read..][0] == s.sent[s.read];
  }

  lemma DecideEnd(c: Config, s: Sys)
    requires ReadInv(c, s) && CanControl(c, s, ReadEnd)
    ensures Judged(c, s, if s.parent.committed && !s.torn then Success else ErrorReport)
  {
    JudgeRest(c.expected, false, s.sent, s.read, !s.torn);
    assert s.sent[s.read..] == [];
  }

  lemma ControlKeepsRead(c: Config, s: Sys, a: Action)
    requires ReadInv(c, s) && CanControl(c, s, a)
    ensures ReadInv(c, Control(c, s, a))
  {
    if a == ReadEvent { ReadOne(c, s); }
  }

  lemma ControlKeepsParent(c: Config, s: Sys, a: Action)
    requires GoodConfig(c) && ReadInv(c, s) && ParentInv(c, s) && CanControl(c, s, a)
    ensures ParentInv(c, Control(c, s, a))
  {
    if a == ReadEvent && Ends(c.expected, s.sent[s.read]) { DecideOne(c, s); }
    if a == ReadEnd { DecideEnd(c, s); }
  }

  lemma StepKeepsInv(c: Config, s: Sys, a: Action)
    requires GoodConfig(c) && Inv(c, s) && Can(c, s, a)
    ensures Inv(c, Do(c, s, a))
  {
    if CanWork(c, s, a) {
      WorkKeepsDisk(c, s, a);
      WorkKeepsPipe(c, s, a);
      WorkKeepsRead(c, s, a);
      WorkKeepsParent(c, s, a);
    } else {
      ControlKeepsDisk(c, s, a);
      ControlKeepsPipe(c, s, a);
      ControlKeepsRead(c, s, a);
      ControlKeepsParent(c, s, a);
    }
  }

  lemma {:induction false} RunKeepsInv(c: Config, states: seq<Sys>, actions: seq<Action>, k: nat)
    requires GoodConfig(c) && Run(c, states, actions) && k < |states|
    ensures Inv(c, states[k])
  {
    if k == 0 {
      InitialInv(c, states[0]);
    } else {
      RunKeepsInv(c, states, actions, k - 1);
      StepKeepsInv(c, states[k - 1], actions[k - 1]);
    }
  }

  // ---------- The guarantees ----------

  /**
   Over every interleaving of events, cancel requests, kills and crashes: the output is absent, somebody else's or
   whole; reported success means installed; reported cancellation means not installed.
   */
  lemma PublishSafe(c: Config, states: seq<Sys>, actions: seq<Action>, k: nat)
    requires GoodConfig(c) && Run(c, states, actions) && k < |states|
    ensures c.output in states[k].disk ==> states[k].disk[c.output] != Partial
    ensures states[k].parent == Finished(Success) ==> Installed(c, states[k])
    ensures states[k].parent == Finished(CancelledReport) ==> !Installed(c, states[k]) && !states[k].protected
  {
    RunKeepsInv(c, states, actions, k);
    var s := states[k];
    JudgeMeans(c.expected, false, s.sent, !s.torn);
    if s.protected {
      assert CommitStarted in s.sent[..s.read];
    }
  }

  /** Only the thread that set `cancelling` is about to write, and nobody once that one has written. */
  ghost predicate OneSender(s: Sys) {
    && (forall t :: t in s.asks && s.asks[t] == Sending ==> s.cancelling)
    && (forall t, u {:trigger s.asks[t], s.asks[u]} ::
          t in s.asks && u in s.asks && s.asks[t] == Sending && s.asks[u] == Sending ==> t == u)
  }

  ghost predicate NoSender(s: Sys) {
    s.cancelling && forall t :: t in s.asks ==> s.asks[t] == Checked
  }

  lemma StepKeepsSender(c: Config, s: Sys, a: Action)
    requires Can(c, s, a)
    ensures OneSender(s) ==> OneSender(Do(c, s, a))
    ensures OneSender(s) && a.SendCancel? ==> NoSender(Do(c, s, a))
    ensures NoSender(s) ==> NoSender(Do(c, s, a))
  {
    if CanWork(c, s, a) {
      assert Do(c, s, a).asks == s.asks && Do(c, s, a).cancelling == s.cancelling;
    } else {
      assert Do(c, s, a).asks == NextAsks(s, a);
    }
  }

  lemma {:induction false} SenderUnique(c: Config, states: seq<Sys>, actions: seq<Action>, k: nat)
    requires Run(c, states, actions) && k < |states|
    ensures OneSender(states[k])
    decreases k
  {
    if k > 0 {
      assert Can(c, states[k - 1], actions[k - 1]);
      SenderUnique(c, states, actions, k - 1);
      StepKeepsSender(c, states[k - 1], actions[k - 1]);
    }
  }

  lemma {:induction false} AfterSending(c: Config, states: seq<Sys>, actions: seq<Action>, i: nat, k: nat)
    requires Run(c, states, actions) && i < k < |states| && actions[i].SendCancel?
    ensures NoSender(states[k])
    decreases k
  {
    assert Can(c, states[k - 1], actions[k - 1]);
    StepKeepsSender(c, states[k - 1], actions[k - 1]);
    if k > i + 1 {
      AfterSending(c, states, actions, i, k - 1);
    } else {
      SenderUnique(c, states, actions, i);
    }
  }

  /** However many threads ask, and however often, at most one cancel command is written in a run. */
  lemma OneCancelCommand(c: Config, states: seq<Sys>, actions: seq<Action>, i: nat, k: nat)
    requires Run(c, states, actions) && i < |actions| && k < |actions| && actions[i].SendCancel? && actions[k].SendCancel?
    ensures i == k
  {
    assert Can(c, states[i], actions[i]) && Can(c, states[k], actions[k]);
    if i < k { AfterSending(c, states, actions, i, k); }
    if k < i { AfterSending(c, states, actions, k, i); }
  }

  /** What the parent reports is the verdict of its loop on the whole stream. */
  lemma ReportIsJudged(c: Config, states: seq<Sys>, actions: seq<Action>, k: nat)
    requires GoodConfig(c) && Run(c, states, actions) && k < |states| && states[k].parent.Finished?
    ensures states[k].parent.verdict == Judge(c.expected, false, states[k].sent, !states[k].torn)
  {
    RunKeepsInv(c, states, actions, k);
  }

  /** The bytes of the pipe: the whole frames, and part of one more if the worker was cut off while writing. */
  ghost predicate PipeBytes(encode: Event -> seq<byte>, s: Sys, bytes: seq<byte>) {
    exists next, k :: 0 <= k < |Frames.Frame(encode(next))| && |encode(next)| <= Frames.MAX_FRAME_SIZE && (k > 0 <==> s.torn)
      && bytes == Frames.FramesOf(encode, s.sent) + Frames.Frame(encode(next))[..k]
  }

  /** The verdict of the run is what the parent's loop, as code, returns on the bytes of the pipe. */
  lemma RunEventsReports(c: Config, states: seq<Sys>, actions: seq<Action>, k: nat,
                         encode: Event -> seq<byte>, decode: seq<byte> -> Option<Event>, bytes: seq<byte>)
    requires GoodConfig(c) && Run(c, states, actions) && k < |states| && states[k].parent.Finished?
    requires Frames.GoodCodec(encode, decode)
    requires forall i :: 0 <= i < |states[k].sent| ==> |encode(states[k].sent[i])| <= Frames.MAX_FRAME_SIZE
    requires PipeBytes(encode, states[k], bytes)
    ensures var stream := Frames.Drain(decode, bytes);
      Judge(c.expected, false, stream.values, stream.clean) == states[k].parent.verdict
  {
    ReportIsJudged(c, states, actions, k);
    var next, n :| 0 <= n < |Frames.Frame(encode(next))| && |encode(next)| <= Frames.MAX_FRAME_SIZE && (n > 0 <==> states[k].torn)
      && bytes == Frames.FramesOf(encode, states[k].sent) + Frames.Frame(encode(next))[..n];
    Frames.DrainCut(encode, decode, states[k].sent, next, n);
  }

  /** The worker's steps touch the output name only by the rename, and only when it is free. */
  lemma WorkDiskAtOutput(c: Config, s: Sys, a: Action)
    requires GoodConfig(c) && CanWork(c, s, a)
    ensures c.output in s.disk ==> c.output in NextDisk(c, s, a) && NextDisk(c, s, a)[c.output] == s.disk[c.output]
    ensures c.output !in s.disk && c.output in NextDisk(c, s, a) ==> a == Rename
  {
  }

  /**
   What is at the output stays there through every step of either process, and only the worker's rename, or an
   outsider, puts something there.
   */
  lemma OutputUntouched(c: Config, s: Sys, a: Action)
    requires GoodConfig(c) && Can(c, s, a)
    ensures c.output in s.disk ==> c.output in Do(c, s, a).disk && Do(c, s, a).disk[c.output] == s.disk[c.output]
    ensures c.output !in s.disk && c.output in Do(c, s, a).disk ==> a == Rename || a == Occupy
  {
    if CanWork(c, s, a) {
      WorkDiskAtOutput(c, s, a);
      assert Do(c, s, a).disk == NextDisk(c, s, a);
    } else {
      ControlDiskAtOutput(c, s.disk, a);
      assert Do(c, s, a).disk == ControlDisk(c, s.disk, a);
    }
  }

  /** When cleanup removes the expected artifact nothing private is left after a failure. */
  lemma NothingLeftBehind(c: Config, states: seq<Sys>, actions: seq<Action>, k: nat)
    requires GoodConfig(c) && Run(c, states, actions) && k < |states|
    requires states[k].parent.Finished? && states[k].parent.verdict != Success && states[k].cleaned
    requires c.expected == Some(c.temporary)
    ensures c.temporary !in states[k].disk
  {
    RunKeepsInv(c, states, actions, k);
  }

  ghost predicate AcknowledgedWhole(s: Sys) {
    Succeeded in s.sent || (Committed in s.sent && !s.torn)
  }

  /**
   An installed output is reported as a success exactly if the acknowledgement arrived whole: a success event, or a
   commit event not followed by a torn frame.
   */
  lemma InstalledReport(c: Config, states: seq<Sys>, actions: seq<Action>, k: nat)
    requires GoodConfig(c) && c.expected == Some(c.temporary)
    requires Run(c, states, actions) && k < |states| && states[k].parent.Finished? && Installed(c, states[k])
    ensures states[k].parent.verdict == Success <==> AcknowledgedWhole(states[k])
  {
    RunKeepsInv(c, states, actions, k);
    var s := states[k];
    forall e | e in s.sent ensures !Ends(c.expected, e) || e == Succeeded {
      assert e.Failed? ==> e == Failed(true) || e == Failed(false);
    }
    JudgeSuccess(c.expected, false, s.sent, !s.torn);
  }

  /** The worker failed by a cancellation, and its report went into the pipe. */
  ghost predicate CancelDelivered(states: seq<Sys>, actions: seq<Action>, k: nat) {
    exists i :: 0 <= i < k && i < |actions| && i < |states| && states[i].stage == Failing(true) && actions[i] == Report(true)
  }

  lemma SentStep(c: Config, s: Sys, a: Action)
    requires Can(c, s, a)
    ensures Failed(true) in Do(c, s, a).sent <==> Failed(true) in s.sent || (s.stage == Failing(true) && a == Report(true))
  {
    var said := if CanWork(c, s, a) then Said(c, s.stage, a) else [];
    assert Do(c, s, a).sent == s.sent + said;
  }

  lemma DeliveredStep(states: seq<Sys>, actions: seq<Action>, k: nat)
    requires k < |actions| && k < |states|
    ensures CancelDelivered(states, actions, k + 1) <==>
            CancelDelivered(states, actions, k) || (states[k].stage == Failing(true) && actions[k] == Report(true))
  {
  }

  lemma {:induction false} CancelSent(c: Config, states: seq<Sys>, actions: seq<Action>, k: nat)
    requires Run(c, states, actions) && k < |states|
    ensures Failed(true) in states[k].sent <==> CancelDelivered(states, actions, k)
    decreases k
  {
    if k > 0 {
      assert Can(c, states[k - 1], actions[k - 1]);
      CancelSent(c, states, actions, k - 1);
      SentStep(c, states[k - 1], actions[k - 1]);
      DeliveredStep(states, actions, k - 1);
    }
  }

  /** In every run the operation is reported as cancelled exactly if the worker's report of a cancellation was delivered. */
  lemma CancelReported(c: Config, states: seq<Sys>, actions: seq<Action>, k: nat)
    requires GoodConfig(c) && c.expected == Some(c.temporary)
    requires Run(c, states, actions) && k < |states| && states[k].parent.Finished?
    ensures states[k].parent.verdict == CancelledReport <==> CancelDelivered(states, actions, k)
  {
    RunKeepsInv(c, states, actions, k);
    CancelSent(c, states, actions, k);
    var s := states[k];
    JudgeTells(c.expected, s.sent, !s.torn);
    if Failed(true) in s.sent {
      var i :| 0 <= i < |s.sent| && s.sent[i] == Failed(true);
      FirstEnd(c.expected, s.sent, i);
    }
  }

  lemma {:induction false} FirstEnd(expected: Option<Path>, events: seq<Event>, i: nat)
    requires i < |events| && Ends(expected, events[i])
    requires forall j :: 0 <= j < |events| && Ends(expected, events[j]) ==> events[j] == events[i]
    ensures EndsWith(expected, events, events[i])
    decreases i
  {
    if Ended(expected, events[..i]) {
      var j :| 0 <= j < i && Ends(expected, events[..i][j]);
      FirstEnd(expected, events, j);
    } else {
      assert EndsAt(expected, events, events[i], i);
    }
  }

  ghost predicate FinishedBefore(actions: seq<Action>, n: int) {
    exists i :: 0 <= i < n && i < |actions| && actions[i] == Finish
  }

  /** The artifact was finished, and then the commit was announced. */
  ghost predicate AnnouncedBefore(actions: seq<Action>, n: int) {
    exists i :: 0 <= i < n && i < |actions| && actions[i].StartCommit? && FinishedBefore(actions, i)
  }

  lemma StageStep(c: Config, s: Sys, a: Action)
    requires Can(c, s, a)
    ensures Do(c, s, a).stage == Built ==> s.stage == Built || a == Finish
    ensures Do(c, s, a).stage == Announced ==> s.stage == Announced || (s.stage == Built && a.StartCommit?)
  {
    assert Do(c, s, a).stage == if CanWork(c, s, a) then NextStage(s, a) else s.stage;
  }

  lemma {:induction false} StageHistory(c: Config, states: seq<Sys>, actions: seq<Action>, k: nat)
    requires Run(c, states, actions) && k < |states|
    ensures states[k].stage == Built ==> FinishedBefore(actions, k)
    ensures states[k].stage == Announced ==> AnnouncedBefore(actions, k)
    decreases k
  {
    if k > 0 {
      assert Can(c, states[k - 1], actions[k - 1]);
      StageHistory(c, states, actions, k - 1);
      StageStep(c, states[k - 1], actions[k - 1]);
      HistoryGrows(actions, k - 1);
      if actions[k - 1] == Finish { assert FinishedBefore(actions, k); }
      if actions[k - 1].StartCommit? && FinishedBefore(actions, k - 1) { assert AnnouncedBefore(actions, k); }
    }
  }

  lemma HistoryGrows(actions: seq<Action>, n: nat)
    ensures FinishedBefore(actions, n) ==> FinishedBefore(actions, n + 1)
    ensures AnnouncedBefore(actions, n) ==> AnnouncedBefore(actions, n + 1)
  {
  }

  /** In every run the rename comes after the announcement, and the announcement after the artifact was finished. */
  lemma CommitOrder(c: Config, states: seq<Sys>, actions: seq<Action>, k: nat)
    requires Run(c, states, actions) && k < |actions| && actions[k] == Rename
    ensures AnnouncedBefore(actions, k)
  {
    assert Can(c, states[k], actions[k]);
    StageHistory(c, states, actions, k);
  }

  lemma Extend(c: Config, states: seq<Sys>, actions: seq<Action>, a: Action, after: Sys)
    returns (states': seq<Sys>, actions': seq<Action>)
    requires Run(c, states, actions) && Can(c, states[|actions|], a) && after == Do(c, states[|actions|], a)
    ensures Run(c, states', actions') && states'[|actions'|] == after
    ensures actions' == actions + [a] && states'[|actions|] == states[|actions|]
  {
    states', actions' := states + [after], actions + [a];
    forall i | 0 <= i < |actions'| ensures Can(c, states'[i], actions'[i]) && states'[i + 1] == Do(c, states'[i], actions'[i]) {
      if i < |actions| { assert Can(c, states[i], actions[i]); }
    }
  }

  lemma IdleRun(c: Config) returns (states: seq<Sys>, actions: seq<Action>)
    ensures Run(c, states, actions)
    ensures states[|actions|] == Sys(Idle, true, false, map[], [], false, 0, 0, false, false, false, Reading(false), false, map[])
  {
    states, actions := [Sys(Idle, true, false, map[], [], false, 0, 0, false, false, false, Reading(false), false, map[])], [];
  }

  /** A run in which the worker builds its artifact; nothing was said yet. */
  lemma BuildingRun(c: Config) returns (states: seq<Sys>, actions: seq<Action>)
    requires c == Config("vault.cfs", ".tmp", Some(".tmp"))
    ensures Run(c, states, actions)
    ensures states[|actions|] ==
            Sys(Built, true, false, map[c.temporary := Whole], [], false, 0, 0, false, false, false, Reading(false), false, map[])
  {
    states, actions := IdleRun(c);
    var s := states[|actions|].(stage := Building, disk := map[c.temporary := Partial]);
    states, actions := Extend(c, states, actions, Create, s);
    s := s.(stage := Built, disk := map[c.temporary := Whole]);
    states, actions := Extend(c, states, actions, Finish, s);
  }

  lemma InstallingRun(c: Config) returns (states: seq<Sys>, actions: seq<Action>)
    requires c == Config("vault.cfs", ".tmp", Some(".tmp"))
    ensures Run(c, states, actions)
    ensures states[|actions|] ==
            Sys(Renamed, true, false, map[c.output := Whole], [CommitStarted], false, 0, 0, false, false, false, Reading(false), false, map[])
  {
    states, actions := BuildingRun(c);
    var s := states[|actions|].(stage := Announced, sent := [CommitStarted]);
    states, actions := Extend(c, states, actions, StartCommit(true), s);
    s := s.(stage := Renamed, disk := map[c.output := Whole]);
    states, actions := Extend(c, states, actions, Rename, s);
  }

  /** The worker is killed right after the rename, and the parent reads what is left. */
  lemma KilledRun(c: Config) returns (states: seq<Sys>, actions: seq<Action>)
    requires c == Config("vault.cfs", ".tmp", Some(".tmp"))
    ensures Run(c, states, actions)
    ensures states[|actions|] ==
            Sys(Renamed, false, false, map[c.output := Whole], [CommitStarted], false, 1, 0, false, false, true, Reading(false), false, map[])
  {
    states, actions := InstallingRun(c);
    var s := states[|actions|].(alive := false);
    states, actions := Extend(c, states, actions, Die(false), s);
    s := s.(read := 1, protected := true);
    states, actions := Extend(c, states, actions, ReadEvent, s);
  }

  /** A worker killed between the rename and its acknowledgement: installed, yet reported as an error. */
  lemma KilledAfterRename() returns (c: Config, states: seq<Sys>, actions: seq<Action>)
    ensures GoodConfig(c) && c.expected == Some(c.temporary) && Run(c, states, actions)
    ensures Installed(c, states[|actions|]) && states[|actions|].parent == Finished(ErrorReport)
  {
    c := Config("vault.cfs", ".tmp", Some(".tmp"));
    states, actions := KilledRun(c);
    var s := states[|actions|].(parent := Decided(ErrorReport));
    states, actions := Extend(c, states, actions, ReadEnd, s);
    s := s.(parent := Killed(ErrorReport));
    states, actions := Extend(c, states, actions, Kill, s);
    s := s.(parent := Finished(ErrorReport), inputClosed := true);
    states, actions := Extend(c, states, actions, Clean(false), s);
  }

  lemma AskingRun(c: Config) returns (states: seq<Sys>, actions: seq<Action>)
    requires c == Config("vault.cfs", ".tmp", Some(".tmp"))
    ensures Run(c, states, actions)
    ensures states[|actions|] ==
            Sys(Built, true, false, map[c.temporary := Whole], [], false, 0, 0, false, true, false, Reading(false), false, map[0 := Sending])
  {
    states, actions := BuildingRun(c);
    var s := states[|actions|].(asks := map[0 := Checked]);
    states, actions := Extend(c, states, actions, CheckProtected(0), s);
    s := s.(asks := map[0 := Sending], cancelling := true);
    states, actions := Extend(c, states, actions, SwapCancelling(0), s);
  }

  /** The commit is announced and the announcement read while a cancel request is between its check and its command. */
  lemma OvertakenRun(c: Config) returns (states: seq<Sys>, actions: seq<Action>)
    requires c == Config("vault.cfs", ".tmp", Some(".tmp"))
    ensures Run(c, states, actions)
    ensures states[|actions|] ==
            Sys(Announced, true, false, map[c.temporary := Whole], [CommitStarted], false, 1, 0, false, true, true, Reading(false), false, map[0 := Sending])
  {
    states, actions := AskingRun(c);
    var s := states[|actions|].(stage := Announced, sent := [CommitStarted]);
    states, actions := Extend(c, states, actions, StartCommit(true), s);
    s := s.(read := 1, protected := true);
    states, actions := Extend(c, states, actions, ReadEvent, s);
  }

  /** So a cancel command can be written after the parent knows of the commit; `PublishSafe` does not depend on it. */
  lemma CancelAfterAnnouncement() returns (c: Config, states: seq<Sys>, actions: seq<Action>)
    ensures GoodConfig(c) && Run(c, states, actions) && actions != [] && actions[|actions| - 1] == SendCancel(0, true)
    ensures states[|actions| - 1].protected && states[|actions|].commands == 1
  {
    c := Config("vault.cfs", ".tmp", Some(".tmp"));
    states, actions := OvertakenRun(c);
    var s := states[|actions|].(commands := 1, asks := map[]);
    states, actions := Extend(c, states, actions, SendCancel(0, true), s);
  }
}
