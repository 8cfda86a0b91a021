/**
 * The training launcher's own steps: staging the day's training input under a
 * date-named folder, launching the job on the cluster's master over ssh, waiting
 * for the job's done file, and the order in which the main flow runs them.
 */
module Trainer {
  import opened Wrappers
  import opened Process
  import opened DateStamp
  import Ssh

  const TrainInput := "trainout/withpubs_pricer.gz"
  const Hadoop := "/usr/bin/hadoop"
  const S3nPrefix := "s3n://spark.data/daily"
  const DoneFile := "TRAINING_DONE"
  /** The name the staged training input gets inside the day's folder. */
  const StagedInputName := "withpubs_pricer.gz"
  /** Seconds slept between two checks for the done file. */
  const PollDelay: nat := 60
  /** Python 2's strftime refuses dates before this year. */
  const StrftimeMinYear := 1900

  /** The stat of the default training input whose output gives the input's date. */
  const StatInput := Argv([Hadoop, "fs", "-stat", TrainInput])

  /** The remote commands of a training launch, in the order they are run. */
  const TrainingCommands: seq<string> :=
    ["chmod u+x setup_pricer_data.sh", "setup_pricer_data.sh", "run_aws_trainer.sh"]

  // ---------------------------------------------------------------- staging paths

  /** The day's folder in the object store. */
  function StagingFolder(d: Date): string
    requires ValidDate(d)
  {
    S3nPrefix + "/" + Stamp(d)
  }

  /** Where the day's training input is copied to. */
  function StagedInputPath(d: Date): string
    requires ValidDate(d)
  {
    StagingFolder(d) + "/" + StagedInputName
  }

  /** The staged input path is the prefix, a slash, the eight digits of the date and
      the slash-separated file name, in that order. */
  lemma StagedInputPathLayout(d: Date)
    requires ValidDate(d)
    ensures |StagedInputPath(d)| == |S3nPrefix| + 10 + |StagedInputName|
    ensures StagedInputPath(d)[..|S3nPrefix| + 1] == S3nPrefix + "/"
    ensures StagedInputPath(d)[|S3nPrefix| + 1..|S3nPrefix| + 9] == Stamp(d)
    ensures StagedInputPath(d)[|S3nPrefix| + 9..] == "/" + StagedInputName
  {
    var p := StagedInputPath(d);
    assert p == (S3nPrefix + "/") + Stamp(d) + ("/" + StagedInputName);
  }

  /** The date a staged input path names, or None when it is not such a path. */
  function StagedDate(p: string): Option<Date>
  {
    var k := |S3nPrefix|;
    if |p| == k + 10 + |StagedInputName| && p[..k + 1] == S3nPrefix + "/"
       && p[k + 9..] == "/" + StagedInputName then
      ParseStamp(p[k + 1..k + 9])
    else
      None
  }

  /** The staged input path of a date names that date. */
  lemma StagedPathRoundTrip(d: Date)
    requires ValidDate(d)
    ensures StagedDate(StagedInputPath(d)) == Some(d)
  {
    StagedInputPathLayout(d);
    StampRoundTrip(d);
  }

  /** A path that names a date is that date's staged input path; so two days never
      share a staging path. */
  lemma StagedDateSound(p: string, d: Date)
    requires StagedDate(p) == Some(d)
    ensures ValidDate(d) && StagedInputPath(d) == p
  {
    var k := |S3nPrefix|;
    ParseStampSound(p[k + 1..k + 9], d);
    assert p == p[..k + 1] + p[k + 1..k + 9] + p[k + 9..];
  }

  // ---------------------------------------------------------------- copying the input

  /** How a straight-line step ended, with the events it produced. */
  datatype Step = Step(outcome: Outcome, trace: seq<Event>)

  /** The copy of the training input to the day's staged input path. */
  function CopyCommand(opts: Options, d: Date): Command
    requires ValidDate(d)
  {
    Argv([opts.hadoopCmd, "distcp", opts.input, StagedInputPath(d)])
  }

  /**
   * Stages the training input. The stat of the default input exits with `statCode`
   * and, when it succeeds, reports the modification date `modified`; the copy exits
   * with `distcpCode`. A failed stat ends the process with status 1 before any copy;
   * a failed copy ends it with status 1; otherwise the step returns.
   */
  function LaunchCopyInput(opts: Options, statCode: int, modified: Date, distcpCode: int): (r: Step)
    requires statCode == 0 ==> ValidDate(modified)
    ensures 1 <= |r.trace| <= 2 && r.trace[0] == Run(StatInput, statCode)
    ensures |r.trace| == 2 <==> statCode == 0 && modified.year >= StrftimeMinYear
    ensures |r.trace| == 2 ==> r.trace[1] == Run(CopyCommand(opts, modified), distcpCode)
    ensures r.outcome == Returned <==> |r.trace| == 2 && distcpCode == 0
    ensures r.outcome.Exited? <==> statCode != 0 || (|r.trace| == 2 && distcpCode != 0)
    ensures r.outcome.Exited? ==> r.outcome.status == 1
    ensures r.outcome.Raised? ==> r.outcome.error == YearBefore1900(modified.year)
  {
    if statCode != 0 then
      Step(Exited(1), [Run(StatInput, statCode)])
    else if modified.year < StrftimeMinYear then
      Step(Raised(YearBefore1900(modified.year)), [Run(StatInput, 0)])
    else
      var t := [Run(StatInput, 0), Run(CopyCommand(opts, modified), distcpCode)];
      if distcpCode != 0 then Step(Exited(1), t) else Step(Returned, t)
  }

  /** When the input is copied, it goes from the configured input to the staged path
      of the very day the stat reported. */
  lemma CopyTargetsInputDay(opts: Options, statCode: int, modified: Date, distcpCode: int)
    requires statCode == 0 ==> ValidDate(modified)
    requires |LaunchCopyInput(opts, statCode, modified, distcpCode).trace| == 2
    ensures var c := LaunchCopyInput(opts, statCode, modified, distcpCode).trace[1].command;
            c.Argv? && |c.args| == 4 && c.args[..3] == [opts.hadoopCmd, "distcp", opts.input]
            && StagedDate(c.args[3]) == Some(modified)
  {
    StagedPathRoundTrip(modified);
  }

  // ---------------------------------------------------------------- the training job

  /** One ssh call: its command, how many attempts it took, how it ended and its events. */
  datatype RemoteCall = RemoteCall(command: string, attempts: nat, outcome: Outcome, trace: seq<Event>)

  /** The events of a series of calls, in order. */
  function CallsTrace(calls: seq<RemoteCall>): seq<Event>
  {
    if calls == [] then [] else CallsTrace(calls[..|calls| - 1]) + calls[|calls| - 1].trace
  }

  /** How a training launch ends: the error of an empty list of master nodes, else
      the way its last call ended. */
  function JobOutcome(masterNodes: seq<string>, calls: seq<RemoteCall>): Outcome
  {
    if masterNodes == [] then Raised(NoMasterNode)
    else if calls == [] then Returned
    else calls[|calls| - 1].outcome
  }

  /**
   * A training launch made `calls`: none when there is no master node; otherwise the
   * training commands in their order, each an ssh call to the first master node
   * whose attempt `j` exits with `sshCodes(i)(j)`, stopping after the first call that
   * does not return.
   */
  ghost predicate TrainingJob(masterNodes: seq<string>, opts: Options, sshCodes: nat -> nat -> int,
                              calls: seq<RemoteCall>)
  {
    if masterNodes == [] then calls == []
    else
      && 1 <= |calls| <= |TrainingCommands|
      && (forall i :: 0 <= i < |calls| ==>
            calls[i].command == TrainingCommands[i]
            && Ssh.SshRun(masterNodes[0], opts, TrainingCommands[i], sshCodes(i),
                          calls[i].attempts, calls[i].outcome, calls[i].trace))
      && (forall i :: 0 <= i < |calls| - 1 ==> calls[i].outcome == Returned)
      && (|calls| == |TrainingCommands| || calls[|calls| - 1].outcome != Returned)
  }

  /** Launches the training job on the first master node: three ssh calls in a fixed
      order, the first exception ending the launch. */
  method LaunchTrainingJob(masterNodes: seq<string>, opts: Options, sshCodes: nat -> nat -> int)
    returns (calls: seq<RemoteCall>, outcome: Outcome, trace: seq<Event>)
    ensures TrainingJob(masterNodes, opts, sshCodes, calls)
    ensures outcome == JobOutcome(masterNodes, calls) && trace == CallsTrace(calls)
  {
    if masterNodes == [] {
      calls, outcome, trace := [], Raised(NoMasterNode), [];
      return;
    }
    var master := masterNodes[0];
    var n1, o1, t1 := Ssh.RunRemote(master, opts, TrainingCommands[0], sshCodes(0));
    var c1 := RemoteCall(TrainingCommands[0], n1, o1, t1);
    assert CallsTrace([c1]) == t1 by { assert [c1][..0] == []; }
    if o1 != Returned {
      calls, outcome, trace := [c1], o1, t1;
      return;
    }
    var n2, o2, t2 := Ssh.RunRemote(master, opts, TrainingCommands[1], sshCodes(1));
    var c2 := RemoteCall(TrainingCommands[1], n2, o2, t2);
    assert CallsTrace([c1, c2]) == t1 + t2 by { assert [c1, c2][..1] == [c1]; }
    if o2 != Returned {
      calls, outcome, trace := [c1, c2], o2, t1 + t2;
      return;
    }
    var n3, o3, t3 := Ssh.RunRemote(master, opts, TrainingCommands[2], sshCodes(2));
    var c3 := RemoteCall(TrainingCommands[2], n3, o3, t3);
    assert CallsTrace([c1, c2, c3]) == t1 + t2 + t3 by { assert [c1, c2, c3][..2] == [c1, c2]; }
    calls, outcome, trace := [c1, c2, c3], o3, t1 + t2 + t3;
  }

  /** A launch that returns ran all three commands, in order, each to completion. */
  lemma JobReturnsAfterAllCommands(masterNodes: seq<string>, opts: Options, sshCodes: nat -> nat -> int,
                                   calls: seq<RemoteCall>)
    requires TrainingJob(masterNodes, opts, sshCodes, calls)
    requires JobOutcome(masterNodes, calls) == Returned
    ensures masterNodes != [] && |calls| == 3
    ensures forall i :: 0 <= i < 3 ==> calls[i].command == TrainingCommands[i] && calls[i].outcome == Returned
  {
  }

  /** Among the attempts one ssh call may make, some attempt exits with 0. */
  ghost predicate CallReturns(codes: nat -> int)
  {
    exists j: nat :: j < Ssh.RetryLimit + 2 && codes(j) == 0
  }

  /** One ssh call returns exactly when some attempt it may make exits with 0. */
  lemma CallReturnsIff(host: string, opts: Options, command: string, codes: nat -> int,
                       n: nat, outcome: Outcome, trace: seq<Event>)
    requires Ssh.SshRun(host, opts, command, codes, n, outcome, trace)
    ensures outcome == Returned <==> CallReturns(codes)
  {
    if outcome == Returned {
      assert codes(n - 1) == 0;
    }
  }

  /** A launch returns exactly when there is a master node and each of the three calls
      sees a success within its attempts. */
  lemma JobReturnsIff(masterNodes: seq<string>, opts: Options, sshCodes: nat -> nat -> int,
                      calls: seq<RemoteCall>)
    requires TrainingJob(masterNodes, opts, sshCodes, calls)
    ensures JobOutcome(masterNodes, calls) == Returned <==>
              masterNodes != [] && forall i: nat :: i < |TrainingCommands| ==> CallReturns(sshCodes(i))
  {
    if masterNodes == [] {
      return;
    }
    forall i | 0 <= i < |calls|
      ensures calls[i].outcome == Returned <==> CallReturns(sshCodes(i))
    {
      var c := calls[i];
      CallReturnsIff(masterNodes[0], opts, TrainingCommands[i], sshCodes(i), c.attempts, c.outcome, c.trace);
    }
    if JobOutcome(masterNodes, calls) == Returned {
      JobReturnsAfterAllCommands(masterNodes, opts, sshCodes, calls);
    }
  }

  /** Every process a launch runs is an ssh invocation, as the configured user, of the
      first master node; every other event is a 30-second pause. */
  lemma {:induction false} JobTargetsMaster(masterNodes: seq<string>, opts: Options,
                                            sshCodes: nat -> nat -> int, calls: seq<RemoteCall>)
    requires TrainingJob(masterNodes, opts, sshCodes, calls)
    ensures forall e :: e in CallsTrace(calls) && e.Run? ==>
              e.command.Argv? && Ssh.ParseArgv(e.command.args).Some?
              && Ssh.ParseArgv(e.command.args).value.target == opts.user + "@" + masterNodes[0]
    ensures forall e :: e in CallsTrace(calls) && !e.Run? ==> e == Sleep(Ssh.RetryDelay)
  {
    if masterNodes != [] {
      CallsTargetMaster(masterNodes[0], opts, sshCodes, calls);
    }
  }

  lemma {:induction false} CallsTargetMaster(master: string, opts: Options, sshCodes: nat -> nat -> int,
                                             calls: seq<RemoteCall>)
    requires |calls| <= |TrainingCommands|
    requires forall i :: 0 <= i < |calls| ==>
               Ssh.SshRun(master, opts, TrainingCommands[i], sshCodes(i),
                          calls[i].attempts, calls[i].outcome, calls[i].trace)
    ensures forall e :: e in CallsTrace(calls) && e.Run? ==>
              e.command.Argv? && Ssh.ParseArgv(e.command.args).Some?
              && Ssh.ParseArgv(e.command.args).value.target == opts.user + "@" + master
    ensures forall e :: e in CallsTrace(calls) && !e.Run? ==> e == Sleep(Ssh.RetryDelay)
  {
    if calls != [] {
      var last := |calls| - 1;
      CallsTargetMaster(master, opts, sshCodes, calls[..last]);
      var argv := Ssh.RemoteArgv(opts, master, TrainingCommands[last]);
      var c := calls[last];
      assert Ssh.SshRun(master, opts, TrainingCommands[last], sshCodes(last), c.attempts, c.outcome, c.trace);
      AttemptsCommands(Argv(argv), sshCodes(last), c.attempts, Ssh.RetryDelay);
      Ssh.RenderParse(Ssh.RemoteInvocation(opts, master, TrainingCommands[last]));
    }
  }

  // ---------------------------------------------------------------- waiting for the job

  /** Where the training job leaves its done file. */
  function DoneMarkerPath(folder: string): string
  {
    folder + "/" + DoneFile
  }

  /** The shell line that checks for the done file. */
  function DoneCheck(folder: string): Command
  {
    ShellLine(Hadoop + " fs -stat " + DoneMarkerPath(folder))
  }

  /** The check line is the stat command, the folder and `/TRAINING_DONE`, in that
      order, so two folders never share a check. */
  lemma DoneCheckNamesFolder(f1: string, f2: string)
    ensures var p := Hadoop + " fs -stat ";
            var l := DoneCheck(f1).line;
            && DoneCheck(f1).ShellLine? && |l| == |p| + |f1| + 1 + |DoneFile|
            && l[..|p|] == p && l[|p|..|p| + |f1|] == f1 && l[|p| + |f1|..] == "/" + DoneFile
    ensures DoneCheck(f1) == DoneCheck(f2) <==> f1 == f2
  {
    var p := Hadoop + " fs -stat ";
    var l1, l2 := DoneCheck(f1).line, DoneCheck(f2).line;
    assert l1 == p + f1 + ("/" + DoneFile);
    assert l2 == p + f2 + ("/" + DoneFile);
    if l1 == l2 {
      assert |f1| == |f2|;
      assert f1 == l1[|p|..|p| + |f1|] == l2[|p|..|p| + |f2|] == f2;
    }
  }

  /** The events of `checks` checks for the done file, one pause between consecutive checks. */
  function PollTrace(folder: string, codes: nat -> int, checks: nat): seq<Event>
    requires checks >= 1
  {
    Attempts(DoneCheck(folder), codes, checks, PollDelay)
  }

  /** The wait ended after `checks` checks: the last one, and no earlier one, exited with 0. */
  ghost predicate Awaited(codes: nat -> int, checks: nat)
  {
    checks >= 1 && codes(checks - 1) == 0 && forall i: nat :: i < checks - 1 ==> codes(i) != 0
  }

  /**
   * Waits for the training job: check `i` (counting from 0) for the done file exits
   * with `statCodes(i)`; the wait ends at the first check that exits with 0 and
   * pauses between checks. It ends only if some check succeeds.
   */
  method AwaitTraining(folder: string, statCodes: nat -> int) returns (checks: nat, trace: seq<Event>)
    requires exists k: nat :: statCodes(k) == 0
    ensures Awaited(statCodes, checks)
    ensures trace == PollTrace(folder, statCodes, checks)
  {
    ghost var k: nat :| statCodes(k) == 0;
    var cmd := DoneCheck(folder);
    checks, trace := 0, [];
    while true
      invariant checks <= k
      invariant forall i: nat :: i < checks ==> statCodes(i) != 0
      invariant trace == FailedRounds(cmd, statCodes, checks, PollDelay)
      decreases k - checks
    {
      var code := statCodes(checks);
      trace := trace + [Run(cmd, code)];
      if code == 0 {
        checks := checks + 1;
        return;
      }
      trace := trace + [Sleep(PollDelay)];
      checks := checks + 1;
    }
  }

  /** The wait stops at the first successful check and only there. */
  lemma AwaitedAtFirstSuccess(codes: nat -> int, checks: nat, k: nat)
    requires codes(k) == 0 && forall i: nat :: i < k ==> codes(i) != 0
    ensures Awaited(codes, checks) <==> checks == k + 1
  {
  }

  /** Every check of a wait is the same stat of the same done file, and every other
      event is a pause of 60 seconds. */
  lemma PollChecksDoneFile(folder: string, codes: nat -> int, checks: nat)
    requires checks >= 1
    ensures forall e :: e in PollTrace(folder, codes, checks) ==>
              e == Sleep(PollDelay) || (e.Run? && e.command == DoneCheck(folder))
    ensures RunCount(PollTrace(folder, codes, checks)) == checks
  {
    AttemptsCommands(DoneCheck(folder), codes, checks, PollDelay);
    AttemptsShape(DoneCheck(folder), codes, checks, PollDelay, 0);
  }

  // ---------------------------------------------------------------- the main flow

  /** The staging step of the main flow: skipped entirely when so configured. */
  function CopyStage(opts: Options, statCode: int, modified: Date, distcpCode: int): Step
    requires statCode == 0 ==> ValidDate(modified)
  {
    if opts.skipCopyInput then Step(Returned, []) else LaunchCopyInput(opts, statCode, modified, distcpCode)
  }

  /**
   * A run of the main flow: the staging step; if it returned, the training launch;
   * if that returned, the wait for the done file in `folder`. Each step that does not
   * return ends the run with its outcome, and nothing after it happens.
   */
  ghost predicate TrainerRun(opts: Options, folder: string, statCode: int, modified: Date, distcpCode: int,
                             masterNodes: seq<string>, sshCodes: nat -> nat -> int, pollCodes: nat -> int,
                             calls: seq<RemoteCall>, checks: nat, outcome: Outcome, trace: seq<Event>)
    requires statCode == 0 ==> ValidDate(modified)
  {
    var copy := CopyStage(opts, statCode, modified, distcpCode);
    if copy.outcome != Returned then
      calls == [] && checks == 0 && outcome == copy.outcome && trace == copy.trace
    else
      && TrainingJob(masterNodes, opts, sshCodes, calls)
      && if JobOutcome(masterNodes, calls) != Returned then
           checks == 0 && outcome == JobOutcome(masterNodes, calls) && trace == copy.trace + CallsTrace(calls)
         else
           && Awaited(pollCodes, checks)
           && outcome == Returned
           && trace == copy.trace + CallsTrace(calls) + PollTrace(folder, pollCodes, checks)
  }

  /**
   * The main flow, from after option parsing to the detection of the done file.
   * The cluster is given by the public names of its master nodes; `folder` is the
   * day's staging folder in which the done file is looked for. Only a run that
   * reaches the wait needs some check for the done file to succeed.
   */
  method LaunchTrainer(opts: Options, folder: string, statCode: int, modified: Date, distcpCode: int,
                       masterNodes: seq<string>, sshCodes: nat -> nat -> int, pollCodes: nat -> int)
    returns (calls: seq<RemoteCall>, checks: nat, outcome: Outcome, trace: seq<Event>)
    requires statCode == 0 ==> ValidDate(modified)
    requires (&& CopyStage(opts, statCode, modified, distcpCode).outcome == Returned
              && masterNodes != []
              && forall i: nat :: i < |TrainingCommands| ==> CallReturns(sshCodes(i)))
             ==> exists k: nat :: pollCodes(k) == 0
    ensures TrainerRun(opts, folder, statCode, modified, distcpCode, masterNodes, sshCodes, pollCodes,
                       calls, checks, outcome, trace)
  {
    trace := [];
    if !opts.skipCopyInput {
      var copy := LaunchCopyInput(opts, statCode, modified, distcpCode);
      trace := copy.trace;
      if copy.outcome != Returned {
        calls, checks, outcome := [], 0, copy.outcome;
        return;
      }
    }
    var jobOutcome, jobTrace;
    calls, jobOutcome, jobTrace := LaunchTrainingJob(masterNodes, opts, sshCodes);
    trace := trace + jobTrace;
    if jobOutcome != Returned {
      checks, outcome := 0, jobOutcome;
      return;
    }
    JobReturnsIff(masterNodes, opts, sshCodes, calls);
    var pollTrace;
    checks, pollTrace := AwaitTraining(folder, pollCodes);
    trace := trace + pollTrace;
    outcome := Returned;
  }

  /** With the copy skipped, nothing is staged: the first process run is the first
      ssh attempt of the launch. */
  lemma SkipCopyStartsWithLaunch(opts: Options, folder: string, statCode: int, modified: Date, distcpCode: int,
                                 masterNodes: seq<string>, sshCodes: nat -> nat -> int, pollCodes: nat -> int,
                                 calls: seq<RemoteCall>, checks: nat, outcome: Outcome, trace: seq<Event>)
    requires statCode == 0 ==> ValidDate(modified)
    requires TrainerRun(opts, folder, statCode, modified, distcpCode, masterNodes, sshCodes, pollCodes,
                        calls, checks, outcome, trace)
    requires opts.skipCopyInput && masterNodes != []
    ensures trace[0] == Run(Argv(Ssh.RemoteArgv(opts, masterNodes[0], TrainingCommands[0])), sshCodes(0)(0))
  {
    var c := calls[0];
    assert Ssh.SshRun(masterNodes[0], opts, TrainingCommands[0], sshCodes(0), c.attempts, c.outcome, c.trace);
    AttemptsShape(Argv(Ssh.RemoteArgv(opts, masterNodes[0], TrainingCommands[0])), sshCodes(0), c.attempts,
                  Ssh.RetryDelay, 0);
    CallsTracePrefix(calls);
  }

  /** The events of a series of calls begin with those of its first call. */
  lemma {:induction false} CallsTracePrefix(calls: seq<RemoteCall>)
    requires calls != []
    ensures CallsTrace(calls) == calls[0].trace + CallsTrace(calls[1..])
  {
    if |calls| > 1 {
      CallsTracePrefix(calls[..|calls| - 1]);
      assert calls[..|calls| - 1][1..] == calls[1..][..|calls[1..]| - 1];
    } else {
      assert calls[..0] == [];
    }
  }

  /** A failed stat of the input ends the run with status 1 after that stat alone:
      nothing is copied, launched or awaited. */
  lemma FailedStatEndsRun(opts: Options, folder: string, statCode: int, modified: Date, distcpCode: int,
                          masterNodes: seq<string>, sshCodes: nat -> nat -> int, pollCodes: nat -> int,
                          calls: seq<RemoteCall>, checks: nat, outcome: Outcome, trace: seq<Event>)
    requires statCode == 0 ==> ValidDate(modified)
    requires TrainerRun(opts, folder, statCode, modified, distcpCode, masterNodes, sshCodes, pollCodes,
                        calls, checks, outcome, trace)
    requires !opts.skipCopyInput && statCode != 0
    ensures outcome == Exited(1) && trace == [Run(StatInput, statCode)] && calls == [] && checks == 0
  {
  }

  /** A failed copy ends the run with status 1 before anything is launched. */
  lemma FailedCopyEndsRun(opts: Options, folder: string, statCode: int, modified: Date, distcpCode: int,
                          masterNodes: seq<string>, sshCodes: nat -> nat -> int, pollCodes: nat -> int,
                          calls: seq<RemoteCall>, checks: nat, outcome: Outcome, trace: seq<Event>)
    requires statCode == 0 ==> ValidDate(modified)
    requires TrainerRun(opts, folder, statCode, modified, distcpCode, masterNodes, sshCodes, pollCodes,
                        calls, checks, outcome, trace)
    requires !opts.skipCopyInput && statCode == 0 && modified.year >= StrftimeMinYear && distcpCode != 0
    ensures outcome == Exited(1) && calls == [] && checks == 0
    ensures trace == [Run(StatInput, 0), Run(CopyCommand(opts, modified), distcpCode)]
  {
  }

  /** The done file is looked for only after all three training commands returned,
      and a run returns only once a check found it. */
  lemma PollOnlyAfterLaunch(opts: Options, folder: string, statCode: int, modified: Date, distcpCode: int,
                            masterNodes: seq<string>, sshCodes: nat -> nat -> int, pollCodes: nat -> int,
                            calls: seq<RemoteCall>, checks: nat, outcome: Outcome, trace: seq<Event>)
    requires statCode == 0 ==> ValidDate(modified)
    requires TrainerRun(opts, folder, statCode, modified, distcpCode, masterNodes, sshCodes, pollCodes,
                        calls, checks, outcome, trace)
    ensures checks > 0 ==> |calls| == 3 && forall i :: 0 <= i < 3 ==> calls[i].outcome == Returned
    ensures outcome == Returned <==> checks > 0
    ensures outcome == Returned ==> pollCodes(checks - 1) == 0
  {
    var copy := CopyStage(opts, statCode, modified, distcpCode);
    if copy.outcome == Returned && JobOutcome(masterNodes, calls) == Returned {
      JobReturnsAfterAllCommands(masterNodes, opts, sshCodes, calls);
    }
  }

  /** Three calls of one event each make three events in all. */
  lemma ThreeSingleEventCalls(calls: seq<RemoteCall>)
    requires |calls| == 3 && forall i :: 0 <= i < 3 ==> |calls[i].trace| == 1
    ensures |CallsTrace(calls)| == 3
  {
    assert calls[..2][..1] == calls[..1] && calls[..1][..0] == [];
    assert |CallsTrace(calls[..1])| == 1;
    assert |CallsTrace(calls[..2])| == 2;
  }

  /**
   * A run for an input dated 2024-03-01 in which every stat, copy and ssh attempt
   * succeeds and the done file shows up at the third check: the input is copied to
   * that day's folder, the three commands run once each on the master, and the run
   * returns after two pauses of 60 seconds.
   */
  lemma FreshDayScenario(opts: Options, master: string, calls: seq<RemoteCall>, checks: nat,
                         outcome: Outcome, trace: seq<Event>)
    requires !opts.skipCopyInput
    requires TrainerRun(opts, S3nPrefix + "/20240301", 0, Date(2024, 3, 1), 0, [master],
                        (i: nat) => (j: nat) => 0, (k: nat) => if k < 2 then 1 else 0,
                        calls, checks, outcome, trace)
    ensures outcome == Returned && checks == 3 && |calls| == 3
    ensures forall i :: 0 <= i < 3 ==> calls[i].attempts == 1
    ensures trace[1] == Run(Argv([opts.hadoopCmd, "distcp", opts.input,
                                  S3nPrefix + "/" + "20240301" + "/" + StagedInputName]), 0)
    ensures |trace| == 2 + 3 + 5
  {
    StampOfMarchFirst2024();
    var sshCodes := (i: nat) => (j: nat) => 0;
    var pollCodes := (k: nat) => if k < 2 then 1 else 0;
    JobReturnsAfterAllCommands([master], opts, sshCodes, calls);
    forall i | 0 <= i < 3
      ensures calls[i].attempts == 1 && |calls[i].trace| == 1
    {
      var c := calls[i];
      Ssh.FirstSuccessStops(master, opts, TrainingCommands[i], sshCodes(i), c.attempts, c.outcome, c.trace);
    }
    ThreeSingleEventCalls(calls);
    AwaitedAtFirstSuccess(pollCodes, checks, 2);
    AttemptsShape(DoneCheck(S3nPrefix + "/20240301"), pollCodes, 3, PollDelay, 0);
  }
}
