/**
 * Running one command on a cluster host over ssh: the argument vector handed to the
 * `ssh` program, and the loop that repeats a failing invocation a bounded number of
 * times, pausing between attempts, before it gives up with an error.
 */
module Ssh {
  import opened Wrappers
  import opened Process

  /** The loop gives up on a failed attempt once its counter `tries` exceeds this value. */
  const RetryLimit: nat := 5
  /** Seconds slept after a failed attempt before the next one. */
  const RetryDelay: nat := 30
  /** The exit status with which `ssh` itself reports that it could not connect. */
  const SshConnectFailure: int := 255

  /** The options that disable host-key confirmation and keep host identities out of
      any known-hosts file, always present and always first. */
  const HostKeyOptions: seq<string> :=
    ["-o", "StrictHostKeyChecking=no", "-o", "UserKnownHostsFile=/dev/null"]

  /** The options passed to `ssh`: the host-key options, then `-i <file>` when an
      identity file is configured. */
  function SshArgs(identityFile: Option<string>): (r: seq<string>)
    ensures |r| == 4 || |r| == 6
    ensures r[..4] == HostKeyOptions
    ensures "-i" in r <==> identityFile.Some?
    ensures identityFile.Some? ==> r[4..] == ["-i", identityFile.value]
    ensures identityFile.None? ==> r == HostKeyOptions
  {
    HostKeyOptions + (if identityFile.Some? then ["-i", identityFile.value] else [])
  }

  /** Builds the `ssh` options by growing a list, as the launcher does. */
  method BuildSshArgs(opts: Options) returns (parts: seq<string>)
    ensures parts == SshArgs(opts.identityFile)
  {
    parts := ["-o", "StrictHostKeyChecking=no"];
    parts := parts + ["-o", "UserKnownHostsFile=/dev/null"];
    if opts.identityFile.Some? {
      parts := parts + ["-i", opts.identityFile.value];
    }
  }

  /** The program name followed by its options. */
  function SshCommand(identityFile: Option<string>): (r: seq<string>)
    ensures |r| == 5 || |r| == 7
    ensures r[0] == "ssh" && r[1..5] == HostKeyOptions
    ensures "-i" in r <==> identityFile.Some?
  {
    ["ssh"] + SshArgs(identityFile)
  }

  /** What a remote invocation carries: the identity file, the `user@host` target and
      the command string run there. */
  datatype Invocation = Invocation(identityFile: Option<string>, target: string, command: string)

  /** The argument vector of an invocation: `ssh`, its options, two `-t` flags that force
      a pseudo-terminal, the target and the command, and nothing else. */
  function Render(inv: Invocation): (argv: seq<string>)
    ensures |argv| == 9 || |argv| == 11
    ensures argv[0] == "ssh" && argv[1..5] == HostKeyOptions
    ensures argv[|argv| - 4..] == ["-t", "-t", inv.target, inv.command]
  {
    SshCommand(inv.identityFile) + ["-t", "-t", inv.target, inv.command]
  }

  /** The invocation that runs `command` as `opts.user` on `host`. */
  function RemoteInvocation(opts: Options, host: string, command: string): Invocation
  {
    Invocation(opts.identityFile, opts.user + "@" + host, command)
  }

  /** The argument vector that runs `command` as `opts.user` on `host`. */
  function RemoteArgv(opts: Options, host: string, command: string): seq<string>
  {
    Render(RemoteInvocation(opts, host, command))
  }

  /** Reads an argument vector back as an invocation, or None when it is not of the
      shape `Render` produces. */
  function ParseArgv(argv: seq<string>): (r: Option<Invocation>)
  {
    if |argv| == 9 && argv[..5] == ["ssh"] + HostKeyOptions && argv[5..7] == ["-t", "-t"] then
      Some(Invocation(None, argv[7], argv[8]))
    else if |argv| == 11 && argv[..5] == ["ssh"] + HostKeyOptions && argv[5] == "-i"
            && argv[7..9] == ["-t", "-t"] then
      Some(Invocation(Some(argv[6]), argv[9], argv[10]))
    else
      None
  }

  /** Reading back a rendered invocation gives the invocation itself. */
  lemma RenderParse(inv: Invocation)
    ensures ParseArgv(Render(inv)) == Some(inv)
  {
    var argv := Render(inv);
    assert argv[..5] == ["ssh"] + HostKeyOptions;
    if inv.identityFile.Some? {
      assert argv[5..7] == ["-i", inv.identityFile.value];
      assert argv[7..9] == ["-t", "-t"];
    } else {
      assert |SshCommand(None)| == 5;
      assert argv[5] == "-t" && argv[6] == "-t";
      assert argv[5..7] == ["-t", "-t"];
    }
  }

  /** The vector of a remote call reads back as the configured identity file, the
      `user@host` target and the command. */
  lemma RemoteArgvParses(opts: Options, host: string, command: string)
    ensures ParseArgv(RemoteArgv(opts, host, command))
            == Some(Invocation(opts.identityFile, opts.user + "@" + host, command))
  {
    RenderParse(RemoteInvocation(opts, host, command));
  }

  /** Only rendered invocations are read back: an accepted vector is exactly the
      rendering of what was read, so nothing can be inserted anywhere. */
  lemma ParseRender(argv: seq<string>, inv: Invocation)
    requires ParseArgv(argv) == Some(inv)
    ensures Render(inv) == argv
  {
    var r := Render(inv);
    if |argv| == 9 {
      assert r == argv[..5] + argv[5..7] + [argv[7], argv[8]];
    } else {
      assert r == argv[..5] + [argv[5], argv[6]] + argv[7..9] + [argv[9], argv[10]];
    }
    assert argv == argv[..5] + argv[5..];
  }

  /**
   * The behaviour of one `ssh` call whose attempt `i` (counting from 0) exits with
   * `codes(i)`: `n` attempts of the same argument vector were made; every attempt
   * but the last failed; the last one succeeded or was the one found with the counter
   * past `RetryLimit`; the call returns after a success, raises the usage error naming
   * the host when the last status was 255, and otherwise re-raises the failure of the
   * last attempt; the events are the attempts with a pause between consecutive ones.
   */
  ghost predicate SshRun(host: string, opts: Options, command: string, codes: nat -> int,
                         n: nat, outcome: Outcome, trace: seq<Event>)
  {
    var argv := RemoteArgv(opts, host, command);
    && 1 <= n <= RetryLimit + 2
    && (forall i: nat :: i < n - 1 ==> codes(i) != 0)
    && (codes(n - 1) == 0 || n == RetryLimit + 2)
    && outcome == (if codes(n - 1) == 0 then Returned
                   else if codes(n - 1) == SshConnectFailure then Raised(SshUnreachable(host))
                   else Raised(ProcessFailed(codes(n - 1), argv)))
    && trace == Attempts(Argv(argv), codes, n, RetryDelay)
  }

  /**
   * Runs `command` on `host` through ssh. Attempt `i` exits with `exitCodes(i)`; a
   * failed attempt is retried after a pause while the counter has not passed
   * `RetryLimit`, whatever its exit status.
   */
  method RunRemote(host: string, opts: Options, command: string, exitCodes: nat -> int)
    returns (attempts: nat, outcome: Outcome, trace: seq<Event>)
    ensures SshRun(host, opts, command, exitCodes, attempts, outcome, trace)
  {
    var args := BuildSshArgs(opts);
    var argv := ["ssh"] + args + ["-t", "-t", opts.user + "@" + host, command];
    assert argv == RemoteArgv(opts, host, command);
    var tries: nat := 0;
    trace := [];
    while true
      invariant tries <= RetryLimit + 1
      invariant forall i: nat :: i < tries ==> exitCodes(i) != 0
      invariant trace == FailedRounds(Argv(argv), exitCodes, tries, RetryDelay)
      decreases RetryLimit + 1 - tries
    {
      var code := exitCodes(tries);
      trace := trace + [Run(Argv(argv), code)];
      if code == 0 {
        attempts, outcome := tries + 1, Returned;
        return;
      }
      if tries > RetryLimit {
        attempts := tries + 1;
        if code == SshConnectFailure {
          outcome := Raised(SshUnreachable(host));
        } else {
          outcome := Raised(ProcessFailed(code, argv));
        }
        return;
      }
      trace := trace + [Sleep(RetryDelay)];
      tries := tries + 1;
    }
  }

  /** A call is fully determined by the host, options, command and exit statuses. */
  lemma SshRunDeterministic(host: string, opts: Options, command: string, codes: nat -> int,
                            n1: nat, o1: Outcome, t1: seq<Event>, n2: nat, o2: Outcome, t2: seq<Event>)
    requires SshRun(host, opts, command, codes, n1, o1, t1)
    requires SshRun(host, opts, command, codes, n2, o2, t2)
    ensures n1 == n2 && o1 == o2 && t1 == t2
  {
  }

  /** A first attempt that exits with 0 is the only attempt, and the call returns. */
  lemma FirstSuccessStops(host: string, opts: Options, command: string, codes: nat -> int,
                          n: nat, outcome: Outcome, trace: seq<Event>)
    requires SshRun(host, opts, command, codes, n, outcome, trace)
    requires codes(0) == 0
    ensures n == 1 && outcome == Returned
    ensures trace == [Run(Argv(RemoteArgv(opts, host, command)), 0)]
  {
  }

  /** The call returns exactly when some attempt among the first seven exits with 0,
      and then the attempt it returns after is the first such. */
  lemma ReturnsAtFirstSuccess(host: string, opts: Options, command: string, codes: nat -> int,
                              n: nat, outcome: Outcome, trace: seq<Event>, k: nat)
    requires SshRun(host, opts, command, codes, n, outcome, trace)
    requires k < 7 && codes(k) == 0 && forall i: nat :: i < k ==> codes(i) != 0
    ensures outcome == Returned && n == k + 1
  {
  }

  /** Under sustained failure, with any non-zero statuses, exactly seven attempts are
      made, with six pauses of 30 seconds, and the call raises. Seven attempts are six
      retries: one more than the five the comment above the loop promises. */
  lemma {:induction false} SustainedFailure(host: string, opts: Options, command: string, codes: nat -> int,
                                            n: nat, outcome: Outcome, trace: seq<Event>)
    requires SshRun(host, opts, command, codes, n, outcome, trace)
    requires forall i: nat :: i < 7 ==> codes(i) != 0
    ensures n == 7 && outcome.Raised?
    ensures RunCount(trace) == 7 && |trace| == 13
    ensures forall i: nat :: i < 6 ==> trace[2 * i + 1] == Sleep(30)
  {
    assert codes(n - 1) != 0;
    var cmd := Argv(RemoteArgv(opts, host, command));
    AttemptsShape(cmd, codes, n, RetryDelay, 0);
    forall i: nat | i < 6
      ensures trace[2 * i + 1] == Sleep(30)
    {
      AttemptsShape(cmd, codes, n, RetryDelay, i);
    }
  }

  /** After retries run out, the usage error naming the host is raised exactly when the
      last status was 255; any other failure is re-raised unchanged, with the status
      and argument vector of the last attempt. */
  lemma ExhaustionError(host: string, opts: Options, command: string, codes: nat -> int,
                        n: nat, outcome: Outcome, trace: seq<Event>)
    requires SshRun(host, opts, command, codes, n, outcome, trace)
    requires outcome != Returned
    ensures n == 7
    ensures outcome == Raised(SshUnreachable(host)) <==> codes(6) == 255
    ensures codes(6) != 255 ==> outcome == Raised(ProcessFailed(codes(6), RemoteArgv(opts, host, command)))
  {
  }

  /** A first failure is retried whatever its status: not only the connection failure 255. */
  lemma AnyFailureRetried(host: string, opts: Options, command: string, codes: nat -> int,
                          n: nat, outcome: Outcome, trace: seq<Event>)
    requires SshRun(host, opts, command, codes, n, outcome, trace)
    requires codes(0) != 0
    ensures n >= 2
    ensures trace[..3] == [Run(Argv(RemoteArgv(opts, host, command)), codes(0)), Sleep(30),
                           Run(Argv(RemoteArgv(opts, host, command)), codes(1))]
  {
    var cmd := Argv(RemoteArgv(opts, host, command));
    AttemptsShape(cmd, codes, n, RetryDelay, 0);
    AttemptsShape(cmd, codes, n, RetryDelay, 1);
  }
}
