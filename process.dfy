/**
 * What the launcher does to the outside world, as values: the commands it hands to
 * the operating system, the pauses it takes, and how a call ends (normal return,
 * `sys.exit`, or an exception that propagates). Exit statuses of external processes
 * are never computed here; they are inputs supplied by the caller.
 */
module Process {
  import opened Wrappers

  /** The parsed options the launcher reads. `identityFile` and `user` are the ssh
      settings; `input`, `hadoopCmd` and `skipCopyInput` are the script's own flags. */
  datatype Options = Options(
    identityFile: Option<string>,
    user: string,
    input: string,
    hadoopCmd: string,
    skipCopyInput: bool)

  /** A command handed to the operating system: an argument vector (a subprocess call
      with a list) or one line for the shell (a subprocess call with shell=True). */
  datatype Command = Argv(args: seq<string>) | ShellLine(line: string)

  /** One observable step: a process run together with the exit status it returned,
      or a pause of some seconds. */
  datatype Event = Run(command: Command, exitCode: int) | Sleep(seconds: nat)

  /** The exceptions that can escape an operation. */
  datatype Error =
    | SshUnreachable(host: string)                    // the usage error naming the host
    | ProcessFailed(returnCode: int, cmd: seq<string>) // a CalledProcessError, re-raised as is
    | YearBefore1900(year: int)                        // strftime refuses years before 1900
    | NoMasterNode                                     // indexing an empty list of master nodes

  /** How a call ends: it returns, it ends the process with an exit status, or it raises. */
  datatype Outcome = Returned | Exited(status: int) | Raised(error: Error)

  /** The events of `k` failed attempts of `cmd`, each followed by a pause of `delay`
      seconds; attempt `i` (counting from 0) returns `codes(i)`. */
  function FailedRounds(cmd: Command, codes: nat -> int, k: nat, delay: nat): (t: seq<Event>)
    ensures |t| == 2 * k
  {
    if k == 0 then [] else FailedRounds(cmd, codes, k - 1, delay) + [Run(cmd, codes(k - 1)), Sleep(delay)]
  }

  /** The events of `n` attempts of `cmd` with one pause between consecutive attempts
      and none after the last. */
  function Attempts(cmd: Command, codes: nat -> int, n: nat, delay: nat): (t: seq<Event>)
    requires n >= 1
  {
    FailedRounds(cmd, codes, n - 1, delay) + [Run(cmd, codes(n - 1))]
  }

  /** The number of process runs among the events `t`. */
  function RunCount(t: seq<Event>): (c: nat)
    ensures c <= |t|
  {
    if t == [] then 0 else RunCount(t[..|t| - 1]) + (if t[|t| - 1].Run? then 1 else 0)
  }

  lemma {:induction false} RunCountAppend(s: seq<Event>, t: seq<Event>)
    ensures RunCount(s + t) == RunCount(s) + RunCount(t)
    decreases |t|
  {
    if t != [] {
      assert (s + t)[..|s + t| - 1] == s + t[..|t| - 1];
      RunCountAppend(s, t[..|t| - 1]);
    } else {
      assert s + t == s;
    }
  }

  /** Within `k` failed rounds, position 2i holds attempt i and position 2i+1 the pause after it. */
  lemma {:induction false} FailedRoundsAt(cmd: Command, codes: nat -> int, k: nat, delay: nat, i: nat)
    requires i < k
    ensures FailedRounds(cmd, codes, k, delay)[2 * i] == Run(cmd, codes(i))
    ensures FailedRounds(cmd, codes, k, delay)[2 * i + 1] == Sleep(delay)
  {
    if i < k - 1 {
      FailedRoundsAt(cmd, codes, k - 1, delay, i);
    }
  }

  /** `n` attempts consist of exactly `n` runs of the same command, attempt i at position
      2i, each but the last followed by one pause of `delay` seconds, and nothing else. */
  lemma {:induction false} AttemptsShape(cmd: Command, codes: nat -> int, n: nat, delay: nat, i: nat)
    requires 1 <= n && i < n
    ensures |Attempts(cmd, codes, n, delay)| == 2 * n - 1
    ensures RunCount(Attempts(cmd, codes, n, delay)) == n
    ensures Attempts(cmd, codes, n, delay)[2 * i] == Run(cmd, codes(i))
    ensures i < n - 1 ==> Attempts(cmd, codes, n, delay)[2 * i + 1] == Sleep(delay)
  {
    var t := Attempts(cmd, codes, n, delay);
    if i < n - 1 {
      FailedRoundsAt(cmd, codes, n - 1, delay, i);
    }
    FailedRoundsRunCount(cmd, codes, n - 1, delay);
    RunCountAppend(FailedRounds(cmd, codes, n - 1, delay), [Run(cmd, codes(n - 1))]);
    assert RunCount([Run(cmd, codes(n - 1))]) == 1 by {
      assert [Run(cmd, codes(n - 1))][..0] == [];
    }
  }

  lemma {:induction false} FailedRoundsRunCount(cmd: Command, codes: nat -> int, k: nat, delay: nat)
    ensures RunCount(FailedRounds(cmd, codes, k, delay)) == k
  {
    if k > 0 {
      var pair := [Run(cmd, codes(k - 1)), Sleep(delay)];
      FailedRoundsRunCount(cmd, codes, k - 1, delay);
      RunCountAppend(FailedRounds(cmd, codes, k - 1, delay), pair);
      assert pair[..1] == [Run(cmd, codes(k - 1))];
      assert pair[..1][..0] == [];
    }
  }
  /** Every run among `n` attempts is a run of the attempted command; every other event is a pause of `delay` seconds. */
  lemma {:induction false} AttemptsCommands(cmd: Command, codes: nat -> int, n: nat, delay: nat)
    requires n >= 1
    ensures forall e :: e in Attempts(cmd, codes, n, delay) ==> (e.Run? && e.command == cmd) || e == Sleep(delay)
  {
    FailedRoundsCommands(cmd, codes, n - 1, delay);
  }

  lemma {:induction false} FailedRoundsCommands(cmd: Command, codes: nat -> int, k: nat, delay: nat)
    ensures forall e :: e in FailedRounds(cmd, codes, k, delay) ==> (e.Run? && e.command == cmd) || e == Sleep(delay)
  {
    if k > 0 {
      FailedRoundsCommands(cmd, codes, k - 1, delay);
    }
  }
}
