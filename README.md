# Training launcher, modelled in Dafny

`launch-script/launch_ec2_trainer.py` drives one daily training run. It stats the day's training input on HDFS and copies it to a date-named folder in S3 with `distcp`. It brings up a Spark cluster and runs three commands on its master over `ssh`, with a retry loop around each. It then polls for a `TRAINING_DONE` file until it appears.

This project models that logic. Every external outcome is an input: the exit status of each process run, and the date the stat reports. Each operation returns how it ended (`Returned`, `Exited(status)` for `sys.exit`, or `Raised(error)` for an exception that propagates) and a trace of events. An event is a process run with its exit status, or a pause of some seconds.

- `wrappers.dfy` (`Wrappers`): `Option`.
- `process.dfy` (`Process`): options, commands, events and outcomes. It also defines the trace of a retried command, `Attempts`: attempt `i` sits at position `2i`, with one pause between consecutive attempts.
- `ssh.dfy` (`Ssh`): the `ssh` option list (`SshArgs`, built by `BuildSshArgs` as the source grows its list), the full argument vector (`Render`) and its inverse (`ParseArgv`). `RunRemote` is the retry loop, proved against the predicate `SshRun`.
- `datestamp.dfy` (`DateStamp`): validated calendar dates and their `YYYYMMDD` stamps. `ParseStamp` is the inverse of `Stamp`.
- `trainer.dfy` (`Trainer`): the staging path and its inverse, `LaunchCopyInput`, `LaunchTrainingJob` and the poll loop `AwaitTraining`. It also holds the main flow `LaunchTrainer`, proved against the predicate `TrainerRun`.

Where the code and its comment disagree, the model follows the code. The comment above `ssh` says "retrying up to five times". The guard `tries > 5` only fires once `tries` is 6, so under sustained failure the loop makes 7 attempts, which is 6 retries. `Ssh.SustainedFailure` proves this. Any non-zero exit status is retried, not only ssh's own 255. Status 255 only decides which error is raised once retries run out.

The file as written fails at several points. At each one the model follows the evident intent:
- `stringify_command` (line 77) is never defined. Every ssh call would raise `NameError` before running anything. The model passes the command string unchanged.
- `stderr` is never imported (lines 44 and 89). It is only where error notices are printed, and the model leaves printing out. Printing the retry notice at line 88 would raise `NameError` on the first failed attempt, so as written no retry ever happens. The model retries as lines 88-91 intend.
- `time` is never imported, so `time.sleep(30)` at line 90 would raise `NameError`. The model records a 30 s pause.
- `UsageError` (line 82) is never defined. The model turns it into the `SshUnreachable(host)` error.
- `sys` is imported (line 6) but has no `sleep`. As written, the first failed done-file check raises `AttributeError` at line 153. The model takes the intended 60 s pause.
- `cluster_name` (line 47) is never defined. It belongs to cluster launch, which is not modelled.
- `opts` inside `launch_training_job` (line 111) is never defined, so the first ssh call there would raise `NameError`. The model passes the options as a parameter.
- `s3_folder` inside `main` (line 145) is never defined. The model passes it as a parameter.
- The format string at line 157 has no value for `{model}`, so formatting it would raise `KeyError`. This copy is listed under "Left out".
- The comment above `ssh` promises five retries, but the code makes six, as described above.
- `opts.user` and `opts.identity_file` are fields of `Options`. `master_nodes[0].public_dns_name` becomes the master's name, passed in directly.

Several behaviours one might expect of such a launcher are not implemented in this file:
- retrying only connection failures;
- passing the dataset date to the trainer;
- skipping the launch when a done marker already exists;
- comparing sizes before staging;
- a run lock.

The model follows the file, so none of these appear.

Other details the model keeps from the code:
- The stat runs on the fixed path `trainout/withpubs_pricer.gz`, while `distcp` copies `opts.input`.
- The stat uses `/usr/bin/hadoop`, while `distcp` uses `opts.hadoop_cmd`.
- Python 2's `strftime` raises for years before 1900. This is the error `YearBefore1900`.
- `master_nodes[0]` on an empty list raises. This is the error `NoMasterNode`.

## Model

| member | source | states |
|---|---|---|
| `Ssh.SshArgs` | launch-script/launch_ec2_trainer.py:58-63 | The ssh options always start with `-o StrictHostKeyChecking=no -o UserKnownHostsFile=/dev/null`. `-i` appears exactly when an identity file is set, followed by that file. Without an identity file nothing else is appended. The length is 4 or 6. |
| `Ssh.BuildSshArgs` | launch-script/launch_ec2_trainer.py:58-63 | Growing the list step by step gives exactly `SshArgs` of the configured identity file. |
| `Ssh.SshCommand` | launch-script/launch_ec2_trainer.py:66-67 | The command is `ssh` followed by the host-key options, 5 or 7 words, and contains `-i` exactly when an identity file is set. |
| `Ssh.Render` | launch-script/launch_ec2_trainer.py:75-77 | An invocation is `ssh`, the host-key options, an optional `-i <file>`, `-t -t`, `user@host` and the command string. It is 9 or 11 words, ending with `-t -t target command`. |
| `Ssh.RemoteArgvParses` | launch-script/launch_ec2_trainer.py:75-77 | This row covers `Ssh.RemoteArgv` and `Ssh.RemoteInvocation`. The vector that runs a command as `opts.user` on a host reads back as the configured identity file, the target `user@host` and the command. |
| `Ssh.RenderParse` | launch-script/launch_ec2_trainer.py:75-77 | Reading back a rendered argument vector gives the same identity file, target and command. |
| `Ssh.ParseRender` | launch-script/launch_ec2_trainer.py:75-77 | Any vector that reads back is exactly the rendering of what was read, so nothing else can be inserted. |
| `Ssh.RunRemote` | launch-script/launch_ec2_trainer.py:71-91 | The retry loop satisfies `SshRun`. It makes 1 to 7 attempts, all with the same argument vector, and every attempt but the last failed. It stops at the first success, or when a failure finds `tries > 5`. It returns after a success. On exhaustion it raises the host error when the last status was 255, and otherwise the last attempt's failure unchanged. The trace is the attempts with a 30 s pause between consecutive ones. |
| `Ssh.SshRunDeterministic` | launch-script/launch_ec2_trainer.py:71-91 | The attempt count, outcome and trace are fully determined by the host, options, command and exit statuses. |
| `Ssh.FirstSuccessStops` | launch-script/launch_ec2_trainer.py:73-77 | A first attempt exiting 0 is the only attempt, and the call returns. |
| `Ssh.ReturnsAtFirstSuccess` | launch-script/launch_ec2_trainer.py:73-79 | If attempt `k` (k < 7) is the first to exit 0, the call returns after exactly `k + 1` attempts. |
| `Ssh.SustainedFailure` | launch-script/launch_ec2_trainer.py:69-91 | With seven non-zero statuses, exactly 7 attempts and 6 pauses of 30 s are made, and the call raises. That is more than the five retries the comment states. |
| `Ssh.ExhaustionError` | launch-script/launch_ec2_trainer.py:79-87 | A call that does not return made 7 attempts. It raises the host error if and only if the seventh status was 255. Otherwise it re-raises that status with the argument vector. |
| `Ssh.AnyFailureRetried` | launch-script/launch_ec2_trainer.py:78-91 | A failed first attempt is retried whatever its status. The trace starts with that attempt, a 30 s pause, then the same invocation again. |
| `Process.AttemptsShape` | launch-script/launch_ec2_trainer.py:88-91 | `n` attempts make `2n-1` events: exactly `n` runs, attempt `i` at position `2i`, and a pause after each attempt but the last. |
| `DateStamp.Stamp` | launch-script/launch_ec2_trainer.py:101 | The `%Y%m%d` stamp of a valid date is exactly 8 decimal digits. |
| `DateStamp.StampRoundTrip` | launch-script/launch_ec2_trainer.py:101 | A date's stamp reads back as that date. |
| `DateStamp.ParseStampSound` | launch-script/launch_ec2_trainer.py:101 | A string that reads back as a date is a valid date's stamp. |
| `DateStamp.StampInjective` | launch-script/launch_ec2_trainer.py:101 | Different dates have different stamps. |
| `Trainer.StagedInputPathLayout` | launch-script/launch_ec2_trainer.py:101-102 | This row covers `Trainer.StagingFolder` (the folder, line 101) and `Trainer.StagedInputPath` (the path, line 102). The staged input path is `s3n://spark.data/daily`, then `/`, then the 8-digit stamp, then `/withpubs_pricer.gz`. |
| `Trainer.StagedPathRoundTrip` | launch-script/launch_ec2_trainer.py:101-102 | The staged input path of a date names that date. |
| `Trainer.StagedDateSound` | launch-script/launch_ec2_trainer.py:101-102 | A path that names a date is that date's staged input path, so two days never share one. |
| `Trainer.LaunchCopyInput` | launch-script/launch_ec2_trainer.py:93-105 | The stat always runs first. A failed stat exits with status 1 and no `distcp` runs. `distcp` runs exactly when the stat succeeded and the year is at least 1900. A failed `distcp` exits with status 1. The step returns only when both succeeded. |
| `Trainer.CopyTargetsInputDay` | launch-script/launch_ec2_trainer.py:101-103 | This row covers `Trainer.CopyCommand`, the `distcp` argument vector at line 103. The copy goes from `opts.input`, via `opts.hadoop_cmd distcp`, to the path that names the date the stat reported. |
| `Trainer.LaunchTrainingJob` | launch-script/launch_ec2_trainer.py:107-117 | With no master node, the launch raises and runs nothing. Otherwise `chmod u+x setup_pricer_data.sh`, `setup_pricer_data.sh` and `run_aws_trainer.sh` run in this order as ssh calls to the first master. The launch stops at the first call that raises, and the outcome and trace are those of the calls made. |
| `Trainer.JobReturnsAfterAllCommands` | launch-script/launch_ec2_trainer.py:107-117 | A launch that returns made all three calls, in order, and each one returned. |
| `Trainer.JobTargetsMaster` | launch-script/launch_ec2_trainer.py:109-117 | Every process a launch runs is an ssh invocation of `user@master_nodes[0]`. Every other event is a 30 s pause. |
| `Trainer.DoneCheckNamesFolder` | launch-script/launch_ec2_trainer.py:150 | This row covers `Trainer.DoneCheck` and `Trainer.DoneMarkerPath`. The check is the shell line `/usr/bin/hadoop fs -stat `, then the folder, then `/TRAINING_DONE`. Two check lines are equal exactly when their folders are. |
| `Trainer.AwaitTraining` | launch-script/launch_ec2_trainer.py:148-154 | The poll loop stops at the first check that exits 0, and every earlier check failed. The trace is the same `hadoop fs -stat <folder>/TRAINING_DONE` check repeated, with a 60 s pause between checks. |
| `Trainer.AwaitedAtFirstSuccess` | launch-script/launch_ec2_trainer.py:149-152 | The wait ends after check `k + 1` if and only if check `k` is the first that succeeds. |
| `Trainer.PollChecksDoneFile` | launch-script/launch_ec2_trainer.py:149-154 | Every run in the poll trace is the stat of the same done file, and every other event is a 60 s pause. The number of runs equals the number of checks. |
| `Trainer.LaunchTrainer` | launch-script/launch_ec2_trainer.py:134-154 | The main flow satisfies `TrainerRun`. It needs a done-file check that eventually succeeds only for runs that reach the poll loop. The copy is skipped when `--skip-copy-input` is set. Otherwise a copy that does not return ends the run. The training launch comes next, and if it does not return it ends the run. Otherwise the flow waits for the done file. The trace is the concatenation of the steps' traces. |
| `Trainer.SkipCopyStartsWithLaunch` | launch-script/launch_ec2_trainer.py:138-145 | With the copy skipped, the first process run is the first ssh attempt of `chmod u+x setup_pricer_data.sh` on the master. |
| `Trainer.FailedStatEndsRun` | launch-script/launch_ec2_trainer.py:94-99 | A failed stat ends the run with status 1 after that stat alone: nothing is copied, launched or polled. |
| `Trainer.FailedCopyEndsRun` | launch-script/launch_ec2_trainer.py:103-105 | A failed `distcp` ends the run with status 1 after the stat and the copy, before any launch. |
| `Trainer.CallReturnsIff` | launch-script/launch_ec2_trainer.py:71-91 | One ssh call returns if and only if one of its first seven attempts exits 0. |
| `Trainer.JobReturnsIff` | launch-script/launch_ec2_trainer.py:107-117 | A launch returns if and only if there is a master node and, for each of the three calls, one of its first seven attempts exits 0. |
| `Trainer.PollOnlyAfterLaunch` | launch-script/launch_ec2_trainer.py:142-154 | The done file is polled only after all three training commands returned. A run returns exactly when polling happened, and its last check exited 0. |
| `DateStamp.StampOfMarchFirst2024` | launch-script/launch_ec2_trainer.py:101 | 2024-03-01 is a valid date and its stamp is `20240301`. |
| `Trainer.FreshDayScenario` | launch-script/launch_ec2_trainer.py:134-154 | For an input dated 2024-03-01 where every process succeeds at once and the done file appears at the third check: the input is copied to `.../20240301/withpubs_pricer.gz`, each training command takes one attempt, and the run returns after 3 checks with 10 events. |

## Left out

- Process execution, `print` output and `run_cmd_ignore`, which nothing calls: exit statuses are inputs and printed text is not modelled.
- Cluster launch (`launch_aws_cluster`, lines 31-55): the region connection, `spark_ec2.launch_cluster`, waiting for ssh readiness and cluster setup are foreign calls. `LaunchTrainer` takes the master nodes' public names as a parameter instead. A failed region connection, which exits with status 1, is therefore not modelled.
- Real sleeping is recorded as `Sleep(30)` and `Sleep(60)` events and takes no time.
- Option parsing (lines 119-132) and parsing the stat output with `strptime` (lines 95-96) are left out. The date arrives as a validated triple. A stat output that does not parse, which raises `ValueError`, is not modelled.
- The model-artifact copy (lines 157-159) is left out. Its format string has no value for `{model}`, so the destination is undefined. The modelled main flow ends when the done file is detected.
- Argument lists given to `stringify_command` are not modelled: every command in this file is a single string, passed through unchanged.
- `Trainer.AwaitTraining` requires that some check for the done file eventually succeeds. The source loops forever otherwise, and a Dafny method must terminate, so runs that never finish are not covered.
- `Trainer.LaunchTrainer` carries the same requirement, for the same reason, but only for runs that reach the poll loop: the copy stage returned, there is a master node, and each training call sees a success within its seven attempts. Runs that end earlier are covered whatever the done-file checks return.
- `s3_folder` in `main` is a parameter of `LaunchTrainer`. It is not tied to the folder `launch_copy_input` computes, because the source never passes that folder back.
