/**
 * `main` (src/main.rs): read the configuration, spawn the program, and
 * either let the child use the shim's own standard streams, or, when a log
 * prefix is configured, create the two log files, relay both output
 * streams through the tee loop and join the two relays; then wait for the
 * child and succeed exactly when it did.
 *
 * What the operating system answers (whether the spawn and the file
 * creations succeed, what the child writes, how the sinks behave, the exit
 * status) is an input, a `World`. The model says which operations the shim
 * attempts, in which order, and how it ends.
 */
module Shim {
  import opened Wrappers
  import opened ShimConfig
  import opened Launch
  import opened Relay

  /** `Stdio::inherit()` or `Stdio::piped()`. */
  datatype Stdio = Inherit | Piped

  /** What is handed to `Command::spawn`. */
  datatype Command = Command(program: string, args: seq<string>, stdin: Stdio, stdout: Stdio, stderr: Stdio)

  /** How the child ended: it exited with a code, or a signal ended it. */
  datatype ExitStatus = Exited(code: int) | Signaled(signal: int)

  /** `ExitStatus::success()`: the child exited with code 0. */
  predicate IsSuccess(status: ExitStatus)
  {
    status == Exited(0)
  }

  /** The operations the shim attempts, in order. */
  datatype Action = Spawn(cmd: Command) | CreateLog(name: string) | JoinRelays | Wait

  /** How the shim ends: normally, or by a panic for one of these reasons. */
  datatype Outcome =
    | Completed
    | ConfigInvalid(error: ConfigError)
    | SpawnFailed(program: string)
    | LogCreateFailed(name: string)
    | RelayFailed
    | WaitFailed
    | ChildFailed(status: ExitStatus)

  /**
   * The answers of the operating system: whether spawning fails, which
   * log files cannot be created, the child's two output streams, the
   * shim's own stdout and stderr, the log files' failure schedules, and the
   * child's exit status (`None` when waiting for it fails).
   */
  datatype World = World(
    spawnFails: bool,
    uncreatable: set<string>,
    childOut: seq<ReadEvent>,
    childErr: seq<ReadEvent>,
    stdout: SinkState,
    stderr: SinkState,
    stdoutLogFaults: seq<Fault>,
    stderrLogFaults: seq<Fault>,
    exit: Option<ExitStatus>)

  datatype Report = Report(actions: seq<Action>, outcome: Outcome)

  /** The relay of the child's stdout to the shim's stdout and to a freshly created, empty log file. */
  function StdoutRelay(w: World): TeeState
  {
    TeeState(w.childOut, [], w.stdout, SinkState([], 0, w.stdoutLogFaults))
  }

  /** The relay of the child's stderr to the shim's stderr and to a freshly created, empty log file. */
  function StderrRelay(w: World): TeeState
  {
    TeeState(w.childErr, [], w.stderr, SinkState([], 0, w.stderrLogFaults))
  }

  /**
   * The command for a configuration: both branches of `main` run the
   * configured program with the same arguments and inherit stdin; stdout
   * and stderr are piped exactly when a log prefix is set.
   */
  function ChildCommand(cfg: Config, argv: seq<string>): (cmd: Command)
    ensures cmd.program == cfg.path && cmd.args == ChildArgs(argv, cfg.args)
    ensures cmd.stdin == Inherit && cmd.stderr == cmd.stdout
    ensures cmd.stdout == Piped <==> cfg.log.Some?
  {
    var out := if cfg.log.Some? then Piped else Inherit;
    Command(cfg.path, ChildArgs(argv, cfg.args), Inherit, out, out)
  }

  /**
   * `child.wait()` and the check of its status: the shim completes exactly
   * when the child exited with code 0, reports any other status, and
   * fails when the wait itself failed.
   */
  function Reap(exit: Option<ExitStatus>): (o: Outcome)
    ensures o == Completed <==> exit == Some(Exited(0))
    ensures o == WaitFailed <==> exit.None?
    ensures o.ChildFailed? <==> exit.Some? && !IsSuccess(exit.value)
    ensures o.ChildFailed? ==> o.status == exit.value
  {
    match exit
    case None => WaitFailed
    case Some(status) => if IsSuccess(status) then Completed else ChildFailed(status)
  }

  /**
   * A run of the shim, with caller arguments `argv` and configuration
   * file `lines`. Nothing happens unless the configuration is accepted;
   * otherwise the first operation spawns the configured command, and the
   * shim completes only after waiting for the child.
   */
  function RunShim(lines: seq<string>, argv: seq<string>, w: World): (r: Report)
    requires w.stdout.Valid() && w.stderr.Valid()
    ensures r.actions == [] <==> Resolve(lines).Failure?
    ensures r.actions != [] ==> r.actions[0] == Spawn(ChildCommand(Resolve(lines).value, argv))
    ensures r.outcome == Completed ==> Wait in r.actions && r.actions[|r.actions| - 1] == Wait
  {
    match Resolve(lines)
    case Failure(e) => Report([], ConfigInvalid(e))
    case Success(cfg) =>
      var cmd := ChildCommand(cfg, argv);
      if w.spawnFails then Report([Spawn(cmd)], SpawnFailed(cfg.path))
      else
        match cfg.log
        case None => Report([Spawn(cmd), Wait], Reap(w.exit))
        case Some(prefix) =>
          var outLog, errLog := StdoutLogName(prefix), StderrLogName(prefix);
          if outLog in w.uncreatable then
            Report([Spawn(cmd), CreateLog(outLog)], LogCreateFailed(outLog))
          else if errLog in w.uncreatable then
            Report([Spawn(cmd), CreateLog(outLog), CreateLog(errLog)], LogCreateFailed(errLog))
          else if Tee(StdoutRelay(w)).1.Failure? || Tee(StderrRelay(w)).1.Failure? then
            Report([Spawn(cmd), CreateLog(outLog), CreateLog(errLog), JoinRelays], RelayFailed)
          else
            Report([Spawn(cmd), CreateLog(outLog), CreateLog(errLog), JoinRelays, Wait], Reap(w.exit))
  }

  /**
   * The shim completes exactly when the configuration is accepted, the
   * spawn succeeds, in logging mode both log files are created and both
   * relays succeed, and the child's exit status is a success.
   */
  lemma RunCompletesIff(lines: seq<string>, argv: seq<string>, w: World)
    requires w.stdout.Valid() && w.stderr.Valid()
    ensures RunShim(lines, argv, w).outcome == Completed <==>
              && Resolve(lines).Success?
              && !w.spawnFails
              && (Resolve(lines).value.log.Some? ==>
                    var prefix := Resolve(lines).value.log.value;
                    && StdoutLogName(prefix) !in w.uncreatable
                    && StderrLogName(prefix) !in w.uncreatable
                    && Tee(StdoutRelay(w)).1.Success?
                    && Tee(StderrRelay(w)).1.Success?)
              && w.exit.Some? && IsSuccess(w.exit.value)
  {
  }

  /** A child that ran but did not succeed makes the shim fail with its status. */
  lemma ChildFailureIsReported(lines: seq<string>, argv: seq<string>, w: World)
    requires w.stdout.Valid() && w.stderr.Valid()
    requires w.exit.Some? && !IsSuccess(w.exit.value)
    ensures RunShim(lines, argv, w).outcome != Completed
    ensures Wait in RunShim(lines, argv, w).actions ==> RunShim(lines, argv, w).outcome == ChildFailed(w.exit.value)
  {
  }

  /**
   * A sidecar file with `path = "/bin/echo"` and `args = "hello"`, run as
   * `shim world`, is accepted and spawns `/bin/echo world hello` with the
   * shim's own streams.
   */
  lemma EchoExample(w: World)
    requires w.stdout.Valid() && w.stderr.Valid()
    ensures Resolve(EchoFile) == Success(Config("/bin/echo", Some("hello"), None))
    ensures RunShim(EchoFile, ["shim", "world"], w).actions[0]
            == Spawn(Command("/bin/echo", ["world", "hello"], Inherit, Inherit, Inherit))
  {
    EchoFileResolves();
    EchoCommand();
  }

  /** The echo configuration, run as `shim world`, runs `/bin/echo world hello`. */
  lemma EchoCommand()
    ensures ChildCommand(Config("/bin/echo", Some("hello"), None), ["shim", "world"])
            == Command("/bin/echo", ["world", "hello"], Inherit, Inherit, Inherit)
  {
    assert ["shim", "world"][1..] == ["world"];
  }

  /** A rejected configuration ends the shim before anything is spawned or created. */
  lemma InvalidConfigSpawnsNothing(lines: seq<string>, argv: seq<string>, w: World)
    requires w.stdout.Valid() && w.stderr.Valid()
    requires Resolve(lines).Failure?
    ensures RunShim(lines, argv, w) == Report([], ConfigInvalid(MissingPath))
  {
  }

  /**
   * With an accepted configuration the first operation is the spawn of the
   * configured program with the caller's arguments (without the program
   * name) followed by the `args` value, in both branches; stdin is always
   * inherited, and stdout and stderr are piped exactly in logging mode.
   */
  lemma SpawnsConfiguredCommand(lines: seq<string>, argv: seq<string>, w: World)
    requires w.stdout.Valid() && w.stderr.Valid()
    requires Resolve(lines).Success?
    ensures var cfg := Resolve(lines).value;
      var actions := RunShim(lines, argv, w).actions;
      && actions != [] && actions[0].Spawn?
      && actions[0].cmd.program == cfg.path
      && actions[0].cmd.args == ChildArgs(argv, cfg.args)
      && actions[0].cmd.stdin == Inherit
      && (actions[0].cmd.stdout == Piped <==> cfg.log.Some?)
      && actions[0].cmd.stderr == actions[0].cmd.stdout
  {
  }

  /**
   * Everything `main` does for an accepted configuration, in order, when
   * no step fails: spawn, then in logging mode create both log files and
   * join the relays, then wait.
   */
  function Plan(cfg: Config, argv: seq<string>): seq<Action>
  {
    var spawn := Spawn(ChildCommand(cfg, argv));
    match cfg.log
    case None => [spawn, Wait]
    case Some(prefix) => [spawn, CreateLog(StdoutLogName(prefix)), CreateLog(StderrLogName(prefix)), JoinRelays, Wait]
  }

  /**
   * The shim carries out a prefix of its plan, stopping at the first step
   * that fails, and it waits for the child exactly when it carried out
   * the whole plan.
   */
  lemma RunFollowsPlan(lines: seq<string>, argv: seq<string>, w: World)
    requires w.stdout.Valid() && w.stderr.Valid()
    requires Resolve(lines).Success?
    ensures var actions, plan := RunShim(lines, argv, w).actions, Plan(Resolve(lines).value, argv);
      && actions != [] && actions <= plan
      && (Wait in actions <==> actions == plan)
  {
    var plan := Plan(Resolve(lines).value, argv);
    assert Wait !in plan[..|plan| - 1];
  }

  /**
   * Spawning comes first, and in logging mode the child is waited for only
   * after both log files were created and both relays were joined; without
   * a log prefix no file is created and nothing is relayed.
   */
  lemma WaitFollowsJoin(lines: seq<string>, argv: seq<string>, w: World)
    requires w.stdout.Valid() && w.stderr.Valid()
    ensures var actions := RunShim(lines, argv, w).actions;
      && (forall i :: 0 < i < |actions| ==> !actions[i].Spawn?)
      && (forall i, j :: 0 <= i < |actions| && 0 <= j < |actions| && actions[i] == JoinRelays && actions[j] == Wait ==> i < j)
      && (Resolve(lines).Success? && Resolve(lines).value.log.Some? && Wait in actions ==>
            var prefix := Resolve(lines).value.log.value;
            actions[1..] == [CreateLog(StdoutLogName(prefix)), CreateLog(StderrLogName(prefix)), JoinRelays, Wait])
      && (Resolve(lines).Success? && Resolve(lines).value.log.None? ==>
            forall i :: 0 <= i < |actions| ==> !actions[i].CreateLog? && actions[i] != JoinRelays)
  {
    if Resolve(lines).Success? {
      RunFollowsPlan(lines, argv, w);
      PlanPrefixOrdered(Resolve(lines).value, argv, RunShim(lines, argv, w).actions);
    }
  }

  /** The order of the operations in any prefix of the plan that waits only at its end. */
  lemma PlanPrefixOrdered(cfg: Config, argv: seq<string>, actions: seq<Action>)
    requires actions <= Plan(cfg, argv) && (Wait in actions ==> actions == Plan(cfg, argv))
    ensures && (forall i :: 0 < i < |actions| ==> !actions[i].Spawn?)
            && (forall i, j :: 0 <= i < |actions| && 0 <= j < |actions| && actions[i] == JoinRelays && actions[j] == Wait ==> i < j)
            && (cfg.log.Some? && Wait in actions ==>
                  actions[1..] == [CreateLog(StdoutLogName(cfg.log.value)), CreateLog(StderrLogName(cfg.log.value)), JoinRelays, Wait])
            && (cfg.log.None? ==> forall i :: 0 <= i < |actions| ==> !actions[i].CreateLog? && actions[i] != JoinRelays)
  {
    var plan := Plan(cfg, argv);
    forall i | 0 <= i < |actions|
      ensures actions[i] == plan[i]
    {
    }
  }

  /**
   * When the shim completes in logging mode, each log file holds exactly
   * what the child wrote to that stream (the file starts empty), the
   * shim's own stream received the same bytes after what it held, and the
   * two file names differ.
   */
  lemma CompletedRunLogsChildOutput(lines: seq<string>, argv: seq<string>, w: World)
    requires w.stdout.Valid() && w.stderr.Valid()
    requires RunShim(lines, argv, w).outcome == Completed
    requires Resolve(lines).Success? && Resolve(lines).value.log.Some?
    ensures Tee(StdoutRelay(w)).0.log.data == Drained(w.childOut)
    ensures Tee(StdoutRelay(w)).0.console.data == w.stdout.data + Drained(w.childOut)
    ensures Tee(StderrRelay(w)).0.log.data == Drained(w.childErr)
    ensures Tee(StderrRelay(w)).0.console.data == w.stderr.data + Drained(w.childErr)
    ensures var prefix := Resolve(lines).value.log.value;
      StdoutLogName(prefix) != StderrLogName(prefix)
  {
    RunCompletesIff(lines, argv, w);
    TeeCopiesStream(StdoutRelay(w));
    TeeCopiesStream(StderrRelay(w));
    LogNamesNeverCoincide(Resolve(lines).value.log.value, Resolve(lines).value.log.value);
  }
}
