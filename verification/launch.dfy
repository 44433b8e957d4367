/**
 The start of the supervisor: the argument check that either prints usage
 or names the command to run, and the environment the child is given.
 */
module Launch {
  import opened Bags
  import opened EnvList

  /** Exit status after printing the usage line. */
  const UsageExitCode := 1

  /** What the argument check decides. `Usage` carries the program name the
      usage line is printed for; `Panic` is the runtime fault of indexing an
      empty argument vector. */
  datatype Decision =
    | Usage(program: string)
    | Run(command: string, args: seq<string>)
    | Panic

  /** The check as written: fewer than two arguments print usage for
      `args[0]`, which faults when there is no `args[0]` at all. */
  function ParseArgsAsWritten(args: seq<string>): (d: Decision)
    ensures d.Panic? <==> |args| == 0
    ensures d.Usage? <==> |args| == 1
    ensures d.Usage? ==> d.program == args[0]
    ensures d.Run? ==> [args[0], d.command] + d.args == args
  {
    if |args| < 2 then
      if |args| == 0 then Panic else Usage(args[0])
    else
      Run(args[1], args[2..])
  }

  /** The check with an empty argument vector read like an empty program
      name, as Linux itself supplies one: usage exactly when there is no
      command, otherwise the command and its arguments split off. */
  function ParseArgs(args: seq<string>): (d: Decision)
    ensures !d.Panic?
    ensures d.Usage? <==> |args| < 2
    ensures d.Usage? ==> d.program == (if args == [] then "" else args[0])
    ensures d.Run? ==> [args[0], d.command] + d.args == args
  {
    if |args| < 2 then
      Usage(if args == [] then "" else args[0])
    else
      Run(args[1], args[2..])
  }

  /** Any command line with a command is parsed back into that command and
      those arguments. */
  lemma ParseArgsRoundTrip(program: string, command: string, rest: seq<string>)
    ensures ParseArgs([program, command] + rest) == Run(command, rest)
  {
    var args := [program, command] + rest;
    assert args[1] == command && args[2..] == rest;
  }

  /** The two checks differ only on the empty argument vector. */
  lemma ParseArgsAgrees(args: seq<string>)
    requires args != []
    ensures ParseArgsAsWritten(args) == ParseArgs(args)
  {
  }

  /** With no arguments at all the check as written faults where the usage
      line was meant. */
  lemma EmptyArgvPanics()
    ensures ParseArgsAsWritten([]) == Panic
    ensures ParseArgs([]) == Usage("")
  {
  }

  /** Outcome of the credential-store lookup. */
  datatype Secrets = LoadFailed | Loaded(kv: Credentials)

  /** `cmd.Env` as `os/exec` reads it: a nil list means the child inherits
      the supervisor's environment, any other list replaces it. */
  datatype EnvSetting = Inherit | Replace(env: seq<string>)

  predicate OrderFits(secrets: Secrets, order: seq<string>) {
    secrets.Loaded? ==> Enumerates(order, secrets.kv.Keys)
  }

  /** The child's environment. A failed lookup leaves `cmd.Env` unset; a
      successful one sets it to the credential list, which is nil when
      there are no credentials, so the child inherits in both cases and
      otherwise gets exactly one assignment per credential. */
  function ChildEnv(secrets: Secrets, order: seq<string>): (e: EnvSetting)
    requires OrderFits(secrets, order)
    ensures e.Inherit? <==> secrets.LoadFailed? || secrets.kv == map[]
    ensures e.Replace? ==> |e.env| == |secrets.kv| && multiset(e.env) == EnvBag(secrets.kv)
    ensures e.Replace? ==> e.env == MapToEnvList(secrets.kv, order)
  {
    match secrets
    case LoadFailed => Inherit
    case Loaded(kv) =>
      var env := MapToEnvList(kv, order);
      if env == [] then Inherit else Replace(env)
  }

  /** What the supervisor does before any process plumbing. `Fault` is the
      runtime fault of the usage branch reading an argument vector with no
      program name. */
  datatype Startup =
    | Exit(code: int)
    | Fault
    | Spawn(command: string, args: seq<string>, env: EnvSetting)

  /** The child's environment as `Spawn` receives it: inherited exactly when
      the lookup failed or found nothing, otherwise one assignment per
      credential, equal as a bag to the credentials' assignments. */
  ghost predicate SpawnsWith(s: Startup, secrets: Secrets)
    requires s.Spawn?
  {
    && (s.env.Inherit? <==> secrets.LoadFailed? || secrets.kv == map[])
    && (s.env.Replace? ==> |s.env.env| == |secrets.kv| && multiset(s.env.env) == EnvBag(secrets.kv))
  }

  /** Start-up as written: the empty argument vector faults, a program name
      alone prints usage and exits with status 1, and otherwise the command
      is spawned with its arguments and the environment derived from the
      credentials. No child is started unless a command is given. */
  function Start(args: seq<string>, secrets: Secrets, order: seq<string>): (s: Startup)
    requires OrderFits(secrets, order)
    ensures s.Fault? <==> |args| == 0
    ensures s.Exit? <==> |args| == 1
    ensures s.Exit? ==> s.code == UsageExitCode
    ensures s.Spawn? ==> s.command == args[1] && s.args == args[2..]
    ensures s.Spawn? ==> SpawnsWith(s, secrets)
    ensures s.Spawn? && secrets.Loaded? && secrets.kv != map[] ==> s.env == Replace(MapToEnvList(secrets.kv, order))
  {
    match ParseArgsAsWritten(args)
    case Panic => Fault
    case Usage(_) => Exit(UsageExitCode)
    case Run(command, rest) => Spawn(command, rest, ChildEnv(secrets, order))
  }

  /** Start-up with the corrected argument check: usage and status 1 exactly
      when no command is given, never a fault. */
  function StartCorrected(args: seq<string>, secrets: Secrets, order: seq<string>): (s: Startup)
    requires OrderFits(secrets, order)
    ensures !s.Fault?
    ensures s.Exit? <==> |args| < 2
    ensures s.Exit? ==> s.code == UsageExitCode
    ensures s.Spawn? ==> s.command == args[1] && s.args == args[2..]
    ensures s.Spawn? ==> SpawnsWith(s, secrets)
    ensures s.Spawn? && secrets.Loaded? && secrets.kv != map[] ==> s.env == Replace(MapToEnvList(secrets.kv, order))
  {
    match ParseArgs(args)
    case Usage(_) => Exit(UsageExitCode)
    case Run(command, rest) => Spawn(command, rest, ChildEnv(secrets, order))
    case Panic => assert false; Exit(UsageExitCode)
  }

  /** The written and the corrected start-up differ only on the empty
      argument vector, where one faults and the other exits with status 1. */
  lemma StartAgrees(args: seq<string>, secrets: Secrets, order: seq<string>)
    requires OrderFits(secrets, order)
    ensures args != [] ==> Start(args, secrets, order) == StartCorrected(args, secrets, order)
    ensures Start([], secrets, order) == Fault
    ensures StartCorrected([], secrets, order) == Exit(UsageExitCode)
  {
  }
}
