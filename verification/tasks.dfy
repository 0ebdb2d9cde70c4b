/**
 * The task classes of `fabric_aws_lambda/tasks.py`, with the machine they
 * run on.
 *
 * `Host` stands for what Fabric keeps for the local machine: `local` records
 * each command in the host's trace together with the directory `lcd` has
 * set and the variables `shell_env` has set; which commands exit non-zero
 * and which directories exist are fixed when the host is made. A task
 * method returns `false` where the Python code raises (a command that
 * failed), and runs nothing after that.
 *
 * Every task's `Run` is `BaseTask.run`: pre_task, run_main, post_task; its
 * postcondition ties the new trace to `RunTrace`, whose order is proved in
 * `Lifecycle.LifecycleOrder`.
 */
module Tasks {
  import opened Wrappers
  import opened Template
  import opened Lifecycle
  import opened Commands

  class Host {
    /** Everything that ran, in order. */
    var trace: seq<Event>
    /** The directory set by `lcd`; None: the current one. */
    var dir: Option<string>
    /** The variables set by `shell_env`. */
    var env: map<string, string>
    /** The calls that exit non-zero. */
    const failing: set<Call>
    /** The directories that exist, with their entries (`os.listdir`). */
    const listing: map<string, seq<string>>

    constructor (failing: set<Call>, listing: map<string, seq<string>>)
      ensures trace == [] && dir == None && env == map[]
      ensures this.failing == failing && this.listing == listing
    {
      trace := [];
      dir := None;
      env := map[];
      this.failing := failing;
      this.listing := listing;
    }

    /** The call `local(command, capture)` makes here and now. */
    function Here(command: string, capture: bool): Call
      reads this
    {
      Call(command, dir, env, capture)
    }

    /** Fabric's `local`: runs the command in the current context; `ok` is false when it raised. */
    method Local(command: string, capture: bool) returns (ok: bool)
      modifies this
      ensures trace == old(trace) + [Shell(old(Here(command, capture)))]
      ensures dir == old(dir) && env == old(env)
      ensures ok <==> Here(command, capture) !in failing
    {
      trace := trace + [Shell(Call(command, dir, env, capture))];
      ok := Call(command, dir, env, capture) !in failing;
    }

    /** A lifecycle hook starts; the hooks themselves do nothing. */
    method Mark(phase: Phase)
      modifies this
      ensures trace == old(trace) + [Enter(phase)]
      ensures dir == old(dir) && env == old(env)
    {
      trace := trace + [Enter(phase)];
    }

    /** `os.path.exists(path) and os.listdir(path)`: an existing directory with at least one entry. */
    predicate HasEntries(path: string) {
      path in listing && listing[path] != []
    }
  }

  // ---------------------------------------------------------------------------
  // SetupTask

  function SetupCalls(requirements: string, libPath: string, dir: Option<string>, env: map<string, string>)
    : seq<Call>
  {
    [Call(SetupLine(requirements, libPath), dir, env, false)]
  }

  class SetupTask {
    const name: string := "setup"
    const host: Host
    const requirements: string
    const libPath: string
    const installPrefix: string
    const tempdir: string

    /** `tempdir` is what `tempfile.gettempdir()` returns. */
    constructor (host: Host, tempdir: string, requirements: string := "requirements.txt", libPath: string := "./lib",
                 installPrefix: string := "./local")
      ensures this.host == host && this.requirements == requirements && this.libPath == libPath
      ensures this.installPrefix == installPrefix && this.tempdir == tempdir
    {
      this.host := host;
      this.requirements := requirements;
      this.libPath := libPath;
      this.installPrefix := installPrefix;
      this.tempdir := tempdir;
    }

    method InstallPythonModules() returns (ok: bool)
      modifies host
      ensures host.trace == old(host.trace) + Shells(SetupCalls(requirements, libPath, old(host.dir), old(host.env)))
      ensures host.dir == old(host.dir) && host.env == old(host.env)
      ensures ok <==> Succeeds(SetupCalls(requirements, libPath, host.dir, host.env), host.failing)
    {
      var options := SetupOptions(requirements, libPath);
      var command := ["pip install --upgrade", "-r " + Field("requirements"), "-t " + Field("lib_path")];
      assert command == Spelled(SetupCommand);
      SetupComposes(requirements, libPath);
      var line := Compose(command, options);
      ok := host.Local(line.value, false);
      assert Shells(SetupCalls(requirements, libPath, old(host.dir), old(host.env)))
          == [Shell(Call(SetupLine(requirements, libPath), old(host.dir), old(host.env), false))];
    }

    method RunMain() returns (ok: bool)
      modifies host
      ensures host.trace
           == old(host.trace) + MainPhase(SetupCalls(requirements, libPath, old(host.dir), old(host.env)), host.failing)
      ensures host.dir == old(host.dir) && host.env == old(host.env)
      ensures ok <==> Succeeds(SetupCalls(requirements, libPath, host.dir, host.env), host.failing)
    {
      var calls := SetupCalls(requirements, libPath, host.dir, host.env);
      host.Mark(Main);
      ok := InstallPythonModules();
      assert Attempted(calls, host.failing) == calls;
    }

    method Run() returns (ok: bool)
      modifies host
      ensures host.trace
           == old(host.trace) + RunTrace(SetupCalls(requirements, libPath, old(host.dir), old(host.env)), host.failing)
      ensures host.dir == old(host.dir) && host.env == old(host.env)
      ensures ok <==> Succeeds(SetupCalls(requirements, libPath, host.dir, host.env), host.failing)
    {
      host.Mark(Pre);
      ok := RunMain();
      if ok {
        host.Mark(Post);
      }
    }
  }

  // ---------------------------------------------------------------------------
  // InvokeTask

  /** `python-lambda-local`, with the library directory on PYTHONPATH. */
  function InvokeCalls(options: Options, dir: Option<string>, env: map<string, string>): seq<Call>
    requires InvokeKeys <= options.Keys
  {
    [Call(InvokeLine(options), dir, env["PYTHONPATH" := Render(options["lib_path"])], false)]
  }

  class InvokeTask {
    const name: string := "invoke"
    const host: Host
    var options: Options

    predicate Valid()
      reads this
    {
      InvokeKeys <= options.Keys
    }

    constructor (host: Host, lambdaHandler: string := "lambda_handler", lambdaFile: string := "lambda_function.py",
                 eventFile: string := "event.json", libPath: string := "./lib", timeout: Value := Int(3))
      ensures this.host == host && options == InvokeOptions(lambdaHandler, lambdaFile, eventFile, libPath, timeout)
      ensures Valid()
    {
      this.host := host;
      options := map["lambda_handler" := Str(lambdaHandler), "lambda_file" := Str(lambdaFile),
                     "event_file" := Str(eventFile), "lib_path" := Str(libPath), "timeout" := timeout];
    }

    /**
     * A given event file replaces the stored one for this and later calls;
     * PYTHONPATH is set for the one command and restored afterwards.
     */
    method Invoke(eventFile: Option<string>) returns (ok: bool)
      requires Valid()
      modifies this, host
      ensures Valid() && options == Override(old(options), "event_file", eventFile)
      ensures host.trace == old(host.trace) + Shells(InvokeCalls(options, old(host.dir), old(host.env)))
      ensures host.dir == old(host.dir) && host.env == old(host.env)
      ensures ok <==> Succeeds(InvokeCalls(options, host.dir, host.env), host.failing)
    {
      if eventFile.Some? {
        options := options["event_file" := Str(eventFile.value)];
      }
      var saved := host.env;
      host.env := host.env["PYTHONPATH" := Render(options["lib_path"])];
      var command := ["python-lambda-local", "-t " + Field("timeout"), "-l " + Field("lib_path"),
                      "-f " + Field("lambda_handler"), Field("lambda_file"), Field("event_file")];
      assert "" + Field("lambda_file") == Field("lambda_file") && "" + Field("event_file") == Field("event_file");
      assert command == Spelled(InvokeCommand);
      InvokeComposes(options);
      ok := host.Local(Compose(command, options).value, false);
      host.env := saved;
    }

    method RunMain(eventFile: Option<string>) returns (ok: bool)
      requires Valid()
      modifies this, host
      ensures Valid() && options == Override(old(options), "event_file", eventFile)
      ensures host.trace == old(host.trace) + MainPhase(InvokeCalls(options, old(host.dir), old(host.env)), host.failing)
      ensures host.dir == old(host.dir) && host.env == old(host.env)
      ensures ok <==> Succeeds(InvokeCalls(options, host.dir, host.env), host.failing)
    {
      host.Mark(Main);
      ok := Invoke(eventFile);
      assert Attempted(InvokeCalls(options, host.dir, host.env), host.failing) == InvokeCalls(options, host.dir, host.env);
    }

    method Run(eventFile: Option<string>) returns (ok: bool)
      requires Valid()
      modifies this, host
      ensures Valid() && options == Override(old(options), "event_file", eventFile)
      ensures host.trace == old(host.trace) + RunTrace(InvokeCalls(options, old(host.dir), old(host.env)), host.failing)
      ensures host.dir == old(host.dir) && host.env == old(host.env)
      ensures ok <==> Succeeds(InvokeCalls(options, host.dir, host.env), host.failing)
    {
      host.Mark(Pre);
      ok := RunMain(eventFile);
      if ok {
        host.Mark(Post);
      }
    }
  }

  // ---------------------------------------------------------------------------
  // MakeZipTask

  /**
   * Remove the old zip file, zip the current directory, then zip the
   * library directory into the same file from inside it, when it exists
   * and is not empty.
   */
  function MakeZipCalls(zipFile: string, excludeFile: string, libPath: string, libHasEntries: bool,
                        dir: Option<string>, env: map<string, string>): seq<Call>
  {
    [Call(RemoveZipLine(zipFile), dir, env, false), Call(ZipLine(zipFile, excludeFile), dir, env, false)]
      + (if libHasEntries then [Call(ZipLine(zipFile, excludeFile), Some(libPath), env, false)] else [])
  }

  /** How many of the calls run `command`. */
  function Runs(calls: seq<Call>, command: string): nat
    decreases |calls|
  {
    if calls == [] then 0 else (if calls[0].command == command then 1 else 0) + Runs(calls[1..], command)
  }

  /**
   * The zip file is removed first and only once; it is then zipped once in
   * the current directory, and a second time, inside the library directory,
   * exactly when that directory exists and has entries.
   */
  lemma MakeZipOrder(zipFile: string, excludeFile: string, libPath: string, libHasEntries: bool,
                     dir: Option<string>, env: map<string, string>)
    ensures var calls := MakeZipCalls(zipFile, excludeFile, libPath, libHasEntries, dir, env);
      && calls[0].command == RemoveZipLine(zipFile) && calls[0].dir == dir
      && Runs(calls, RemoveZipLine(zipFile)) == 1
      && Runs(calls, ZipLine(zipFile, excludeFile)) == (if libHasEntries then 2 else 1)
      && |calls| == (if libHasEntries then 3 else 2)
      && calls[1].command == ZipLine(zipFile, excludeFile) && calls[1].dir == dir
      && (libHasEntries ==> calls[2].command == ZipLine(zipFile, excludeFile) && calls[2].dir == Some(libPath))
  {
    var calls := MakeZipCalls(zipFile, excludeFile, libPath, libHasEntries, dir, env);
    var rm, zip := RemoveZipLine(zipFile), ZipLine(zipFile, excludeFile);
    assert rm[0] == 'r' && zip[0] == 'z';
    var rest := calls[1..][1..];
    assert rest == (if libHasEntries then [Call(zip, Some(libPath), env, false)] else []);
    assert Runs(rest, rm) == 0 && Runs(rest, zip) == |rest| by {
      if libHasEntries {
        assert rest[1..] == [];
      }
    }
  }

  /** What `run_main` records when the removal, the first zip and the optional library zip are issued in turn. */
  function ZipShells(rm: Call, zip: Call, lib: seq<Call>, failing: set<Call>): seq<Event> {
    if rm in failing then [Shell(rm)]
    else if zip in failing then [Shell(rm), Shell(zip)]
    else [Shell(rm), Shell(zip)] + Shells(lib)
  }

  /** Whether none of the calls of `run_main` raised. */
  predicate ZipOk(rm: Call, zip: Call, lib: seq<Call>, failing: set<Call>) {
    rm !in failing && zip !in failing && (lib == [] || lib[0] !in failing)
  }

  /** The calls of `run_main`: each runs only when the ones before it did not raise. */
  lemma MakeZipSteps(rm: Call, zip: Call, lib: seq<Call>, failing: set<Call>)
    requires |lib| <= 1
    ensures Shells(Attempted([rm, zip] + lib, failing)) == ZipShells(rm, zip, lib, failing)
    ensures Succeeds([rm, zip] + lib, failing) <==> ZipOk(rm, zip, lib, failing)
  {
    assert [rm, zip] + lib == [rm] + ([zip] + lib);
    ShellsStep(rm, [zip] + lib, failing);
    ShellsStep(zip, lib, failing);
    AtMostOne(lib, failing);
  }

  /** What `run` records around the calls of `run_main`. */
  lemma MakeZipRun(rm: Call, zip: Call, lib: seq<Call>, failing: set<Call>)
    requires |lib| <= 1
    ensures RunTrace([rm, zip] + lib, failing)
      == [Enter(Pre), Enter(Main)] + ZipShells(rm, zip, lib, failing) + (if ZipOk(rm, zip, lib, failing) then [Enter(Post)] else [])
    ensures Succeeds([rm, zip] + lib, failing) <==> ZipOk(rm, zip, lib, failing)
  {
    MakeZipSteps(rm, zip, lib, failing);
  }

  lemma AtMostOne(calls: seq<Call>, failing: set<Call>)
    requires |calls| <= 1
    ensures Attempted(calls, failing) == calls
    ensures Succeeds(calls, failing) <==> calls == [] || calls[0] !in failing
  {
    if calls != [] {
      assert calls[1..] == [];
    }
  }

  class MakeZipTask {
    const name: string := "makezip"
    const host: Host
    const zipFile: string
    const excludeFile: string
    const libPath: string

    /** `realPath` is `os.path.realpath` on the machine the task runs on. */
    constructor (host: Host, realPath: string -> string, zipFile: string := "lambda_function.zip",
                 excludeFile: string := "exclude.lst", libPath: string := "./lib")
      ensures this.host == host && this.zipFile == zipFile && this.excludeFile == realPath(excludeFile)
      ensures this.libPath == libPath
    {
      this.host := host;
      this.zipFile := zipFile;
      this.excludeFile := realPath(excludeFile);
      this.libPath := libPath;
    }

    function Calls(dir: Option<string>, env: map<string, string>): seq<Call> {
      MakeZipCalls(zipFile, excludeFile, libPath, host.HasEntries(libPath), dir, env)
    }

    /** The library zip, issued from inside the library directory when that has entries. */
    function LibCalls(env: map<string, string>): seq<Call> {
      if host.HasEntries(libPath) then [Call(ZipLine(zipFile, excludeFile), Some(libPath), env, false)] else []
    }

    method RemoveZipFile() returns (ok: bool)
      modifies host
      ensures host.trace == old(host.trace) + [Shell(Call(RemoveZipLine(zipFile), host.dir, host.env, false))]
      ensures host.dir == old(host.dir) && host.env == old(host.env)
      ensures ok <==> Call(RemoveZipLine(zipFile), host.dir, host.env, false) !in host.failing
    {
      RemoveZipFormats(zipFile);
      ok := host.Local(Format(RemoveZipTemplate, [Str(zipFile)], map[]).value, false);
    }

    method Makezip() returns (ok: bool)
      modifies host
      ensures host.trace == old(host.trace) + [Shell(Call(ZipLine(zipFile, excludeFile), host.dir, host.env, false))]
      ensures host.dir == old(host.dir) && host.env == old(host.env)
      ensures ok <==> Call(ZipLine(zipFile, excludeFile), host.dir, host.env, false) !in host.failing
    {
      var options := ZipOptions(zipFile, excludeFile);
      ZipFormats(zipFile, excludeFile);
      ok := host.Local(Format(ZipTemplate, [], options).value, false);
    }

    method MakezipBasepath() returns (ok: bool)
      modifies host
      ensures host.trace == old(host.trace) + [Shell(Call(ZipLine(zipFile, excludeFile), host.dir, host.env, false))]
      ensures host.dir == old(host.dir) && host.env == old(host.env)
      ensures ok <==> Call(ZipLine(zipFile, excludeFile), host.dir, host.env, false) !in host.failing
    {
      ok := Makezip();
    }

    /** Zips the library directory from inside it, unless it is missing or empty; the directory is restored. */
    method MakezipPythonModules() returns (ok: bool)
      modifies host
      ensures var zip := Call(ZipLine(zipFile, excludeFile), Some(libPath), host.env, false);
        && host.trace == old(host.trace) + (if host.HasEntries(libPath) then [Shell(zip)] else [])
        && (ok <==> !host.HasEntries(libPath) || zip !in host.failing)
      ensures host.dir == old(host.dir) && host.env == old(host.env)
    {
      if !(libPath in host.listing) || host.listing[libPath] == [] {
        return true;
      }
      var saved := host.dir;
      host.dir := Some(libPath);
      ok := Makezip();
      host.dir := saved;
    }

    method RunMain() returns (ok: bool)
      modifies host
      ensures var rm, zip := Call(RemoveZipLine(zipFile), old(host.dir), old(host.env), false),
                             Call(ZipLine(zipFile, excludeFile), old(host.dir), old(host.env), false);
        && host.trace == old(host.trace) + [Enter(Main)] + ZipShells(rm, zip, LibCalls(old(host.env)), host.failing)
        && (ok <==> ZipOk(rm, zip, LibCalls(old(host.env)), host.failing))
      ensures host.dir == old(host.dir) && host.env == old(host.env)
    {
      host.Mark(Main);
      ok := RemoveZipFile();
      if ok {
        ok := MakezipBasepath();
        if ok {
          ok := MakezipPythonModules();
        }
      }
    }

    method Run() returns (ok: bool)
      modifies host
      ensures host.trace == old(host.trace) + RunTrace(Calls(old(host.dir), old(host.env)), host.failing)
      ensures host.dir == old(host.dir) && host.env == old(host.env)
      ensures ok <==> Succeeds(Calls(host.dir, host.env), host.failing)
    {
      ghost var t0, d0, e0 := host.trace, host.dir, host.env;
      ghost var rm := Call(RemoveZipLine(zipFile), d0, e0, false);
      ghost var zip := Call(ZipLine(zipFile, excludeFile), d0, e0, false);
      ghost var lib := LibCalls(e0);
      assert Calls(d0, e0) == [rm, zip] + lib;
      MakeZipRun(rm, zip, lib, host.failing);
      host.Mark(Pre);
      ok := RunMain();
      if ok {
        host.Mark(Post);
      }
      assert host.trace == t0 + ([Enter(Pre), Enter(Main)] + ZipShells(rm, zip, lib, host.failing)
                                 + (if ok then [Enter(Post)] else []));
    }
  }

  // ---------------------------------------------------------------------------
  // AWSLambdaGetConfigTask

  /** `aws lambda get-function-configuration`, with its output captured. */
  function GetConfigCalls(options: Options, dir: Option<string>, env: map<string, string>): seq<Call>
    requires "function_name" in options
  {
    [Call(GetConfigText(Render(options["function_name"]), Lookup(options, "qualifier")), dir, env, true)]
  }

  class AWSLambdaGetConfigTask {
    const name: string := "aws-getconfig"
    const host: Host
    var options: Options

    predicate Valid()
      reads this
    {
      "function_name" in options
    }

    /** Stores options that `Create` has checked. */
    constructor (host: Host, options: Options)
      requires "function_name" in options
      ensures this.host == host && this.options == options && Valid()
    {
      this.host := host;
      this.options := options;
    }

    /** `AWSLambdaGetConfigTask(function_name, qualifier)`: raises when no function name is given. */
    static method Create(host: Host, functionName: Option<string>, qualifier: Option<string> := None)
      returns (r: Result<AWSLambdaGetConfigTask, TaskError>)
      ensures r.Err? <==> functionName.None?
      ensures r.Err? ==> r.error == FunctionNameRequired
      ensures r.Ok? ==> fresh(r.value) && r.value.host == host && r.value.Valid()
                        && r.value.options == GetConfigOptions(functionName, qualifier).value
    {
      var options := GetConfigOptions(functionName, qualifier);
      if options.Err? {
        return Err(options.error);
      }
      var task := new AWSLambdaGetConfigTask(host, options.value);
      return Ok(task);
    }

    /** A given function name replaces the stored one for this and later calls. */
    method GetFunctionConfig(functionName: Option<string>) returns (ok: bool)
      requires Valid()
      modifies this, host
      ensures Valid() && options == Override(old(options), "function_name", functionName)
      ensures host.trace == old(host.trace) + Shells(GetConfigCalls(options, old(host.dir), old(host.env)))
      ensures host.dir == old(host.dir) && host.env == old(host.env)
      ensures ok <==> Succeeds(GetConfigCalls(options, host.dir, host.env), host.failing)
    {
      if functionName.Some? {
        options := options["function_name" := Str(functionName.value)];
      }
      var command := ["aws lambda get-function-configuration", "--function-name " + Field("function_name")];
      if "qualifier" in options {
        command := command + ["--qualifier " + Field("qualifier")];
      }
      assert command == Spelled(GetConfigCommand("qualifier" in options));
      GetConfigComposes(options);
      ok := host.Local(Compose(command, options).value, true);
    }

    method RunMain(functionName: Option<string>) returns (ok: bool)
      requires Valid()
      modifies this, host
      ensures Valid() && options == Override(old(options), "function_name", functionName)
      ensures host.trace == old(host.trace) + MainPhase(GetConfigCalls(options, old(host.dir), old(host.env)), host.failing)
      ensures host.dir == old(host.dir) && host.env == old(host.env)
      ensures ok <==> Succeeds(GetConfigCalls(options, host.dir, host.env), host.failing)
    {
      host.Mark(Main);
      ok := GetFunctionConfig(functionName);
      AtMostOne(GetConfigCalls(options, host.dir, host.env), host.failing);
    }

    method Run(functionName: Option<string>) returns (ok: bool)
      requires Valid()
      modifies this, host
      ensures Valid() && options == Override(old(options), "function_name", functionName)
      ensures host.trace == old(host.trace) + RunTrace(GetConfigCalls(options, old(host.dir), old(host.env)), host.failing)
      ensures host.dir == old(host.dir) && host.env == old(host.env)
      ensures ok <==> Succeeds(GetConfigCalls(options, host.dir, host.env), host.failing)
    {
      host.Mark(Pre);
      ok := RunMain(functionName);
      if ok {
        host.Mark(Post);
      }
    }
  }

  // ---------------------------------------------------------------------------
  // AWSLambdaInvokeTask

  /** `aws lambda invoke`, with its output captured. */
  function AwsInvokeCalls(options: Options, dir: Option<string>, env: map<string, string>): seq<Call>
    requires AwsInvokeKeys <= options.Keys
  {
    [Call(AwsInvokeLine(options), dir, env, true)]
  }

  class AWSLambdaInvokeTask {
    const name: string := "aws-invoke"
    const host: Host
    var options: Options

    predicate Valid()
      reads this
    {
      AwsInvokeKeys <= options.Keys
    }

    /** Stores options that `Create` has checked. */
    constructor (host: Host, options: Options)
      requires AwsInvokeKeys <= options.Keys
      ensures this.host == host && this.options == options && Valid()
    {
      this.host := host;
      this.options := options;
    }

    /**
     * `AWSLambdaInvokeTask(function_name, payload, qualifier)`: raises when no
     * function name is given; `tempDir` is what `tempfile.gettempdir()` returns.
     */
    static method Create(host: Host, functionName: Option<string>, tempDir: string,
                         payload: string := "file://event.json", qualifier: Option<string> := None)
      returns (r: Result<AWSLambdaInvokeTask, TaskError>)
      ensures r.Err? <==> functionName.None?
      ensures r.Err? ==> r.error == FunctionNameRequired
      ensures r.Ok? ==> fresh(r.value) && r.value.host == host && r.value.Valid()
                        && r.value.options == AwsInvokeOptions(functionName, payload, qualifier, tempDir).value
    {
      var options := AwsInvokeOptions(functionName, payload, qualifier, tempDir);
      if options.Err? {
        return Err(options.error);
      }
      var task := new AWSLambdaInvokeTask(host, options.value);
      return Ok(task);
    }

    /** A given function name replaces the stored one for this and later calls. */
    method Invoke(functionName: Option<string>) returns (ok: bool)
      requires Valid()
      modifies this, host
      ensures Valid() && options == Override(old(options), "function_name", functionName)
      ensures host.trace == old(host.trace) + Shells(AwsInvokeCalls(options, old(host.dir), old(host.env)))
      ensures host.dir == old(host.dir) && host.env == old(host.env)
      ensures ok <==> Succeeds(AwsInvokeCalls(options, host.dir, host.env), host.failing)
    {
      if functionName.Some? {
        options := options["function_name" := Str(functionName.value)];
      }
      var command := ["aws lambda invoke", "--function-name " + Field("function_name"),
                      "--invocation-type " + Field("invocation_type"), "--log-type " + Field("log_type"),
                      "--payload " + Field("payload")];
      assert command == Spelled(AwsInvokeBase);
      if "qualifier" in options {
        command := command + ["--qualifier " + Field("qualifier")];
      }
      command := command + [Field("outfile")];
      assert "" + Field("outfile") == Field("outfile");
      assert command == Spelled(AwsInvokeCommand("qualifier" in options));
      AwsInvokeComposes(options);
      ok := host.Local(Compose(command, options).value, true);
    }

    method RunMain(functionName: Option<string>) returns (ok: bool)
      requires Valid()
      modifies this, host
      ensures Valid() && options == Override(old(options), "function_name", functionName)
      ensures host.trace == old(host.trace) + MainPhase(AwsInvokeCalls(options, old(host.dir), old(host.env)), host.failing)
      ensures host.dir == old(host.dir) && host.env == old(host.env)
      ensures ok <==> Succeeds(AwsInvokeCalls(options, host.dir, host.env), host.failing)
    {
      host.Mark(Main);
      ok := Invoke(functionName);
      AtMostOne(AwsInvokeCalls(options, host.dir, host.env), host.failing);
    }

    method Run(functionName: Option<string>) returns (ok: bool)
      requires Valid()
      modifies this, host
      ensures Valid() && options == Override(old(options), "function_name", functionName)
      ensures host.trace == old(host.trace) + RunTrace(AwsInvokeCalls(options, old(host.dir), old(host.env)), host.failing)
      ensures host.dir == old(host.dir) && host.env == old(host.env)
      ensures ok <==> Succeeds(AwsInvokeCalls(options, host.dir, host.env), host.failing)
    {
      host.Mark(Pre);
      ok := RunMain(functionName);
      if ok {
        host.Mark(Post);
      }
    }
  }

  // ---------------------------------------------------------------------------
  // AWSLambdaUpdateCodeTask

  /** `aws lambda update-function-code`, with its output captured. */
  function UpdateCodeCalls(options: Options, dir: Option<string>, env: map<string, string>): seq<Call>
    requires "function_name" in options && "zip_file" in options
  {
    [Call(UpdateCodeText(Render(options["function_name"]), Render(options["zip_file"])), dir, env, true)]
  }

  class AWSLambdaUpdateCodeTask {
    const name: string := "aws-updatecode"
    const host: Host
    var options: Options

    predicate Valid()
      reads this
    {
      "function_name" in options && "zip_file" in options
    }

    /** Stores options that `Create` has checked. */
    constructor (host: Host, options: Options)
      requires "function_name" in options && "zip_file" in options
      ensures this.host == host && this.options == options && Valid()
    {
      this.host := host;
      this.options := options;
    }

    /** `AWSLambdaUpdateCodeTask(function_name, zip_file)`: raises when no function name is given. */
    static method Create(host: Host, functionName: Option<string>, zipFile: string := "fileb://lambda_function.zip")
      returns (r: Result<AWSLambdaUpdateCodeTask, TaskError>)
      ensures r.Err? <==> functionName.None?
      ensures r.Err? ==> r.error == FunctionNameRequired
      ensures r.Ok? ==> fresh(r.value) && r.value.host == host && r.value.Valid()
                        && r.value.options == UpdateCodeOptions(functionName, zipFile).value
    {
      var options := UpdateCodeOptions(functionName, zipFile);
      if options.Err? {
        return Err(options.error);
      }
      var task := new AWSLambdaUpdateCodeTask(host, options.value);
      return Ok(task);
    }

    /** A given function name replaces the stored one for this and later calls. */
    method RunMain(functionName: Option<string>) returns (ok: bool)
      requires Valid()
      modifies this, host
      ensures Valid() && options == Override(old(options), "function_name", functionName)
      ensures host.trace == old(host.trace) + MainPhase(UpdateCodeCalls(options, old(host.dir), old(host.env)), host.failing)
      ensures host.dir == old(host.dir) && host.env == old(host.env)
      ensures ok <==> Succeeds(UpdateCodeCalls(options, host.dir, host.env), host.failing)
    {
      host.Mark(Main);
      if functionName.Some? {
        options := options["function_name" := Str(functionName.value)];
      }
      var command := ["aws lambda update-function-code", "--function-name " + Field("function_name"),
                      "--zip-file " + Field("zip_file")];
      assert command == Spelled(UpdateCodeCommand);
      UpdateCodeComposes(options);
      ok := host.Local(Compose(command, options).value, true);
      AtMostOne(UpdateCodeCalls(options, host.dir, host.env), host.failing);
    }

    method Run(functionName: Option<string>) returns (ok: bool)
      requires Valid()
      modifies this, host
      ensures Valid() && options == Override(old(options), "function_name", functionName)
      ensures host.trace == old(host.trace) + RunTrace(UpdateCodeCalls(options, old(host.dir), old(host.env)), host.failing)
      ensures host.dir == old(host.dir) && host.env == old(host.env)
      ensures ok <==> Succeeds(UpdateCodeCalls(options, host.dir, host.env), host.failing)
    {
      host.Mark(Pre);
      ok := RunMain(functionName);
      if ok {
        host.Mark(Post);
      }
    }
  }
}
