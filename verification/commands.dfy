/**
 * What each task hands to the shell: its option map, its list of command
 * fragments and the command line that `' '.join(command).format(**options)`
 * makes of them. Each `...Text` and `...Line` function spells a command
 * line out piece by piece; the `...Composes` lemmas prove that composing
 * the fragments with the options yields exactly that line, so no field is
 * left unfilled.
 */
module Commands {
  import opened Wrappers
  import opened Template

  type Options = map<string, Value>

  /** The exception the remote tasks raise when constructed without a function name. */
  datatype TaskError = FunctionNameRequired

  /** Python truthiness of an optional string argument: given and not empty. */
  predicate Truthy(s: Option<string>) {
    s.Some? && s.value != ""
  }

  /**
   * A per-call override: a given value replaces the one option `key` and
   * nothing else; None leaves the options as they are.
   */
  function Override(options: Options, key: string, value: Option<string>): (r: Options)
    ensures value.None? ==> r == options
    ensures value.Some? ==> r.Keys == options.Keys + {key} && r[key] == Str(value.value)
    ensures forall k :: k in options && k != key ==> k in r && r[k] == options[k]
  {
    if value.Some? then options[key := Str(value.value)] else options
  }

  /** The override when one is given, the default otherwise. */
  function Or(value: Option<string>, default: string): string {
    if value.Some? then value.value else default
  }

  /** The rendered option under `key`, if there is one. */
  function Lookup(options: Options, key: string): Option<string> {
    if key in options then Some(Render(options[key])) else None
  }

  /** `os.path.join(directory, name)` for a relative file name. */
  function PathJoin(directory: string, name: string): (r: string)
    ensures |r| >= |directory| + |name|
    ensures r[..|directory|] == directory && r[|r| - |name|..] == name
    ensures directory == "" || directory[|directory| - 1] == '/' ==> r == directory + name
    ensures directory != "" && directory[|directory| - 1] != '/' ==>
      |r| == |directory| + 1 + |name| && r[|directory|] == '/'
  {
    if directory == "" || directory[|directory| - 1] == '/' then directory + name
    else directory + "/" + name
  }

  // ---------------------------------------------------------------------------
  // Fragments

  /**
   * One element of a task's `command` list: plain words such as
   * `'aws lambda invoke'`, or words followed by one named field such as
   * `'--payload {payload}'` (`Flag("--payload ", "payload")`).
   */
  datatype Fragment = Words(text: string) | Flag(prefix: string, name: string)

  /** The fragment as the task writes it. */
  function Spell(f: Fragment): string {
    match f
    case Words(text) => text
    case Flag(prefix, name) => prefix + Field(name)
  }

  function Spelled(fragments: seq<Fragment>): seq<string> {
    seq(|fragments|, i requires 0 <= i < |fragments| => Spell(fragments[i]))
  }

  /** The fragment's text holds no brace of its own and its field, if any, has a plain non-empty name. */
  predicate WellFormed(f: Fragment) {
    match f
    case Words(text) => NoBraces(text)
    case Flag(prefix, name) => NoBraces(prefix) && NoBraces(name) && name != ""
  }

  predicate AllWellFormed(fragments: seq<Fragment>) {
    forall i :: 0 <= i < |fragments| ==> WellFormed(fragments[i])
  }

  /** A well-formed fragment whose field, if any, is one of the options. */
  predicate Fits(f: Fragment, options: Options) {
    WellFormed(f) && (f.Flag? ==> f.name in options)
  }

  predicate AllFit(fragments: seq<Fragment>, options: Options) {
    forall i :: 0 <= i < |fragments| ==> Fits(fragments[i], options)
  }

  /** The fragment with its field replaced by the option's value. */
  function Filled(f: Fragment, options: Options): string
    requires Fits(f, options)
  {
    match f
    case Words(text) => text
    case Flag(prefix, name) => prefix + Render(options[name])
  }

  function FilledAll(fragments: seq<Fragment>, options: Options): seq<string>
    requires AllFit(fragments, options)
  {
    seq(|fragments|, i requires 0 <= i < |fragments| => Filled(fragments[i], options))
  }

  /** The names of the fields the fragments mention. */
  function FieldNames(fragments: seq<Fragment>): set<string>
    decreases |fragments|
  {
    if fragments == [] then {}
    else (if fragments[0].Flag? then {fragments[0].name} else {}) + FieldNames(fragments[1..])
  }

  lemma {:induction false} FitsFromNames(fragments: seq<Fragment>, options: Options)
    requires AllWellFormed(fragments) && FieldNames(fragments) <= options.Keys
    ensures AllFit(fragments, options)
    decreases |fragments|
  {
    if fragments != [] {
      FitsFromNames(fragments[1..], options);
      forall i | 0 <= i < |fragments| ensures Fits(fragments[i], options) {
        if i > 0 {
          assert fragments[i] == fragments[1..][i - 1];
        }
      }
    }
  }

  lemma FormatSpelled(f: Fragment, options: Options)
    requires Fits(f, options)
    ensures Format(Spell(f), [], options) == Ok(Filled(f, options))
  {
    match f
    case Words(text) => FormatPlain(text, [], options);
    case Flag(prefix, name) => FormatFragment(prefix, name, options);
  }

  /**
   * Every field the fragments mention is an option, so formatting leaves no
   * `{...}` unfilled: the command is the join of the filled-in fragments.
   */
  lemma ComposeSpelled(fragments: seq<Fragment>, options: Options)
    requires AllFit(fragments, options)
    ensures Compose(Spelled(fragments), options) == Ok(Join(FilledAll(fragments, options)))
  {
    var fs, rs := Spelled(fragments), FilledAll(fragments, options);
    forall i | 0 <= i < |fs| ensures Format(fs[i], [], options) == Ok(rs[i]) {
      FormatSpelled(fragments[i], options);
    }
    ComposeFragments(fs, rs, options);
  }

  lemma ScanSpell(f: Fragment)
    requires WellFormed(f)
    ensures Scan(Spell(f)).complete && AutoCount(Scan(Spell(f)).pieces) == 0
    ensures Names(Scan(Spell(f)).pieces) == if f.Flag? then {f.name} else {}
  {
    match f
    case Words(text) =>
      FormatPlain(text, [], map[]);
    case Flag(prefix, name) =>
      FormatPlain(prefix, [], map[]);
      ScanField(name);
      ScanAppend(prefix, Field(name));
      NamesAppend(Scan(prefix).pieces, [Named(name)]);
      assert Names([Named(name)]) == {name} by {
        assert [Named(name)][1..] == [];
      }
  }

  /**
   * The joined fragments are a well-formed format string whose fields are
   * exactly the fields the fragments mention, and which takes no positional
   * argument.
   */
  lemma {:induction false} ScanSpelled(fragments: seq<Fragment>)
    requires AllWellFormed(fragments)
    ensures Scan(Join(Spelled(fragments))).complete
    ensures Placeholders(Join(Spelled(fragments))) == FieldNames(fragments)
    ensures AutoCount(Scan(Join(Spelled(fragments))).pieces) == 0
    decreases |fragments|
  {
    var fs := Spelled(fragments);
    if fragments == [] {
      assert Join(fs) == "";
      assert Scan("") == Scanned([], true);
    } else {
      ScanSpell(fragments[0]);
      if |fragments| == 1 {
        assert Join(fs) == Spell(fragments[0]);
        assert fragments[1..] == [];
      } else {
        var head, tail := Spell(fragments[0]), Join(Spelled(fragments[1..]));
        ScanSpelled(fragments[1..]);
        assert fs[1..] == Spelled(fragments[1..]);
        JoinStep(fs);
        FormatPlain(" ", [], map[]);
        ScanAppend(" ", tail);
        NamesAppend(Scan(" ").pieces, Scan(tail).pieces);
        ScanAppend(head, " " + tail);
        NamesAppend(Scan(head).pieces, Scan(" " + tail).pieces);
      }
    }
  }

  /**
   * For well-formed fragments, composing succeeds exactly when every field
   * they mention is one of the options; otherwise `format` raises.
   */
  lemma ComposeOkIff(fragments: seq<Fragment>, options: Options)
    requires AllWellFormed(fragments)
    ensures Compose(Spelled(fragments), options).Ok? <==> FieldNames(fragments) <= options.Keys
  {
    ScanSpelled(fragments);
    FormatOkIff(Join(Spelled(fragments)), [], options);
  }

  // ---------------------------------------------------------------------------
  // setup: SetupTask.install_python_modules

  const SetupCommand: seq<Fragment> := [Words("pip install --upgrade"), Flag("-r ", "requirements"), Flag("-t ", "lib_path")]

  function SetupOptions(requirements: string, libPath: string): Options {
    map["requirements" := Str(requirements), "lib_path" := Str(libPath)]
  }

  function SetupLine(requirements: string, libPath: string): string {
    "pip install --upgrade -r " + requirements + " -t " + libPath
  }

  /** The setup task installs the requirements into the library directory, and nothing else. */
  lemma SetupComposes(requirements: string, libPath: string)
    ensures Compose(Spelled(SetupCommand), SetupOptions(requirements, libPath)) == Ok(SetupLine(requirements, libPath))
  {
    var o := SetupOptions(requirements, libPath);
    SetupFits(o);
    ComposeSpelled(SetupCommand, o);
    SetupFilled(requirements, libPath);
  }

  lemma SetupFits(o: Options)
    requires "requirements" in o && "lib_path" in o
    ensures AllFit(SetupCommand, o)
  {
  }

  lemma SetupFilled(requirements: string, libPath: string)
    requires AllFit(SetupCommand, SetupOptions(requirements, libPath))
    ensures Join(FilledAll(SetupCommand, SetupOptions(requirements, libPath))) == SetupLine(requirements, libPath)
  {
    var rs := FilledAll(SetupCommand, SetupOptions(requirements, libPath));
    assert rs == ["pip install --upgrade", "-r " + requirements, "-t " + libPath];
    JoinStep(rs);
    JoinStep(rs[1..]);
  }

  // ---------------------------------------------------------------------------
  // invoke: InvokeTask.invoke

  const InvokeCommand: seq<Fragment> :=
    [Words("python-lambda-local"), Flag("-t ", "timeout"), Flag("-l ", "lib_path"), Flag("-f ", "lambda_handler"),
     Flag("", "lambda_file"), Flag("", "event_file")]

  const InvokeKeys: set<string> := {"lambda_handler", "lambda_file", "event_file", "lib_path", "timeout"}

  /** The options `InvokeTask.__init__` stores; the timeout may be a number or a string. */
  function InvokeOptions(lambdaHandler: string, lambdaFile: string, eventFile: string, libPath: string, timeout: Value)
    : (r: Options)
    ensures r.Keys == InvokeKeys
  {
    map["lambda_handler" := Str(lambdaHandler), "lambda_file" := Str(lambdaFile), "event_file" := Str(eventFile),
        "lib_path" := Str(libPath), "timeout" := timeout]
  }

  function InvokeText(timeout: string, libPath: string, handler: string, file: string, event: string): string {
    "python-lambda-local" + " " + "-t " + timeout + " " + "-l " + libPath + " " + "-f " + handler + " " + file + " " + event
  }

  function InvokeLine(options: Options): string
    requires InvokeKeys <= options.Keys
  {
    InvokeText(Render(options["timeout"]), Render(options["lib_path"]), Render(options["lambda_handler"]),
               Render(options["lambda_file"]), Render(options["event_file"]))
  }

  /** Whatever the option values, the local invoke command has every field filled. */
  lemma InvokeComposes(options: Options)
    requires InvokeKeys <= options.Keys
    ensures Compose(Spelled(InvokeCommand), options) == Ok(InvokeLine(options))
  {
    InvokeFits(options);
    ComposeSpelled(InvokeCommand, options);
    InvokeFilled(options);
  }

  lemma InvokeFits(options: Options)
    requires InvokeKeys <= options.Keys
    ensures AllFit(InvokeCommand, options)
  {
    InvokeWellFormed();
    InvokeFieldNames();
    FitsFromNames(InvokeCommand, options);
  }

  lemma InvokeWellFormed()
    ensures AllWellFormed(InvokeCommand)
  {
    var fs := InvokeCommand;
    InvokeWords();
    forall i | 0 <= i < |fs| ensures WellFormed(fs[i]) {
      if i == 0 {
        assert fs[i] == Words("python-lambda-local");
      } else if i == 1 {
        assert fs[i] == Flag("-t ", "timeout");
      } else if i == 2 {
        assert fs[i] == Flag("-l ", "lib_path");
      } else if i == 3 {
        assert fs[i] == Flag("-f ", "lambda_handler");
      } else if i == 4 {
        assert fs[i] == Flag("", "lambda_file");
      } else {
        assert fs[i] == Flag("", "event_file");
      }
    }
  }

  lemma InvokeWords()
    ensures NoBraces("python-lambda-local") && NoBraces("-t ") && NoBraces("-l ") && NoBraces("-f ") && NoBraces("")
    ensures NoBraces("timeout") && NoBraces("lib_path") && NoBraces("lambda_handler")
    ensures NoBraces("lambda_file") && NoBraces("event_file")
  {
  }

  lemma InvokeFieldNames()
    ensures FieldNames(InvokeCommand) == InvokeKeys
  {
  }

  lemma InvokeFilled(options: Options)
    requires InvokeKeys <= options.Keys && AllFit(InvokeCommand, options)
    ensures Join(FilledAll(InvokeCommand, options)) == InvokeLine(options)
  {
    var t, l, h, f, e := Render(options["timeout"]), Render(options["lib_path"]), Render(options["lambda_handler"]),
                         Render(options["lambda_file"]), Render(options["event_file"]);
    var rs := FilledAll(InvokeCommand, options);
    assert rs == ["python-lambda-local", "-t " + t, "-l " + l, "-f " + h, "" + f, "" + e];
    assert "" + f == f && "" + e == e;
    InvokeJoin(t, l, h, f, e, rs);
  }

  lemma InvokeJoin(t: string, l: string, h: string, f: string, e: string, rs: seq<string>)
    requires rs == ["python-lambda-local", "-t " + t, "-l " + l, "-f " + h, f, e]
    ensures Join(rs) == InvokeText(t, l, h, f, e)
  {
    JoinFlags3Plain2(rs, "python-lambda-local", "-t ", t, "-l ", l, "-f ", h, f, e);
  }

  lemma JoinFlags3Plain2(rs: seq<string>, w0: string, w1: string, v1: string, w2: string, v2: string,
                         w3: string, v3: string, p4: string, p5: string)
    requires rs == [w0, w1 + v1, w2 + v2, w3 + v3, p4, p5]
    ensures Join(rs) == w0 + " " + w1 + v1 + " " + w2 + v2 + " " + w3 + v3 + " " + p4 + " " + p5
  {
    JoinStep(rs);
    JoinStep(rs[1..]);
    JoinStep(rs[2..]);
    JoinStep(rs[3..]);
    JoinStep(rs[4..]);
  }

  /**
   * `invoke(event_file)` after construction: a given event file replaces the
   * stored one, and the command names the handler, file, event, library
   * path and timeout in that order.
   */
  lemma InvokeRun(lambdaHandler: string, lambdaFile: string, eventFile: string, libPath: string, timeout: Value,
                  eventOverride: Option<string>)
    ensures var o := Override(InvokeOptions(lambdaHandler, lambdaFile, eventFile, libPath, timeout), "event_file", eventOverride);
      && InvokeKeys <= o.Keys
      && Compose(Spelled(InvokeCommand), o)
         == Ok(InvokeText(Render(timeout), libPath, lambdaHandler, lambdaFile, Or(eventOverride, eventFile)))
  {
    var o := Override(InvokeOptions(lambdaHandler, lambdaFile, eventFile, libPath, timeout), "event_file", eventOverride);
    InvokeComposes(o);
  }

  /** With every default, the timeout of 3 seconds is written `3`. */
  lemma InvokeDefaults()
    ensures Compose(Spelled(InvokeCommand), InvokeOptions("lambda_handler", "lambda_function.py", "event.json", "./lib", Int(3)))
         == Ok(InvokeText("3", "./lib", "lambda_handler", "lambda_function.py", "event.json"))
  {
    InvokeRun("lambda_handler", "lambda_function.py", "event.json", "./lib", Int(3), None);
    assert Render(Int(3)) == "3";
  }

  // ---------------------------------------------------------------------------
  // makezip: MakeZipTask.remove_zip_file and MakeZipTask.makezip

  /** `'rm -rf {}'`, filled with the zip file as its one positional argument. */
  const RemoveZipTemplate: string := "rm -rf " + "{}"

  /** `'zip -r9 {zip_file} * -x@{exclude_file}'`. */
  const ZipTemplate: string := "zip -r9 " + Field("zip_file") + (" * -x@" + Field("exclude_file"))

  function ZipOptions(zipFile: string, excludeFile: string): Options {
    map["zip_file" := Str(zipFile), "exclude_file" := Str(excludeFile)]
  }

  function RemoveZipLine(zipFile: string): string {
    "rm -rf " + zipFile
  }

  function ZipLine(zipFile: string, excludeFile: string): string {
    "zip -r9 " + zipFile + (" * -x@" + excludeFile)
  }

  /** `remove_zip_file` removes exactly the zip file. */
  lemma RemoveZipFormats(zipFile: string)
    ensures Format(RemoveZipTemplate, [Str(zipFile)], map[]) == Ok(RemoveZipLine(zipFile))
  {
    FormatLiteralAuto("rm -rf ", Str(zipFile), map[]);
  }

  /** `makezip` zips everything into the zip file, leaving out the patterns listed in the exclude file. */
  lemma ZipFormats(zipFile: string, excludeFile: string)
    ensures Format(ZipTemplate, [], ZipOptions(zipFile, excludeFile)) == Ok(ZipLine(zipFile, excludeFile))
  {
    var o := ZipOptions(zipFile, excludeFile);
    FormatLiteralField("zip -r9 ", "zip_file", " * -x@" + Field("exclude_file"), o);
    FormatFragment(" * -x@", "exclude_file", o);
  }

  // ---------------------------------------------------------------------------
  // Joining filled-in fragments

  lemma JoinFlags2(rs: seq<string>, w0: string, w1: string, v1: string)
    requires rs == [w0, w1 + v1]
    ensures Join(rs) == w0 + " " + w1 + v1
  {
    JoinStep(rs);
    assert rs[1..] == [w1 + v1];
  }

  lemma JoinFlags3(rs: seq<string>, w0: string, w1: string, v1: string, w2: string, v2: string)
    requires rs == [w0, w1 + v1, w2 + v2]
    ensures Join(rs) == w0 + " " + w1 + v1 + " " + w2 + v2
  {
    JoinStep(rs);
    JoinStep(rs[1..]);
  }

  lemma JoinFlags5(rs: seq<string>, w0: string, w1: string, v1: string, w2: string, v2: string,
                   w3: string, v3: string, w4: string, v4: string)
    requires rs == [w0, w1 + v1, w2 + v2, w3 + v3, w4 + v4]
    ensures Join(rs) == w0 + " " + w1 + v1 + " " + w2 + v2 + " " + w3 + v3 + " " + w4 + v4
  {
    JoinStep(rs);
    JoinStep(rs[1..]);
    JoinStep(rs[2..]);
    JoinStep(rs[3..]);
  }

  /** Appending at most one fragment, then one more. */
  lemma JoinTail(base: seq<string>, extra: seq<string>, last: string)
    requires base != [] && |extra| <= 1
    ensures Join(base + extra + [last]) == Join(base) + (if extra == [] then "" else " " + extra[0]) + " " + last
  {
    if extra == [] {
      assert base + extra + [last] == base + [last];
      JoinAppend(base, last);
    } else {
      assert base + extra + [last] == (base + [extra[0]]) + [last];
      JoinAppend(base, extra[0]);
      JoinAppend(base + [extra[0]], last);
    }
  }

  /** Appending at most one fragment. */
  lemma JoinOptional(base: seq<string>, extra: seq<string>)
    requires base != [] && |extra| <= 1
    ensures Join(base + extra) == Join(base) + (if extra == [] then "" else " " + extra[0])
  {
    if extra == [] {
      assert base + extra == base;
    } else {
      assert base + extra == base + [extra[0]];
      JoinAppend(base, extra[0]);
    }
  }

  // ---------------------------------------------------------------------------
  // aws-getconfig: AWSLambdaGetConfigTask

  /**
   * The options `AWSLambdaGetConfigTask.__init__` stores: it raises without a
   * function name, and keeps a qualifier only when one that is truthy is given.
   */
  function GetConfigOptions(functionName: Option<string>, qualifier: Option<string>): (r: Result<Options, TaskError>)
    ensures r.Err? <==> functionName.None?
    ensures r.Err? ==> r.error == FunctionNameRequired
    ensures r.Ok? ==> r.value.Keys == {"function_name"} + (if Truthy(qualifier) then {"qualifier"} else {})
    ensures r.Ok? ==> r.value["function_name"] == Str(functionName.value)
    ensures r.Ok? && Truthy(qualifier) ==> r.value["qualifier"] == Str(qualifier.value)
  {
    if functionName.None? then Err(FunctionNameRequired)
    else
      var base := map["function_name" := Str(functionName.value)];
      Ok(if Truthy(qualifier) then base["qualifier" := Str(qualifier.value)] else base)
  }

  const QualifierFragment: Fragment := Flag("--qualifier ", "qualifier")

  /** The `--qualifier` fragment follows the function name when the options hold a qualifier. */
  function GetConfigCommand(withQualifier: bool): seq<Fragment> {
    [Words("aws lambda get-function-configuration"), Flag("--function-name ", "function_name")]
      + (if withQualifier then [QualifierFragment] else [])
  }

  /** What the qualifier adds to a command line: nothing, or a blank and the `--qualifier` fragment. */
  function QualifierText(qualifier: Option<string>): string {
    if qualifier.Some? then " " + ("--qualifier " + qualifier.value) else ""
  }

  /** The blank-separated fragments with their fields filled in. */
  function GetConfigText(functionName: string, qualifier: Option<string>): string {
    "aws lambda get-function-configuration" + " " + "--function-name " + functionName + QualifierText(qualifier)
  }

  lemma GetConfigComposes(options: Options)
    requires "function_name" in options
    ensures Compose(Spelled(GetConfigCommand("qualifier" in options)), options)
         == Ok(GetConfigText(Render(options["function_name"]), Lookup(options, "qualifier")))
  {
    var fs := GetConfigCommand("qualifier" in options);
    GetConfigFits(options);
    ComposeSpelled(fs, options);
    var rs := FilledAll(fs, options);
    var name := Render(options["function_name"]);
    var base := ["aws lambda get-function-configuration", "--function-name " + name];
    var extra := if "qualifier" in options then ["--qualifier " + Render(options["qualifier"])] else [];
    assert rs == base + extra;
    JoinFlags2(base, "aws lambda get-function-configuration", "--function-name ", name);
    JoinOptional(base, extra);
  }

  lemma GetConfigFits(options: Options)
    requires "function_name" in options
    ensures AllFit(GetConfigCommand("qualifier" in options), options)
  {
    var fs := GetConfigCommand("qualifier" in options);
    GetConfigWords();
    forall i | 0 <= i < |fs| ensures Fits(fs[i], options) {
      if i == 0 {
        assert fs[i] == Words("aws lambda get-function-configuration");
      } else if i == 1 {
        assert fs[i] == Flag("--function-name ", "function_name");
      } else {
        assert fs[i] == QualifierFragment;
      }
    }
  }

  lemma GetConfigWords()
    ensures NoBraces("aws lambda get-function-configuration")
    ensures NoBraces("--function-name ") && NoBraces("function_name")
    ensures NoBraces("--qualifier ") && NoBraces("qualifier")
  {
  }

  /**
   * `get_function_config(function_name)` after construction: a given name
   * replaces the stored one, and `--qualifier` is passed exactly when a truthy
   * qualifier was given to the constructor.
   */
  lemma GetConfigRun(functionName: string, qualifier: Option<string>, nameOverride: Option<string>)
    ensures var o := Override(GetConfigOptions(Some(functionName), qualifier).value, "function_name", nameOverride);
      && (QualifierFragment in GetConfigCommand("qualifier" in o) <==> Truthy(qualifier))
      && Compose(Spelled(GetConfigCommand("qualifier" in o)), o)
         == Ok(GetConfigText(Or(nameOverride, functionName), if Truthy(qualifier) then qualifier else None))
  {
    var o := Override(GetConfigOptions(Some(functionName), qualifier).value, "function_name", nameOverride);
    GetConfigComposes(o);
    QualifierOnlyWhenAsked(GetConfigCommand(false)[..], "qualifier" in o);
  }

  /** The qualifier fragment is in a command exactly when it was appended. */
  lemma QualifierOnlyWhenAsked(base: seq<Fragment>, withQualifier: bool)
    requires QualifierFragment !in base
    ensures QualifierFragment in base + (if withQualifier then [QualifierFragment] else []) <==> withQualifier
  {
    if !withQualifier {
      assert base + [] == base;
    }
  }

  // ---------------------------------------------------------------------------
  // aws-invoke: AWSLambdaInvokeTask

  /**
   * The options `AWSLambdaInvokeTask.__init__` stores: it raises without a
   * function name, always asks for a synchronous call with the log tail,
   * writes the result to `outfile.txt` in the temporary directory, and keeps
   * a qualifier only when one that is truthy is given.
   */
  function AwsInvokeOptions(functionName: Option<string>, payload: string, qualifier: Option<string>, tempDir: string)
    : (r: Result<Options, TaskError>)
    ensures r.Err? <==> functionName.None?
    ensures r.Err? ==> r.error == FunctionNameRequired
    ensures r.Ok? ==> r.value.Keys == AwsInvokeKeys + (if Truthy(qualifier) then {"qualifier"} else {})
    ensures r.Ok? ==> && r.value["function_name"] == Str(functionName.value)
                      && r.value["invocation_type"] == Str("RequestResponse")
                      && r.value["log_type"] == Str("Tail")
                      && r.value["payload"] == Str(payload)
                      && r.value["outfile"] == Str(PathJoin(tempDir, "outfile.txt"))
    ensures r.Ok? && Truthy(qualifier) ==> r.value["qualifier"] == Str(qualifier.value)
  {
    if functionName.None? then Err(FunctionNameRequired)
    else
      var base := map["function_name" := Str(functionName.value), "invocation_type" := Str("RequestResponse"),
                      "log_type" := Str("Tail"), "payload" := Str(payload),
                      "outfile" := Str(PathJoin(tempDir, "outfile.txt"))];
      Ok(if Truthy(qualifier) then base["qualifier" := Str(qualifier.value)] else base)
  }

  const AwsInvokeKeys: set<string> := {"function_name", "invocation_type", "log_type", "payload", "outfile"}

  const AwsInvokeBase: seq<Fragment> :=
    [Words("aws lambda invoke"), Flag("--function-name ", "function_name"),
     Flag("--invocation-type ", "invocation_type"), Flag("--log-type ", "log_type"), Flag("--payload ", "payload")]

  /** The fixed flags, then `--qualifier` when the options hold one, then the output file last. */
  function AwsInvokeCommand(withQualifier: bool): seq<Fragment> {
    AwsInvokeBase + (if withQualifier then [QualifierFragment] else []) + [Flag("", "outfile")]
  }

  /** The blank-separated fragments with their fields filled in. */
  function AwsInvokeText(functionName: string, invocationType: string, logType: string, payload: string,
                         qualifier: Option<string>, outfile: string): string
  {
    "aws lambda invoke" + " " + "--function-name " + functionName + " " + "--invocation-type " + invocationType
      + " " + "--log-type " + logType + " " + "--payload " + payload + QualifierText(qualifier) + " " + outfile
  }

  function AwsInvokeLine(options: Options): string
    requires AwsInvokeKeys <= options.Keys
  {
    AwsInvokeText(Render(options["function_name"]), Render(options["invocation_type"]), Render(options["log_type"]),
                  Render(options["payload"]), Lookup(options, "qualifier"), Render(options["outfile"]))
  }

  lemma AwsInvokeComposes(options: Options)
    requires AwsInvokeKeys <= options.Keys
    ensures Compose(Spelled(AwsInvokeCommand("qualifier" in options)), options) == Ok(AwsInvokeLine(options))
  {
    var fs := AwsInvokeCommand("qualifier" in options);
    AwsInvokeFits(options);
    ComposeSpelled(fs, options);
    AwsInvokeFilled(options);
  }

  lemma AwsInvokeFits(options: Options)
    requires AwsInvokeKeys <= options.Keys
    ensures AllFit(AwsInvokeCommand("qualifier" in options), options)
  {
    var fs := AwsInvokeCommand("qualifier" in options);
    AwsInvokeBaseFits(options);
    forall i | 0 <= i < |fs| ensures Fits(fs[i], options) {
      if i < |AwsInvokeBase| {
        assert fs[i] == AwsInvokeBase[i];
      }
    }
  }

  lemma AwsInvokeBaseFits(options: Options)
    requires AwsInvokeKeys <= options.Keys
    ensures AllFit(AwsInvokeBase, options)
  {
    var fs := AwsInvokeBase;
    AwsInvokeWords();
    forall i | 0 <= i < |fs| ensures Fits(fs[i], options) {
      if i == 0 {
        assert fs[i] == Words("aws lambda invoke");
      } else if i == 1 {
        assert fs[i] == Flag("--function-name ", "function_name");
      } else if i == 2 {
        assert fs[i] == Flag("--invocation-type ", "invocation_type");
      } else if i == 3 {
        assert fs[i] == Flag("--log-type ", "log_type");
      } else {
        assert fs[i] == Flag("--payload ", "payload");
      }
    }
  }

  lemma AwsInvokeWords()
    ensures NoBraces("aws lambda invoke") && NoBraces("--function-name ") && NoBraces("function_name")
    ensures NoBraces("--invocation-type ") && NoBraces("invocation_type")
    ensures NoBraces("--log-type ") && NoBraces("log_type") && NoBraces("--payload ") && NoBraces("payload")
  {
  }

  lemma AwsInvokeFilled(options: Options)
    requires AwsInvokeKeys <= options.Keys
    requires AllFit(AwsInvokeCommand("qualifier" in options), options)
    ensures Join(FilledAll(AwsInvokeCommand("qualifier" in options), options)) == AwsInvokeLine(options)
  {
    var fs := AwsInvokeCommand("qualifier" in options);
    var n, it, lt, p, out := Render(options["function_name"]), Render(options["invocation_type"]),
                             Render(options["log_type"]), Render(options["payload"]), Render(options["outfile"]);
    var q := Lookup(options, "qualifier");
    var rs := FilledAll(fs, options);
    var base := ["aws lambda invoke", "--function-name " + n, "--invocation-type " + it, "--log-type " + lt, "--payload " + p];
    var extra := if q.Some? then ["--qualifier " + q.value] else [];
    assert "" + out == out;
    assert rs == base + extra + [out];
    JoinFlags5(base, "aws lambda invoke", "--function-name ", n, "--invocation-type ", it, "--log-type ", lt, "--payload ", p);
    JoinTail(base, extra, out);
  }

  /**
   * `invoke(function_name)` after construction: a given name replaces the
   * stored one, `--qualifier` is passed exactly when a truthy qualifier was
   * given, and the output file comes last.
   */
  lemma AwsInvokeRun(functionName: string, payload: string, qualifier: Option<string>, tempDir: string,
                     nameOverride: Option<string>)
    ensures var o := Override(AwsInvokeOptions(Some(functionName), payload, qualifier, tempDir).value, "function_name", nameOverride);
      && (QualifierFragment in AwsInvokeCommand("qualifier" in o) <==> Truthy(qualifier))
      && Compose(Spelled(AwsInvokeCommand("qualifier" in o)), o)
         == Ok(AwsInvokeText(Or(nameOverride, functionName), "RequestResponse", "Tail", payload,
                             if Truthy(qualifier) then qualifier else None, PathJoin(tempDir, "outfile.txt")))
  {
    var o := Override(AwsInvokeOptions(Some(functionName), payload, qualifier, tempDir).value, "function_name", nameOverride);
    AwsInvokeComposes(o);
    var withQualifier := "qualifier" in o;
    QualifierOnlyWhenAsked(AwsInvokeBase, withQualifier);
    var head := AwsInvokeBase + (if withQualifier then [QualifierFragment] else []);
    assert AwsInvokeCommand(withQualifier) == head + [Flag("", "outfile")];
  }

  // ---------------------------------------------------------------------------
  // aws-updatecode: AWSLambdaUpdateCodeTask

  /** The options `AWSLambdaUpdateCodeTask.__init__` stores; it raises without a function name. */
  function UpdateCodeOptions(functionName: Option<string>, zipFile: string): (r: Result<Options, TaskError>)
    ensures r.Err? <==> functionName.None?
    ensures r.Err? ==> r.error == FunctionNameRequired
    ensures r.Ok? ==> r.value.Keys == {"function_name", "zip_file"}
    ensures r.Ok? ==> r.value["function_name"] == Str(functionName.value) && r.value["zip_file"] == Str(zipFile)
  {
    if functionName.None? then Err(FunctionNameRequired)
    else Ok(map["function_name" := Str(functionName.value), "zip_file" := Str(zipFile)])
  }

  const UpdateCodeCommand: seq<Fragment> :=
    [Words("aws lambda update-function-code"), Flag("--function-name ", "function_name"), Flag("--zip-file ", "zip_file")]

  /** The blank-separated fragments with their fields filled in. */
  function UpdateCodeText(functionName: string, zipFile: string): string {
    "aws lambda update-function-code" + " " + "--function-name " + functionName + " " + "--zip-file " + zipFile
  }

  lemma UpdateCodeComposes(options: Options)
    requires "function_name" in options && "zip_file" in options
    ensures Compose(Spelled(UpdateCodeCommand), options)
         == Ok(UpdateCodeText(Render(options["function_name"]), Render(options["zip_file"])))
  {
    UpdateCodeFits(options);
    ComposeSpelled(UpdateCodeCommand, options);
    var n, z := Render(options["function_name"]), Render(options["zip_file"]);
    var rs := FilledAll(UpdateCodeCommand, options);
    assert rs == ["aws lambda update-function-code", "--function-name " + n, "--zip-file " + z];
    JoinFlags3(rs, "aws lambda update-function-code", "--function-name ", n, "--zip-file ", z);
  }

  lemma UpdateCodeFits(options: Options)
    requires "function_name" in options && "zip_file" in options
    ensures AllFit(UpdateCodeCommand, options)
  {
    var fs := UpdateCodeCommand;
    UpdateCodeWords();
    forall i | 0 <= i < |fs| ensures Fits(fs[i], options) {
      if i == 0 {
        assert fs[i] == Words("aws lambda update-function-code");
      } else if i == 1 {
        assert fs[i] == Flag("--function-name ", "function_name");
      } else {
        assert fs[i] == Flag("--zip-file ", "zip_file");
      }
    }
  }

  lemma UpdateCodeWords()
    ensures NoBraces("aws lambda update-function-code") && NoBraces("--function-name ") && NoBraces("function_name")
    ensures NoBraces("--zip-file ") && NoBraces("zip_file")
  {
  }

  /** `run_main(function_name)` after construction: a given name replaces the stored one. */
  lemma UpdateCodeRun(functionName: string, zipFile: string, nameOverride: Option<string>)
    ensures var o := Override(UpdateCodeOptions(Some(functionName), zipFile).value, "function_name", nameOverride);
      Compose(Spelled(UpdateCodeCommand), o) == Ok(UpdateCodeText(Or(nameOverride, functionName), zipFile))
  {
    var o := Override(UpdateCodeOptions(Some(functionName), zipFile).value, "function_name", nameOverride);
    UpdateCodeComposes(o);
  }
}
