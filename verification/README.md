# fabric-aws-lambda task model

A Dafny model of the Fabric tasks in `fabric_aws_lambda/tasks.py`. The tasks prepare, run and deploy an AWS Lambda function:

- `SetupTask` installs the requirements into the library directory.
- `InvokeTask` runs the handler locally with `python-lambda-local`, with the library directory on PYTHONPATH.
- `MakeZipTask` rebuilds the deployment zip.
- `AWSLambdaGetConfigTask`, `AWSLambdaInvokeTask` and `AWSLambdaUpdateCodeTask` call the `aws lambda` command line tool.

Every task runs through `BaseTask.run`: `pre_task`, then `run_main`, then `post_task`.

The model has five modules:

- `Wrappers`: `Option` and `Result`.
- `Template`: Python's `' '.join` and `str.format`, for the parts the tasks use.
  - `{name}` fields are filled from keyword arguments and `{}` fields from positional ones.
  - `{{` and `}}` are escapes; a lone or unclosed brace is malformed.
  - Integers are rendered in decimal.
- `Lifecycle`: the events a run leaves behind, as a trace.
  - A hook starting is an `Enter` event; a shell command is a `Shell` event.
  - When a command raises, the commands after it do not run, and neither does `post_task`.
- `Commands`: the option map each task stores, its list of command fragments, and the command line those compose to.
  - Each `...Composes` lemma proves the composition succeeds, so no placeholder is left without a key.
- `Tasks`: the task classes, working against a `Host` class.
  - `Host` stands for Fabric's local machine: `local` appends to its trace, `lcd` sets its directory and `shell_env` its environment.
  - The commands that fail and the directory listings are fixed when a `Host` is made.
  - A task method returns `false` where a shell command it runs raises. The remote invoke can also raise after its command succeeds; see "## Left out".

Two places where the code decides behaviour that a plain reading could miss:

- `--qualifier` is added only for a *truthy* qualifier. An empty string is treated like no qualifier (`if qualifier:`, tasks.py:133 and 170), not merely "a qualifier was supplied". The model follows the code.
- The qualifier check happens each time the command is built (`'qualifier' in self.options`). Since only the constructor ever stores a qualifier, this is equivalent to deciding it at construction.

## Model

| member | source | states |
|---|---|---|
| Template.IntToDecimal | fabric_aws_lambda/tasks.py:81 | An integer option such as `timeout` is rendered as `str(i)`: its decimal digits with no leading zero, with `-` before a negative number. The text holds no braces or blanks, and it reads back as the same number. |
| Template.NatToDecimalRoundTrip | fabric_aws_lambda/tasks.py:81 | Reading back the decimal rendering of a natural number gives that number. |
| Template.JoinAppend | fabric_aws_lambda/tasks.py:87 | `' '.join` of a list with one more element is the old join, a blank, and the new element. |
| Template.JoinLength | fabric_aws_lambda/tasks.py:87 | The joined line's length is the total length of the fragments plus one blank between each pair. |
| Template.SubstituteOkIff | fabric_aws_lambda/tasks.py:87 | Filling scanned pieces fails exactly when: the scan was incomplete, a named field has no keyword, or there are fewer positional arguments than `{}` fields. |
| Template.FormatOkIff | fabric_aws_lambda/tasks.py:87 | `str.format` succeeds iff the template is well formed, every `{name}` is a key of the options, and every `{}` has an argument. |
| Template.SubstituteMissingKey | fabric_aws_lambda/tasks.py:151 | A KeyError from filling always names a field that occurs in the pieces and is not a key. |
| Template.FormatMissingKey | fabric_aws_lambda/tasks.py:151 | A KeyError from `format` names a placeholder of the template that the options lack. |
| Template.FormatAppend | fabric_aws_lambda/tasks.py:87 | Formatting a concatenation formats the first part and then the second, when the first takes no positional argument. |
| Template.FormatPlain | fabric_aws_lambda/tasks.py:80 | Text without braces formats to itself and has no placeholders. |
| Template.FormatField | fabric_aws_lambda/tasks.py:84 | A lone `{name}` formats to the rendered option `name`. |
| Template.FormatFragment | fabric_aws_lambda/tasks.py:81 | A fragment `words {name}` formats to the words followed by the rendered option. |
| Template.FormatAuto | fabric_aws_lambda/tasks.py:106 | A lone `{}` formats to its positional argument. |
| Template.FormatLiteralAuto | fabric_aws_lambda/tasks.py:106 | `words {}` formats to the words followed by the positional argument. |
| Template.ComposeFragments | fabric_aws_lambda/tasks.py:87 | When each fragment formats on its own, `' '.join(fragments).format(**options)` is the join of the formatted fragments. |
| Lifecycle.Attempted | fabric_aws_lambda/tasks.py:13-16 | The commands that run form a prefix of those issued. All of them run when none raises; otherwise the prefix stops at the first command that raises. |
| Lifecycle.SucceedsAppend | fabric_aws_lambda/tasks.py:100-103 | A sequence of commands succeeds iff both of its parts succeed. |
| Lifecycle.AttemptedAppend | fabric_aws_lambda/tasks.py:100-103 | Issuing two groups of commands runs the second group only when the first raised nothing. |
| Lifecycle.ShellsStep | fabric_aws_lambda/tasks.py:100-103 | The first command is always recorded. The rest are recorded only if it did not raise. |
| Lifecycle.LifecycleOrder | fabric_aws_lambda/tasks.py:13-16 | A run enters `pre_task` first and `run_main` second, each exactly once. `post_task` is entered once, and last, iff no command raised; otherwise it is never entered. |
| Lifecycle.CountShells | fabric_aws_lambda/tasks.py:13-16 | Shell commands never count as entering a hook. |
| Commands.Override | fabric_aws_lambda/tasks.py:75-76 | A given value replaces only its own key. None leaves the options unchanged. |
| Commands.PathJoin | fabric_aws_lambda/tasks.py:168 | `os.path.join(dir, name)` starts with the directory and ends with the name. When the directory is empty or ends in `/`, the result is the two joined directly. Otherwise exactly one `/` is inserted between them. |
| Commands.FitsFromNames | fabric_aws_lambda/tasks.py:145-151 | Well-formed fragments whose field names are all keys of the options all fit those options. |
| Commands.ComposeSpelled | fabric_aws_lambda/tasks.py:87 | Fragments that fit the options compose to the join of the filled-in fragments. |
| Commands.ScanSpelled | fabric_aws_lambda/tasks.py:145-151 | The placeholders of a joined fragment list are exactly the fragments' field names, and there are no positional fields. |
| Commands.ComposeOkIff | fabric_aws_lambda/tasks.py:151 | A command list composes iff every field it names is a key of the options. |
| Commands.SetupComposes | fabric_aws_lambda/tasks.py:41-53 | The setup command is exactly `pip install --upgrade -r <requirements> -t <lib_path>`. |
| Commands.InvokeOptions | fabric_aws_lambda/tasks.py:60-68 | The local-invoke options hold exactly the five keys the command uses. |
| Commands.InvokeComposes | fabric_aws_lambda/tasks.py:79-87 | With the five keys present, the command is `python-lambda-local -t <timeout> -l <lib_path> -f <handler> <file> <event>`. |
| Commands.InvokeRun | fabric_aws_lambda/tasks.py:74-87 | After construction and an optional event-file override, the line uses the override or the stored event file. The timeout is rendered, and no key is lost. |
| Commands.InvokeDefaults | fabric_aws_lambda/tasks.py:60-61 | With the default arguments the line is `python-lambda-local -t 3 -l ./lib -f lambda_handler lambda_function.py event.json`. |
| Commands.RemoveZipFormats | fabric_aws_lambda/tasks.py:105-106 | `'rm -rf {}'.format(zip_file)` is `rm -rf <zip_file>`. |
| Commands.ZipFormats | fabric_aws_lambda/tasks.py:108-110 | The zip command is `zip -r9 <zip_file> * -x@<exclude_file>`. |
| Commands.GetConfigOptions | fabric_aws_lambda/tasks.py:127-134 | Construction fails iff the function name is None. Otherwise the options hold the function name, plus the qualifier iff it is truthy. |
| Commands.GetConfigComposes | fabric_aws_lambda/tasks.py:145-151 | The line is `aws lambda get-function-configuration --function-name <name>`, followed by `--qualifier <q>` exactly when the options hold a qualifier. |
| Commands.GetConfigRun | fabric_aws_lambda/tasks.py:127-151 | After construction and an optional name override, the `--qualifier` fragment is present iff the constructor's qualifier was truthy. The line uses the override, or else the stored name. |
| Commands.QualifierOnlyWhenAsked | fabric_aws_lambda/tasks.py:149-150 | The qualifier fragment is in the command exactly when it was appended. |
| Commands.AwsInvokeOptions | fabric_aws_lambda/tasks.py:160-171 | Construction fails iff the function name is None. Otherwise the options hold: the name, `RequestResponse`, `Tail`, the payload, and `outfile.txt` in the temporary directory, plus the qualifier iff it is truthy. |
| Commands.AwsInvokeComposes | fabric_aws_lambda/tasks.py:181-191 | The line has `aws lambda invoke`, then the name, invocation type, log type and payload flags, then `--qualifier` when present, then the output file last. |
| Commands.AwsInvokeRun | fabric_aws_lambda/tasks.py:160-191 | After construction and an optional name override, `--qualifier` is present iff the qualifier was truthy. The line is the full `aws lambda invoke` command with the constructor's values. |
| Commands.UpdateCodeOptions | fabric_aws_lambda/tasks.py:210-216 | Construction fails iff the function name is None. Otherwise the options are exactly the function name and the zip file. |
| Commands.UpdateCodeComposes | fabric_aws_lambda/tasks.py:223-228 | The line is `aws lambda update-function-code --function-name <name> --zip-file <zip_file>`. |
| Commands.UpdateCodeRun | fabric_aws_lambda/tasks.py:210-228 | After construction and an optional name override, the line uses the override, or else the stored name, and the constructor's zip file. |
| Tasks.Host.Local | fabric_aws_lambda/tasks.py:87 | `local` appends one shell event carrying the current directory and environment. It changes neither of them, and it raises iff that call fails. |
| Tasks.Host.Mark | fabric_aws_lambda/tasks.py:18-25 | A hook records that it started and does nothing else. |
| Tasks.SetupTask.constructor | fabric_aws_lambda/tasks.py:32-37 | Stores the requirements file, library path, install prefix and temporary directory. Defaults: `requirements.txt`, `./lib` and `./local`. |
| Tasks.SetupTask.InstallPythonModules | fabric_aws_lambda/tasks.py:39-53 | Runs the pip command once in the current directory. The directory and environment are unchanged. |
| Tasks.SetupTask.RunMain | fabric_aws_lambda/tasks.py:39-40 | Enters `run_main`, then installs the modules. |
| Tasks.SetupTask.Run | fabric_aws_lambda/tasks.py:13-16 | The trace grows by the lifecycle of the setup call. It succeeds iff pip does. |
| Tasks.InvokeTask.constructor | fabric_aws_lambda/tasks.py:60-68 | Stores the five options with their defaults, including timeout 3. |
| Tasks.InvokeTask.Invoke | fabric_aws_lambda/tasks.py:74-87 | The event-file override is kept. PYTHONPATH is set to the library path for the one command and restored afterwards. The rest of the environment and the directory are unchanged. |
| Tasks.InvokeTask.RunMain | fabric_aws_lambda/tasks.py:71-72 | Enters `run_main`, then invokes with the given event file. |
| Tasks.InvokeTask.Run | fabric_aws_lambda/tasks.py:13-16 | The lifecycle of the local invocation, with the override kept in the options. |
| Tasks.MakeZipOrder | fabric_aws_lambda/tasks.py:100-120 | There are three calls iff the library directory exists and has entries, otherwise two. The first removes the zip file, and the removal is issued exactly once. The second is the zip command in the current directory. The third, when present, is the same zip command inside the library directory. |
| Tasks.MakeZipSteps | fabric_aws_lambda/tasks.py:100-103 | Removal, first zip and library zip are recorded in order, each only if the earlier ones did not raise. |
| Tasks.MakeZipRun | fabric_aws_lambda/tasks.py:13-16 | The lifecycle of `makezip` is the hooks around those steps. `post_task` runs iff all of them succeed. |
| Tasks.AtMostOne | fabric_aws_lambda/tasks.py:116-120 | A group of at most one command runs whole, and it succeeds iff its command does not raise. |
| Tasks.MakeZipTask.constructor | fabric_aws_lambda/tasks.py:94-97 | Stores the zip file, the real path of the exclude file, and the library path. |
| Tasks.MakeZipTask.RemoveZipFile | fabric_aws_lambda/tasks.py:105-106 | Runs `rm -rf <zip_file>` in the current directory. |
| Tasks.MakeZipTask.Makezip | fabric_aws_lambda/tasks.py:108-110 | Runs the zip command in the current directory. |
| Tasks.MakeZipTask.MakezipBasepath | fabric_aws_lambda/tasks.py:112-113 | Zips from the current directory. |
| Tasks.MakeZipTask.MakezipPythonModules | fabric_aws_lambda/tasks.py:115-120 | Does nothing when the library directory is missing or empty. Otherwise it zips from inside that directory and restores the directory afterwards. |
| Tasks.MakeZipTask.RunMain | fabric_aws_lambda/tasks.py:100-103 | Enters `run_main`, then removes, zips, and zips the library in turn. It stops at the first command that raises. |
| Tasks.MakeZipTask.Run | fabric_aws_lambda/tasks.py:13-16 | The trace grows by the lifecycle of the makezip calls. It succeeds iff none of them raises. |
| Tasks.AWSLambdaGetConfigTask.Create | fabric_aws_lambda/tasks.py:127-134 | Returns an error iff the function name is None. Otherwise it returns a new task holding the constructor's options. |
| Tasks.AWSLambdaGetConfigTask.GetFunctionConfig | fabric_aws_lambda/tasks.py:141-151 | Keeps the name override. Runs the get-function-configuration command once with its output captured, with `--qualifier` iff the options hold one. |
| Tasks.AWSLambdaGetConfigTask.RunMain | fabric_aws_lambda/tasks.py:138-139 | Enters `run_main`, then fetches the configuration. |
| Tasks.AWSLambdaGetConfigTask.Run | fabric_aws_lambda/tasks.py:13-16 | The lifecycle of the configuration query. |
| Tasks.AWSLambdaInvokeTask.Create | fabric_aws_lambda/tasks.py:160-171 | Returns an error iff the function name is None. Otherwise it returns a new task holding the constructor's options. |
| Tasks.AWSLambdaInvokeTask.Invoke | fabric_aws_lambda/tasks.py:177-191 | Keeps the name override. Runs `aws lambda invoke` once with its output captured, with the output file last. |
| Tasks.AWSLambdaInvokeTask.RunMain | fabric_aws_lambda/tasks.py:174-175 | Enters `run_main`, then invokes. |
| Tasks.AWSLambdaInvokeTask.Run | fabric_aws_lambda/tasks.py:13-16 | The lifecycle of the remote invocation. |
| Tasks.AWSLambdaUpdateCodeTask.Create | fabric_aws_lambda/tasks.py:210-216 | Returns an error iff the function name is None. Otherwise it returns a new task holding the function name and zip file. |
| Tasks.AWSLambdaUpdateCodeTask.RunMain | fabric_aws_lambda/tasks.py:219-228 | Enters `run_main`, keeps the name override, and runs the update-function-code command once with its output captured. |
| Tasks.AWSLambdaUpdateCodeTask.Run | fabric_aws_lambda/tasks.py:13-16 | The lifecycle of the code update. |

## Left out

- Tasks.AWSLambdaInvokeTask.Invoke, RunMain, Run: after the command succeeds, `json.loads` (tasks.py:197), `base64.b64decode` (tasks.py:199) and `open(outfile)` (tasks.py:202) can still raise in Python, and then `post_task` is skipped. `ok` and whether `post_task` runs do not reflect these raises: the model takes the captured output and the output file to be well formed.
- Output handling is not modelled: printing the captured result, decoding the JSON and base64 log tail in `print_log_result`, and reading the output file in `print_result` (tasks.py:153, 193-203). These are I/O and parsing of the tool's output, not command construction.
- `os.path.realpath` and `tempfile.gettempdir` read the machine's file system. They are parameters: `realPath` of `MakeZipTask`'s constructor, `tempdir` of `SetupTask` and `tempDir` of `AWSLambdaInvokeTask.Create`.
- `os.path.exists` and `os.listdir` become the host's fixed `listing` map. The model does not cover `os.listdir` raising on a path that exists but is not a directory.
- `lcd` is modelled as setting the directory to the given path. Nesting `lcd` calls with relative paths, which Fabric joins, is not modelled; the tasks never nest them.
- The exit status of a command is given by the host's `failing` set. What a command does to the file system (the zip it writes, the files pip installs) is not modelled.
- Fabric's task registration and its command line argument parsing are not modelled. Each class keeps its `name` as a constant, but nothing uses it. Fabric's `env` being global is not modelled either: each `Host` is one machine.
- `str.format` is modelled only for what the tasks need: named and automatically numbered fields with `{{`/`}}` escapes. Conversions, format specs, indexed fields and attribute access are not modelled.
- Commands.GetConfigOptions, Commands.AwsInvokeOptions: a qualifier is modelled as an optional string. Python's truthiness of other types (numbers, lists) is not modelled.
- `install_prefix` and `tempdir` of `SetupTask` are stored but never used by the source. The model stores them too and proves nothing about them.
- Tasks.MakeZipTask.RunMain: its trace is stated with the explicit removal, zip and library-zip calls. `Tasks.MakeZipSteps` equates this with `MainPhase` of the task's calls, and `Run` states the lifecycle in those terms.
