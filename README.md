# KTP deployment and HLTV command API — a verified model

This project models the deterministic core of two programs in the KTP
game-server infrastructure.

- **`deploy/deploy.py`** pushes built artifacts to Day of Defeat server
  clusters.
  - It reads a `.env` file into the process environment.
  - It loads the cluster configuration and applies the `KTP_<CLUSTER>_<FIELD>`
    overrides.
  - For every requested cluster it can name the LinuxGSM instances, upload
    each component's files into every `dod-<port>` directory and render the
    `.j2` configuration templates.
  - It collects one error per failed step and reports the outcome in a
    Discord embed.
  - `main` chooses the target clusters (`--all` means the production
    clusters) and the components (`all` means engine, ktpamx and plugins).
- **`hltv-api.py`** is a small HTTP service.
  - It checks an `X-Auth-Key` header.
  - It routes `POST /hltv/<port>/command` to a write into the instance's FIFO
    pipe, and `POST /hltv/<port>/restart` to a `systemctl restart`.
  - It answers `GET /health`.

Every effect is replaced by an input to the model:

- SSH and SFTP calls, and `stat` or `test -f` on remote paths, become
  oracles (`stat`, `configExists`, `uploadOk`, `connected`);
- the local `Path.exists()` check of an artifact becomes the oracle
  `sourceExists`;
- the outcome of each deployment step is a function of the cluster position
  and the step;
- the relay's HTTP answer, the FIFO's existence and the write outcome are
  parameters;
- the result of `systemctl` is a parameter.

What the model computes is what the programs decide: which files go where,
which errors are reported, and which HTTP status and effect a request gets.

Modules:

- `Options`: an `Option` datatype.
- `Text`: the Python string operations the programs use: `strip`,
  `split`/`join`, `str(int)`, `int()` over ASCII digits, `upper`/`title`
  over ASCII, and `endswith`.
- `DotEnv`: `load_dotenv`. `ProcessEnv` is the process environment, which
  the loop updates in place.
- `DeployConfig`: the configuration entities and `_load_config`.
- `Notify`: the notification embed of `send_discord_notification`.
- `RemoteLayout`: server directories, `_mkdir_p`, `deploy_component`,
  `configure_server_names` and `deploy_configs`.
- `Deployment`: `KTPDeployer.__init__`, `deploy` and the selection in
  `main`.
- `HltvApi`: `do_POST`, `handle_command`, `handle_restart` and `do_GET`.

## Model

| member | source | states |
|---|---|---|
| DotEnv.ProcessEnv.LoadDotenv | deploy/deploy.py:34-49 | the new environment is the file's entries applied in order with `setdefault`; every variable already set keeps its value; a missing file changes nothing |
| DotEnv.ParseLine | deploy/deploy.py:41-47 | a blank line, a `#` comment or a line without `=` yields no entry; otherwise the key is the stripped text before the first `=` and the value the text after it stripped of whitespace, then `"`, then `'`, and the entry is present exactly when both are non-empty |
| DotEnv.ParseKeyValue | deploy/deploy.py:44-48 | `KEY=<raw>` with a clean key yields that key and the cleaned raw value, or nothing when the cleaned value is empty |
| DotEnv.ParseAssignment | deploy/deploy.py:44-47 | a line `key=value` (already trimmed, unquoted) yields exactly that pair, so the value may contain `=` |
| DotEnv.ParseQuoted | deploy/deploy.py:47 | `KEY="VALUE"` yields `VALUE` without its quotes |
| DotEnv.ParseEmptyQuoted | deploy/deploy.py:47-48 | `KEY=""` yields nothing, because the value is empty once its quotes are gone |
| DotEnv.ApplyFile | deploy/deploy.py:34-49 | a missing file leaves the environment unchanged; every variable already set keeps its value |
| DotEnv.KeepsExisting | deploy/deploy.py:48-49 | a variable already in the environment keeps its value whatever the file says |
| DotEnv.FirstAssignmentWins | deploy/deploy.py:48-49 | when a key is not yet set, the first line that assigns it decides its value |
| DotEnv.AddedComesFromLine | deploy/deploy.py:41-49 | every newly set variable comes from some line of the file with that key and value |
| DotEnv.IgnoredLineIrrelevant | deploy/deploy.py:42-43 | inserting or removing a line that yields no entry does not change the result |
| DotEnv.EntriesCover | deploy/deploy.py:48-49 | every key the file assigns is set afterwards |
| DotEnv.LoadTwice | deploy/deploy.py:60-61 | loading the same `.env` a second time (as `main --all` does by building two deployers) changes nothing |
| DeployConfig.LookupFinds | deploy/deploy.py:511 | `clusters.get(name)` finds a cluster exactly when one has that name, and what it finds is that name's cluster |
| DeployConfig.Override | deploy/deploy.py:82-84 | a setting is replaced exactly when its variable is set and non-empty |
| DeployConfig.LoadConfig | deploy/deploy.py:71-112 | the result keeps the clusters and their order, overrides each cluster's host, user and password and the four global settings from their variables, and keeps everything else; the cluster names of the YAML mapping stay distinct |
| DeployConfig.OverrideClusterFields | deploy/deploy.py:78-94 | a changed host, user or password equals a non-empty `KTP_<NAME>_<FIELD>` variable; ports, hostname, prefix and test flag never change |
| DeployConfig.OverriddenIdempotent | deploy/deploy.py:78-110 | applying the overrides again with the same environment changes nothing |
| DeployConfig.OverriddenKeepsNames | deploy/deploy.py:78-94 | the overrides keep cluster names distinct and keep the same names resolvable |
| Notify.SummaryLines | deploy/deploy.py:145-148 | up to five errors are listed unchanged; with more, the first five in order followed by `... and N more` with N = count − 5 |
| Notify.ErrorText | deploy/deploy.py:145-148 | the text built from the first five errors and the `... and N more` line is the summary lines joined by newlines |
| Notify.ErrorTextLines | deploy/deploy.py:146-148 | the error text splits back into the summary lines, so it has at most six lines |
| Notify.Fields | deploy/deploy.py:140-149 | Clusters and Components fields joined by `, `, inline; an Errors field in a code block only when there are errors |
| Notify.BuildPayload | deploy/deploy.py:122-164 | no payload exactly when the relay URL, secret or channel is empty; otherwise one embed sent to the configured channel with the secret |
| Notify.PayloadLook | deploy/deploy.py:131-158 | green and "Deployment Successful" exactly on success, red and "Deployment Failed" otherwise; three fields exactly when there are errors; the description names the version and the outcome; the fields are `Fields(clusters, components, errors)`; the footer is "KTP Deploy" and the timestamp is the given one |
| Notify.NotificationSent | deploy/deploy.py:126-185 | the notification reports success exactly when the relay is configured and answered with status 200 |
| RemoteLayout.GetServerDirs | deploy/deploy.py:208-213 | one `dod-<port>` directory per port, in port order |
| RemoteLayout.ServerDirInjective | deploy/deploy.py:211 | different ports give different directory names |
| RemoteLayout.ServerDirsDistinct | deploy/deploy.py:208-213 | distinct ports give distinct server directories |
| RemoteLayout.DirnameShorter | deploy/deploy.py:328 | `os.path.dirname` of a path that is not all slashes is strictly shorter, so the ancestor walk ends |
| RemoteLayout.MissingAncestors | deploy/deploy.py:321-328 | the walk collects `path` and then each parent in turn, all non-empty and reported missing, and stops at an existing directory or an empty path |
| RemoteLayout.CreateReversed | deploy/deploy.py:330-332 | the directories are created in the reverse of the order collected |
| RemoteLayout.MkdirP | deploy/deploy.py:319-334 | the directories created are the missing ones, none of them empty, shallowest first; each is the parent of the next; the last is the path itself; the parent of the first exists or is empty |
| RemoteLayout.DirUploadsMembers | deploy/deploy.py:280-286 | within one server directory, an upload is attempted exactly for each path spec whose artifact exists, to `/home/<user>/<dir>/<dest>` |
| RemoteLayout.PlannedUploadsMembers | deploy/deploy.py:276-286 | the uploads of a component are exactly the existing artifacts of its path specs, for every server directory |
| RemoteLayout.NoArtifactsNoUploads | deploy/deploy.py:282-284 | when no artifact exists, nothing is uploaded |
| RemoteLayout.AllUploadedAppend | deploy/deploy.py:274-309 | the success flag over two batches of uploads is the conjunction of the two |
| RemoteLayout.UploadToDir | deploy/deploy.py:280-309 | uploads for one directory are the planned ones in spec order, and the flag is true exactly when all of them succeeded |
| RemoteLayout.DeployComponent | deploy/deploy.py:244-317 | false without a host or without paths; true on a dry run with no upload; false if the connection fails; otherwise the planned uploads in order, and true exactly when every upload succeeded (a missing artifact is skipped, not a failure; see Left out for the other exceptions) |
| RemoteLayout.NamePrefix | deploy/deploy.py:362-363 | a configured `server_name_prefix` is used as is; otherwise `KTP ` and the title-cased hostname, which itself defaults to the cluster name |
| RemoteLayout.ExecNameInjective | deploy/deploy.py:380 | `dodserver` for instance 1 and `dodserver<i>` otherwise name every instance differently |
| RemoteLayout.InstanceConfigFilesDistinct | deploy/deploy.py:380-383 | two instances of a cluster never share a configuration file, whatever their ports |
| RemoteLayout.ConfigTextLines | deploy/deploy.py:401-410 | text written from single lines splits back into those lines plus the empty line after the final newline |
| RemoteLayout.NewConfigDeclaresPorts | deploy/deploy.py:399-410 | a new configuration is nine newline-terminated lines, the last one empty (ten pieces when split at newlines), with the settings `port="<port>"`, `clientport="<port − 10>"` and `servername="<name>"` on lines 4 to 6 |
| RemoteLayout.ActionFor | deploy/deploy.py:378-410 | instance k+1 uses `dod-<port>/lgsm/config-lgsm/dodserver/<exec>.cfg`; it only gets its name `<prefix> #<k+1>` set exactly when that file exists, and is created otherwise |
| RemoteLayout.InstanceNaming | deploy/deploy.py:378-410 | instance k+1 is named `<prefix> #<k+1>`; an existing configuration only gets its name set, and a missing one is created with the client port ten below the game port |
| RemoteLayout.NameActionsAt | deploy/deploy.py:378-383 | the k-th naming action is that of instance k+1 on the k-th port |
| RemoteLayout.ConfigureServerNames | deploy/deploy.py:355-419 | true exactly on a dry run or a successful connection; when connected, one naming action per port, in port order; none on a dry run or a failed connection |
| RemoteLayout.DirConfigWritesMembers | deploy/deploy.py:446-467 | within one server directory, a file is written exactly for each `.j2` template, named without the extension, in the ktpamx configs directory |
| RemoteLayout.ConfigWritesMembers | deploy/deploy.py:446-471 | the files written are exactly every `.j2` template rendered into every server directory |
| RemoteLayout.TemplateRenderedUnderName | deploy/deploy.py:455-466 | a template `<name>.j2` in a server directory is written to `<name>` in that directory's configs directory; a file without the `.j2` extension is not written |
| RemoteLayout.RenderIntoDir | deploy/deploy.py:454-471 | the writes for one directory skip non-`.j2` templates and keep template order |
| RemoteLayout.DeployConfigs | deploy/deploy.py:421-481 | true without templates or on a dry run, with no write; false if the connection fails; otherwise every `.j2` template written into every server directory, in order |
| Deployment.NewDeployer | deploy/deploy.py:55-69 | the environment gets the `.env` entries, and the configuration is the parsed one with its overrides applied, its cluster names still distinct |
| Deployment.ComponentFailuresMembers | deploy/deploy.py:531-534 | the component steps of a cluster record `<cluster>: Failed to deploy <component>` exactly for each component whose deployment failed |
| Deployment.ComponentFailuresInOrder | deploy/deploy.py:531-534 | no components record nothing, and one more component appends its message, if it failed, after those of the earlier components |
| Deployment.FailedStepsMembers | deploy/deploy.py:525-540 | an error is recorded for a cluster exactly for each failed step, with that step's message |
| Deployment.FailedStepsEmpty | deploy/deploy.py:525-540 | a cluster records no error exactly when all its steps succeed |
| Deployment.FailedStepsAppend | deploy/deploy.py:525-540 | the errors of consecutive steps are the errors of each part in step order |
| Deployment.ClusterErrorsEmpty | deploy/deploy.py:511-540 | a cluster records no message exactly when it is known and all its steps succeeded |
| Deployment.ErrorsEmptyAt | deploy/deploy.py:507-540 | an empty error list means no requested cluster recorded a message |
| Deployment.ErrorsEmptyWhenQuiet | deploy/deploy.py:507-540 | when no requested cluster records a message, the error list is empty |
| Deployment.ErrorsEmpty | deploy/deploy.py:507-540 | the error list is empty exactly when every cluster is known and every one of its steps succeeded |
| Deployment.RunComponents | deploy/deploy.py:531-534 | the component errors in component order, and a flag that is true exactly when there is none |
| Deployment.RunSteps | deploy/deploy.py:524-540 | the errors of one cluster in step order (names, components, configs), and a flag that is true exactly when there is none |
| Deployment.Notice | deploy/deploy.py:549-551 | a notification is posted exactly when asked for, not on a dry run, and only when the relay is configured |
| Deployment.Deploy | deploy/deploy.py:483-553 | errors in cluster-then-step order; success exactly when there is no error, that is, when every cluster is known and every one of its steps succeeded; the payload from the notification rules |
| Deployment.ProductionClustersMembers | deploy/deploy.py:650-657 | `--all` selects a name exactly when a cluster with that name is not a test cluster and has a host |
| Deployment.ProductionClustersAppend | deploy/deploy.py:653-657 | the selection keeps configuration order |
| Deployment.Components | deploy/deploy.py:662-665 | `all` expands to engine, ktpamx, plugins in that order; any other choice is exactly the component it names |
| Deployment.AllTargetsKnown | deploy/deploy.py:650-657 | no cluster chosen by `--all` is reported as unknown by `deploy` |
| HltvApi.RouteOf | hltv-api.py:44-59 | once outer slashes are stripped: not three `/`-separated segments starting with `hltv` gives a bad path; then a non-integer port a bad port; then a port outside 27020..27044 an out-of-range port; otherwise that port and the third segment |
| HltvApi.RouteRoundTrip | hltv-api.py:44-59 | `/hltv/<port>/<action>` with a valid port and an action without `/` is routed to that port and action |
| HltvApi.RouteRejectsOutOfRange | hltv-api.py:54-56 | `/hltv/<port>/<action>` with an integer port outside 27020..27044 is rejected for its range |
| HltvApi.RouteRejectsNonInteger | hltv-api.py:49-53 | `/hltv/<text>/<action>` whose port text is not an integer is rejected as an invalid port |
| HltvApi.HandlePost | hltv-api.py:36-66 | every response is 200, 400, 401 or 500; no response is sent only for an authorized `command` request on a routed port; an authorized request routed to `command` or `restart` on a valid port gets exactly what `HandleCommand` or `HandleRestart` gives for that port |
| HltvApi.HandleCommand | hltv-api.py:68-100 | no response exactly when the length header is not an integer, or it is non-zero and the body is JSON other than an object; every response is 200, 400 or 500; the only effect is an attempted write to the port's pipe, and only when that pipe exists; 200 only after a successful write; for a non-zero length and a non-empty command, a missing pipe gives 500 "Pipe not found: <pipe>" with no effect, and for an existing pipe a write of the command and a newline is attempted, answered 200 with port and command when opening and writing succeed and 500 with the error when either raises |
| HltvApi.HandleRestart | hltv-api.py:102-135 | a restart of the port's `hltv@<port>` service is always attempted and the response is 200 or 500 |
| HltvApi.AuthChecked | hltv-api.py:38-41 | 401 is answered exactly when the key is missing or wrong, and without effect |
| HltvApi.AuthBeforeEverything | hltv-api.py:36-41 | with a wrong key, path, headers, body and outside world do not matter |
| HltvApi.PathBeforeBody | hltv-api.py:44-57 | a path that is malformed, has a non-integer port or a port out of range gets 400 without effect, independent of the body |
| HltvApi.EffectsNeedValidRequest | hltv-api.py:36-66 | a pipe write or a restart is attempted only for an authorized request on a valid port with the matching action, on that port's pipe or service |
| HltvApi.UnknownActionRejected | hltv-api.py:59-66 | an action other than `command` or `restart` is answered 400 "Unknown action: <action>" |
| HltvApi.CommandOf | hltv-api.py:76-81 | a JSON object gives its stripped `command` member, or the empty command when it has none; text that is not JSON gives itself stripped; any other JSON value gives no command (the handler raises) |
| HltvApi.EmptyCommandRejected | hltv-api.py:71-86 | a zero or missing Content-Length and an empty command are answered 400 without effect |
| HltvApi.CommandWritten | hltv-api.py:71-97 | a write to the pipe is attempted if and only if the length is a non-zero integer, the body carries a non-empty command and the port's pipe exists; the attempt goes to `hltv-<port>.pipe` and carries that command with a newline added; a successful write echoes port and command |
| HltvApi.NewlineTerminated | hltv-api.py:95 | a stripped non-empty command plus the newline ends in exactly one newline, and dropping it gives the command back |
| HltvApi.RestartOutcome | hltv-api.py:102-135 | the service is `hltv@<port>`; 200 with `HLTV <port> restarted successfully` exactly when the exit status is 0, otherwise 500; a failed exit carries the port and the trimmed stderr, or "Unknown error" when it is blank; a timeout answers "Restart timed out" and another exception its message |
| HltvApi.HandleGet | hltv-api.py:137-141 | 200 with the health reply exactly for `/health`, 404 "Not found" otherwise |
| Text.StripIdempotent | hltv-api.py:79-81 | stripping a stripped string changes nothing |
| Text.SplitJoin | hltv-api.py:44 | splitting a join of separator-free parts gives back the parts |
| Text.ParseIntToString | hltv-api.py:50 | `int(str(n)) == n` |
| Text.IntToStringInjective | deploy/deploy.py:211 | different integers print differently |

## Left out

- SSH, SFTP and the shell:
  - the connection itself, `sftp.put`, `chmod`, `mkdir` and `sftp.open` writes;
  - both backup helpers and their timestamps;
  - the shell text of the `mkdir -p`, `test -f`, `sed`/`echo` and `cat` here-document commands.
  The model keeps only the decisions: which file, which name, which lines.
- Exceptions after a successful connection in `deploy_component`, `configure_server_names` and `deploy_configs` are not modelled, so in the model these steps run to the end once connected.
- RemoteLayout.DeployComponent: the source returns false at once when `sftp.stat` of a destination directory raises anything but a missing-file error, when `_mkdir_p` raises, or when a path spec has no `dest` (deploy/deploy.py:286-294, 315-317). The model's flag reflects only the uploads.
- RemoteLayout.DeployComponent does not model the `dirname`/`_mkdir_p` of each destination. `MkdirP` is modelled on its own.
- RemoteLayout.DeployConfigs does not model the `_mkdir_p` of each server's configs directory (deploy/deploy.py:451). Only the files written are modelled.
- YAML loading, Jinja2 rendering and `json.loads`/`json.dumps` are foreign libraries.
  - The parsed configuration is an input.
  - A template's rendered text is not modelled; only the files written are.
  - A request body is abstracted as a JSON object with an optional string `command`, other JSON, or non-JSON text.
- RemoteLayout.DeployConfigs: the `profile` argument is not modelled. The profile it selects only feeds template rendering.
- The configuration is assumed to have `clusters`, `paths` and `profiles`, and every cluster to have `ports`. The source reads `self.config["paths"]`, `self.config["profiles"]`, `self.config["clusters"]` and, on a dry run, `cluster["ports"]` outside any `try` (deploy/deploy.py:256, 433, 511, 370). A configuration without them aborts the whole run with a `KeyError`. The model's `Config` always carries `clusters` and `paths`, and its `Cluster` always carries `ports`; `profiles` is not modelled at all, since it only feeds template rendering.
- The `urllib` POST, the `HTTPServer` loop, the FIFO write and `subprocess` are effects. Their outcomes are inputs: `Delivery`, `pipeExists`, `WriteResult` and `RestartResult`.
- Timestamps: `datetime.utcnow()` is a parameter of the payload. `API_PORT` and the server start-up are not modelled.
- Logging: every `print` is omitted.
- Text.ParseInt accepts optional surrounding whitespace, an optional sign and ASCII digits. It does not accept `_` separators or non-ASCII digits as Python's `int()` does.
- Text.Upper and Text.Title work on ASCII letters only. They are not Unicode `str.upper`/`str.title`. Python's whitespace set for `strip` is modelled in full.
- HltvApi.HandleCommand: a body that is not valid UTF-8, a JSON value that is not an object, and a `command` member that is not a string make the handler raise. The caller gives all three as `OtherJson`, for which the model sends no response (`response == None`), as it does for a non-integer Content-Length.
- DeployConfig.Cluster: an absent `host` or `user` is the empty string in the model. The source reads both by subscript when a step connects (deploy/deploy.py:193-195, 277, 381, 447), inside the step's `try`, so an absent one makes that step fail. The model leaves this to the caller-supplied outcome of the connection.
- RemoteLayout.MkdirP requires that a path made only of slashes is reported as existing. With `/` reported missing, the source's loop never ends.
- Deployment.Deploy: a cluster whose configuration is present but empty is treated by the source as unknown. The model only knows present and absent clusters.
- Deployment.Deploy: the source passes `None` instead of the error list on success. The model passes the empty list; the embed treats both alike.
- Deployment.Deploy: the outcome of each step is an oracle `stepOk(cluster position, step)`. The calls into `configure_server_names`, `deploy_component` and `deploy_configs` are modelled separately, not chained.
- `main` parses arguments, checks that the artifacts directory exists and exits with a status. These are not modelled. The selection of clusters and components is modelled, and `DotEnv.LoadTwice` covers the second construction of the deployer.
