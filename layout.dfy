/** Where the deployment tool puts things on a game host (deploy/deploy.py):
    the per-port server directories, the `mkdir -p` walk, the uploads of
    `deploy_component`, the LinuxGSM instance names of
    `configure_server_names` and the rendered configuration files of
    `deploy_configs`. Remote calls are replaced by outcomes handed in by the
    caller. */
module RemoteLayout {
  import opened Options
  import opened Text
  import opened DeployConfig

  // ---------------------------------------------------------------------
  // Server directories
  // ---------------------------------------------------------------------

  /** `f"dod-{port}"` */
  function ServerDir(port: int): string {
    "dod-" + IntToString(port)
  }

  /** `f"/home/{cluster['user']}"` */
  function HomeDir(user: string): string {
    "/home/" + user
  }

  /** Different ports get different directories. */
  lemma ServerDirInjective(p: int, q: int)
    requires ServerDir(p) == ServerDir(q)
    ensures p == q
  {
    DropPrefix("dod-", IntToString(p), IntToString(q));
    IntToStringInjective(p, q);
  }

  /** `_get_server_dirs`: one directory per port, in port order. */
  method GetServerDirs(cluster: Cluster) returns (dirs: seq<string>)
    ensures |dirs| == |cluster.ports|
    ensures forall i :: 0 <= i < |dirs| ==> dirs[i] == ServerDir(cluster.ports[i])
  {
    dirs := [];
    for i := 0 to |cluster.ports|
      invariant |dirs| == i
      invariant forall j :: 0 <= j < i ==> dirs[j] == ServerDir(cluster.ports[j])
    {
      dirs := dirs + [ServerDir(cluster.ports[i])];
    }
  }

  /** Distinct ports give distinct directories. */
  lemma ServerDirsDistinct(ports: seq<int>, dirs: seq<string>)
    requires |dirs| == |ports|
    requires forall i :: 0 <= i < |dirs| ==> dirs[i] == ServerDir(ports[i])
    requires forall i, j :: 0 <= i < j < |ports| ==> ports[i] != ports[j]
    ensures forall i, j :: 0 <= i < j < |dirs| ==> dirs[i] != dirs[j]
  {
    forall i, j | 0 <= i < j < |dirs|
      ensures dirs[i] != dirs[j]
    {
      if dirs[i] == dirs[j] {
        ServerDirInjective(ports[i], ports[j]);
      }
    }
  }

  // ---------------------------------------------------------------------
  // os.path.dirname and _mkdir_p
  // ---------------------------------------------------------------------

  predicate AllSlashes(s: string) {
    forall i :: 0 <= i < |s| ==> s[i] == '/'
  }

  /** `os.path.dirname` for POSIX paths: everything up to the last `/`,
      with trailing slashes removed unless only slashes remain. */
  function Dirname(p: string): (r: string)
    ensures |r| <= |p|
  {
    var head := p[..LastIndex(p, '/') + 1];
    if head != [] && !AllSlashes(head) then TrimEnd(head, Only('/')) else head
  }

  /** The parent of a path is strictly shorter, unless the path is made of
      slashes only (then it is its own parent). */
  lemma DirnameShorter(p: string)
    requires p != [] && !AllSlashes(p)
    ensures |Dirname(p)| < |p|
  {
    var i := LastIndex(p, '/') + 1;
    var head := p[..i];
    if i == |p| {
      assert head == p;
      var r := TrimEnd(head, Only('/'));
      assert p[|p| - 1] == '/';
      if |r| == |p| {
        TrimEndIsPrefix(head, Only('/'));
        assert r == p;
      }
    }
  }

  /** The stat oracle always finds the root: a path made only of slashes
      exists. `_mkdir_p` relies on this to stop. */
  ghost predicate RootExists(stat: string -> bool) {
    forall p :: p != [] && AllSlashes(p) ==> stat(p)
  }

  /** The walk of `_mkdir_p`: from `path` upwards, every directory `stat`
      reports missing, deepest first, until one exists or the path runs
      out. */
  method MissingAncestors(stat: string -> bool, path: string) returns (dirs: seq<string>)
    requires RootExists(stat)
    ensures forall j :: 0 <= j < |dirs| ==> dirs[j] != [] && !stat(dirs[j])
    ensures |dirs| > 0 ==> dirs[0] == path
    ensures forall j :: 0 < j < |dirs| ==> dirs[j] == Dirname(dirs[j - 1])
    ensures var top := if |dirs| == 0 then path else Dirname(dirs[|dirs| - 1]); top == [] || stat(top)
  {
    dirs := [];
    var p := path;
    while p != []
      invariant forall j :: 0 <= j < |dirs| ==> dirs[j] != [] && !stat(dirs[j])
      invariant |dirs| > 0 ==> dirs[0] == path
      invariant forall j :: 0 < j < |dirs| ==> dirs[j] == Dirname(dirs[j - 1])
      invariant p == if |dirs| == 0 then path else Dirname(dirs[|dirs| - 1])
      decreases |p|
    {
      if stat(p) {
        return;
      }
      DirnameShorter(p);
      dirs := dirs + [p];
      p := Dirname(p);
    }
  }

  /** `for d in reversed(dirs): sftp.mkdir(d)`: the directories in the
      order they are created. */
  method CreateReversed(dirs: seq<string>) returns (made: seq<string>)
    ensures |made| == |dirs|
    ensures forall j :: 0 <= j < |made| ==> made[j] == dirs[|dirs| - 1 - j]
  {
    made := [];
    var k := |dirs|;
    while k > 0
      invariant 0 <= k <= |dirs|
      invariant |made| == |dirs| - k
      invariant forall j :: 0 <= j < |made| ==> made[j] == dirs[|dirs| - 1 - j]
    {
      k := k - 1;
      made := made + [dirs[k]];
    }
  }

  /** `_mkdir_p(sftp, path)`: collects every missing directory from `path`
      upwards until it meets one that exists (or runs out of path), then
      creates them shallowest first. `stat` says whether a remote path
      exists; the result is the list of directories created, in order. */
  method MkdirP(stat: string -> bool, path: string) returns (made: seq<string>)
    requires RootExists(stat)
    ensures forall j :: 0 <= j < |made| ==> made[j] != [] && !stat(made[j])
    ensures |made| > 0 ==> made[|made| - 1] == path
    ensures forall j :: 0 < j < |made| ==> made[j - 1] == Dirname(made[j])
    ensures var top := if |made| == 0 then path else Dirname(made[0]); top == [] || stat(top)
  {
    var dirs := MissingAncestors(stat, path);
    made := CreateReversed(dirs);
    forall j | 0 < j < |made|
      ensures made[j - 1] == Dirname(made[j])
    {
      assert dirs[|dirs| - j] == Dirname(dirs[|dirs| - j - 1]);
    }
  }

  // ---------------------------------------------------------------------
  // deploy_component
  // ---------------------------------------------------------------------

  /** One `sftp.put`: the artifact (named relative to the artifacts
      directory) and the remote destination. */
  datatype Upload = Upload(source: string, dest: string)

  /** The remote I/O of one `deploy_component` call: whether the SSH
      connection opened, whether an artifact exists locally, and whether the
      upload (with its chmod) of a file succeeded. */
  datatype ComponentIo = ComponentIo(
    connected: bool,
    sourceExists: string -> bool,
    uploadOk: Upload -> bool)

  /** `self.config["paths"].get(component, [])` */
  function ComponentPaths(config: Config, component: string): seq<PathSpec> {
    if component in config.paths then config.paths[component] else []
  }

  /** The server directories of a list of ports, in order. */
  ghost function ServerDirs(ports: seq<int>): seq<string> {
    seq(|ports|, i requires 0 <= i < |ports| => ServerDir(ports[i]))
  }

  /** `f"{home_dir}/{server_dir}/{path_config['dest']}"` */
  function DestPath(user: string, serverDir: string, spec: PathSpec): string {
    HomeDir(user) + "/" + serverDir + "/" + spec.dest
  }

  /** The uploads for one server directory: one per path spec whose
      artifact exists, in path-spec order. */
  function DirUploads(user: string, serverDir: string, specs: seq<PathSpec>, sourceExists: string -> bool): seq<Upload>
    decreases |specs|
  {
    if specs == [] then []
    else
      var spec := specs[|specs| - 1];
      DirUploads(user, serverDir, specs[..|specs| - 1], sourceExists)
        + (if sourceExists(spec.source) then [Upload(spec.source, DestPath(user, serverDir, spec))] else [])
  }

  /** All uploads of one component: server directories in order, and within
      each the path specs in order. */
  function PlannedUploads(user: string, dirs: seq<string>, specs: seq<PathSpec>, sourceExists: string -> bool): seq<Upload>
    decreases |dirs|
  {
    if dirs == [] then []
    else
      PlannedUploads(user, dirs[..|dirs| - 1], specs, sourceExists)
        + DirUploads(user, dirs[|dirs| - 1], specs, sourceExists)
  }

  /** An upload is attempted exactly for an existing artifact of some spec
      and its destination below the given server directory. */
  lemma {:induction false} DirUploadsMembers(user: string, serverDir: string, specs: seq<PathSpec>,
                                             sourceExists: string -> bool, u: Upload)
    ensures u in DirUploads(user, serverDir, specs, sourceExists) <==>
      exists k :: 0 <= k < |specs| && sourceExists(specs[k].source)
        && u == Upload(specs[k].source, DestPath(user, serverDir, specs[k]))
    decreases |specs|
  {
    if specs != [] {
      var init := specs[..|specs| - 1];
      DirUploadsMembers(user, serverDir, init, sourceExists, u);
      forall k | 0 <= k < |init| ensures init[k] == specs[k] { }
    }
  }

  /** The planned uploads are exactly the existing artifacts of every spec,
      for every server directory. */
  lemma {:induction false} PlannedUploadsMembers(user: string, dirs: seq<string>, specs: seq<PathSpec>,
                                                 sourceExists: string -> bool, u: Upload)
    ensures u in PlannedUploads(user, dirs, specs, sourceExists) <==>
      exists d, k :: 0 <= d < |dirs| && 0 <= k < |specs| && sourceExists(specs[k].source)
        && u == Upload(specs[k].source, DestPath(user, dirs[d], specs[k]))
    decreases |dirs|
  {
    if dirs != [] {
      var init := dirs[..|dirs| - 1];
      PlannedUploadsMembers(user, init, specs, sourceExists, u);
      DirUploadsMembers(user, dirs[|dirs| - 1], specs, sourceExists, u);
      forall d | 0 <= d < |init| ensures init[d] == dirs[d] { }
    }
  }

  /** A missing artifact is skipped: when no artifact exists, nothing is
      uploaded. */
  lemma {:induction false} NoArtifactsNoUploads(user: string, dirs: seq<string>, specs: seq<PathSpec>,
                                                sourceExists: string -> bool)
    requires forall k :: 0 <= k < |specs| ==> !sourceExists(specs[k].source)
    ensures PlannedUploads(user, dirs, specs, sourceExists) == []
  {
    var planned := PlannedUploads(user, dirs, specs, sourceExists);
    if planned != [] {
      PlannedUploadsMembers(user, dirs, specs, sourceExists, planned[0]);
      assert false;
    }
  }

  predicate AllUploaded(uploads: seq<Upload>, uploadOk: Upload -> bool) {
    forall k :: 0 <= k < |uploads| ==> uploadOk(uploads[k])
  }

  lemma AllUploadedAppend(a: seq<Upload>, b: seq<Upload>, uploadOk: Upload -> bool)
    ensures AllUploaded(a + b, uploadOk) <==> AllUploaded(a, uploadOk) && AllUploaded(b, uploadOk)
  {
    if AllUploaded(a, uploadOk) && AllUploaded(b, uploadOk) {
      forall k | 0 <= k < |a + b| ensures uploadOk((a + b)[k]) {
        if k < |a| {
          assert (a + b)[k] == a[k];
        } else {
          assert (a + b)[k] == b[k - |a|];
        }
      }
    }
    if AllUploaded(a + b, uploadOk) {
      forall k | 0 <= k < |a| ensures uploadOk(a[k]) {
        assert (a + b)[k] == a[k];
      }
      forall k | 0 <= k < |b| ensures uploadOk(b[k]) {
        assert (a + b)[|a| + k] == b[k];
      }
    }
  }

  /** One more server directory adds its own uploads at the end. */
  lemma PlannedUploadsStep(user: string, dirs: seq<string>, i: nat, specs: seq<PathSpec>, sourceExists: string -> bool)
    requires i < |dirs|
    ensures PlannedUploads(user, dirs[..i + 1], specs, sourceExists)
      == PlannedUploads(user, dirs[..i], specs, sourceExists) + DirUploads(user, dirs[i], specs, sourceExists)
  {
    assert dirs[..i + 1][..i] == dirs[..i];
  }

  /** The inner loop of `deploy_component` for one server directory: every
      path spec in order, skipping missing artifacts; `ok` is cleared by a
      failed upload. */
  method UploadToDir(user: string, serverDir: string, specs: seq<PathSpec>, io: ComponentIo)
    returns (ok: bool, uploads: seq<Upload>)
    ensures uploads == DirUploads(user, serverDir, specs, io.sourceExists)
    ensures ok <==> AllUploaded(uploads, io.uploadOk)
  {
    ok := true;
    uploads := [];
    var j := 0;
    while j < |specs|
      invariant 0 <= j <= |specs|
      invariant uploads == DirUploads(user, serverDir, specs[..j], io.sourceExists)
      invariant ok <==> AllUploaded(uploads, io.uploadOk)
    {
      var spec := specs[j];
      assert specs[..j + 1][..j] == specs[..j];
      if io.sourceExists(spec.source) {
        var u := Upload(spec.source, DestPath(user, serverDir, spec));
        AllUploadedAppend(uploads, [u], io.uploadOk);
        assert AllUploaded([u], io.uploadOk) <==> io.uploadOk(u) by {
          assert [u][0] == u;
        }
        if !io.uploadOk(u) {
          ok := false;
        }
        uploads := uploads + [u];
      }
      j := j + 1;
    }
    assert specs[..j] == specs;
  }

  /** `deploy_component`: returns its success flag and the uploads it
      attempted. No host, or no paths for the component, is a failure; a dry
      run succeeds without uploading; otherwise it succeeds when every
      attempted upload succeeded, missing artifacts being skipped. */
  method DeployComponent(config: Config, cluster: Cluster, component: string, dryRun: bool, io: ComponentIo)
    returns (ok: bool, uploads: seq<Upload>)
    ensures cluster.host == "" ==> !ok && uploads == []
    ensures cluster.host != "" && ComponentPaths(config, component) == [] ==> !ok && uploads == []
    ensures cluster.host != "" && ComponentPaths(config, component) != [] && dryRun ==> ok && uploads == []
    ensures cluster.host != "" && ComponentPaths(config, component) != [] && !dryRun && !io.connected ==>
      !ok && uploads == []
    ensures cluster.host != "" && ComponentPaths(config, component) != [] && !dryRun && io.connected ==>
      uploads == PlannedUploads(cluster.user, ServerDirs(cluster.ports), ComponentPaths(config, component), io.sourceExists)
      && (ok <==> AllUploaded(uploads, io.uploadOk))
  {
    if cluster.host == "" {
      return false, [];
    }
    var specs := ComponentPaths(config, component);
    if specs == [] {
      return false, [];
    }
    if dryRun {
      return true, [];
    }
    if !io.connected {
      return false, [];
    }
    var serverDirs := GetServerDirs(cluster);
    assert serverDirs == ServerDirs(cluster.ports);
    ok := true;
    uploads := [];
    var i := 0;
    while i < |serverDirs|
      invariant 0 <= i <= |serverDirs|
      invariant uploads == PlannedUploads(cluster.user, serverDirs[..i], specs, io.sourceExists)
      invariant ok <==> AllUploaded(uploads, io.uploadOk)
    {
      var dirOk, dirUploads := UploadToDir(cluster.user, serverDirs[i], specs, io);
      PlannedUploadsStep(cluster.user, serverDirs, i, specs, io.sourceExists);
      AllUploadedAppend(uploads, dirUploads, io.uploadOk);
      ok := ok && dirOk;
      uploads := uploads + dirUploads;
      i := i + 1;
    }
    assert serverDirs[..i] == serverDirs;
  }

  // ---------------------------------------------------------------------
  // configure_server_names
  // ---------------------------------------------------------------------

  /** `cluster.get("hostname", cluster_name)` */
  function Hostname(clusterName: string, cluster: Cluster): string {
    cluster.hostname.GetOr(clusterName)
  }

  /** `cluster.get("server_name_prefix", f"KTP {hostname.title()}")` */
  function NamePrefix(clusterName: string, cluster: Cluster): (r: string)
    ensures cluster.serverNamePrefix.Some? ==> r == cluster.serverNamePrefix.value
    ensures cluster.serverNamePrefix.None? ==> r == "KTP " + Title(Hostname(clusterName, cluster))
    ensures cluster.serverNamePrefix.None? && cluster.hostname.None? ==> r == "KTP " + Title(clusterName)
  {
    cluster.serverNamePrefix.GetOr("KTP " + Title(Hostname(clusterName, cluster)))
  }

  /** `f"{server_name_prefix} #{i}"` for the 1-based instance number. */
  function ServerName(prefix: string, i: nat): string {
    prefix + " #" + IntToString(i)
  }

  /** The LinuxGSM instance script of the i-th instance (1-based). */
  function ExecName(i: nat): (r: string)
    ensures '/' !in r
  {
    if i == 1 then "dodserver" else "dodserver" + IntToString(i)
  }

  /** Different instances have different LinuxGSM scripts. */
  lemma ExecNameInjective(i: nat, j: nat)
    requires i >= 1 && j >= 1 && ExecName(i) == ExecName(j)
    ensures i == j
  {
    if i != 1 && j != 1 {
      DropPrefix("dodserver", IntToString(i), IntToString(j));
      IntToStringInjective(i, j);
    }
  }

  function InstanceConfigDir(user: string, port: int): string {
    HomeDir(user) + "/" + ServerDir(port) + "/lgsm/config-lgsm/dodserver"
  }

  /** `f"{exec_name}.cfg"` */
  function ExecConfigName(i: nat): (r: string)
    ensures '/' !in r
  {
    ExecName(i) + ".cfg"
  }

  function InstanceConfigFile(user: string, port: int, i: nat): string {
    InstanceConfigDir(user, port) + "/" + ExecConfigName(i)
  }

  /** No two instances of a cluster share a configuration file, whatever
      their ports: the file is named after the instance number. */
  lemma InstanceConfigFilesDistinct(user: string, p: int, i: nat, q: int, j: nat)
    requires i >= 1 && j >= 1 && i != j
    ensures InstanceConfigFile(user, p, i) != InstanceConfigFile(user, q, j)
  {
    if InstanceConfigFile(user, p, i) == InstanceConfigFile(user, q, j) {
      LastPartUnique(InstanceConfigDir(user, p), ExecConfigName(i), InstanceConfigDir(user, q), ExecConfigName(j), '/');
      DropSuffix(ExecName(i), ExecName(j), ".cfg");
      ExecNameInjective(i, j);
      assert false;
    }
  }

  /** A shell-style comment line. */
  function Comment(text: string): (r: string)
    ensures '\n' !in text ==> '\n' !in r
  {
    "# " + text
  }

  /** A LinuxGSM setting line, `key="value"`. */
  function Setting(key: string, value: string): (r: string)
    ensures '\n' !in key && '\n' !in value ==> '\n' !in r
  {
    key + "=\"" + value + "\""
  }

  /** The first lines of a new configuration: what it is, for which
      instance and port. */
  function ConfigHeader(i: nat, port: int): seq<string> {
    [Comment("LinuxGSM Instance Configuration"),
     Comment("Instance " + IntToString(i) + " - Port " + IntToString(port)),
     ""]
  }

  /** The settings of a new configuration: game port, client port, name. */
  function ConfigSettings(port: int, serverName: string): seq<string> {
    [Setting("port", IntToString(port)),
     Setting("clientport", IntToString(port - 10)),
     Setting("servername", serverName)]
  }

  /** The last lines of a new configuration: the cluster it belongs to. */
  function ConfigFooter(hostname: string): seq<string> {
    ["", Comment("Cluster: " + hostname), ""]
  }

  /** The lines of the configuration written for a new instance. */
  function NewConfigLines(i: nat, port: int, serverName: string, hostname: string): seq<string> {
    ConfigHeader(i, port) + ConfigSettings(port, serverName) + ConfigFooter(hostname)
  }

  /** The text written for a configuration given as lines: the template
      ends with a newline and the here-document adds one more. */
  function ConfigText(lines: seq<string>): string {
    Join(lines, "\n") + "\n"
  }

  lemma ConfigHeaderSingle(i: nat, port: int)
    ensures var ls := ConfigHeader(i, port); forall k :: 0 <= k < |ls| ==> '\n' !in ls[k]
  {
    var a, b := IntToString(i), IntToString(port);
    assert '\n' !in "LinuxGSM Instance Configuration";
    assert '\n' !in "Instance " + a + " - Port " + b;
  }

  lemma ConfigSettingsSingle(port: int, serverName: string)
    requires '\n' !in serverName
    ensures var ls := ConfigSettings(port, serverName); forall k :: 0 <= k < |ls| ==> '\n' !in ls[k]
  {
    assert '\n' !in "port" && '\n' !in "clientport" && '\n' !in "servername";
  }

  lemma ConfigFooterSingle(hostname: string)
    requires '\n' !in hostname
    ensures var ls := ConfigFooter(hostname); forall k :: 0 <= k < |ls| ==> '\n' !in ls[k]
  {
    assert '\n' !in "Cluster: " + hostname;
  }

  /** No line of a new configuration holds a newline. */
  lemma NewConfigLinesSingle(i: nat, port: int, serverName: string, hostname: string)
    requires '\n' !in serverName && '\n' !in hostname
    ensures var ls := NewConfigLines(i, port, serverName, hostname);
      forall k :: 0 <= k < |ls| ==> '\n' !in ls[k]
  {
    ConfigHeaderSingle(i, port);
    ConfigSettingsSingle(port, serverName);
    ConfigFooterSingle(hostname);
    var h, m, f := ConfigHeader(i, port), ConfigSettings(port, serverName), ConfigFooter(hostname);
    forall k | 0 <= k < |h + m + f|
      ensures '\n' !in (h + m + f)[k]
    {
      if k < 3 { assert (h + m + f)[k] == h[k]; }
      else if k < 6 { assert (h + m + f)[k] == m[k - 3]; }
      else { assert (h + m + f)[k] == f[k - 6]; }
    }
  }

  /** The text of single lines splits back into those lines and the empty
      line after the final newline. */
  lemma ConfigTextLines(lines: seq<string>)
    requires |lines| >= 1
    requires forall k :: 0 <= k < |lines| ==> '\n' !in lines[k]
    ensures Split(ConfigText(lines), '\n') == lines + [""]
  {
    var ls := lines + [""];
    JoinAppend(lines, "", "\n");
    assert ConfigText(lines) == Join(ls, "\n");
    assert forall k :: 0 <= k < |ls| ==> '\n' !in ls[k] by {
      forall k | 0 <= k < |ls| ensures '\n' !in ls[k] {
        if k < |lines| { assert ls[k] == lines[k]; }
      }
    }
    SplitJoin(ls, '\n');
  }

  /** A new configuration is nine newline-terminated lines, the last one
      empty (so splitting its text at newlines gives ten pieces), and
      declares the game port, the client port ten below it and the instance
      name on lines 4 to 6. */
  lemma NewConfigDeclaresPorts(i: nat, port: int, serverName: string, hostname: string)
    requires '\n' !in serverName && '\n' !in hostname
    ensures var lines := Split(ConfigText(NewConfigLines(i, port, serverName, hostname)), '\n');
      && |lines| == 10 && lines[8] == "" && lines[9] == ""
      && lines[3] == Setting("port", IntToString(port))
      && lines[4] == Setting("clientport", IntToString(port - 10))
      && lines[5] == Setting("servername", serverName)
  {
    NewConfigLinesSingle(i, port, serverName, hostname);
    ConfigTextLines(NewConfigLines(i, port, serverName, hostname));
  }

  /** What `configure_server_names` does for one instance: rewrite (or
      append) the `servername=` line of an existing configuration, or write
      a new one with the given lines. */
  datatype NameAction =
    | SetServerName(file: string, serverName: string)
    | CreateConfig(file: string, lines: seq<string>)

  /** The action for the instance on the k-th port (0-based), given whether
      its configuration file exists. */
  function ActionFor(clusterName: string, cluster: Cluster, configExists: string -> bool, k: nat): (r: NameAction)
    requires k < |cluster.ports|
    ensures r.file == InstanceConfigFile(cluster.user, cluster.ports[k], k + 1)
    ensures r.SetServerName? <==> configExists(r.file)
    ensures r.SetServerName? ==> r.serverName == ServerName(NamePrefix(clusterName, cluster), k + 1)
  {
    var i := k + 1;
    var port := cluster.ports[k];
    var name := ServerName(NamePrefix(clusterName, cluster), i);
    var file := InstanceConfigFile(cluster.user, port, i);
    if configExists(file) then SetServerName(file, name)
    else CreateConfig(file, NewConfigLines(i, port, name, Hostname(clusterName, cluster)))
  }

  /** The k-th instance is named after its 1-based number; an existing
      configuration only has its name set, and a created one puts the
      client port ten below the game port. */
  lemma InstanceNaming(clusterName: string, cluster: Cluster, configExists: string -> bool, k: nat)
    requires k < |cluster.ports|
    requires '\n' !in NamePrefix(clusterName, cluster) && '\n' !in Hostname(clusterName, cluster)
    ensures var a := ActionFor(clusterName, cluster, configExists, k);
      var name := NamePrefix(clusterName, cluster) + " #" + IntToString(k + 1);
      && a.file == InstanceConfigFile(cluster.user, cluster.ports[k], k + 1)
      && (a.SetServerName? <==> configExists(a.file))
      && (a.SetServerName? ==> a.serverName == name)
      && (a.CreateConfig? ==>
            var lines := Split(ConfigText(a.lines), '\n');
            && |lines| == 10
            && lines[3] == Setting("port", IntToString(cluster.ports[k]))
            && lines[4] == Setting("clientport", IntToString(cluster.ports[k] - 10))
            && lines[5] == Setting("servername", name))
  {
    var prefix := NamePrefix(clusterName, cluster);
    var n := IntToString(k + 1);
    var name := ServerName(prefix, k + 1);
    assert '\n' !in prefix + " #" + n;
    NewConfigDeclaresPorts(k + 1, cluster.ports[k], name, Hostname(clusterName, cluster));
  }

  /** The first n values of a function on the naturals, in order. */
  function Tabulate<T>(f: nat --> T, n: nat): (r: seq<T>)
    requires forall k :: 0 <= k < n ==> f.requires(k)
    ensures |r| == n
  {
    if n == 0 then [] else Tabulate(f, n - 1) + [f(n - 1)]
  }

  /** The k-th tabulated value is the function's value at k. */
  lemma {:induction false} TabulateAt<T>(f: nat --> T, n: nat, k: nat)
    requires forall k :: 0 <= k < n ==> f.requires(k)
    requires k < n
    ensures Tabulate(f, n)[k] == f(k)
  {
    if k < n - 1 {
      TabulateAt(f, n - 1, k);
    }
  }

  /** The action of each instance of a cluster, by 0-based position. */
  function InstanceAction(clusterName: string, cluster: Cluster, configExists: string -> bool): nat --> NameAction {
    (k: nat) requires k < |cluster.ports| => ActionFor(clusterName, cluster, configExists, k)
  }

  /** The actions for the instances on the first n ports, in port order. */
  function NameActions(clusterName: string, cluster: Cluster, configExists: string -> bool, n: nat): seq<NameAction>
    requires n <= |cluster.ports|
  {
    Tabulate(InstanceAction(clusterName, cluster, configExists), n)
  }

  /** The k-th action is the k-th instance's. */
  lemma NameActionsAt(clusterName: string, cluster: Cluster, configExists: string -> bool, n: nat, k: nat)
    requires k < n <= |cluster.ports|
    ensures NameActions(clusterName, cluster, configExists, n)[k] == ActionFor(clusterName, cluster, configExists, k)
  {
    TabulateAt(InstanceAction(clusterName, cluster, configExists), n, k);
  }

  /** `configure_server_names`: the success flag and the per-instance
      actions, in port order. `configExists` says whether a remote configuration
      file exists. A dry run changes nothing and succeeds; a failed
      connection fails. */
  method ConfigureServerNames(clusterName: string, cluster: Cluster, dryRun: bool, connected: bool,
                              configExists: string -> bool) returns (ok: bool, actions: seq<NameAction>)
    ensures ok <==> dryRun || connected
    ensures dryRun || !connected ==> actions == []
    ensures !dryRun && connected ==> actions == NameActions(clusterName, cluster, configExists, |cluster.ports|)
  {
    if dryRun {
      return true, [];
    }
    if !connected {
      return false, [];
    }
    actions := [];
    for k := 0 to |cluster.ports|
      invariant actions == NameActions(clusterName, cluster, configExists, k)
    {
      actions := actions + [ActionFor(clusterName, cluster, configExists, k)];
    }
    ok := true;
  }

  // ---------------------------------------------------------------------
  // deploy_configs
  // ---------------------------------------------------------------------

  /** `f"{home_dir}/{server_dir}/serverfiles/dod/addons/ktpamx/configs"` */
  function ConfigDir(user: string, serverDir: string): string {
    HomeDir(user) + "/" + serverDir + "/serverfiles/dod/addons/ktpamx/configs"
  }

  /** The file a template `<name>.j2` is rendered into: `<name>` in the
      configs directory. */
  function ConfigTarget(configDir: string, t: string): string
    requires |t| >= 3
  {
    configDir + "/" + t[..|t| - 3]
  }

  /** The files rendered into one server directory: one per `.j2` template,
      named without the extension, in template order. */
  function DirConfigWrites(user: string, serverDir: string, templates: seq<string>): (r: seq<string>)
    ensures |r| <= |templates|
    decreases |templates|
  {
    if templates == [] then []
    else
      var t := templates[|templates| - 1];
      DirConfigWrites(user, serverDir, templates[..|templates| - 1])
        + (if EndsWith(t, ".j2") then [ConfigTarget(ConfigDir(user, serverDir), t)] else [])
  }

  /** All files written by `deploy_configs`: server directories in order,
      templates in order within each. */
  function ConfigWrites(user: string, dirs: seq<string>, templates: seq<string>): seq<string>
    decreases |dirs|
  {
    if dirs == [] then []
    else
      ConfigWrites(user, dirs[..|dirs| - 1], templates)
        + DirConfigWrites(user, dirs[|dirs| - 1], templates)
  }

  /** A file is written into a server directory exactly for each `.j2`
      template, under the template's name without `.j2`; other templates
      are skipped. */
  lemma {:induction false} DirConfigWritesMembers(user: string, serverDir: string, templates: seq<string>, w: string)
    ensures w in DirConfigWrites(user, serverDir, templates) <==>
      exists k :: 0 <= k < |templates| && EndsWith(templates[k], ".j2")
        && w == ConfigTarget(ConfigDir(user, serverDir), templates[k])
    decreases |templates|
  {
    if templates != [] {
      var init := templates[..|templates| - 1];
      DirConfigWritesMembers(user, serverDir, init, w);
      forall k | 0 <= k < |init| ensures init[k] == templates[k] { }
    }
  }

  /** Every file written is `<configs dir>/<name>` for some server directory
      and some template `<name>.j2`, and every such file is written. */
  lemma {:induction false} ConfigWritesMembers(user: string, dirs: seq<string>, templates: seq<string>, w: string)
    ensures w in ConfigWrites(user, dirs, templates) <==>
      exists d, k :: 0 <= d < |dirs| && 0 <= k < |templates| && EndsWith(templates[k], ".j2")
        && w == ConfigTarget(ConfigDir(user, dirs[d]), templates[k])
    decreases |dirs|
  {
    if dirs != [] {
      var init := dirs[..|dirs| - 1];
      ConfigWritesMembers(user, init, templates, w);
      DirConfigWritesMembers(user, dirs[|dirs| - 1], templates, w);
      forall d | 0 <= d < |init| ensures init[d] == dirs[d] { }
    }
  }

  lemma DirConfigWritesStep(user: string, serverDir: string, templates: seq<string>, j: nat)
    requires j < |templates|
    ensures var t := templates[j];
      DirConfigWrites(user, serverDir, templates[..j + 1])
        == DirConfigWrites(user, serverDir, templates[..j])
           + (if EndsWith(t, ".j2") then [ConfigTarget(ConfigDir(user, serverDir), t)] else [])
  {
    assert templates[..j + 1][..j] == templates[..j];
  }

  lemma ConfigWritesStep(user: string, dirs: seq<string>, templates: seq<string>, i: nat)
    requires i < |dirs|
    ensures ConfigWrites(user, dirs[..i + 1], templates)
      == ConfigWrites(user, dirs[..i], templates) + DirConfigWrites(user, dirs[i], templates)
  {
    assert dirs[..i + 1][..i] == dirs[..i];
  }

  /** A template `<name>.j2` alone in a server directory renders to
      `<name>` in that directory's configs directory, and a file without the
      extension renders to nothing. */
  lemma TemplateRenderedUnderName(user: string, serverDir: string, name: string)
    ensures DirConfigWrites(user, serverDir, [name + ".j2"]) == [ConfigDir(user, serverDir) + "/" + name]
    ensures !EndsWith(name, ".j2") ==> DirConfigWrites(user, serverDir, [name]) == []
  {
    var t := name + ".j2";
    assert EndsWith(t, ".j2");
    assert t[..|t| - 3] == name;
  }

  /** The inner loop of `deploy_configs` for one server directory: the
      `.j2` templates in order, each written under its name without the
      extension. */
  method RenderIntoDir(user: string, serverDir: string, templates: seq<string>) returns (writes: seq<string>)
    ensures writes == DirConfigWrites(user, serverDir, templates)
  {
    var configDir := ConfigDir(user, serverDir);
    writes := [];
    for j := 0 to |templates|
      invariant writes == DirConfigWrites(user, serverDir, templates[..j])
    {
      var t := templates[j];
      DirConfigWritesStep(user, serverDir, templates, j);
      if !EndsWith(t, ".j2") {
        continue;
      }
      writes := writes + [ConfigTarget(configDir, t)];
    }
    assert templates[..|templates|] == templates;
  }

  /** `deploy_configs`: the success flag and the remote files written.
      Without a templates directory, or on a dry run, nothing is written and
      the step succeeds; a failed connection fails. */
  method DeployConfigs(cluster: Cluster, hasTemplates: bool, templates: seq<string>, dryRun: bool, connected: bool)
    returns (ok: bool, writes: seq<string>)
    ensures ok <==> !hasTemplates || dryRun || connected
    ensures !hasTemplates || dryRun || !connected ==> writes == []
    ensures hasTemplates && !dryRun && connected ==>
      writes == ConfigWrites(cluster.user, ServerDirs(cluster.ports), templates)
  {
    if !hasTemplates || dryRun {
      return true, [];
    }
    if !connected {
      return false, [];
    }
    var serverDirs := GetServerDirs(cluster);
    assert serverDirs == ServerDirs(cluster.ports);
    writes := [];
    for i := 0 to |serverDirs|
      invariant writes == ConfigWrites(cluster.user, serverDirs[..i], templates)
    {
      var dirWrites := RenderIntoDir(cluster.user, serverDirs[i], templates);
      ConfigWritesStep(cluster.user, serverDirs, templates, i);
      writes := writes + dirWrites;
    }
    assert serverDirs[..|serverDirs|] == serverDirs;
    ok := true;
  }
}
