/** The deployment run of `KTPDeployer` (deploy/deploy.py): construction,
    the loop over clusters and steps that aggregates success and error
    messages, the notification at the end, and the target selection of the
    command line. The outcome of each remote step is handed in: `stepOk(i,
    s)` is what step `s` (`configure_server_names`, `deploy_component` or
    `deploy_configs`, modelled in RemoteLayout) returned for the i-th
    requested cluster. */
module Deployment {
  import opened Options
  import opened Text
  import opened DotEnv
  import opened DeployConfig
  import opened Notify

  /** The state of a `KTPDeployer` after construction; it is never updated
      afterwards. `hasTemplates` says whether the templates directory
      exists. */
  datatype Deployer = Deployer(config: Config, version: string, hasTemplates: bool)

  /** `KTPDeployer.__init__`: loads the `.env` file next to the script into
      the process environment, then the configuration with its environment
      overrides. `dotenvFile` holds the file's lines (`None` when absent);
      `parsed` is the configuration as read from YAML. */
  method NewDeployer(env: ProcessEnv, dotenvFile: Option<seq<string>>, parsed: Config, version: string,
                     templatesDirExists: bool) returns (d: Deployer)
    requires NamesDistinct(parsed)
    modifies env
    ensures env.vars == ApplyFile(old(env.vars), dotenvFile)
    ensures Overridden(parsed, d.config, env.vars)
    ensures NamesDistinct(d.config)
    ensures d.version == version && d.hasTemplates == templatesDirExists
  {
    env.LoadDotenv(dotenvFile);
    var config := LoadConfig(parsed, env.vars);
    d := Deployer(config, version, templatesDirExists);
  }

  // ---------------------------------------------------------------------
  // Steps and error messages
  // ---------------------------------------------------------------------

  /** The switches of one `deploy` call. */
  datatype RunFlags = RunFlags(dryRun: bool, withConfigs: bool, configureNames: bool, notify: bool)

  datatype Step = NameStep | ComponentStep(component: string) | ConfigStep

  /** One step per component, in order. */
  function ComponentSteps(components: seq<string>): (r: seq<Step>)
    ensures |r| == |components|
    ensures forall k :: 0 <= k < |components| ==> r[k] == ComponentStep(components[k])
  {
    seq(|components|, k requires 0 <= k < |components| => ComponentStep(components[k]))
  }

  /** The steps run for every known cluster, in order: server names when
      asked for, each component, then configs when asked for. */
  function StepsFor(components: seq<string>, flags: RunFlags): seq<Step> {
    (if flags.configureNames then [NameStep] else [])
      + ComponentSteps(components)
      + (if flags.withConfigs then [ConfigStep] else [])
  }

  function StepError(clusterName: string, step: Step): string {
    match step
    case NameStep => clusterName + ": Failed to configure server names"
    case ComponentStep(c) => clusterName + ": Failed to deploy " + c
    case ConfigStep => clusterName + ": Failed to deploy configs"
  }

  function UnknownCluster(clusterName: string): string {
    "Unknown cluster: " + clusterName
  }

  /** The messages of the failed steps of the cluster at position `pos`,
      in step order. */
  function FailedSteps(clusterName: string, pos: nat, steps: seq<Step>, stepOk: (nat, Step) -> bool): (r: seq<string>)
    ensures |r| <= |steps|
    decreases |steps|
  {
    if steps == [] then []
    else
      var last := steps[|steps| - 1];
      FailedSteps(clusterName, pos, steps[..|steps| - 1], stepOk)
        + (if stepOk(pos, last) then [] else [StepError(clusterName, last)])
  }

  /** The messages recorded for the cluster at position `pos` of the
      request. */
  function ClusterErrors(config: Config, clusters: seq<string>, pos: nat, steps: seq<Step>,
                         stepOk: (nat, Step) -> bool): seq<string>
    requires pos < |clusters|
  {
    if Lookup(config.clusters, clusters[pos]).None? then [UnknownCluster(clusters[pos])]
    else FailedSteps(clusters[pos], pos, steps, stepOk)
  }

  /** The messages recorded for the first `n` requested clusters, in
      cluster order. */
  function Errors(config: Config, clusters: seq<string>, n: nat, steps: seq<Step>,
                  stepOk: (nat, Step) -> bool): seq<string>
    requires n <= |clusters|
  {
    if n == 0 then []
    else Errors(config, clusters, n - 1, steps, stepOk) + ClusterErrors(config, clusters, n - 1, steps, stepOk)
  }

  /** A requested cluster is fine when it is known and all its steps
      succeeded. */
  predicate ClusterOk(config: Config, clusters: seq<string>, pos: nat, steps: seq<Step>, stepOk: (nat, Step) -> bool)
    requires pos < |clusters|
  {
    Lookup(config.clusters, clusters[pos]).Some? && forall s :: 0 <= s < |steps| ==> stepOk(pos, steps[s])
  }

  /** One message per failed step, naming the cluster and the step. */
  lemma {:induction false} FailedStepsMembers(clusterName: string, pos: nat, steps: seq<Step>,
                                              stepOk: (nat, Step) -> bool, e: string)
    ensures e in FailedSteps(clusterName, pos, steps, stepOk) <==>
      exists s :: 0 <= s < |steps| && !stepOk(pos, steps[s]) && e == StepError(clusterName, steps[s])
    decreases |steps|
  {
    if steps != [] {
      var init := steps[..|steps| - 1];
      FailedStepsMembers(clusterName, pos, init, stepOk, e);
      assert forall s :: 0 <= s < |init| ==> init[s] == steps[s];
    }
  }

  /** No message for a cluster exactly when all its steps succeeded. */
  lemma {:induction false} FailedStepsEmpty(clusterName: string, pos: nat, steps: seq<Step>, stepOk: (nat, Step) -> bool)
    ensures FailedSteps(clusterName, pos, steps, stepOk) == [] <==> forall s :: 0 <= s < |steps| ==> stepOk(pos, steps[s])
    decreases |steps|
  {
    if steps != [] {
      var init := steps[..|steps| - 1];
      FailedStepsEmpty(clusterName, pos, init, stepOk);
      assert forall s :: 0 <= s < |init| ==> init[s] == steps[s];
    }
  }

  /** A cluster records no message exactly when it is fine. */
  lemma ClusterErrorsEmpty(config: Config, clusters: seq<string>, pos: nat, steps: seq<Step>,
                           stepOk: (nat, Step) -> bool)
    requires pos < |clusters|
    ensures ClusterErrors(config, clusters, pos, steps, stepOk) == [] <==> ClusterOk(config, clusters, pos, steps, stepOk)
  {
    FailedStepsEmpty(clusters[pos], pos, steps, stepOk);
  }

  /** An empty error list means no requested cluster recorded a message. */
  lemma {:induction false} ErrorsEmptyAt(config: Config, clusters: seq<string>, n: nat, steps: seq<Step>,
                                         stepOk: (nat, Step) -> bool, i: nat)
    requires i < n <= |clusters|
    requires Errors(config, clusters, n, steps, stepOk) == []
    ensures ClusterErrors(config, clusters, i, steps, stepOk) == []
  {
    var before := Errors(config, clusters, n - 1, steps, stepOk);
    var last := ClusterErrors(config, clusters, n - 1, steps, stepOk);
    assert |Errors(config, clusters, n, steps, stepOk)| == |before| + |last| == 0;
    if i < n - 1 {
      ErrorsEmptyAt(config, clusters, n - 1, steps, stepOk, i);
    }
  }

  /** When no requested cluster records a message, the error list is
      empty. */
  lemma {:induction false} ErrorsEmptyWhenQuiet(config: Config, clusters: seq<string>, n: nat, steps: seq<Step>,
                                                stepOk: (nat, Step) -> bool)
    requires n <= |clusters|
    requires forall i :: 0 <= i < n ==> ClusterErrors(config, clusters, i, steps, stepOk) == []
    ensures Errors(config, clusters, n, steps, stepOk) == []
  {
    if n > 0 {
      ErrorsEmptyWhenQuiet(config, clusters, n - 1, steps, stepOk);
      assert ClusterErrors(config, clusters, n - 1, steps, stepOk) == [];
    }
  }

  /** The error list is empty exactly when every requested cluster is known
      and every one of its steps succeeded. */
  lemma ErrorsEmpty(config: Config, clusters: seq<string>, n: nat, steps: seq<Step>,
                    stepOk: (nat, Step) -> bool)
    requires n <= |clusters|
    ensures Errors(config, clusters, n, steps, stepOk) == [] <==>
      forall i :: 0 <= i < n ==> ClusterOk(config, clusters, i, steps, stepOk)
  {
    if Errors(config, clusters, n, steps, stepOk) == [] {
      forall i | 0 <= i < n
        ensures ClusterOk(config, clusters, i, steps, stepOk)
      {
        ErrorsEmptyAt(config, clusters, n, steps, stepOk, i);
        ClusterErrorsEmpty(config, clusters, i, steps, stepOk);
      }
    }
    if forall i :: 0 <= i < n ==> ClusterOk(config, clusters, i, steps, stepOk) {
      forall i | 0 <= i < n
        ensures ClusterErrors(config, clusters, i, steps, stepOk) == []
      {
        ClusterErrorsEmpty(config, clusters, i, steps, stepOk);
      }
      ErrorsEmptyWhenQuiet(config, clusters, n, steps, stepOk);
    }
  }

  /** The messages of two runs of steps one after the other are the
      messages of each, one after the other. */
  lemma {:induction false} FailedStepsAppend(clusterName: string, pos: nat, a: seq<Step>, b: seq<Step>,
                                             stepOk: (nat, Step) -> bool)
    ensures FailedSteps(clusterName, pos, a + b, stepOk)
      == FailedSteps(clusterName, pos, a, stepOk) + FailedSteps(clusterName, pos, b, stepOk)
    decreases |b|
  {
    if b == [] {
      assert a + b == a;
    } else {
      var init := b[..|b| - 1];
      FailedStepsAppend(clusterName, pos, a, init, stepOk);
      assert (a + b)[..|a + b| - 1] == a + init;
    }
  }

  /** The component steps of a cluster record `<cluster>: Failed to deploy
      <component>` exactly for each component whose step failed. */
  lemma ComponentFailuresMembers(clusterName: string, pos: nat, components: seq<string>,
                                 stepOk: (nat, Step) -> bool, e: string)
    ensures e in FailedSteps(clusterName, pos, ComponentSteps(components), stepOk) <==>
      exists k :: 0 <= k < |components| && !stepOk(pos, ComponentStep(components[k]))
                  && e == clusterName + ": Failed to deploy " + components[k]
  {
    FailedStepsMembers(clusterName, pos, ComponentSteps(components), stepOk, e);
  }

  /** The component messages come in component order: one more component
      adds its message, if its step failed, after those of the earlier
      ones. */
  lemma ComponentFailuresInOrder(clusterName: string, pos: nat, components: seq<string>, c: string,
                                 stepOk: (nat, Step) -> bool)
    ensures FailedSteps(clusterName, pos, ComponentSteps([]), stepOk) == []
    ensures FailedSteps(clusterName, pos, ComponentSteps(components + [c]), stepOk)
      == FailedSteps(clusterName, pos, ComponentSteps(components), stepOk)
         + (if stepOk(pos, ComponentStep(c)) then [] else [clusterName + ": Failed to deploy " + c])
  {
    assert ComponentSteps(components + [c]) == ComponentSteps(components) + [ComponentStep(c)];
    FailedStepsAppend(clusterName, pos, ComponentSteps(components), [ComponentStep(c)], stepOk);
    assert [ComponentStep(c)][..0] == [];
  }

  /** A single step yields its message exactly when it fails. */
  lemma FailedStepsSingle(clusterName: string, pos: nat, step: Step, stepOk: (nat, Step) -> bool)
    ensures FailedSteps(clusterName, pos, [step], stepOk)
      == if stepOk(pos, step) then [] else [StepError(clusterName, step)]
  {
    assert [step][..0] == [];
  }

  // ---------------------------------------------------------------------
  // deploy
  // ---------------------------------------------------------------------

  /** The component loop of `deploy` for one known cluster. */
  method RunComponents(clusterName: string, pos: nat, components: seq<string>, stepOk: (nat, Step) -> bool)
    returns (ok: bool, errs: seq<string>)
    ensures errs == FailedSteps(clusterName, pos, ComponentSteps(components), stepOk)
    ensures ok <==> errs == []
  {
    ghost var steps := ComponentSteps(components);
    ok := true;
    errs := [];
    for j := 0 to |components|
      invariant errs == FailedSteps(clusterName, pos, steps[..j], stepOk)
      invariant ok <==> errs == []
    {
      var step := ComponentStep(components[j]);
      assert steps[..j + 1][..j] == steps[..j];
      if !stepOk(pos, step) {
        errs := errs + [StepError(clusterName, step)];
        ok := false;
      }
    }
    assert steps[..|components|] == steps;
  }

  /** The body of the cluster loop of `deploy` for a known cluster: each
      step in order, recording one message per failure. */
  method RunSteps(clusterName: string, pos: nat, components: seq<string>, flags: RunFlags,
                  stepOk: (nat, Step) -> bool) returns (ok: bool, errs: seq<string>)
    ensures errs == FailedSteps(clusterName, pos, StepsFor(components, flags), stepOk)
    ensures ok <==> errs == []
  {
    ghost var pre: seq<Step> := if flags.configureNames then [NameStep] else [];
    ghost var post: seq<Step> := if flags.withConfigs then [ConfigStep] else [];
    ok := true;
    errs := [];
    if flags.configureNames {
      FailedStepsSingle(clusterName, pos, NameStep, stepOk);
      if !stepOk(pos, NameStep) {
        errs := errs + [StepError(clusterName, NameStep)];
        ok := false;
      }
    }
    assert errs == FailedSteps(clusterName, pos, pre, stepOk);
    var componentsOk, componentErrs := RunComponents(clusterName, pos, components, stepOk);
    errs := errs + componentErrs;
    ok := ok && componentsOk;
    FailedStepsAppend(clusterName, pos, pre, ComponentSteps(components), stepOk);
    ghost var done := errs;
    if flags.withConfigs {
      FailedStepsSingle(clusterName, pos, ConfigStep, stepOk);
      if !stepOk(pos, ConfigStep) {
        errs := errs + [StepError(clusterName, ConfigStep)];
        ok := false;
      }
    }
    assert errs == done + FailedSteps(clusterName, pos, post, stepOk);
    FailedStepsAppend(clusterName, pos, pre + ComponentSteps(components), post, stepOk);
  }

  /** The notification `deploy` sends at the end, if any: only when asked
      for and not on a dry run, and only when the relay is configured. */
  function Notice(d: Deployer, clusters: seq<string>, components: seq<string>, flags: RunFlags,
                  success: bool, errors: seq<string>, timestamp: string): (r: Option<Payload>)
    ensures r.Some? <==> flags.notify && !flags.dryRun && Configured(d.config)
  {
    if flags.notify && !flags.dryRun then BuildPayload(d.config, d.version, success, clusters, components, errors, timestamp)
    else None
  }

  /** `deploy`: runs the steps for every requested cluster in order and
      returns the overall success, the error messages and the notification
      payload posted (if any). Success holds exactly when every requested
      cluster is known and every one of its steps succeeded. */
  method Deploy(d: Deployer, clusters: seq<string>, components: seq<string>, flags: RunFlags,
                stepOk: (nat, Step) -> bool, timestamp: string)
    returns (success: bool, errors: seq<string>, notice: Option<Payload>)
    ensures errors == Errors(d.config, clusters, |clusters|, StepsFor(components, flags), stepOk)
    ensures success <==> errors == []
    ensures success <==> forall i :: 0 <= i < |clusters| ==> ClusterOk(d.config, clusters, i, StepsFor(components, flags), stepOk)
    ensures notice == Notice(d, clusters, components, flags, success, errors, timestamp)
  {
    ghost var steps := StepsFor(components, flags);
    success := true;
    errors := [];
    for i := 0 to |clusters|
      invariant errors == Errors(d.config, clusters, i, steps, stepOk)
      invariant success <==> errors == []
    {
      var clusterName := clusters[i];
      var cluster := Lookup(d.config.clusters, clusterName);
      if cluster.None? {
        errors := errors + [UnknownCluster(clusterName)];
        success := false;
        continue;
      }
      var ok, errs := RunSteps(clusterName, i, components, flags, stepOk);
      errors := errors + errs;
      success := success && ok;
    }
    ErrorsEmpty(d.config, clusters, |clusters|, steps, stepOk);
    notice := Notice(d, clusters, components, flags, success, if success then [] else errors, timestamp);
  }

  // ---------------------------------------------------------------------
  // main: target selection
  // ---------------------------------------------------------------------

  /** A cluster `--all` deploys to: not a test cluster, and with a host. */
  predicate Production(c: Cluster) {
    !c.testCluster && c.host != ""
  }

  /** The names of the production clusters, in configuration order. */
  function ProductionClusters(clusters: seq<(string, Cluster)>): (r: seq<string>)
    ensures |r| <= |clusters|
    decreases |clusters|
  {
    if clusters == [] then []
    else
      var last := clusters[|clusters| - 1];
      ProductionClusters(clusters[..|clusters| - 1]) + (if Production(last.1) then [last.0] else [])
  }

  /** A name is selected exactly when some production cluster has it. */
  lemma {:induction false} ProductionClustersMembers(clusters: seq<(string, Cluster)>, name: string)
    ensures name in ProductionClusters(clusters) <==>
      exists i :: 0 <= i < |clusters| && clusters[i].0 == name && Production(clusters[i].1)
    decreases |clusters|
  {
    if clusters != [] {
      var init := clusters[..|clusters| - 1];
      ProductionClustersMembers(init, name);
      assert forall i :: 0 <= i < |init| ==> init[i] == clusters[i];
    }
  }

  /** Selection keeps configuration order: selecting from two parts one
      after the other gives the two selections one after the other. */
  lemma {:induction false} ProductionClustersAppend(a: seq<(string, Cluster)>, b: seq<(string, Cluster)>)
    ensures ProductionClusters(a + b) == ProductionClusters(a) + ProductionClusters(b)
    decreases |b|
  {
    if b == [] {
      assert a + b == a;
    } else {
      var init := b[..|b| - 1];
      ProductionClustersAppend(a, init);
      assert (a + b)[..|a + b| - 1] == a + init;
    }
  }

  /** The values `--component` accepts. */
  datatype ComponentChoice = Engine | Ktpamx | Plugins | AllComponents

  const KnownComponents: seq<string> := ["engine", "ktpamx", "plugins"]

  /** How each choice is spelled on the command line. */
  function ChoiceArg(choice: ComponentChoice): (r: string)
    ensures choice != AllComponents <==> r in KnownComponents
  {
    match choice
    case Engine => "engine"
    case Ktpamx => "ktpamx"
    case Plugins => "plugins"
    case AllComponents => "all"
  }

  /** The components of `--component`: `all` expands to the three known
      components in order; any other choice is itself. */
  function Components(choice: ComponentChoice): (r: seq<string>)
    ensures choice == AllComponents <==> r == KnownComponents
    ensures choice != AllComponents ==> r == [ChoiceArg(choice)]
    ensures forall i :: 0 <= i < |r| ==> r[i] in KnownComponents
    ensures forall i, j :: 0 <= i < j < |r| ==> r[i] != r[j]
  {
    if choice == AllComponents then KnownComponents else [ChoiceArg(choice)]
  }

  /** The clusters `main` deploys to: with `--all` the production clusters
      of the configuration, otherwise the one named by `--cluster`. */
  function Targets(all: bool, clusterArg: string, config: Config): seq<string> {
    if all then ProductionClusters(config.clusters) else [clusterArg]
  }

  /** With `--all` no target is ever reported as an unknown cluster. */
  lemma AllTargetsKnown(config: Config, i: nat)
    requires i < |Targets(true, "", config)|
    ensures Lookup(config.clusters, Targets(true, "", config)[i]).Some?
  {
    var name := Targets(true, "", config)[i];
    ProductionClustersMembers(config.clusters, name);
    LookupFinds(config.clusters, name);
  }
}
