/** The Compose/kind mode switcher and the KFP install/remove scripts. A command that changes something may
    fail, may do only part of its work, and ends the script when it does. A query of Docker or Compose may
    fail to answer, and the scripts then read it as an empty or negative answer and go on. */
module Modes {
  import opened Tables

  datatype Caps = Caps(k8s: nat, scale: nat, kfp: nat)

  const GIB := 1073741824
  const DEFAULT_CAPS := Caps(3 * GIB, 5632 * 1048576, 6 * GIB)

  /** The node memory cap identifies the mode, so the caps must differ from the KFP cap. */
  predicate CapsOk(caps: Caps) {
    caps.k8s != caps.scale && caps.k8s != caps.kfp && caps.scale != caps.kfp && 0 < caps.kfp
  }

  lemma DefaultCapsAreOk()
    ensures CapsOk(DEFAULT_CAPS)
  {
  }

  const MOVED: set<string> := {"inference-api", "feast-server", "source-simulator", "stream-ingestor"}
  const KFP_KEEP: set<string> := {"minio", "mlflow", "postgres"}

  datatype Mode = ComposeMode | K8sMode | ScaleMode | KfpMode

  /** What the scripts observe and change. A freshly created node has no cap (0). `kfp` means the kubeflow
      namespace exists; `deleting` that its removal was requested. */
  datatype World = World(
    clusterExists: bool, running: bool, cap: nat, kfp: bool, deleting: bool, keda: bool, compose: set<string>)

  function Allowed(mode: Mode, all: set<string>): set<string> {
    match mode
    case ComposeMode => all
    case K8sMode => all - MOVED
    case ScaleMode => all - MOVED - {"airflow"}
    case KfpMode => KFP_KEEP
  }

  function CapFor(mode: Mode, caps: Caps): nat {
    match mode
    case ScaleMode => caps.scale
    case KfpMode => caps.kfp
    case _ => caps.k8s
  }

  /** `check MODE` finds no violation. */
  predicate InMode(mode: Mode, w: World, caps: Caps, all: set<string>) {
    && w.compose <= Allowed(mode, all)
    && if mode == ComposeMode then !w.running
       else
         && w.running && w.cap == CapFor(mode, caps)
         && (mode != KfpMode ==> !w.kfp)
         && (mode == K8sMode ==> !w.keda)
  }

  /** What each mode is, in full. */
  lemma ModesInFull(w: World, caps: Caps, all: set<string>)
    ensures InMode(ComposeMode, w, caps, all) <==> !w.running && w.compose <= all
    ensures InMode(K8sMode, w, caps, all) <==>
      && w.running && w.cap == caps.k8s && !w.kfp && !w.keda && w.compose <= all
      && "inference-api" !in w.compose && "feast-server" !in w.compose
      && "source-simulator" !in w.compose && "stream-ingestor" !in w.compose
    ensures InMode(ScaleMode, w, caps, all) <==>
      && w.running && w.cap == caps.scale && !w.kfp && w.compose <= all && "airflow" !in w.compose
      && "inference-api" !in w.compose && "feast-server" !in w.compose
      && "source-simulator" !in w.compose && "stream-ingestor" !in w.compose
    ensures InMode(KfpMode, w, caps, all) <==>
      w.running && w.cap == caps.kfp && forall c :: c in w.compose ==> c == "minio" || c == "mlflow" || c == "postgres"
  {
  }

  /** The status command names at most one mode. */
  lemma ModesAreExclusive(w: World, caps: Caps, all: set<string>, a: Mode, b: Mode)
    requires CapsOk(caps) && InMode(a, w, caps, all) && InMode(b, w, caps, all)
    ensures a == b
  {
  }

  /** KFP in a running node only at the KFP cap; a running node at the KFP cap only beside the KFP set; a
      running node never beside the services that moved into it. */
  ghost predicate Safe(w: World, caps: Caps) {
    && (w.running ==> w.clusterExists)
    && (w.running && w.kfp ==> w.cap == caps.kfp)
    && (w.running && w.cap == caps.kfp ==> w.compose <= KFP_KEEP)
    && (w.running ==> w.compose !! MOVED)
  }

  /** Each mode the switcher reports is safe. */
  lemma ModesAreSafe(w: World, caps: Caps, all: set<string>, mode: Mode)
    requires CapsOk(caps) && InMode(mode, w, caps, all) && (w.running ==> w.clusterExists)
    ensures Safe(w, caps)
  {
  }

  /** Why the order of the KFP removal matters: with KFP in a running node, any change of the cap is unsafe
      until the namespace is gone, and harmless afterwards. */
  lemma LowerCapOnlyAfterNamespaceIsGone(w: World, caps: Caps, cap: nat)
    requires CapsOk(caps) && Safe(w, caps) && w.running && cap != caps.kfp
    ensures Safe(w.(cap := cap), caps) <==> !w.kfp
  {
  }

  /** Why the KFP envelope trims first: raising a running node to the KFP cap, or starting a node that is
      at it, is safe exactly when Compose is down to the KFP set. */
  lemma EnvelopeNeedsTrimmedCompose(w: World, caps: Caps)
    requires CapsOk(caps) && w.clusterExists
    ensures Safe(w.(cap := caps.kfp, running := true), caps) <==> w.compose <= KFP_KEEP
  {
    assert KFP_KEEP !! MOVED;
  }

  // ----- queries that do not answer -----

  /** Whether the `i`-th query of a script answers; past its end all do. */
  predicate Answers(script: seq<bool>, i: nat) { i < |script| ==> script[i] }

  ghost predicate AllAnswer(script: seq<bool>) { forall i: nat :: Answers(script, i) }

  /** A list read inside a process substitution: its exit status is lost, so no answer is an empty list. */
  function Seen(answered: bool, services: set<string>): set<string> { if answered then services else {} }

  /** What a trim leaves of Compose when its stop works: it stops what it sees beside `allowed`, looks again,
      and fails if it still sees something beside `again`. */
  function Trimmed(compose: set<string>, allowed: set<string>, again: set<string>, first: bool, second: bool): Option<set<string>> {
    var left := compose - (Seen(first, compose) - allowed);
    if Seen(second, left) <= again then Some(left) else None
  }

  /** A trim that succeeds has done its work exactly if one of its two looks was answered, or there was no
      work to do. The lists of allowed services may have been read short. */
  lemma TrimWorksExactlyWhen(compose: set<string>, full: set<string>, allowed: set<string>, again: set<string>, first: bool, second: bool)
    requires allowed <= full && again <= full && Trimmed(compose, allowed, again, first, second).Some?
    ensures Trimmed(compose, allowed, again, first, second).value <= full <==> first || second || compose <= full
  {
    var left := Trimmed(compose, allowed, again, first, second).value;
    assert !first ==> left == compose;
    assert first ==> left == compose * allowed;
  }

  /** The envelope, a trim to the KFP set, the KFP cap, a running node, is safe exactly if one of the two
      Compose queries was answered, or Compose was down to the KFP set before. */
  lemma EnvelopeSafeExactlyWhen(w: World, caps: Caps, first: bool, second: bool)
    requires CapsOk(caps) && w.clusterExists && Trimmed(w.compose, KFP_KEEP, KFP_KEEP, first, second).Some?
    ensures var left := Trimmed(w.compose, KFP_KEEP, KFP_KEEP, first, second).value;
            Safe(w.(compose := left, cap := caps.kfp, running := true), caps) <==> first || second || w.compose <= KFP_KEEP
  {
    var left := Trimmed(w.compose, KFP_KEEP, KFP_KEEP, first, second).value;
    TrimWorksExactlyWhen(w.compose, KFP_KEEP, KFP_KEEP, KFP_KEEP, first, second);
    EnvelopeNeedsTrimmedCompose(w.(compose := left), caps);
  }

  /** A node in k8s mode beside the rest of Compose, and no answer from Compose: the switch to KFP mode trims
      nothing and raises the cap. */
  lemma BlindKfpSwitch(caps: Caps)
    requires CapsOk(caps)
    ensures var w := World(true, true, caps.k8s, false, false, false, {"kafka", "postgres"});
            && Safe(w, caps) && Trimmed(w.compose, KFP_KEEP, KFP_KEEP, false, false) == Some(w.compose)
            && !Safe(w.(cap := caps.kfp), caps)
  {
    var compose := {"kafka", "postgres"};
    assert "kafka" !in MOVED && "postgres" !in MOVED && "kafka" !in KFP_KEEP && "kafka" in compose;
    assert compose - (Seen(false, compose) - KFP_KEEP) == compose;
  }

  /** The same node, and no answer from docker inspect: the switch to Compose mode skips the stop and starts
      the moved services beside it. */
  lemma BlindComposeSwitch(caps: Caps, all: set<string>)
    requires CapsOk(caps) && MOVED <= all
    ensures var w := World(true, true, caps.k8s, false, false, false, {"kafka", "postgres"});
            Safe(w, caps) && !Safe(w.(compose := w.compose + all), caps)
  {
    assert "kafka" !in MOVED && "postgres" !in MOVED && "feast-server" in MOVED;
    assert "feast-server" in {"kafka", "postgres"} + all;
  }

  /** The list of services a mode allows is itself read through Compose, except the fixed KFP set. */
  function AllowedSeen(mode: Mode, all: set<string>, answered: bool): set<string> { Allowed(mode, Seen(answered, all)) }

  /** `up -d` without arguments starts everything. */
  function UpArguments(services: set<string>, all: set<string>): set<string> { if services == {} then all else services }

  /** Starting the services k8s mode allows beside a running node is safe exactly if the query that lists them
      was answered. */
  lemma StartAllowedSafeExactlyWhen(w: World, caps: Caps, all: set<string>, answered: bool)
    requires Safe(w, caps) && w.running && w.cap != caps.kfp && MOVED + KFP_KEEP <= all
    ensures Safe(w.(compose := w.compose + UpArguments(AllowedSeen(K8sMode, all, answered), all)), caps) <==> answered
  {
    assert "postgres" !in MOVED && "postgres" in KFP_KEEP && "feast-server" in MOVED;
    assert answered ==> "postgres" in AllowedSeen(K8sMode, all, answered);
    assert !answered ==> "feast-server" in UpArguments(AllowedSeen(K8sMode, all, answered), all);
  }

  /** Every state passed through was safe. */
  ghost predicate SafeAll(history: seq<World>, caps: Caps) {
    history == [] || (SafeAll(history[..|history| - 1], caps) && Safe(history[|history| - 1], caps))
  }

  lemma {:induction false} SafeAllMeans(history: seq<World>, caps: Caps)
    ensures SafeAll(history, caps) <==> forall i :: 0 <= i < |history| ==> Safe(history[i], caps)
  {
    if history != [] {
      SafeAllMeans(history[..|history| - 1], caps);
    }
  }

  lemma SafeAllSnoc(history: seq<World>, next: World, caps: Caps)
    ensures SafeAll(history + [next], caps) <==> SafeAll(history, caps) && Safe(next, caps)
  {
    assert (history + [next])[..|history|] == history;
  }

  lemma {:induction false} SafeAllPrefix(a: seq<World>, b: seq<World>, caps: Caps)
    requires a <= b
    ensures SafeAll(b, caps) ==> SafeAll(a, caps)
    decreases |b|
  {
    if a != b {
      SafeAllPrefix(a, b[..|b| - 1], caps);
    }
  }

  /** Creating the cluster after a stop that left `survivors`, which k8s_up.sh does not notice, is safe exactly
      if none of them is a moved service that was running. */
  lemma CreationSafeExactlyWhen(w: World, caps: Caps, survivors: set<string>)
    requires CapsOk(caps) && !w.clusterExists
    ensures var created := World(true, true, 0, false, false, false, w.compose - (MOVED - survivors));
            Safe(created, caps) <==> w.compose * MOVED !! survivors
  {
    var left := w.compose - (MOVED - survivors);
    assert left * MOVED == w.compose * MOVED * survivors;
  }

  lemma TrimmedHasNoMoved(compose: set<string>, all: set<string>)
    ensures compose <= Allowed(K8sMode, all) ==> compose !! MOVED
  {
  }

  /** What a host meets from outside: which queries answer, per kind (running services, services of the file, the
      node, clusters), which commands work, the node's anonymous memory each time it is read, how often the
      removal of KFP looks before its deadline, and after how many looks the namespace is gone. */
  datatype Environment = Environment(
    ps: seq<bool>, config: seq<bool>, inspect: seq<bool>, clusters: seq<bool>, commands: seq<bool>,
    anon: nat -> nat, polls: nat, goneAfter: nat)

  datatype Op = SwitchTo(mode: Mode) | KfpUp | KfpDown | NamespaceVanishes

  class Host {
    const caps: Caps
    const all: set<string>     // services of the Compose file
    var w: World
    ghost var history: seq<World>  // the world after every single command so far

    const env: Environment
    var psAsked: nat
    var configAsked: nat
    var inspectAsked: nat
    var clustersAsked: nat
    var commandsRun: nat
    var anonReads: nat

    ghost predicate Valid()
      reads this
    {
      && CapsOk(caps) && MOVED + KFP_KEEP + {"airflow"} <= all
      && history != [] && history[|history| - 1] == w && (SafeAll(history, caps) ==> Safe(w, caps))
    }

    twostate predicate Onward()
      reads this
    {
      Valid() && old(history) <= history
    }

    constructor (caps: Caps, all: set<string>, w: World, env: Environment)
      requires CapsOk(caps) && MOVED + KFP_KEEP + {"airflow"} <= all
      ensures Valid() && this.w == w && this.caps == caps && this.all == all && this.env == env && history == [w]
      ensures psAsked == configAsked == inspectAsked == clustersAsked == commandsRun == anonReads == 0
    {
      this.caps, this.all, this.w, this.env := caps, all, w, env;
      psAsked, configAsked, inspectAsked, clustersAsked, commandsRun, anonReads := 0, 0, 0, 0, 0, 0;
      history := [w];
    }

    /** Everything answers and every command does its work. */
    ghost predicate AllWork() {
      && AllAnswer(env.ps) && AllAnswer(env.config) && AllAnswer(env.inspect) && AllAnswer(env.clusters)
      && AllAnswer(env.commands)
    }

    /** The node's memory never stands in the way of a cap. */
    ghost predicate Light() {
      forall i: nat :: env.anon(i) * 4 <= caps.k8s * 3 && env.anon(i) * 4 <= caps.scale * 3 && env.anon(i) * 4 <= caps.kfp * 3
    }

    ghost predicate VanishesInTime(world: World) { !world.kfp || env.goneAfter <= env.polls }

    /** The effect of one command becomes visible. */
    method Becomes(next: World)
      requires Valid()
      modifies `w, `history
      ensures Valid() && w == next && history == old(history) + [next]
      ensures SafeAll(history, caps) <==> SafeAll(old(history), caps) && Safe(next, caps)
    {
      w := next;
      history := history + [next];
      SafeAllSnoc(old(history), next, caps);
    }

    // ----- queries -----

    method SeeRunningServices() returns (seen: set<string>)
      modifies `psAsked
      ensures seen == Seen(Answers(env.ps, old(psAsked)), w.compose) && psAsked == old(psAsked) + 1
    {
      seen := if Answers(env.ps, psAsked) then w.compose else {};
      psAsked := psAsked + 1;
    }

    /** The allowed services of a mode, as read. */
    method SeeAllowed(mode: Mode) returns (seen: set<string>)
      modifies `configAsked
      ensures mode == KfpMode ==> seen == KFP_KEEP && configAsked == old(configAsked)
      ensures mode != KfpMode ==> seen == AllowedSeen(mode, all, Answers(env.config, old(configAsked))) && configAsked == old(configAsked) + 1
      ensures seen <= Allowed(mode, all)
    {
      if mode == KfpMode {
        return KFP_KEEP;
      }
      seen := AllowedSeen(mode, all, Answers(env.config, configAsked));
      configAsked := configAsked + 1;
    }

    /** node_running: no answer reads as stopped. */
    method SeesNodeRunning() returns (seen: bool)
      modifies `inspectAsked
      ensures seen == (Answers(env.inspect, old(inspectAsked)) && w.running) && inspectAsked == old(inspectAsked) + 1
    {
      seen := Answers(env.inspect, inspectAsked) && w.running;
      inspectAsked := inspectAsked + 1;
    }

    /** node_cap: no answer is an empty string, equal to no cap and below none. */
    method SeeCap() returns (seen: Option<nat>)
      modifies `inspectAsked
      ensures seen == (if Answers(env.inspect, old(inspectAsked)) then Some(w.cap) else None) && inspectAsked == old(inspectAsked) + 1
    {
      seen := if Answers(env.inspect, inspectAsked) then Some(w.cap) else None;
      inspectAsked := inspectAsked + 1;
    }

    /** cluster_exists: no answer reads as absent. */
    method SeesCluster() returns (seen: bool)
      modifies `clustersAsked
      ensures seen == (Answers(env.clusters, old(clustersAsked)) && w.clusterExists) && clustersAsked == old(clustersAsked) + 1
    {
      seen := Answers(env.clusters, clustersAsked) && w.clusterExists;
      clustersAsked := clustersAsked + 1;
    }

    /** kubectl get namespace: an unreachable API ends the script, it does not read as "not installed". */
    method QueryKfp() returns (ok: bool, installed: bool)
      modifies `commandsRun
      ensures ok ==> w.running && installed == w.kfp
      ensures AllAnswer(env.commands) ==> (ok <==> w.running)
    {
      installed := w.kfp;
      ok := Try();
      ok := ok && w.running;
    }

    method QueryKeda() returns (ok: bool, installed: bool)
      modifies `commandsRun
      ensures ok ==> w.running && installed == w.keda
      ensures AllAnswer(env.commands) ==> (ok <==> w.running)
    {
      installed := w.keda;
      ok := Try();
      ok := ok && w.running;
    }

    // ----- commands -----

    /** A command without effect on nodes, caps or Compose; it may fail. */
    method Try() returns (ok: bool)
      modifies `commandsRun
      ensures ok == Answers(env.commands, old(commandsRun)) && commandsRun == old(commandsRun) + 1
      ensures AllAnswer(env.commands) ==> ok
    {
      ok := Answers(env.commands, commandsRun);
      commandsRun := commandsRun + 1;
    }

    /** docker stop. */
    method StopNode() returns (ok: bool)
      requires Valid()
      modifies `w, `history, `commandsRun
      ensures Onward() && (SafeAll(old(history), caps) ==> SafeAll(history, caps))
      ensures ok ==> w == old(w).(running := false)
      ensures !ok ==> w == old(w)
      ensures AllAnswer(env.commands) ==> ok
    {
      ok := Try();
      if ok {
        Becomes(w.(running := false));
      }
    }

    /** docker start; a running node stays as it is. */
    method StartNode() returns (ok: bool)
      requires Valid()
      modifies `w, `history, `commandsRun
      ensures Onward() && (SafeAll(old(history), caps) && Safe(w, caps) ==> SafeAll(history, caps))
      ensures ok ==> w == old(w).(running := true)
      ensures !ok ==> w == old(w)
      ensures AllAnswer(env.commands) ==> ok
    {
      ok := Try();
      if ok {
        Becomes(w.(running := true));
      }
    }

    /** docker update --memory. */
    method UpdateCap(cap: nat) returns (ok: bool)
      requires Valid()
      modifies `w, `history, `commandsRun
      ensures Onward() && (SafeAll(old(history), caps) && Safe(w, caps) ==> SafeAll(history, caps))
      ensures ok ==> w == old(w).(cap := cap)
      ensures !ok ==> w == old(w)
      ensures AllAnswer(env.commands) ==> ok
    {
      ok := Try();
      if ok {
        Becomes(w.(cap := cap));
      }
    }

    /** set_cap: lowering the cap of a running node is refused while its anonymous memory exceeds 75% of the new
        cap, provided docker inspect answers twice; raising it, or setting that of a stopped node, never is. */
    method SetCap(cap: nat) returns (ok: bool)
      requires Valid()
      modifies `w, `history, `commandsRun, `inspectAsked, `anonReads
      ensures Onward() && (SafeAll(old(history), caps) && Safe(w, caps) ==> SafeAll(history, caps))
      ensures ok ==> w == old(w).(cap := cap)
      ensures !ok ==> w == old(w)
      ensures (old(w).running && cap < old(w).cap && env.anon(old(anonReads)) * 4 > cap * 3
               && Answers(env.inspect, old(inspectAsked)) && Answers(env.inspect, old(inspectAsked) + 1)) ==> !ok
      ensures AllAnswer(env.commands) && (!old(w).running || old(w).cap <= cap || env.anon(old(anonReads)) * 4 <= cap * 3) ==> ok
    {
      var running := SeesNodeRunning();
      if running {
        var current := SeeCap();
        if current.Some? && cap < current.value {
          var anon := env.anon(anonReads);
          anonReads := anonReads + 1;
          if anon * 4 > cap * 3 {
            return false;
          }
        }
      }
      ok := UpdateCap(cap);
    }

    /** docker compose stop: on failure some of the services may have stopped. */
    method ComposeStop(services: set<string>) returns (ok: bool)
      requires Valid()
      modifies `w, `history, `commandsRun
      ensures Onward() && (SafeAll(old(history), caps) ==> SafeAll(history, caps))
      ensures w == old(w).(compose := w.compose) && w.compose <= old(w).compose
      ensures ok ==> w.compose == old(w).compose - services
      ensures AllAnswer(env.commands) ==> ok
      ensures old(w).compose - services <= w.compose
    {
      ok := Try();
      if ok {
        Becomes(w.(compose := w.compose - services));
      } else {
        var stopped: set<string> := *;
        Becomes(w.(compose := w.compose - stopped * services));
      }
    }

    /** docker compose up: on failure some of the services may have started. */
    method ComposeUp(services: set<string>) returns (ok: bool)
      requires Valid()
      modifies `w, `history, `commandsRun
      ensures Onward()
      ensures SafeAll(old(history), caps) && Safe(old(w).(compose := old(w).compose + services), caps) ==> SafeAll(history, caps)
      ensures w == old(w).(compose := w.compose) && old(w).compose <= w.compose <= old(w).compose + services
      ensures ok ==> w.compose == old(w).compose + services
      ensures AllAnswer(env.commands) ==> ok
      ensures history == old(history) + [w]
    {
      ok := Try();
      if ok {
        Becomes(w.(compose := w.compose + services));
      } else {
        var started: set<string> := *;
        Becomes(w.(compose := w.compose + started * services));
      }
    }

    // ----- mode.sh -----

    /** check MODE: a query of Compose that is not answered hides violations, one of the node does not, except
        in Compose mode. */
    method Check(mode: Mode) returns (ok: bool)
      requires Valid()
      modifies `psAsked, `configAsked, `inspectAsked, `commandsRun
      ensures Onward() && w == old(w) && history == old(history) && psAsked == old(psAsked) + 1
      ensures ok && mode != ComposeMode ==> InMode(mode, w.(compose := {}), caps, all)
      ensures ok ==> (InMode(mode, w, caps, all) <==> w.compose <= Allowed(mode, all) && (mode == ComposeMode ==> !w.running))
      ensures ok && Answers(env.ps, old(psAsked)) ==> w.compose <= Allowed(mode, all)
      ensures AllWork() ==> (ok <==> InMode(mode, w, caps, all))
    {
      var allowed := SeeAllowed(mode);
      var seen := SeeRunningServices();
      ok := seen <= allowed;
      var running := SeesNodeRunning();
      if mode == ComposeMode {
        return ok && !running;
      }
      if !running {
        return false;
      }
      var cap := SeeCap();
      ok := ok && cap == Some(CapFor(mode, caps));
      if mode != KfpMode {
        var reached, kfp := QueryKfp();
        ok := ok && reached && !kfp;
      }
      if mode == K8sMode {
        var reached, keda := QueryKeda();
        ok := ok && reached && !keda;
      }
    }

    /** The first look of a trim, and the stop of what it shows beside the allowed services. */
    method StopBeside(allowed: set<string>) returns (ok: bool)
      requires Valid()
      modifies `w, `history, `commandsRun, `psAsked
      ensures Onward() && (SafeAll(old(history), caps) ==> SafeAll(history, caps))
      ensures w == old(w).(compose := w.compose) && w.compose <= old(w).compose && psAsked == old(psAsked) + 1
      ensures ok ==> w.compose == old(w).compose - (Seen(Answers(env.ps, old(psAsked)), old(w).compose) - allowed)
      ensures AllAnswer(env.commands) ==> ok
      ensures old(w).compose * allowed <= w.compose
    {
      var seen := SeeRunningServices();
      if seen - allowed == {} {
        return true;
      }
      ok := ComposeStop(seen - allowed);
    }

    /** trim_compose: stop what the mode does not allow, and look again. */
    method TrimCompose(mode: Mode) returns (ok: bool)
      requires Valid()
      modifies `w, `history, `commandsRun, `psAsked, `configAsked
      ensures Onward() && (SafeAll(old(history), caps) ==> SafeAll(history, caps))
      ensures w == old(w).(compose := w.compose) && w.compose <= old(w).compose
      ensures ok ==> psAsked == old(psAsked) + 2
      ensures if mode == KfpMode then configAsked == old(configAsked) else ok ==> configAsked == old(configAsked) + 2
      ensures ok && !Answers(env.ps, old(psAsked)) && !Answers(env.ps, old(psAsked) + 1) ==> w.compose == old(w).compose
      ensures ok ==> (w.compose <= Allowed(mode, all) <==> Answers(env.ps, old(psAsked)) || Answers(env.ps, old(psAsked) + 1) || old(w).compose <= Allowed(mode, all))
      ensures AllWork() ==> ok
      ensures mode == KfpMode || Answers(env.config, old(configAsked)) ==> old(w).compose * Allowed(mode, all) <= w.compose
    {
      ghost var full := Allowed(mode, all);
      var allowed := SeeAllowed(mode);
      ok := StopBeside(allowed);
      if !ok { return; }
      var again := SeeAllowed(mode);
      var left := SeeRunningServices();
      ok := left <= again;
      if ok {
        TrimWorksExactlyWhen(old(w).compose, full, allowed, again, Answers(env.ps, old(psAsked)), Answers(env.ps, old(psAsked) + 1));
      }
    }

    /** Whatever the node holds, it is started at the KFP cap beside the KFP set: safe throughout if one of the
        two Compose queries is answered or there is nothing to trim, and unsafe at the end otherwise. */
    method StartNodeInKfpEnvelope() returns (ok: bool)
      requires Valid() && w.clusterExists
      modifies `w, `history, `commandsRun, `psAsked, `configAsked, `inspectAsked, `anonReads
      ensures Onward()
      ensures SafeAll(old(history), caps) && (Answers(env.ps, old(psAsked)) || Answers(env.ps, old(psAsked) + 1) || old(w).compose <= KFP_KEEP) ==> SafeAll(history, caps)
      ensures ok ==> (Safe(w, caps) <==> Answers(env.ps, old(psAsked)) || Answers(env.ps, old(psAsked) + 1) || old(w).compose <= KFP_KEEP)
      ensures ok ==> w == old(w).(compose := w.compose, cap := caps.kfp, running := true)
      ensures ok ==> (w.compose <= KFP_KEEP <==> Answers(env.ps, old(psAsked)) || Answers(env.ps, old(psAsked) + 1) || old(w).compose <= KFP_KEEP)
      ensures w.clusterExists && w.kfp == old(w).kfp && w.keda == old(w).keda && w.compose <= old(w).compose
      ensures configAsked == old(configAsked)
      ensures AllWork() && Light() ==> ok
    {
      ok := TrimCompose(KfpMode);
      if !ok { return; }
      EnvelopeNeedsTrimmedCompose(w, caps);
      ok := RunAtKfpCap();
    }

    /** The cap, then the node. */
    method RunAtKfpCap() returns (ok: bool)
      requires Valid() && w.clusterExists
      modifies `w, `history, `commandsRun, `inspectAsked, `anonReads
      ensures Onward() && (SafeAll(old(history), caps) && w.compose <= KFP_KEEP ==> SafeAll(history, caps))
      ensures ok ==> w == old(w).(cap := caps.kfp, running := true)
      ensures w == old(w).(cap := w.cap, running := w.running)
      ensures AllWork() && Light() ==> ok
    {
      EnvelopeNeedsTrimmedCompose(w, caps);
      ok := SetCap(caps.kfp);
      if !ok { return; }
      var running := SeesNodeRunning();
      if !running {
        ok := StartNode();
        if !ok { return; }
      }
      ok := Try();  // wait_api
    }

    /** Safe throughout, and Compose mode in the end, exactly if docker inspect answers or the node is stopped. */
    method ToCompose() returns (ok: bool)
      requires Valid()
      modifies `w, `history, `commandsRun, `inspectAsked, `anonReads
      ensures Onward()
      ensures SafeAll(old(history), caps) && (Answers(env.inspect, old(inspectAsked)) || !old(w).running) ==> SafeAll(history, caps)
      ensures ok ==> (Safe(w, caps) <==> Answers(env.inspect, old(inspectAsked)) || !old(w).running)
      ensures ok && old(w).compose <= all ==> (InMode(ComposeMode, w, caps, all) <==> Answers(env.inspect, old(inspectAsked)) || !old(w).running)
      ensures AllWork() ==> ok
      ensures w == old(w).(running := w.running, compose := w.compose)
      ensures ok ==> w.compose == old(w).compose + all
      ensures ok ==> 2 <= |history| && history[|history| - 2].compose == old(w).compose + {"postgres"}
    {
      var running := SeesNodeRunning();
      if running {
        ok := StopNode();
        if !ok { return; }
      }
      ok := StartStack();
      assert "feast-server" in MOVED && "feast-server" in all;
    }

    /** Postgres first, since the start index is read from it, then everything. */
    method StartStack() returns (ok: bool)
      requires Valid()
      modifies `w, `history, `commandsRun
      ensures Onward() && (SafeAll(old(history), caps) && !w.running ==> SafeAll(history, caps))
      ensures w == old(w).(compose := w.compose)
      ensures ok ==> w.compose == old(w).compose + all
      ensures ok ==> 2 <= |history| && history[|history| - 2].compose == old(w).compose + {"postgres"}
      ensures AllAnswer(env.commands) ==> ok
    {
      ok := ComposeUp({"postgres"});
      if !ok { return; }
      ok := ComposeUp(all);
    }

    /** Safe throughout, and KFP mode in the end, exactly if the envelope is. */
    method ToKfp() returns (ok: bool)
      requires Valid()
      modifies `w, `history, `commandsRun, `psAsked, `configAsked, `inspectAsked, `clustersAsked, `anonReads
      ensures Onward()
      ensures SafeAll(old(history), caps) && (Answers(env.ps, old(psAsked)) || Answers(env.ps, old(psAsked) + 1) || old(w).compose <= KFP_KEEP) ==> SafeAll(history, caps)
      ensures ok ==> (Safe(w, caps) <==> Answers(env.ps, old(psAsked)) || Answers(env.ps, old(psAsked) + 1) || old(w).compose <= KFP_KEEP)
      ensures ok ==> (InMode(KfpMode, w, caps, all) <==> Answers(env.ps, old(psAsked)) || Answers(env.ps, old(psAsked) + 1) || old(w).compose <= KFP_KEEP)
      ensures AllWork() && Light() ==> (ok <==> old(w).clusterExists)
      ensures ok ==> w == old(w).(compose := w.compose, cap := caps.kfp, running := true) && KFP_KEEP <= w.compose
    {
      ok := SeesCluster();
      if !ok { return; }
      ok := StartNodeInKfpEnvelope();
      if !ok { return; }
      assert KFP_KEEP !! MOVED;
      ok := ComposeUp(KFP_KEEP);
      if !ok { return; }
      ok := Try();  // scale the amel Deployments to 0
    }

    method LeaveKfpEnvelope() returns (ok: bool)
      requires Valid() && w.clusterExists && w.running
      modifies `w, `history, `commandsRun, `inspectAsked, `clustersAsked, `anonReads
      ensures Onward() && (SafeAll(old(history), caps) ==> SafeAll(history, caps))
      ensures ok ==> w.running && w.cap == caps.k8s && !w.kfp
      ensures w.clusterExists && w.keda == old(w).keda && w.compose == old(w).compose
      ensures AllWork() && Light() ==> (ok <==> VanishesInTime(old(w)))
    {
      var kfp;
      ok, kfp := QueryKfp();
      if !ok { return; }
      if kfp {
        ok := RemoveKfp();
      } else {
        ok := SetCap(caps.k8s);
      }
    }

    /** From scale mode the node goes straight back to the k8s cap, unless it holds KFP. */
    method LeaveScaleMode() returns (ok: bool, done: bool)
      requires Valid()
      modifies `w, `history, `commandsRun, `inspectAsked, `anonReads
      ensures Onward() && (SafeAll(old(history), caps) ==> SafeAll(history, caps))
      ensures ok && done ==> w.running && w.cap == caps.k8s && !w.kfp
      ensures ok && AllAnswer(env.inspect) ==> (done <==> old(w).running && old(w).cap == caps.scale && !old(w).kfp)
      ensures w == old(w).(cap := w.cap) && (!done ==> w == old(w))
      ensures AllWork() && Light() ==> ok
    {
      ok, done := true, false;
      var running := SeesNodeRunning();
      if !running { return; }
      var cap := SeeCap();
      if cap != Some(caps.scale) { return; }
      var kfp;
      ok, kfp := QueryKfp();
      if !ok || kfp { return; }
      ok := Try();  // manifests back to their replica counts
      if !ok { return; }
      ok := SetCap(caps.k8s);
      done := ok;
    }

    /** The node of an existing cluster: running, at the k8s cap, without KFP. It goes through the envelope
        unless it is seen at that cap, or in scale mode without KFP; success has then been safe throughout
        exactly if the envelope was. */
    method NodeToK8s() returns (ok: bool, ghost entered: bool)
      requires Valid() && w.clusterExists
      modifies `w, `history, `commandsRun, `psAsked, `configAsked, `inspectAsked, `clustersAsked, `anonReads
      ensures Onward()
      ensures SafeAll(old(history), caps) && (!entered || CanTrim(old(psAsked), old(w), KFP_KEEP)) ==> SafeAll(history, caps)
      ensures ok && SafeAll(old(history), caps) ==> (SafeAll(history, caps) <==> !entered || CanTrim(old(psAsked), old(w), KFP_KEEP))
      ensures ok && AllAnswer(env.inspect) ==> (entered <==> NeedsEnvelope(old(w)))
      ensures ok ==> w.running && w.cap == caps.k8s && !w.kfp
      ensures w.clusterExists && w.keda == old(w).keda && w.compose <= old(w).compose
      ensures configAsked == old(configAsked)
      ensures AllWork() && Light() ==>
        (ok <==> if NeedsEnvelope(old(w)) then VanishesInTime(old(w)) else old(w).cap == caps.k8s ==> !old(w).kfp)
    {
      var done;
      entered := false;
      ok, done := LeaveScaleMode();
      if !ok || done { return; }
      var running := SeesNodeRunning();
      var cap := None;
      if running {
        cap := SeeCap();
      }
      if cap != Some(caps.k8s) {
        entered := true;
        ok := ThroughEnvelope();
      } else {
        var kfp;
        ok, kfp := QueryKfp();
        ok := ok && !kfp;
      }
    }

    /** Into the KFP envelope and out of it again. */
    method ThroughEnvelope() returns (ok: bool)
      requires Valid() && w.clusterExists
      modifies `w, `history, `commandsRun, `psAsked, `configAsked, `inspectAsked, `clustersAsked, `anonReads
      ensures Onward()
      ensures SafeAll(old(history), caps) && CanTrim(old(psAsked), old(w), KFP_KEEP) ==> SafeAll(history, caps)
      ensures ok && SafeAll(old(history), caps) ==> (SafeAll(history, caps) <==> CanTrim(old(psAsked), old(w), KFP_KEEP))
      ensures ok ==> w.running && w.cap == caps.k8s && !w.kfp
      ensures w.clusterExists && w.keda == old(w).keda && w.compose <= old(w).compose
      ensures configAsked == old(configAsked)
      ensures AllWork() && Light() ==> (ok <==> VanishesInTime(old(w)))
    {
      ok := StartNodeInKfpEnvelope();
      if !ok { return; }
      ghost var envelope := history;
      ok := LeaveKfpEnvelope();
      SafeAllPrefix(envelope, history, caps);
    }

    ghost predicate NeedsEnvelope(world: World) {
      !world.running || !(world.cap == caps.k8s || (world.cap == caps.scale && !world.kfp))
    }

    /** One of the two looks of the next trim is answered, or there is nothing to trim. */
    ghost predicate CanTrim(asked: nat, world: World, allowed: set<string>) {
      Answers(env.ps, asked) || Answers(env.ps, asked + 1) || world.compose <= allowed
    }

    /** Compose without the moved services; a list that could not be read starts everything. */
    method StartAllowed() returns (ok: bool)
      requires Valid() && w.running && w.cap == caps.k8s
      modifies `w, `history, `commandsRun, `configAsked
      ensures Onward() && (SafeAll(old(history), caps) && Answers(env.config, old(configAsked)) ==> SafeAll(history, caps))
      ensures ok && SafeAll(old(history), caps) ==> (SafeAll(history, caps) <==> Answers(env.config, old(configAsked)))
      ensures w == old(w).(compose := w.compose)
      ensures Answers(env.config, old(configAsked)) ==> w.compose <= old(w).compose + Allowed(K8sMode, all)
      ensures AllAnswer(env.commands) ==> ok
      ensures ok && Answers(env.config, old(configAsked)) ==> Allowed(K8sMode, all) <= w.compose
    {
      var allowed := SeeAllowed(K8sMode);
      if SafeAll(history, caps) {
        StartAllowedSafeExactlyWhen(w, caps, all, Answers(env.config, configAsked));
      }
      ok := ComposeUp(UpArguments(allowed, all));
    }

    /** Without a cluster: safe throughout exactly if the trim can see or no moved service survives the stop
        that k8s_up.sh ignores. */
    method CreateForK8s(survivors: set<string>) returns (ok: bool)
      requires Valid()
      modifies this
      ensures Onward()
      ensures SafeAll(old(history), caps) && (old(w).clusterExists || CanCreate(old(psAsked), old(w), survivors)) ==> SafeAll(history, caps)
      ensures ok && !old(w).clusterExists && SafeAll(old(history), caps) ==>
        (SafeAll(history, caps) <==> CanCreate(old(psAsked), old(w), survivors))
      ensures ok ==> w.running && w.cap == caps.k8s && !w.kfp
      ensures old(w).clusterExists ==> w.keda == old(w).keda
      ensures ok && !old(w).clusterExists ==> !w.keda
      ensures ok && CanTrim(old(psAsked), old(w), Allowed(K8sMode, all)) ==> w.compose <= Allowed(K8sMode, all)
      ensures AllWork() && !old(w).clusterExists ==> ok
      ensures ok ==> "airflow" in w.compose
    {
      ok := TrimCompose(K8sMode);
      if !ok { return; }
      TrimmedHasNoMoved(w.compose, all);
      ghost var trimmed := history;
      ok := K8sUp(survivors);
      SafeAllPrefix(trimmed, history, caps);
    }

    ghost predicate CanCreate(asked: nat, world: World, survivors: set<string>) {
      Answers(env.ps, asked) || Answers(env.ps, asked + 1) || world.compose * MOVED !! survivors
    }

    /** With a cluster: safe throughout exactly if the envelope is, where it is entered, and the query that lists
        what to start is answered. */
    method SwitchNodeToK8s(survivors: set<string>) returns (ok: bool, ghost entered: bool)
      requires Valid() && w.clusterExists
      modifies this
      ensures Onward()
      ensures SafeAll(old(history), caps) && (!entered || CanTrim(old(psAsked), old(w), KFP_KEEP)) && Answers(env.config, old(configAsked) + 2) ==>
        SafeAll(history, caps)
      ensures ok && SafeAll(old(history), caps) ==>
        (SafeAll(history, caps) <==> (!entered || CanTrim(old(psAsked), old(w), KFP_KEEP)) && Answers(env.config, old(configAsked) + 2))
      ensures ok && AllAnswer(env.inspect) ==> (entered <==> NeedsEnvelope(old(w)))
      ensures ok ==> w.running && w.cap == caps.k8s && !w.kfp
      ensures w.keda == old(w).keda
      ensures ok && old(w).compose <= all && AllAnswer(env.ps) && AllAnswer(env.config) ==> w.compose <= Allowed(K8sMode, all)
      ensures AllWork() && Light() ==>
        (ok <==> if NeedsEnvelope(old(w)) then VanishesInTime(old(w)) else old(w).cap == caps.k8s ==> !old(w).kfp)
      ensures ok && AllAnswer(env.config) ==> Allowed(K8sMode, all) <= w.compose
      ensures ok ==> "airflow" in w.compose
    {
      ok, entered := NodeToK8s();
      if !ok { return; }
      ghost var node := history;
      ok := TrimCompose(K8sMode);
      if !ok { return; }
      ok := StartAllowed();
      if !ok {
        return;
      }
      ghost var started := history;
      ok := K8sUp(survivors);
      SafeAllPrefix(node, history, caps);
      SafeAllPrefix(started, history, caps);
    }

    /** KEDA is looked for only in a node seen running; otherwise the switch may end with it installed, and
        then not in k8s mode. An existing cluster that is not seen leads to the first path, harmlessly. */
    method ToK8s(survivors: set<string>) returns (ok: bool, ghost entered: bool)
      requires Valid()
      modifies this
      ensures Onward()
      ensures SafeAll(old(history), caps) && SafeToK8s(old(w), old(psAsked), old(configAsked), old(clustersAsked), survivors, entered) ==>
        SafeAll(history, caps)
      ensures ok && SafeAll(old(history), caps) ==>
        (SafeAll(history, caps) <==> SafeToK8s(old(w), old(psAsked), old(configAsked), old(clustersAsked), survivors, entered))
      ensures ok && old(w).clusterExists && Answers(env.clusters, old(clustersAsked)) && AllAnswer(env.inspect) ==> (entered <==> NeedsEnvelope(old(w)))
      ensures ok ==> w.running && w.cap == caps.k8s && !w.kfp
      ensures old(w).clusterExists ==> w.keda == old(w).keda
      ensures ok && old(w).compose <= all && AllAnswer(env.ps) && AllAnswer(env.config) ==>
        (InMode(K8sMode, w, caps, all) <==> !old(w).clusterExists || !old(w).keda)
      ensures AllWork() && Light() ==> (ok <==>
        || !old(w).clusterExists
        || (!(old(w).running && old(w).keda)
            && if NeedsEnvelope(old(w)) then VanishesInTime(old(w)) else old(w).cap == caps.k8s ==> !old(w).kfp))
      ensures ok && AllAnswer(env.config) && old(w).clusterExists && Answers(env.clusters, old(clustersAsked)) ==> Allowed(K8sMode, all) <= w.compose
      ensures ok ==> "airflow" in w.compose
    {
      entered := false;
      var found := SeesCluster();
      if !found {
        ok := CreateForK8s(survivors);
        return;
      }
      var running := SeesNodeRunning();
      if running {
        var keda;
        ok, keda := QueryKeda();
        if !ok || keda {
          ok := false;
          return;
        }
      }
      ok, entered := SwitchNodeToK8s(survivors);
    }

    /** What makes a switch to k8s mode safe: without a cluster, `CanCreate`; with one that is seen, a trim that
        can see if the envelope is entered, and an answer to the query that lists what to start; with one that
        is not seen, nothing. */
    ghost predicate SafeToK8s(world: World, psFrom: nat, configFrom: nat, clustersFrom: nat, survivors: set<string>, entered: bool) {
      if !world.clusterExists then CanCreate(psFrom, world, survivors)
      else Answers(env.clusters, clustersFrom) ==>
        (!entered || CanTrim(psFrom, world, KFP_KEEP)) && Answers(env.config, configFrom + 2)
    }

    /** Always safe; scale mode in the end exactly if one of the two Compose queries of the trim is answered or
        there is nothing to trim. */
    method ToScale() returns (ok: bool)
      requires Valid()
      modifies `w, `history, `commandsRun, `psAsked, `configAsked, `inspectAsked, `anonReads
      ensures Onward() && (SafeAll(old(history), caps) ==> SafeAll(history, caps))
      ensures ok ==> (InMode(ScaleMode, w, caps, all) <==>
        Answers(env.ps, old(psAsked) + 1) || Answers(env.ps, old(psAsked) + 2) || old(w).compose <= Allowed(ScaleMode, all))
      ensures AllWork() && Light() ==> (ok <==> InMode(K8sMode, old(w), caps, all))
      ensures ok ==> w == old(w).(cap := caps.scale, compose := w.compose)
      ensures AllAnswer(env.config) ==> old(w).compose * Allowed(ScaleMode, all) <= w.compose
    {
      ok := Check(K8sMode);
      if !ok { return; }
      ok := SetCap(caps.scale);
      if !ok { return; }
      ok := TrimCompose(ScaleMode);
    }

    // ----- k8s_up.sh, kfp_up.sh, kfp_down.sh -----

    /** A missing cluster is created, whatever of Compose is running by then; an existing one must be running, at
        the k8s cap, without KFP. */
    method CreateOrCheckCluster() returns (ok: bool)
      requires Valid()
      modifies `w, `history, `commandsRun, `inspectAsked, `clustersAsked, `anonReads
      ensures Onward()
      ensures old(w).clusterExists ==> w == old(w) && history == old(history)
      ensures !old(w).clusterExists && !ok ==> w == old(w) && history == old(history)
      ensures !old(w).clusterExists && ok ==>
        w == World(true, true, 0, false, false, false, old(w).compose) && history == old(history) + [w]
      ensures ok && old(w).clusterExists ==> w.running && w.cap == caps.k8s && !w.kfp
      ensures AllWork() ==> (ok <==> !old(w).clusterExists || (old(w).running && old(w).cap == caps.k8s && !old(w).kfp))
    {
      var seen := SeesCluster();
      if !seen {
        ok := Try();
        if !ok || w.clusterExists {  // a second cluster of that name is refused
          return false;
        }
        Becomes(World(true, true, 0, false, false, false, w.compose));
      } else {
        var running := SeesNodeRunning();
        if !running {
          return false;
        }
        var kfp;
        ok, kfp := QueryKfp();
        if !ok || kfp {
          return false;
        }
        var cap := SeeCap();
        ok := cap == Some(caps.k8s);
      }
    }

    /** The rest of the script, from a node that is up, with no cap yet or the k8s cap. */
    method DeployToNode() returns (ok: bool)
      requires Valid() && w.running && !w.kfp && w.cap != caps.kfp
      modifies `w, `history, `commandsRun
      ensures Onward() && (SafeAll(history, caps) <==> SafeAll(old(history), caps))
      ensures ok ==> w.cap == caps.k8s
      ensures w == old(w).(cap := w.cap, compose := w.compose) && w.compose <= old(w).compose + {"airflow"}
      ensures AllAnswer(env.commands) ==> ok
      ensures ok ==> w.compose == old(w).compose + {"airflow"}
    {
      ok := UpdateCap(caps.k8s);
      if ok {
        ok := Try();  // ingress, images, secrets, manifests, jobs, rollouts
      }
      if ok {
        ok := ComposeUp({"airflow"});
      }
      SafeAllPrefix(old(history), history, caps);
    }

    /** The stop of the moved services may fail unnoticed and leave `survivors`. Creating the cluster is then
        safe exactly if none of them was running. */
    method K8sUp(survivors: set<string>) returns (ok: bool)
      requires Valid()
      modifies `w, `history, `commandsRun, `inspectAsked, `clustersAsked, `anonReads
      ensures Onward()
      ensures SafeAll(old(history), caps) && (old(w).clusterExists || old(w).compose * MOVED !! survivors) ==> SafeAll(history, caps)
      ensures ok && !old(w).clusterExists && SafeAll(old(history), caps) ==>
        (SafeAll(history, caps) <==> old(w).compose * MOVED !! survivors)
      ensures ok ==> w.running && w.cap == caps.k8s && !w.kfp
      ensures w.compose <= old(w).compose + {"airflow"}
      ensures old(w).clusterExists ==> w.keda == old(w).keda
      ensures ok && !old(w).clusterExists ==> !w.keda
      ensures AllWork() ==> (ok <==> !old(w).clusterExists || (old(w).running && old(w).cap == caps.k8s && !old(w).kfp))
      ensures ok ==> w.compose == old(w).compose - (MOVED - survivors) + {"airflow"}
    {
      Becomes(w.(compose := w.compose - (MOVED - survivors)));
      ghost var stopped := history;
      ok := CreateOrCheckCluster();
      if !old(w).clusterExists {
        CreationSafeExactlyWhen(old(w), caps, survivors);
        SafeAllSnoc(stopped, w, caps);
      }
      if ok {
        ok := DeployToNode();
      }
    }

    /** Only in KFP mode. A failure anywhere in the install leaves the namespace behind. */
    method InstallKfp() returns (ok: bool)
      requires Valid()
      modifies `w, `history, `commandsRun, `psAsked, `configAsked, `inspectAsked, `anonReads
      ensures Onward() && (SafeAll(old(history), caps) ==> SafeAll(history, caps))
      ensures ok ==> w.kfp && w.cap == caps.kfp
      ensures AllWork() ==> (ok <==> InMode(KfpMode, old(w), caps, all))
      ensures ok ==> w == old(w).(kfp := true, deleting := false)
    {
      ok := Check(KfpMode);
      if !ok { return; }
      Becomes(w.(kfp := true, deleting := false));
      ok := Try();
    }

    /** The namespace finishes terminating, at some time after its removal was requested. */
    method NamespaceGone()
      requires Valid()
      modifies `w, `history, `commandsRun
      ensures Onward() && (SafeAll(old(history), caps) ==> SafeAll(history, caps))
      ensures w == if old(w).deleting then old(w).(kfp := false, deleting := false) else old(w)
    {
      if w.deleting {
        Becomes(w.(kfp := false, deleting := false));
      }
    }

    /** The cap is lowered only after the namespace is verified gone; a timeout or an unreachable API ends
        the script with the node at its KFP cap. */
    method RemoveKfp() returns (ok: bool)
      requires Valid()
      modifies `w, `history, `commandsRun, `clustersAsked
      ensures Onward() && (SafeAll(old(history), caps) ==> SafeAll(history, caps))
      ensures ok ==> w.running && !w.kfp && w.cap == caps.k8s
      ensures w.compose == old(w).compose && w.clusterExists == old(w).clusterExists && w.keda == old(w).keda
      ensures w.kfp ==> w.cap == old(w).cap
      ensures AllWork() ==> (ok <==> old(w).clusterExists && old(w).running && VanishesInTime(old(w)))
      ensures ok ==> w == old(w).(kfp := false, deleting := false, cap := caps.k8s)
    {
      ok := SeesCluster();
      if !ok { return; }
      ok := Try();  // the two deletes, --wait=false
      if !ok || !w.running {
        return false;
      }
      Becomes(w.(deleting := w.kfp));
      var look := 0;
      var present := true;
      while present
        invariant Onward() && (SafeAll(old(history), caps) ==> SafeAll(history, caps))
        invariant w == old(w).(kfp := w.kfp, deleting := w.kfp) && w.running && w.clusterExists
        invariant !present ==> !w.kfp
        invariant look <= env.polls + 1 && (present ==> look <= env.polls)
        invariant w.kfp ==> old(w).kfp
        invariant present ==> w.kfp == old(w).kfp
        invariant old(w).kfp ==> if present then look <= env.goneAfter else env.goneAfter <= env.polls
        decreases present, env.polls - look
      {
        if env.goneAfter <= look {
          NamespaceGone();
        }
        ok, present := QueryKfp();
        if !ok { return; }
        if present {
          if look == env.polls {  // the deadline
            return false;
          }
          look := look + 1;
        }
      }
      ok := UpdateCap(caps.k8s);
    }

    // ----- any operator -----

    /** One operation. Its success means what it is for, as long as the queries of Compose and of the node
        answer. */
    method Perform(op: Op) returns (ok: bool)
      requires Valid() && AllAnswer(env.ps) && AllAnswer(env.config) && AllAnswer(env.inspect)
      modifies this
      ensures Onward() && (SafeAll(old(history), caps) ==> SafeAll(history, caps))
      ensures ok && old(w).compose <= all ==>
        match op
        case SwitchTo(mode) => InMode(mode, w, caps, all) || (mode == K8sMode && old(w).clusterExists && old(w).keda)
        case KfpUp => w.kfp && w.cap == caps.kfp
        case KfpDown => !w.kfp && w.cap == caps.k8s
        case NamespaceVanishes => !w.deleting
    {
      match op {
        case SwitchTo(ComposeMode) => ok := ToCompose();
        case SwitchTo(K8sMode) =>
          var survivors: set<string> := *;
          ghost var entered;
          ok, entered := ToK8s(survivors);
        case SwitchTo(ScaleMode) => ok := ToScale();
        case SwitchTo(KfpMode) => ok := ToKfp();
        case KfpUp => ok := InstallKfp();
        case KfpDown => ok := RemoveKfp();
        case NamespaceVanishes =>
          NamespaceGone();
          ok := true;
      }
    }

    /** Any sequence of mode switches and KFP installs and removals, each ending after whichever command
        failed: every state ever passed through is safe, as long as the queries of Compose and of the node
        answer. */
    method Operate(ops: seq<Op>)
      requires Valid() && AllAnswer(env.ps) && AllAnswer(env.config) && AllAnswer(env.inspect)
      modifies this
      ensures Onward()
      ensures SafeAll(old(history), caps) ==> SafeAll(history, caps)
    {
      for i := 0 to |ops|
        invariant Onward() && (SafeAll(old(history), caps) ==> SafeAll(history, caps))
      {
        var ok := Perform(ops[i]);
      }
    }
  }
}
