/**
 * The helper-pod lifecycle of one node shell: the pod's name, the pod
 * object that is created, the start-up state machine (node check, namespace
 * check, reuse or create, readiness polling with a timeout) and teardown
 * (one delete, or up to five with a pause after each failure).
 *
 * The cluster is an input: the replies it gives to each request. Each
 * operation returns the requests it sent, in order.
 */
module NodeShell {
  import opened Wrappers
  import opened Strings
  import opened Config
  import opened Cluster

  const ContainerName: string := "node-shell"
  const Placeholder: string := "{node}"

  const CheckPodStatusIntervalSeconds: nat := 1
  const CheckPodStatusTimeoutSeconds: nat := 60
  /** Ticks of the status ticker that can fire before the timeout timer does. */
  const PollTicks: nat := CheckPodStatusTimeoutSeconds / CheckPodStatusIntervalSeconds

  const CloseMaxRetry: nat := 5
  const CloseRetrySeconds: nat := 3

  const NsenterArgs: seq<string> := ["-t", "1", "-m", "-u", "-i", "-n"]
  const PodLabels: map<string, string> := map["app" := "node-shell", "owner" := "kubesh"]

  /** One node shell: the target node, the helper pod's name and the settings. */
  datatype NodeShell = NodeShell(node: string, podName: string, config: Settings)

  // ---------------------------------------------------------------------------
  // Pod identity

  /** The helper pod's name: the template with every `{node}` replaced by the node name. */
  function PodName(template: string, node: string): (name: string)
    ensures name == ReplaceAllByIndex(template, Placeholder, node)
  {
    ReplaceAllIsByIndex(template, Placeholder, node);
    ReplaceAll(template, Placeholder, node)
  }

  /** A template without the placeholder is used as the name unchanged. */
  lemma PodNameWithoutPlaceholder(template: string, node: string)
    requires !Contains(template, Placeholder)
    ensures PodName(template, node) == template
  {
    ReplaceAllAbsent(template, Placeholder, node);
  }

  /** The default template names the pod `node-shell-<node>`. */
  lemma DefaultPodNameFor(node: string)
    ensures PodName(DefaultPodName, node) == "node-shell-" + node
  {
    var prefix := "node-shell-";
    var s := prefix + Placeholder;
    assert DefaultPodName == s;
    var p := |prefix|;
    assert forall j :: 0 <= j < p ==> s[j] != Placeholder[0];
    ReplaceFromCopies(s, Placeholder, node, 0, p);
    assert OccursAt(s, Placeholder, p);
    assert ReplaceFrom(s, Placeholder, node, p + |Placeholder|) == [];
    assert s[0..p] == prefix;
  }

  // ---------------------------------------------------------------------------
  // The pod object

  /** A container's full argument vector: its command followed by its arguments. */
  function Argv(c: Container): seq<string>
  {
    c.command + c.args
  }

  /**
   * `pod` is the helper pod of `shell`: named after it in its namespace, owned
   * by the tool's labels, pinned to its node with the host network, PID and IPC
   * namespaces, and running exactly one privileged container that enters the
   * host's namespaces of process 1 and then runs the pause command.
   */
  predicate IsShellPod(pod: Pod, shell: NodeShell)
  {
    && pod.meta.name == shell.podName
    && pod.meta.namespace == shell.config.podNamespace
    && pod.meta.labels == PodLabels
    && pod.spec.nodeName == shell.node
    && pod.spec.hostNetwork && pod.spec.hostPID && pod.spec.hostIPC
    && |pod.spec.containers| == 1
    && pod.spec.containers[0].name == ContainerName
    && pod.spec.containers[0].image == shell.config.image
    && pod.spec.containers[0].privileged
    && pod.spec.containers[0].command == ["nsenter"]
    && pod.spec.containers[0].args == NsenterArgs + shell.config.pauseCommand
  }

  /** The pod object `start` creates for `shell`. */
  function BuildPod(shell: NodeShell): (pod: Pod)
    ensures IsShellPod(pod, shell)
    ensures Argv(pod.spec.containers[0]) == ["nsenter"] + NsenterArgs + shell.config.pauseCommand
  {
    var args := NsenterArgs + shell.config.pauseCommand;
    Pod(
      ObjectMeta(shell.podName, shell.config.podNamespace, PodLabels),
      PodSpec(shell.node, true, true, true,
        [Container(ContainerName, shell.config.image, ["nsenter"], args, true)]))
  }

  /** The description pins the pod down completely: two pods that both fit it are equal. */
  lemma ShellPodUnique(p: Pod, q: Pod, shell: NodeShell)
    requires IsShellPod(p, shell) && IsShellPod(q, shell)
    ensures p == q
  {
    assert p.spec.containers[0] == q.spec.containers[0];
    assert p.spec.containers == q.spec.containers;
  }

  /** With the default pause command the container runs `nsenter -t 1 -m -u -i -n sleep infinity`. */
  lemma DefaultPodArgv(shell: NodeShell)
    requires shell.config.pauseCommand == DefaultPauseCommand
    ensures Argv(BuildPod(shell).spec.containers[0])
         == ["nsenter", "-t", "1", "-m", "-u", "-i", "-n", "sleep", "infinity"]
  {
  }

  // ---------------------------------------------------------------------------
  // Start-up

  /**
   * The cluster's replies to the requests of one start-up: the node, the
   * namespace, the first pod lookup, the create, and one reply for each tick
   * of the status ticker that fires before the timeout timer.
   */
  datatype Replies = Replies(
    node: Reply<()>,
    namespace: Reply<()>,
    pod: Reply<Phase>,
    create: Reply<()>,
    polls: seq<Reply<Phase>>)

  datatype StartError =
    | NodeNotFound(node: string)
    | NodeQueryError(node: string, cause: ApiError)
    | NamespaceNotFound(namespace: string)
    | NamespaceQueryError(namespace: string, cause: ApiError)
    | PodQueryError(cause: ApiError)
    | PodCreateError(cause: ApiError)
    | PollQueryError(cause: ApiError)
    | StartupTimeout

  /** What a start-up reports and the requests it sent, in order. */
  datatype Outcome = Outcome(err: Option<StartError>, calls: seq<Call>)

  /** `o`, preceded by the requests in `prefix`. */
  function After(prefix: seq<Call>, o: Outcome): Outcome
  {
    Outcome(o.err, prefix + o.calls)
  }

  /** Requests sent in two stretches are the requests of both, in order. */
  lemma AfterAfter(first: seq<Call>, second: seq<Call>, o: Outcome)
    ensures After(first, After(second, o)) == After(first + second, o)
  {
    assert first + (second + o.calls) == (first + second) + o.calls;
  }

  /** `n` lookups of the same pod. */
  function Gets(namespace: string, name: string, n: nat): (calls: seq<Call>)
    ensures |calls| == n
  {
    seq(n, _ => GetPod(namespace, name))
  }

  /** A poll reply after which the loop waits for the next tick. */
  predicate Retried(r: Reply<Phase>)
  {
    r == Failure(NotFound) || (r.Success? && r.value != Running)
  }

  /**
   * The polling loop, given the replies to the ticks that come before the
   * timeout. It only looks the pod up, at most once per tick, and it ends
   * with a failure, or with success on a lookup.
   */
  function Poll(namespace: string, name: string, polls: seq<Reply<Phase>>): (o: Outcome)
    ensures |o.calls| <= |polls|
    ensures forall c :: c in o.calls ==> c == GetPod(namespace, name)
    ensures o.err == None ==> o.calls != [] && o.calls[|o.calls| - 1] == GetPod(namespace, name)
    decreases |polls|
  {
    if polls == [] then
      Outcome(Some(StartupTimeout), [])
    else
      var get := GetPod(namespace, name);
      match polls[0]
      case Success(phase) =>
        if phase == Running then Outcome(None, [get])
        else After([get], Poll(namespace, name, polls[1..]))
      case Failure(e) =>
        if e == NotFound then After([get], Poll(namespace, name, polls[1..]))
        else Outcome(Some(PollQueryError(e)), [get])
  }

  /**
   * After `k` retried replies, the loop ends at reply `k`: on `Running` with
   * success, on an error other than not-found with that error, and when the
   * ticks run out with the timeout; it sends one lookup per tick and none after.
   */
  lemma {:induction false} PollOutcome(namespace: string, name: string, polls: seq<Reply<Phase>>, k: nat)
    requires k <= |polls|
    requires forall j :: 0 <= j < k ==> Retried(polls[j])
    ensures k == |polls| ==>
      Poll(namespace, name, polls) == Outcome(Some(StartupTimeout), Gets(namespace, name, k))
    ensures k < |polls| && polls[k] == Success(Running) ==>
      Poll(namespace, name, polls) == Outcome(None, Gets(namespace, name, k + 1))
    ensures k < |polls| && polls[k].Failure? && polls[k].error != NotFound ==>
      Poll(namespace, name, polls) == Outcome(Some(PollQueryError(polls[k].error)), Gets(namespace, name, k + 1))
    decreases k
  {
    if k > 0 {
      PollOutcome(namespace, name, polls[1..], k - 1);
      assert Gets(namespace, name, k) == [GetPod(namespace, name)] + Gets(namespace, name, k - 1);
      assert Gets(namespace, name, k + 1) == [GetPod(namespace, name)] + Gets(namespace, name, k);
    } else if k < |polls| {
      assert Gets(namespace, name, 1) == [GetPod(namespace, name)];
    }
  }

  /** Polling times out exactly when no reply ends the loop. */
  lemma {:induction false} PollTimeoutIff(namespace: string, name: string, polls: seq<Reply<Phase>>)
    ensures Poll(namespace, name, polls).err == Some(StartupTimeout)
        <==> forall j :: 0 <= j < |polls| ==> Retried(polls[j])
    decreases |polls|
  {
    if polls != [] {
      PollTimeoutIff(namespace, name, polls[1..]);
      assert forall j :: 1 <= j < |polls| ==> polls[j] == polls[1..][j - 1];
    }
  }

  /** Start-up reaches the polling loop: node and namespace exist, and the pod is pending or was created. */
  predicate ReachesPolling(env: Replies)
  {
    && env.node.Success? && env.namespace.Success?
    && ((env.pod.Success? && env.pod.value != Running)
        || (env.pod == Failure(NotFound) && env.create.Success?))
  }

  /**
   * The start-up state machine, as a function of the cluster's replies. It
   * always checks the node first, sends at most four requests besides one
   * lookup per tick, and succeeds only on a lookup of its own pod.
   */
  function StartSpec(shell: NodeShell, env: Replies): (o: Outcome)
    ensures o.calls != [] && o.calls[0] == GetNode(shell.node)
    ensures |o.calls| <= 4 + |env.polls|
    ensures o.err == None ==> o.calls[|o.calls| - 1] == GetPod(shell.config.podNamespace, shell.podName)
  {
    var ns := shell.config.podNamespace;
    var checkNode := GetNode(shell.node);
    var checkNamespace := GetNamespace(ns);
    var getPod := GetPod(ns, shell.podName);
    if env.node.Failure? then
      Outcome(Some(if env.node.error == NotFound then NodeNotFound(shell.node)
                   else NodeQueryError(shell.node, env.node.error)), [checkNode])
    else if env.namespace.Failure? then
      Outcome(Some(if env.namespace.error == NotFound then NamespaceNotFound(ns)
                   else NamespaceQueryError(ns, env.namespace.error)), [checkNode, checkNamespace])
    else
      var checks := [checkNode, checkNamespace, getPod];
      match env.pod
      case Success(phase) =>
        if phase == Running then Outcome(None, checks)
        else After(checks, Poll(ns, shell.podName, env.polls))
      case Failure(e) =>
        if e != NotFound then Outcome(Some(PodQueryError(e)), checks)
        else
          var created := checks + [CreatePod(ns, BuildPod(shell))];
          if env.create.Failure? then Outcome(Some(PodCreateError(env.create.error)), created)
          else After(created, Poll(ns, shell.podName, env.polls))
  }

  /**
   * Start-up: checks the node and the namespace, reuses a running pod or
   * creates a missing one, then looks the pod up on every tick until it runs,
   * a lookup fails, or the timeout fires.
   */
  method Start(shell: NodeShell, env: Replies) returns (err: Option<StartError>, calls: seq<Call>)
    requires |env.polls| <= PollTicks
    ensures Outcome(err, calls) == StartSpec(shell, env)
  {
    var ns := shell.config.podNamespace;
    calls := [GetNode(shell.node)];
    if env.node.Failure? {
      if env.node.error == NotFound {
        return Some(NodeNotFound(shell.node)), calls;
      }
      return Some(NodeQueryError(shell.node, env.node.error)), calls;
    }

    calls := calls + [GetNamespace(ns)];
    if env.namespace.Failure? {
      if env.namespace.error == NotFound {
        return Some(NamespaceNotFound(ns)), calls;
      }
      return Some(NamespaceQueryError(ns, env.namespace.error)), calls;
    }

    calls := calls + [GetPod(ns, shell.podName)];
    if env.pod.Success? {
      if env.pod.value == Running {
        return None, calls;
      }
    } else {
      if env.pod.error != NotFound {
        return Some(PodQueryError(env.pod.error)), calls;
      }
      var pod := BuildPod(shell);
      calls := calls + [CreatePod(ns, pod)];
      if env.create.Failure? {
        return Some(PodCreateError(env.create.error)), calls;
      }
    }

    var i := 0;
    assert env.polls[i..] == env.polls;
    while i < |env.polls|
      invariant 0 <= i <= |env.polls|
      invariant StartSpec(shell, env) == After(calls, Poll(ns, shell.podName, env.polls[i..]))
    {
      var get := GetPod(ns, shell.podName);
      var reply := env.polls[i];
      assert env.polls[i..][1..] == env.polls[i + 1..];
      AfterAfter(calls, [get], Poll(ns, shell.podName, env.polls[i + 1..]));
      calls := calls + [get];
      if reply.Failure? {
        if reply.error != NotFound {
          return Some(PollQueryError(reply.error)), calls;
        }
      } else if reply.value == Running {
        return None, calls;
      }
      i := i + 1;
    }
    err := Some(StartupTimeout);
  }

  /**
   * Builds the node shell for `node` (naming its pod from the template) and
   * starts it; a failed start yields no shell.
   */
  method New(node: string, config: Settings, env: Replies) returns (r: Result<NodeShell, StartError>, calls: seq<Call>)
    requires |env.polls| <= PollTicks
    ensures r.Success? ==> r.value == NodeShell(node, PodName(config.podName, node), config)
    ensures var o := StartSpec(NodeShell(node, PodName(config.podName, node), config), env);
      && calls == o.calls
      && (r.Success? <==> o.err == None)
      && (r.Failure? ==> o.err == Some(r.error))
  {
    var shell := NodeShell(node, PodName(config.podName, node), config);
    var err;
    err, calls := Start(shell, env);
    if err.Some? {
      return Failure(err.value), calls;
    }
    r := Success(shell);
  }

  /** A missing or unreadable node, then a missing or unreadable namespace, fail before any pod request. */
  lemma StartChecksComeFirst(shell: NodeShell, env: Replies)
    ensures env.node.Failure? ==> StartSpec(shell, env).calls == [GetNode(shell.node)]
    ensures env.node == Failure(NotFound) ==> StartSpec(shell, env).err == Some(NodeNotFound(shell.node))
    ensures env.node.Failure? && env.node.error != NotFound ==>
      StartSpec(shell, env).err == Some(NodeQueryError(shell.node, env.node.error))
    ensures env.node.Success? && env.namespace.Failure? ==>
      StartSpec(shell, env).calls == [GetNode(shell.node), GetNamespace(shell.config.podNamespace)]
    ensures env.node.Success? && env.namespace == Failure(NotFound) ==>
      StartSpec(shell, env).err == Some(NamespaceNotFound(shell.config.podNamespace))
    ensures env.node.Success? && env.namespace.Failure? && env.namespace.error != NotFound ==>
      StartSpec(shell, env).err == Some(NamespaceQueryError(shell.config.podNamespace, env.namespace.error))
  {
  }

  /** A first pod lookup that fails other than with not-found ends start-up: no create, no polling. */
  lemma StartPodLookupErrorIsFatal(shell: NodeShell, env: Replies)
    requires env.node.Success? && env.namespace.Success?
    requires env.pod.Failure? && env.pod.error != NotFound
    ensures StartSpec(shell, env) == Outcome(Some(PodQueryError(env.pod.error)), [GetNode(shell.node),
      GetNamespace(shell.config.podNamespace), GetPod(shell.config.podNamespace, shell.podName)])
  {
  }

  /** A pod that already runs is reused: no create and no polling. */
  lemma StartReusesRunningPod(shell: NodeShell, env: Replies)
    requires env.node.Success? && env.namespace.Success? && env.pod == Success(Running)
    ensures StartSpec(shell, env) == Outcome(None, [GetNode(shell.node),
      GetNamespace(shell.config.podNamespace), GetPod(shell.config.podNamespace, shell.podName)])
  {
  }

  /** Any create error, already-exists included, ends start-up with that error and no polling. */
  lemma StartCreateErrorIsFatal(shell: NodeShell, env: Replies)
    requires env.node.Success? && env.namespace.Success? && env.pod == Failure(NotFound)
    requires env.create.Failure?
    ensures StartSpec(shell, env).err == Some(PodCreateError(env.create.error))
    ensures StartSpec(shell, env).calls[|StartSpec(shell, env).calls| - 1].CreatePod?
  {
  }

  /**
   * Start-up sends at most one create, only after the pod lookup answered
   * not-found, and always for the pod `BuildPod` describes; it never deletes.
   */
  lemma StartCreatesOnlyMissingPod(shell: NodeShell, env: Replies)
    ensures forall i, j :: 0 <= i < j < |StartSpec(shell, env).calls| ==>
      !(StartSpec(shell, env).calls[i].CreatePod? && StartSpec(shell, env).calls[j].CreatePod?)
    ensures forall c :: c in StartSpec(shell, env).calls && c.CreatePod? ==>
      env.pod == Failure(NotFound) && c == CreatePod(shell.config.podNamespace, BuildPod(shell))
    ensures env.node.Success? && env.namespace.Success? && env.pod == Failure(NotFound) ==>
      CreatePod(shell.config.podNamespace, BuildPod(shell)) in StartSpec(shell, env).calls
    ensures forall c :: c in StartSpec(shell, env).calls ==> !c.DeletePod?
  {
    var calls := StartSpec(shell, env).calls;
    if ReachesPolling(env) {
      var ns := shell.config.podNamespace;
      var p := Poll(ns, shell.podName, env.polls).calls;
      var checks := [GetNode(shell.node), GetNamespace(ns), GetPod(ns, shell.podName)];
      var prefix := if env.pod.Success? then checks else checks + [CreatePod(ns, BuildPod(shell))];
      assert calls == prefix + p;
      forall i | |prefix| <= i < |calls| ensures !calls[i].CreatePod? {
        assert calls[i] == p[i - |prefix|] && p[i - |prefix|] in p;
      }
    }
  }

  /** Start-up times out exactly when it reaches polling and no reply to a tick ends the loop. */
  lemma StartTimeoutIff(shell: NodeShell, env: Replies)
    ensures StartSpec(shell, env).err == Some(StartupTimeout)
        <==> ReachesPolling(env) && forall j :: 0 <= j < |env.polls| ==> Retried(env.polls[j])
  {
    PollTimeoutIff(shell.config.podNamespace, shell.podName, env.polls);
  }

  /** With at most `PollTicks` ticks before the timer, start-up sends at most `4 + PollTicks` requests. */
  lemma StartCallsBounded(shell: NodeShell, env: Replies)
    requires |env.polls| <= PollTicks
    ensures |StartSpec(shell, env).calls| <= 4 + PollTicks
  {
  }

  // ---------------------------------------------------------------------------
  // Teardown

  datatype CloseError = DeleteError(cause: ApiError)

  /** What one `Close` reports and the requests it sent. */
  datatype Closed = Closed(err: Option<CloseError>, calls: seq<Call>)

  /** One delete of the helper pod; a pod that is already gone counts as deleted. */
  function Close(shell: NodeShell, reply: Reply<()>): (r: Closed)
    ensures r.calls == [DeletePod(shell.config.podNamespace, shell.podName)]
    ensures r.err == None <==> reply.Success? || reply.error == NotFound
    ensures r.err.Some? ==> r.err.value == DeleteError(reply.error)
  {
    var call := DeletePod(shell.config.podNamespace, shell.podName);
    if reply.Failure? && reply.error != NotFound then Closed(Some(DeleteError(reply.error)), [call])
    else Closed(None, [call])
  }

  /** What `RetryClose` did: the requests, the pauses, and the warnings it printed. */
  datatype Retrying = Retrying(calls: seq<Call>, sleeps: nat, warnings: seq<CloseError>)

  /**
   * Deletes until one succeeds or the replies run out, pausing after each
   * failure: no more deletes than replies, and one warning per pause.
   */
  function Retry(shell: NodeShell, replies: seq<Reply<()>>): (r: Retrying)
    ensures |r.calls| <= |replies|
    ensures |r.warnings| == r.sleeps <= |r.calls|
    decreases |replies|
  {
    if replies == [] then
      Retrying([], 0, [])
    else
      var attempt := Close(shell, replies[0]);
      if attempt.err == None then
        Retrying(attempt.calls, 0, [])
      else
        var rest := Retry(shell, replies[1..]);
        Retrying(attempt.calls + rest.calls, rest.sleeps + 1, [attempt.err.value] + rest.warnings)
  }

  /** `r`, preceded by the requests, pauses and warnings already made. */
  function Continue(calls: seq<Call>, sleeps: nat, warnings: seq<CloseError>, r: Retrying): Retrying
  {
    Retrying(calls + r.calls, sleeps + r.sleeps, warnings + r.warnings)
  }

  /** A failed attempt followed by `rest` continues what was made so far with that attempt, then `rest`. */
  lemma ContinueAfterFailure(calls: seq<Call>, sleeps: nat, warnings: seq<CloseError>,
                             attempt: seq<Call>, warning: CloseError, rest: Retrying)
    ensures Continue(calls, sleeps, warnings, Retrying(attempt + rest.calls, rest.sleeps + 1, [warning] + rest.warnings))
         == Continue(calls + attempt, sleeps + 1, warnings + [warning], rest)
  {
    assert calls + (attempt + rest.calls) == (calls + attempt) + rest.calls;
    assert warnings + ([warning] + rest.warnings) == (warnings + [warning]) + rest.warnings;
  }

  /**
   * Best-effort teardown: at most `CloseMaxRetry` deletes, stopping at the
   * first that succeeds, with a pause and a warning after every failed one.
   * It reports no error.
   */
  method RetryClose(shell: NodeShell, replies: seq<Reply<()>>)
    returns (calls: seq<Call>, sleeps: nat, warnings: seq<CloseError>)
    requires |replies| == CloseMaxRetry
    ensures Retrying(calls, sleeps, warnings) == Retry(shell, replies)
  {
    calls, sleeps, warnings := [], 0, [];
    var i := 0;
    assert replies[i..] == replies;
    while i < CloseMaxRetry
      invariant 0 <= i <= CloseMaxRetry
      invariant Retry(shell, replies) == Continue(calls, sleeps, warnings, Retry(shell, replies[i..]))
    {
      var attempt := Close(shell, replies[i]);
      assert replies[i..][1..] == replies[i + 1..];
      if attempt.err.Some? {
        ContinueAfterFailure(calls, sleeps, warnings, attempt.calls, attempt.err.value, Retry(shell, replies[i + 1..]));
        calls := calls + attempt.calls;
        sleeps := sleeps + 1;
        warnings := warnings + [attempt.err.value];
        i := i + 1;
        continue;
      }
      calls := calls + attempt.calls;
      return;
    }
  }

  /**
   * Shape of a teardown: one delete of the pod per attempt, no more attempts
   * than replies, every attempt but the last failed, it stops early only on
   * success, and each failure left one pause and one warning.
   */
  lemma {:induction false} RetryShape(shell: NodeShell, replies: seq<Reply<()>>)
    ensures var r := Retry(shell, replies);
      && |r.calls| <= |replies|
      && (replies != [] ==> |r.calls| >= 1)
      && (forall c :: c in r.calls ==> c == DeletePod(shell.config.podNamespace, shell.podName))
      && (forall j :: 0 <= j < |r.calls| - 1 ==> Close(shell, replies[j]).err.Some?)
      && (|r.calls| < |replies| ==> Close(shell, replies[|r.calls| - 1]).err == None)
      && |r.warnings| == r.sleeps
      && r.sleeps <= |r.calls|
      && (forall j :: 0 <= j < r.sleeps ==> Close(shell, replies[j]).err == Some(r.warnings[j]))
      && (r.sleeps == |r.calls| <==> forall j :: 0 <= j < |r.calls| ==> Close(shell, replies[j]).err.Some?)
      && r.sleeps + 1 >= |r.calls|
    decreases |replies|
  {
    if replies != [] && Close(shell, replies[0]).err.Some? {
      var tail := replies[1..];
      RetryShape(shell, tail);
      assert forall j :: 1 <= j < |replies| ==> replies[j] == tail[j - 1];
    }
  }

  /** A pod that is already gone is settled by the first delete: one attempt, no pause. */
  lemma RetryNotFoundFirst(shell: NodeShell, replies: seq<Reply<()>>)
    requires |replies| == CloseMaxRetry && replies[0] == Failure(NotFound)
    ensures Retry(shell, replies) == Retrying([DeletePod(shell.config.podNamespace, shell.podName)], 0, [])
  {
  }

  /** Four failures and then a success: five attempts and four pauses. */
  lemma RetryFourFailuresThenSuccess(shell: NodeShell, replies: seq<Reply<()>>)
    requires |replies| == CloseMaxRetry
    requires forall j :: 0 <= j < 4 ==> Close(shell, replies[j]).err.Some?
    requires Close(shell, replies[4]).err == None
    ensures |Retry(shell, replies).calls| == 5 && Retry(shell, replies).sleeps == 4
  {
    RetryShape(shell, replies);
  }

  /** Five failures: five attempts and five pauses, including one after the last attempt. */
  lemma RetryFiveFailures(shell: NodeShell, replies: seq<Reply<()>>)
    requires |replies| == CloseMaxRetry
    requires forall j :: 0 <= j < 5 ==> Close(shell, replies[j]).err.Some?
    ensures |Retry(shell, replies).calls| == 5 && Retry(shell, replies).sleeps == 5
    ensures |Retry(shell, replies).warnings| == 5
  {
    RetryShape(shell, replies);
  }
}
