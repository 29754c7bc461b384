# kubesh helper-pod lifecycle, modelled in Dafny

kubesh opens a root shell on a Kubernetes node. It creates a privileged
"node shell" pod on that node and attaches a terminal to it. This project
models the decision logic around that pod:

- the settings record, its built-in defaults, the in-place defaulting done by
  `Validate`, and the branching of `Load`;
- the pod's name, which is the name template with `{node}` replaced;
- the pod object that is created;
- the start-up state machine: node check, namespace check, reuse or create,
  then readiness polling with a timeout;
- teardown: `Close` makes one delete, and `RetryClose` makes up to five with a
  pause after each failure.

The cluster is not modelled. Its replies to each request are inputs (`Replies`
for a start-up, a sequence of delete replies for teardown). Each operation
returns the requests it sent, in order, so the claims can talk about which
requests happen and in what order. The status ticker and the timeout timer
become the number of poll replies: one per tick that fires before the timer,
at most `PollTicks` = 60 s / 1 s = 60. Any count up to 60 is allowed. With
instant lookups the 60th tick and the timer fire together, so it may go either
way; slow lookups make the ticker drop ticks. Sleeps and printed warnings are
counted.

Files:
- `wrappers.dfy`: `Option` and `Result`.
- `strings.dfy`: `strings.ReplaceAll` for a non-empty pattern. It comes in two
  forms, a character scan and the library's `Index`-driven loop, and they are
  proved equal.
- `config.dfy`: settings, defaults, the `Config` class with its in-place
  `Validate`, and `Load`.
- `cluster.dfy`: API errors, pod phases, the pod object, and the requests.
- `nodeshell.dfy`: pod name, `BuildPod`, `Start` and `New`, `Close` and
  `RetryClose`, plus the specification functions `StartSpec`, `Poll` and
  `Retry` and the lemmas about them.

Two behaviours of the code worth stating:
- **Create conflict.** A create that fails, including with "already exists",
  ends start-up with that error. There is no fall-back to polling
  (nodeshell/nodeshell.go:91-94). `StartCreateErrorIsFatal` states this.
- **Pauses in `RetryClose`.** It pauses after every failed delete, including
  the fifth and last. So five failures mean five pauses, not four pauses
  between attempts (nodeshell/nodeshell.go:216-224).

## Model

| member | source | states |
|---|---|---|
| `Strings.Index` | nodeshell/nodeshell.go:45 | the answer is -1 or a position at which the pattern occurs |
| `Strings.IndexIsFirst` | nodeshell/nodeshell.go:45 | no occurrence comes before the position `Index` returns, and it returns -1 exactly when the pattern does not occur |
| `Strings.ReplaceAllIsByIndex` | nodeshell/nodeshell.go:45 | the left-to-right, non-overlapping replacement equals the library's own loop (find the first occurrence, copy what precedes it, emit the replacement, continue after the occurrence) on every input |
| `Strings.ReplaceAllAbsent` | nodeshell/nodeshell.go:45 | a string in which the pattern does not occur is returned unchanged |
| `Strings.ReplaceFromCopies` | nodeshell/nodeshell.go:45 | a stretch of text with no character that could start the pattern is copied through the replacement unchanged |
| `NodeShell.PodName` | nodeshell/nodeshell.go:45 | the pod name is the template with every non-overlapping `{node}`, found left to right, replaced by the node name |
| `NodeShell.PodNameWithoutPlaceholder` | nodeshell/nodeshell.go:45 | a template without `{node}` is the pod name unchanged |
| `NodeShell.DefaultPodNameFor` | nodeshell/nodeshell.go:45 | the default template `node-shell-{node}` gives `node-shell-` followed by the node name |
| `NodeShell.BuildPod` | nodeshell/nodeshell.go:169-198 | the pod carries the shell's name and namespace and the labels app=node-shell, owner=kubesh. It runs on the node with host network, PID and IPC. Its single container is named `node-shell`, runs the configured image privileged, and has argv `nsenter -t 1 -m -u -i -n` followed by the pause command |
| `NodeShell.ShellPodUnique` | nodeshell/nodeshell.go:169-198 | that description fixes every field of the pod: two pods that both fit it are equal |
| `NodeShell.DefaultPodArgv` | nodeshell/nodeshell.go:170-191 | with the default pause command the argv is exactly `nsenter -t 1 -m -u -i -n sleep infinity` |
| `NodeShell.StartSpec` | nodeshell/nodeshell.go:61-120 | the start-up state machine as a function of the cluster's replies: the node request always comes first, at most four requests are sent besides one lookup per tick, and success always ends on a lookup of the shell's own pod |
| `NodeShell.Start` | nodeshell/nodeshell.go:61-120 | the loop implementation sends exactly the requests `StartSpec` lists and reports its result |
| `NodeShell.New` | nodeshell/nodeshell.go:44-59 | the shell gets the substituted pod name. It is returned only when start-up succeeds; otherwise the start-up error is returned |
| `NodeShell.StartChecksComeFirst` | nodeshell/nodeshell.go:63-77 | a node that is missing or cannot be read fails after the node request alone: not-found gives `NodeNotFound`, any other error gives `NodeQueryError` carrying it. A namespace that is missing or cannot be read fails after the node and namespace requests, before any pod request, with `NamespaceNotFound` or `NamespaceQueryError` in the same way |
| `NodeShell.StartPodLookupErrorIsFatal` | nodeshell/nodeshell.go:86-89 | a first pod lookup that fails with an error other than not-found ends start-up with `PodQueryError` carrying it, after exactly the node, namespace and pod requests: no create and no polling |
| `NodeShell.StartReusesRunningPod` | nodeshell/nodeshell.go:80-85 | a pod already in phase Running is reused: success with no create and no poll |
| `NodeShell.StartCreateErrorIsFatal` | nodeshell/nodeshell.go:90-94 | any create error, already-exists included, ends start-up with that error, and the create is the last request |
| `NodeShell.StartCreatesOnlyMissingPod` | nodeshell/nodeshell.go:79-119 | at most one create is sent. It happens only after the first pod lookup answered not-found, and always for `BuildPod`'s pod. When node and namespace exist and the pod is missing, the create is sent. Start-up never deletes |
| `NodeShell.PollOutcome` | nodeshell/nodeshell.go:101-119 | after k retried replies (not-found, or a phase other than Running), the loop ends at reply k. Running means success, another error is fatal, and running out of ticks means the timeout. It sends one lookup per tick up to that point and none after |
| `NodeShell.Poll` | nodeshell/nodeshell.go:101-119 | the polling loop, given one reply per tick: it sends only lookups of the shell's pod, at most one per tick, and when it succeeds its last request is such a lookup |
| `NodeShell.PollTimeoutIff` | nodeshell/nodeshell.go:101-119 | polling times out if and only if every reply before the timer was retried |
| `NodeShell.StartTimeoutIff` | nodeshell/nodeshell.go:79-119 | start-up times out if and only if it reaches polling (pod pending, or created) and Running is never observed within the ticks |
| `NodeShell.StartCallsBounded` | nodeshell/nodeshell.go:26-27 | with the 60 ticks that fit in the timeout, start-up sends at most 64 requests |
| `NodeShell.Close` | nodeshell/nodeshell.go:201-213 | one delete request. Success and not-found give no error; any other error is returned as the delete error |
| `NodeShell.Retry` | nodeshell/nodeshell.go:215-225 | the retrying teardown as a function of the delete replies: no more deletes than replies, and exactly one warning per pause, with no more pauses than deletes |
| `NodeShell.RetryClose` | nodeshell/nodeshell.go:215-225 | the loop implementation makes the deletes, pauses and warnings `Retry` lists, with no error result |
| `NodeShell.RetryShape` | nodeshell/nodeshell.go:215-225 | teardown makes one delete per attempt and no more attempts than replies. Every attempt but the last failed, and it stops early only on success. Each failure left one pause and one warning carrying that failure's error |
| `NodeShell.RetryNotFoundFirst` | nodeshell/nodeshell.go:201-225 | a pod that is already gone takes one attempt and no pause |
| `NodeShell.RetryFourFailuresThenSuccess` | nodeshell/nodeshell.go:215-225 | four failures then a success give five attempts and four pauses |
| `NodeShell.RetryFiveFailures` | nodeshell/nodeshell.go:215-225 | five failures give five attempts, five pauses and five warnings |
| `Config.Default` | config/config.go:64-72 | the all-defaults record is complete and uses template `node-shell-{node}` and pause command `sleep infinity` |
| `Config.Validated` | config/config.go:74-94 | after defaulting every field is non-empty. Every set field keeps its value, and every empty field gets its own default |
| `Config.Config.Validate` | config/config.go:74-97 | updates the record in place to `Validated` of its old value and always returns no error |
| `Config.ValidatedPerField` | config/config.go:74-94 | each field of the result depends only on the same field of the input |
| `Config.ValidatedIdempotent` | config/config.go:74-94 | a second defaulting changes nothing, and a record is unchanged exactly when it is already complete |
| `Config.DefaultIsValidatedEmpty` | config/config.go:64-94 | `Default()` is the defaulting of the all-empty record |
| `Config.ConfigFile` | config/config.go:32-39 | an explicit path is used as given. Without one, a failed home-directory lookup is an error |
| `Config.Load` | config/config.go:32-62 | a missing file yields `Default()`. Any other read error is a read error, and a decoding failure is a parse error. A decoded record is returned after defaulting, so every returned record is complete |

## Left out

- `NodeShell.Run` (terminal raw mode, size monitoring, the SPDY exec stream) is not modelled. It is terminal and network I/O with concurrent streaming in foreign libraries, and it has no decision logic of its own.
- The Kubernetes client, `context`, `time.Ticker`, `time.Timer` and `time.Sleep` are replaced by the reply inputs, the length of the poll-reply sequence and a pause counter. The 3-second pause length is only the constant `CloseRetrySeconds`.
- `NodeShell.Start` assumes the timer wins once the ticks that fit in 60 s are used. In Go, a lookup that is still running when both channels become ready lets `select` pick at random, which could add more polls. That is not modelled.
- Error message texts are not modelled, and neither is `%w` versus `%v` wrapping. Errors are datatype constructors carrying the API error.
- `Load`: the home-directory lookup, reading the file and YAML decoding are inputs. `filepath.Join`'s lexical cleaning is not modelled; the path is the home directory followed by `/.config/kubesh.yaml`. The "validate config" error branch is left out because `Validate` always returns nil, so that branch cannot be taken.
- `Strings.ReplaceAll`: the empty-pattern case of Go's `strings.ReplaceAll` is not modelled. The only pattern used is `{node}`.
- `Config.Default`: the returned record shares the package-level default slices in Go. Records are values here, so that aliasing is not captured.
- `Config.Config.Validate`: it too fills empty command fields with the package-level default slices themselves (config/config.go:81,85); that sharing is not captured either.
- Go strings are byte sequences, while `string` here is a sequence of characters. The replacement gives the same text either way: `{node}` is ASCII, so in UTF-8 a match can never begin or end inside a multi-byte character.
- `NodeShell.RetryClose`: the text of the printed warning is not modelled, only its error value.
- main.go (flag wiring, kubeconfig loading, interactive node selection, build info, and the kill/keep choice between `Close`, `RetryClose` and `Run`) is not modelled. It is CLI and I/O glue around the operations above.
