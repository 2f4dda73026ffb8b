# superset-showtime, the label protocol and its decisions, in Dafny

Showtime runs one ephemeral Superset environment per GitHub pull request. The
environment's whole state lives in labels on the pull request. Each label is
written `🎪 <marker> <value>`:

- 🚦 status, 🎯 active SHA, 🏗️ building SHA;
- 📅 created, 🌐 IP (dots written as dashes), ⌛ TTL, 👤 requester, ⚙️ config.

A user or a workflow asks for work by adding a trigger label, `🎪 trigger-start`,
`🎪 trigger-stop`, `🎪 trigger-sync` or `🎪 conf-<command>`. The command line
tool (`showtime/cli.py`) claims each trigger by removing it and runs the
matching handler. The AWS client (`showtime/core/aws.py`) builds, deploys,
inspects, lists and tears down ECS services named after the pull request and
its commit.

The model has seven modules, one file each:

- `wrappers.dfy` (`Wrappers`): `Option` and `Result`.
- `text.dfy` (`Text`): the Python string behaviour the code relies on.
  - `s[:n]`, single-character `replace`, `split` and `join` on one character;
  - `lower` on ASCII capitals, `str(n)`, `int(s)` on digits, and code-point order.
- `circus.dfy` (`Circus`): the label codec.
  - `Show`, its encoding as labels and its decoding from a label list;
  - `PullRequest` with its current show and building show;
  - the configuration trigger labels.
- `config.dfy` (`Config`): `merge_config`. A config is a set of tokens,
  written sorted, de-duplicated and comma-joined, and `standard` means no token.
- `test_circus.dfy` (`CircusTests`): every assertion of
  `tests/unit/test_circus.py`, as a lemma about the model.
- `aws.dfy` (`Aws`): the decisions of `AWSInterface`. Every boto3, docker and
  supersetbot call is an oracle, a field of the `Cloud` datatype that gives
  the call's reply.
- `cli.dfy` (`Cli`): the trigger pipeline and the commands.
  - `LabelStore` is a class holding one pull request's labels, which the
    methods update in place;
  - the four trigger handlers and `handle_trigger`'s loop;
  - the guards of `start`, `stop` and `handle-sync`;
  - the filter loop and the sort of `list`.

The implementation of the codec (`showtime/core/circus.py`) is not part of this
model. The codec is modelled exactly as far as the unit tests pin it down.
Where the tests leave a choice open, the model makes one and says so below.

Where the program's own help text or comments announce behaviour the code
does not have, the model follows the code:

- `_handle_stop_trigger` writes no label. The trigger table's help text
  (`showtime/cli.py` line 299) says the stop trigger removes the labels, but
  the `remove_circus_labels` call at lines 651-652 is commented out.
- `_handle_config_trigger` computes a new show and writes no label: the
  `set_labels` call at lines 768-769 is commented out. `_handle_sync_trigger`
  computes a new show and writes no label either.
- `cleanup_orphaned_environments` stops at the first failing delete and raises
  one error for the whole sweep. It does not carry on with the other
  environments.

Modelling conventions:

- An optional text field of `Show` holds `""` for Python's `None`. The code
  tests these fields for truthiness, copies them into a new show, or compares
  them with a filter value only once that value is known to be non-empty;
  `""` and `None` behave alike in each of these uses.
- Decoding keeps the last label of each marker. A missing status decodes to
  `building`, a missing TTL to `24h` and a missing config to `standard`. The
  requester marker is 👤, as in the tests.
- `Show.IsActive` is `status == "running"` and `Show.IsUpdating` is
  `status == "updating"`.
- Cloud timestamps are whole seconds.

## Model

| member | source | states |
|---|---|---|
| Circus.FromOwnLabels | tests/unit/test_circus.py:77-104 | decoding the labels a show writes gives back that show, for every show whose defaulted fields are set and whose IP holds no dash |
| Circus.FromCircusLabels | tests/unit/test_circus.py:14-34 | the decoder: the show of a SHA read from the last label of each marker, with status, TTL and config defaulted; its meaning is stated by FromOwnLabels and DecodeIgnoresForeignLabels |
| Circus.MarkerValue | tests/unit/test_circus.py:14-34 | the value of the last label carrying the marker, None when no label carries it; the override rule is MarkerValueAppend, the presence rule MarkerValueSomeIff |
| Circus.MarkerValueAppend | tests/unit/test_circus.py:14-34 | a value in a later block of labels overrides any value in an earlier block |
| Circus.MarkerValueSomeIff | tests/unit/test_circus.py:14-34 | a value is found exactly when some label starts with the marker's key |
| Circus.Show.ToCircusLabels | tests/unit/test_circus.py:77-104 | the encoder: one label per set field, in field order; its meaning is stated by ToCircusLabelsAllSet and FromOwnLabels |
| Circus.PullRequest.CurrentShow | tests/unit/test_circus.py:49-63 | the show of the active SHA, when there is one; pinned by TestPullRequestDuringUpdate and RelabelDecodes |
| Circus.PullRequest.BuildingShow | tests/unit/test_circus.py:49-63 | the show of the building SHA with status building, when there is one; pinned by TestPullRequestDuringUpdate |
| Circus.PullRequest.Shows | tests/unit/test_circus.py:49-63 | the current show then the building show, so at most two |
| Circus.PullRequest.HasShows | tests/unit/test_circus.py:66-74 | whether there is a show at all; characterised by HasShowsIff |
| Circus.IsConfigurationLabel | tests/unit/test_circus.py:107-112 | a label starting with `🎪 conf-`; pinned by TestIsConfigurationLabel |
| Circus.Show.NeedsUpdate | tests/unit/test_circus.py:153-154 | the show's SHA differs from the head's first seven characters; characterised by NeedsUpdateIff |
| Circus.Show.AwsServiceName | tests/unit/test_circus.py:155 | `pr-{pr}-{sha}`; agrees with the cloud layer by ShowNamesAgree |
| Circus.Show.AwsImageTag | tests/unit/test_circus.py:156 | the service name followed by `-ci` |
| Circus.Show.IsActive | tests/unit/test_circus.py:151 | the status is `running`; pinned by TestShowProperties |
| Circus.Show.IsUpdating | tests/unit/test_circus.py:152 | the status is `updating`; false for the running show of TestShowProperties |
| Circus.NewShow | tests/unit/test_circus.py:149 | a show built from a PR number, SHA and status, with the dataclass defaults: no IP, created time or requester, a `24h` TTL and the `standard` config; TestShowProperties is stated on it |
| Circus.DecodeIgnoresForeignLabels | tests/unit/test_circus.py:16-26 | labels without the tent prefix never change a decoded show |
| Circus.ToCircusLabelsAllSet | tests/unit/test_circus.py:77-100 | a show with every field set and a non-standard config is written as exactly seven labels in field order, IP dots as dashes |
| Circus.HasShowsIff | tests/unit/test_circus.py:66-74 | a pull request has shows exactly when some label carries the active-SHA or building-SHA marker |
| Circus.NoCircusLabelsNoShows | tests/unit/test_circus.py:66-74 | with no tent label there is no show, no current show and no building show |
| Circus.RelabelDecodes | showtime/cli.py:570-577 | after the circus labels are replaced by a show's labels, that show is the pull request's current show and only show, whatever the other labels are, when the show is encodable (its status, SHA, TTL and config are set and its IP holds no dash) |
| Circus.ParseConfigurationCommand | tests/unit/test_circus.py:107-119 | a command exactly for `🎪 conf-` labels, and the label is that prefix followed by the command |
| Circus.NeedsUpdateIff | tests/unit/test_circus.py:153-154 | for a full SHA an update is needed exactly when the show's SHA is not its 7-character prefix |
| Config.MergeConfigMeaning | tests/unit/test_circus.py:122-144 | for every config and recognised command, the result's token set is the command's effect on the old token set, and the result is canonical |
| Config.MergeConfigTokens | tests/unit/test_circus.py:122-144 | the token-set half of MergeConfigMeaning |
| Config.UnknownCommandKeepsConfig | tests/unit/test_circus.py:122-144 | an unrecognised command returns the config unchanged |
| Config.CanonicalTokens | tests/unit/test_circus.py:122-144 | writing valid tokens and reading them back gives them sorted and de-duplicated, and the written form is canonical |
| Config.SingleTokenCanonical | tests/unit/test_circus.py:137-139 | a canonical config holding exactly one token is that token spelled alone |
| Config.MergeConfig | tests/unit/test_circus.py:122-144 | `merge_config`: the command's effect on the config's tokens, written canonically; its meaning is stated by MergeConfigMeaning |
| Config.ParseCommand | tests/unit/test_circus.py:122-144 | the command read from its prefix: enable, disable, debug on or off, size, or unknown, with the feature lowered |
| CircusTests.TestShowFromCircusLabels | tests/unit/test_circus.py:14-34 | the six labels plus `some-other-label` decode to status running, SHA abc123f, created 2024-01-15T14-30, IP 52.1.2.3, TTL 24h, requester maxime, config standard |
| CircusTests.TestShowWithConfig | tests/unit/test_circus.py:37-46 | the config label decodes verbatim to `debug,alerts`, with status running and SHA def456a |
| CircusTests.TestPullRequestDuringUpdate | tests/unit/test_circus.py:49-63 | an active and a building SHA give two shows, current abc123f and building def456a |
| CircusTests.TestPullRequestEmpty | tests/unit/test_circus.py:66-74 | three plain labels give no show, no current show and `has_shows` false |
| CircusTests.TestShowToCircusLabels | tests/unit/test_circus.py:77-104 | the fully populated show is written as exactly the seven expected labels, in order |
| CircusTests.TestShowToCircusLabelsRoundTrip | tests/unit/test_circus.py:14-34 | the labels the full show writes decode back to the full show |
| CircusTests.TestIsConfigurationLabel | tests/unit/test_circus.py:107-112 | the two `conf-` labels are configuration labels; the status label and `regular-label` are not |
| CircusTests.TestParseConfigurationCommand | tests/unit/test_circus.py:115-119 | the two commands are read back after the prefix; the status label gives none |
| CircusTests.EnableMeaning | tests/unit/test_circus.py:124-126 | enabling a feature adds it, drops its `no-` token, keeps every other token and adds nothing else |
| CircusTests.DisableMeaning | tests/unit/test_circus.py:128-131 | disabling a feature adds `no-` plus the feature, drops the feature, keeps every other token |
| CircusTests.DebugOffMeaning | tests/unit/test_circus.py:137-139 | `debug-off` drops `debug` and keeps every other token |
| CircusTests.SizeMeaning | tests/unit/test_circus.py:141-144 | a size command adds `size-` plus the size and keeps every token that is not a size |
| CircusTests.TestMergeEnable | tests/unit/test_circus.py:124-126 | `standard` with `enable-ALERTS` holds the token `alerts` and not `standard` |
| CircusTests.TestMergeDisable | tests/unit/test_circus.py:128-131 | `alerts,debug` with `disable-ALERTS` holds `no-alerts` and `debug`, not `alerts` |
| CircusTests.TestMergeDebugOn | tests/unit/test_circus.py:133-135 | `standard` with `debug-on` holds `debug` |
| CircusTests.TestMergeDebugOff | tests/unit/test_circus.py:137-139 | `debug,alerts` with `debug-off` is exactly `alerts`, so the substring `debug` does not occur in it |
| CircusTests.DebugOffAlerts | tests/unit/test_circus.py:137-139 | `debug,alerts` with `debug-off` holds the one token `alerts` and is written canonically |
| CircusTests.TestMergeSize | tests/unit/test_circus.py:141-144 | `debug` with `size-large` holds `size-large` and `debug` |
| CircusTests.TestShowProperties | tests/unit/test_circus.py:147-156 | the running show is active and not updating, needs an update for def456a… and not for abc123f…, and is named `pr-1234-abc123f` with image `pr-1234-abc123f-ci` |
| Aws.ServiceNameParts | showtime/core/aws.py:65-66 | a service name splits on `-` into `pr`, the PR number and the short SHA |
| Aws.ServiceNameRoundTrip | showtime/core/aws.py:65-66 | every service `create_environment` names passes the listing filter, and cleanup reads its PR number back |
| Aws.ServiceName | showtime/core/aws.py:65 | `pr-{pr}-{sha[:7]}`; split by ServiceNameParts |
| Aws.ImageTag | showtime/core/aws.py:66 | the service name followed by `-ci` |
| Aws.IsCircusServiceName | showtime/core/aws.py:350 | the listing filter: a `pr-` prefix and at least three `-` segments; met by every created name by ServiceNameRoundTrip |
| Aws.ServiceNameOfArn | showtime/core/aws.py:347 | the last `/` segment of the ARN, which holds no `/` |
| Aws.AnyActive | showtime/core/aws.py:270-274 | true exactly when some described service has status ACTIVE |
| Aws.ServiceExists | showtime/core/aws.py:263-277 | true exactly when describe returns and lists an ACTIVE service; an exception means false |
| Aws.EnvironmentStatus | showtime/core/aws.py:187-213 | the status is one of not_found, running, building, failed, unknown |
| Aws.EnvironmentStatusCases | showtime/core/aws.py:194-213 | each of the five statuses, in both directions: exception, no service, ACTIVE with running == desired > 0, ACTIVE otherwise, not ACTIVE |
| Aws.LiveStatusMeansExists | showtime/core/aws.py:194-213 | a running or building environment is one the existence check reports |
| Aws.FirstEni | showtime/core/aws.py:163-170 | no interface id exactly when no detail is named `networkInterfaceId` |
| Aws.EniIdOfFound | showtime/core/aws.py:163-173 | an interface is found exactly when some attachment has a usable one, and it is that of the first such attachment |
| Aws.EniIdOf | showtime/core/aws.py:163-173 | the attachment scan: the first interface id that is non-empty, None when no attachment has one; EniIdOfFound locates it |
| Aws.EnvironmentIp | showtime/core/aws.py:134-185 | an IP only when a task is listed and described and its attachments name an interface |
| Aws.GetEnvironmentIp | showtime/core/aws.py:134-185 | the nested loop with its early exits returns the first task's first usable interface's public IP, None on any gap or exception |
| Aws.WaiterMaxAttempts | showtime/core/aws.py:330 | two waiter attempts per minute of timeout, for 30-second polling |
| Aws.DeploymentIp | showtime/core/aws.py:320-337 | EnvironmentIp once the stability waiter returns within WaiterMaxAttempts of the timeout; None when the waiter raises |
| Aws.StepError | showtime/core/aws.py:70-93 | the error text of each pipeline step, with the service name in the already-exists message; CreateEnvironment and ExistingServiceRejected are stated through it |
| Aws.CreateEnvironment | showtime/core/aws.py:68-98 | steps run in pipeline order and every step before the last succeeded; success exactly when all five succeed, with the IP and the service name; otherwise the error of the step that stopped it |
| Aws.StepOk | showtime/core/aws.py:70-93 | the success check of each of the five steps: build, push, no ACTIVE service of that name, service creation, a truthy IP after the waiter; CreateEnvironment's ensures are stated through it |
| Aws.ExistingServiceRejected | showtime/core/aws.py:80-83 | an ACTIVE service of the same name stops the pipeline right after the push |
| Aws.SuccessIsNonEmptyIp | showtime/core/aws.py:91-95 | success always carries a non-empty IP, the service name and no error |
| Aws.DeleteEnvironment | showtime/core/aws.py:100-132 | with no ACTIVE service: True, nothing deleted; otherwise the service, then the image tag the code computes, `pr-{pr}-{last dash segment}`, with a missing image no error; a failure is an error for this operation and service; success is always True |
| Aws.DeleteIsIdempotent | showtime/core/aws.py:110-124 | on a cluster, the first delete removes just that service and the image tag the code computes; a second delete finds nothing, issues nothing and returns True |
| Aws.DeleteLeavesPushedImage | showtime/core/aws.py:110-124 | as written, deleting an environment `create_environment` made removes its service but leaves the image it pushed |
| Aws.DeletedImageTagAsWritten | showtime/core/aws.py:119-120 | the tag the code deletes, `pr-{pr}-{last dash segment}` |
| Aws.DeletedImageTag | showtime/core/aws.py:66 | the tag that should be deleted, the pushed one with `-ci`; used only to state the finding below |
| Aws.DeletedImageTagMissesPushedImage | showtime/core/aws.py:119-120 | as written, the deleted tag is never the tag `create_environment` pushed |
| Aws.DeletedImageTagIsPushedImage | showtime/core/aws.py:66 | the corrected tag is exactly the pushed tag, for every created service |
| Aws.Summaries | showtime/core/aws.py:349-367 | every listed entry passes the name filter and was described; no more entries than ARNs |
| Aws.Summary | showtime/core/aws.py:358-365 | one listing entry: the name, the described status, running and desired counts, creation time and the environment IP |
| Aws.Listed | showtime/core/aws.py:350-356 | the listing keeps a service when its name passes the filter and describe returns at least one service for it |
| Aws.SummariesAppend | showtime/core/aws.py:349-367 | the listing follows ARN order: the listing of two runs of ARNs is one listing after the other |
| Aws.SummariesFromArns | showtime/core/aws.py:349-350 | every listed service is the last `/` segment of some ARN |
| Aws.SummariesComplete | showtime/core/aws.py:352-357 | every ARN whose name passes the filter and is described is listed |
| Aws.ListCircusEnvironments | showtime/core/aws.py:339-372 | the loop returns the kept services in ARN order, `[]` when any call raised |
| Aws.CircusEnvironments | showtime/core/aws.py:339-372 | the listing the cleanup sweeps: the kept services of the ARNs, `[]` when any call raised; computed by ListCircusEnvironments |
| Aws.PrNumberOf | showtime/core/aws.py:394 | the PR number parses exactly when there is a second `-` segment made of digits |
| Aws.Sweep | showtime/core/aws.py:385-403 | every failure of the sweep is an error of the cleanup operation with no resource; a failed delete gives an empty message, a bad PR number the parse error's message |
| Aws.FailedDeleteLosesMessage | showtime/core/aws.py:397-403 | a failed delete of an orphan fails the whole sweep with an empty message, since `str` of a keyword-built `AWSError` is empty |
| Aws.OrphanNames | showtime/core/aws.py:385-391 | a name is an orphan exactly when its environment is strictly older than the age limit |
| Aws.IsOrphaned | showtime/core/aws.py:387-390 | the environment's age in seconds strictly exceeds the limit in hours times 3600; OrphanNames and SweepMeaning are stated through it |
| Aws.SweepMeaning | showtime/core/aws.py:385-403 | the sweep succeeds exactly when every orphan's PR number parses and its delete succeeds, and then returns exactly the orphans, in order |
| Aws.NoOrphansNoDeletes | showtime/core/aws.py:385-398 | with no environment past its age the sweep deletes nothing, returns `[]` and cannot fail |
| Aws.CleanupOrphanedEnvironments | showtime/core/aws.py:374-403 | the loop returns what the sweep over the listing returns |
| Aws.RemoveNames | showtime/core/aws.py:431-432 | an entry survives exactly when its name is not removed |
| Aws.ApplyFlags | showtime/core/aws.py:430-434 | the flag loop as a fold over the flags; its closed form is ApplyFlagsClosedForm |
| Aws.FlagValue | showtime/core/aws.py:434 | `True` for an enabled flag, `False` otherwise |
| Aws.SetFlag | showtime/core/aws.py:431-434 | one pass of the flag loop: every entry of that name dropped, then the new entry appended last |
| Aws.WithFlags | showtime/core/aws.py:426-436 | the task definition with its first container's environment passed through the flag loop |
| Aws.ApplyFlagsClosedForm | showtime/core/aws.py:430-434 | after the flag loop, the non-flag entries keep their order and the flags follow in iteration order, each once |
| Aws.FlagsOnceEach | showtime/core/aws.py:430-434 | after the loop every flag has one entry, holding "True" or "False" as the flag says |
| Aws.RewriteFlags | showtime/core/aws.py:430-434 | the loop that rebuilds the list on every pass computes the flag rewrite |
| Aws.UpdateFeatureFlags | showtime/core/aws.py:405-460 | False with nothing registered when no service is found; what is registered is the task definition with the first container's environment rewritten; when a service is found and its task definition has a container, exactly that definition with the first container's environment rewritten (WithFlags) is registered; True exactly when registration and the service update both return |
| Cli.TriggerLabels | showtime/cli.py:436-438 | exactly the labels starting with `🎪 trigger-` or `🎪 conf-`, in label order |
| Cli.IsTrigger | showtime/cli.py:436-438 | a label starting with `🎪 trigger-` or `🎪 conf-` |
| Cli.TriggerLabelsAppend | showtime/cli.py:436-438 | selecting triggers commutes with concatenation, so label order is kept |
| Cli.TriggerIsCircus | showtime/cli.py:436-438 | every trigger is a circus label, so removing the circus labels removes the triggers |
| Cli.LabelIsNotTrigger | showtime/cli.py:572-577 | a label a show writes is never taken for a trigger |
| Cli.ShowLabelsWritable | showtime/cli.py:572-577 | a show's labels are circus labels, none is a trigger, and they are pairwise distinct |
| Cli.Removed | showtime/cli.py:451 | every copy of the removed label goes and every other label stays |
| Cli.RemovedKeepsForeign | showtime/cli.py:451 | removing a trigger leaves the labels that are not the tool's as they were |
| Cli.LabelStore.RemoveLabel | showtime/cli.py:451 | the store's new labels are the old ones with that label removed |
| Cli.LabelStore.Pr | showtime/cli.py:433 | `PullRequest.from_id`: the pull request decoded from the store's current labels |
| Cli.LabelStore.AddLabel | showtime/cli.py:577 | adding a label the pull request already has changes nothing; otherwise it is appended |
| Cli.LabelStore.RemoveCircusLabels | showtime/cli.py:574 | the store keeps exactly its labels without the tent prefix |
| Cli.LabelStore.ReplaceCircusLabels | showtime/cli.py:573-577 | remove-all-then-add-each leaves the foreign labels followed by the new labels, the foreign labels unchanged |
| Cli.LabelStore.WriteShow | showtime/cli.py:570-577 | the new labels are the foreign labels followed by the show's labels; when the show is encodable and belongs to this pull request, it is then the current show and there is no building show |
| Cli.StartShow | showtime/cli.py:551-559 | the new show is up to date with the head, named as the cloud layer names it, and encodable exactly when the head SHA is known |
| Cli.StartOutcome | showtime/cli.py:582-596 | with mocked AWS the show turns running with the mock IP `52.1.2.3`; otherwise it stays the building show; no other field changes |
| Cli.HandleStartTrigger | showtime/cli.py:530-622 | the final labels are the foreign labels followed by the labels of the show the handler ends with; nothing is written on a GitHub dry run; when GitHub is written and the head SHA is known (non-empty), the started show is afterwards the current show |
| Cli.HandleStopTrigger | showtime/cli.py:625-657 | reports the current show and writes no label |
| Cli.SyncShow | showtime/cli.py:689-710 | the new show takes the head's short SHA and keeps pr, TTL, requester and config; its SHA differs exactly when an update was needed |
| Cli.HandleSyncTrigger | showtime/cli.py:660-719 | a new show exactly when there is a current show and it needs an update; no label written |
| Cli.SyncNeeded | showtime/cli.py:674-684 | the sync guard: there is a current show and its SHA is not the head's short SHA |
| Cli.ConfigCommand | showtime/cli.py:735-738 | a command exactly for a `🎪 conf-` label with a non-empty command |
| Cli.Configured | showtime/cli.py:750-764 | only the config changes; an unknown command changes nothing |
| Cli.ConfiguredMeaning | showtime/cli.py:750-764 | the new config has the command's effect on the tokens and is canonical; the status is unchanged |
| Cli.HandleConfigTrigger | showtime/cli.py:722-774 | an updated show exactly when the command is valid and there is a current show; no label written |
| Cli.DispatchOfTriggers | showtime/cli.py:456-465 | every `conf-` label reaches the config handler; an unknown `trigger-` label reaches none |
| Cli.HandlerFor | showtime/cli.py:456-465 | the elif chain: start, stop and sync by exact label, config by the `🎪 conf-` prefix, otherwise none |
| Cli.ClaimBeforeRun | showtime/cli.py:446-465 | each trigger, in order, is claimed just before its handler runs; on a GitHub dry run only the handlers run |
| Cli.Step | showtime/cli.py:449-465 | the events of one loop iteration: the trigger's claim, left out on a GitHub dry run, then the handler HandlerFor selects |
| Cli.Schedule | showtime/cli.py:446-465 | the events of the first n rounds: per trigger, in order, its claim (left out on a GitHub dry run) and then its handler; ClaimBeforeRun and HandleTrigger are stated through it |
| Cli.RemovedAbsent | showtime/cli.py:451 | removing a label the pull request does not carry changes nothing, as the label store is assumed to behave |
| Cli.AfterHandler | showtime/cli.py:456-465 | the labels after a handler: the start handler leaves the foreign labels and its show's labels, every other handler writes none |
| Cli.RoundLabels | showtime/cli.py:446-465 | one round: the trigger removed, then the handler's writes |
| Cli.FinalLabels | showtime/cli.py:446-465 | the labels after the first `n` rounds, one round per trigger in order |
| Cli.RoundKeepsForeign | showtime/cli.py:446-465 | a round keeps the labels that are not the tool's |
| Cli.FinalKeepsForeign | showtime/cli.py:446-465 | any number of rounds keeps the labels that are not the tool's |
| Cli.StartRound | showtime/cli.py:446-458 | the round of `trigger-start` leaves the foreign labels followed by the started show's labels |
| Cli.RoundAfterStart | showtime/cli.py:446-465 | once the labels are the foreign ones followed by the started show's, any further round leaves them so: another trigger's label is already gone, and a repeated start writes the same labels |
| Cli.StartTriggerDecides | showtime/cli.py:446-465 | once `trigger-start` has been processed, the labels are the foreign ones followed by the started show's, whatever triggers come before or after it |
| Cli.NoStartRemovesTriggers | showtime/cli.py:446-465 | without `trigger-start`, a label is left exactly when it was there and is not one of the processed triggers |
| Cli.FinalNoTriggers | showtime/cli.py:436-465 | after the rounds over a pull request's own triggers, no trigger label is left |
| Cli.RoundsOutcome | showtime/cli.py:436-465 | for any written labels that are circus labels and not triggers: after all rounds no trigger is left, the foreign labels are unchanged, and after `trigger-start` the labels are the foreign ones followed by the written ones |
| Cli.TriggersOutcome | showtime/cli.py:436-465 | after all rounds: no trigger, the foreign labels unchanged, and after `trigger-start` exactly the started show's labels, that show being the current show when it is encodable |
| Cli.RunHandler | showtime/cli.py:456-465 | runs the dispatched handler; only the start handler changes the labels, to the foreign ones followed by the labels of the show it ends with |
| Cli.ProcessTrigger | showtime/cli.py:446-465 | one round: the trigger is claimed unless on a GitHub dry run, then its handler runs; the new labels are RoundLabels of the old ones |
| Cli.RunRounds | showtime/cli.py:446-465 | the loop: the events are the schedule of the given triggers; the labels are unchanged on a GitHub dry run and otherwise FinalLabels of the rounds |
| Cli.HandleTrigger | showtime/cli.py:418-471 | the events are the schedule of the initial triggers; on a GitHub dry run no label changes; otherwise the labels are FinalLabels of the initial triggers, no trigger is left, the foreign labels are kept, and after `trigger-start` the labels are the foreign ones followed by the started show's, which is then the current show when the head SHA is known (non-empty) |
| Cli.StartCommand | showtime/cli.py:40-90 | nothing is done on a dry run or when a current show exists; otherwise the start handler runs |
| Cli.StopCommand | showtime/cli.py:157-206 | circus labels go exactly when there is a current show, it is not a dry run, and `--force` or confirmation; then no show is left |
| Cli.HandleSyncCommand | showtime/cli.py:474-499 | a target exactly when there is a current show needing an update; the target is the head's short SHA, different from the current one |
| Cli.Keep | showtime/cli.py:235-239 | a show is kept exactly when it passes the non-empty status and user filters |
| Cli.Selected | showtime/cli.py:235-238 | an empty filter passes every show; a non-empty status or user filter must equal the show's status or requester |
| Cli.SelectShows | showtime/cli.py:234-240 | the filter loop keeps what Keep keeps, in order |
| Cli.GatherMembers | showtime/cli.py:232-240 | a show is gathered exactly when it is selected and some pull request has it |
| Cli.InsertByPrSorted | showtime/cli.py:261 | inserting into a list sorted by PR number keeps it sorted |
| Cli.SortByPr | showtime/cli.py:261 | the result is sorted by PR number and a permutation of the input |
| Cli.SortByPrStable | showtime/cli.py:261 | the sort is stable: each pull request's shows keep their order |
| Cli.ListShows | showtime/cli.py:212-278 | the collect loop followed by the sort by PR number |
| Cli.ListedShows | showtime/cli.py:232-261 | a show is listed exactly when it is selected and some pull request has it |
| Cli.ShowNamesAgree | showtime/core/aws.py:65-66 | a show's service and image names agree with the cloud layer's |

## Left out

- Printing, Rich tables and all console output. The `labels` reference command and the `test_lifecycle` driver are only output.
- The `typer.confirm` prompt of `stop` is a boolean input. `GITHUB_ACTOR` and the time of creation are inputs.
- `time.sleep` and `--aws-sleep` have no effect on state and are left out.
- The `sha`, `ttl` and `size` options of `start` are ignored by the start handler, which reads the head SHA again and always writes TTL `24h` and config `standard`. The `sha` and `ttl` options are only printed in the dry-run report, so the model leaves all three out.
- Every boto3, docker, ECR-login and supersetbot call is an oracle in `Cloud`. The model does not look into how the image is built or pushed.
- The ECS waiter does no polling here. Only `maxAttempts`, twice the timeout in minutes, is kept, and the wait is an oracle.
- Float timestamps (`time.time()`, `.timestamp()`) are whole seconds.
- GitHub errors are not modelled: every label call succeeds. In particular the model assumes that `GitHubInterface.remove_label` of a label the pull request no longer carries is no error (Cli.RemovedAbsent). `GitHubInterface` is not part of this model, so this is not checked against it. The handlers' catch-all blocks, which only print, are therefore not modelled either.
- Cli.HandleTrigger: if `remove_label` raised for an absent label, a pull request labelled `🎪 trigger-start` then `🎪 conf-X` would behave differently. The start handler removes every circus label, so the loop's `remove_label` for `🎪 conf-X` would raise, the catch-all at `showtime/cli.py` line 470 would end the loop, and the config handler would not run. The model runs it, and it writes no label.
- The early return of `handle_trigger` for a pull request without triggers (`showtime/cli.py` line 442) only prints; the model runs its loop zero times instead, which changes nothing either.
- `GitHubInterface` and `find_prs_with_shows` are not part of this model. `list` takes the decoded pull requests as its input.
- Concurrent writers of the same labels are out of scope for this sequential model.
- The `configuring` status mentioned in the help text is never set by any handler, so it is not modelled.
- `showtime/core/git_validation.py` is a wrapper over GitPython and is not part of this model.
- The internals of `showtime/core/circus.py` and `showtime/core/emojis.py` are not part of this model. The codec is fixed only as far as the tests fix it. `merge_config` is modelled as a token algebra whose output is canonical. The unit tests look for substrings of the result; the model states token membership, which implies the positive substring checks, and for the one negative check (`TestMergeDebugOff`) the exact result.
- Text.Lower: lowers the ASCII capitals only, where Python's `str.lower` also lowers other capitals. Feature names in configuration commands are therefore lowered exactly only when they are ASCII.
- Aws.PrNumberOf: accepts ASCII digits only, where Python's `int` also takes surrounding whitespace, a leading `+`, underscores between digits and other Unicode digits.
- Aws.UpdateFeatureFlags: the other fields passed to `register_task_definition` (compatibilities, network mode, CPU, memory, roles) are abstracted into the one `TaskDef` value. A task definition without containers is a failure, where Python would raise `IndexError` inside the same catch-all.
- Cli.HandleStopTrigger: the cloud cleanup it would do is not implemented in the source either; only the report and the untouched labels are modelled.

## Findings

| source | as written | input that shows it | evidently intended | confidence | as-written member | corrected member |
|---|---|---|---|---|---|---|
| showtime/core/aws.py:119-120 | `delete_environment` deletes image tag `pr-{pr}-{last dash segment}`, without `-ci` | PR 1234, SHA abc123f: create pushes `pr-1234-abc123f-ci`, delete removes `pr-1234-abc123f` | delete the tag create pushed, `pr-{pr}-{sha}-ci` (showtime/core/aws.py:66) | high, not executed | Aws.DeletedImageTagMissesPushedImage | Aws.DeletedImageTagIsPushedImage |
