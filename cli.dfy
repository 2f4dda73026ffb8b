/**
 * The trigger pipeline of the `showtime` command line: the label store of
 * one pull request, the handlers the trigger labels dispatch to, the guards
 * of the `start`, `stop` and `handle-sync` commands, and the filter and
 * sort of `list`. Printing is left out; the GitHub actor, the clock and
 * the confirmation prompt are inputs.
 */
module Cli {
  import opened Wrappers
  import opened Text
  import opened Circus
  import Config
  import Aws

  const StartTrigger: string := TriggerPrefix + "start"
  const StopTrigger: string := TriggerPrefix + "stop"
  const SyncTrigger: string := TriggerPrefix + "sync"

  /** The addresses the handlers report when cloud operations are mocked. */
  const MockStartIp: string := "52.1.2.3"
  const MockSyncIp: string := "52.4.5.6"

  // ---------------------------------------------------------------------
  // Labels
  // ---------------------------------------------------------------------

  /** A label that asks for work: `🎪 trigger-…` or `🎪 conf-…`. */
  predicate IsTrigger(lbl: string)
  {
    TriggerPrefix <= lbl || ConfigTriggerPrefix <= lbl
  }

  /** The trigger labels, in label order. */
  function TriggerLabels(labels: seq<string>): (r: seq<string>)
    ensures forall l :: l in r <==> l in labels && IsTrigger(l)
    ensures forall i :: 0 <= i < |r| ==> IsTrigger(r[i])
    ensures |r| <= |labels|
  {
    if labels == [] then []
    else (if IsTrigger(labels[0]) then [labels[0]] else []) + TriggerLabels(labels[1..])
  }

  lemma {:induction false} TriggerLabelsAppend(a: seq<string>, b: seq<string>)
    ensures TriggerLabels(a + b) == TriggerLabels(a) + TriggerLabels(b)
    decreases |a|
  {
    if a != [] {
      assert (a + b)[0] == a[0];
      assert (a + b)[1..] == a[1..] + b;
      TriggerLabelsAppend(a[1..], b);
    } else {
      assert a + b == b;
    }
  }

  /** Every trigger carries the tent prefix, so removing circus labels removes triggers too. */
  lemma TriggerIsCircus(lbl: string)
    ensures IsTrigger(lbl) ==> IsCircusLabel(lbl)
  {
    if TriggerPrefix <= lbl {
      assert lbl[..|Prefix|] == TriggerPrefix[..|Prefix|];
    } else if ConfigTriggerPrefix <= lbl {
      assert lbl[..|Prefix|] == ConfigTriggerPrefix[..|Prefix|];
    }
  }

  /** A label written for a show field is never mistaken for a trigger. */
  lemma LabelIsNotTrigger(m: string, v: string)
    requires m in Markers
    ensures !IsTrigger(Label(m, v))
  {
    var l := Label(m, v);
    assert l[|Prefix|] == m[0];
    assert TriggerPrefix[|Prefix|] == 't';
    assert ConfigTriggerPrefix[|Prefix|] == 'c';
  }

  /** What the label store may be given when a show's labels replace the circus labels. */
  lemma ShowLabelsWritable(s: Show)
    ensures forall i :: 0 <= i < |s.ToCircusLabels()| ==> IsCircusLabel(s.ToCircusLabels()[i])
    ensures forall i :: 0 <= i < |s.ToCircusLabels()| ==> !IsTrigger(s.ToCircusLabels()[i])
    ensures forall i, j :: 0 <= i < j < |s.ToCircusLabels()| ==> s.ToCircusLabels()[i] != s.ToCircusLabels()[j]
  {
    var fields := s.Fields();
    var ls := s.ToCircusLabels();
    ShowFieldsDistinct(s);
    FieldLabelsShape(fields);
    FieldLabelsUnique(fields);
    forall i | 0 <= i < |ls| ensures IsCircusLabel(ls[i]) && !IsTrigger(ls[i]) {
      assert ls[i] in FieldLabels(fields);
      var k :| 0 <= k < |fields| && ls[i] == Label(fields[k].0, fields[k].1);
      LabelIsNotTrigger(fields[k].0, fields[k].1);
    }
  }

  /** GitHub's label removal: every copy of `lbl` goes, and an absent label is no error. */
  function Removed(labels: seq<string>, lbl: string): (r: seq<string>)
    ensures forall l :: l in r <==> l in labels && l != lbl
  {
    if labels == [] then []
    else (if labels[0] == lbl then [] else [labels[0]]) + Removed(labels[1..], lbl)
  }

  lemma {:induction false} RemovedKeepsForeign(labels: seq<string>, lbl: string)
    requires IsCircusLabel(lbl)
    ensures ForeignLabels(Removed(labels, lbl)) == ForeignLabels(labels)
    decreases |labels|
  {
    if labels != [] {
      RemovedKeepsForeign(labels[1..], lbl);
      var head := if labels[0] == lbl then [] else [labels[0]];
      ForeignLabelsAppend(head, Removed(labels[1..], lbl));
      assert ForeignLabels([labels[0]]) == (if IsCircusLabel(labels[0]) then [] else [labels[0]]) by {
        assert [labels[0]][1..] == [];
      }
    }
  }

  // ---------------------------------------------------------------------
  // The label store
  // ---------------------------------------------------------------------

  /** The labels of one pull request as GitHub holds them. */
  class LabelStore {
    const prNumber: int
    /** What `get_latest_commit_sha` answers for this pull request. */
    const latestSha: string
    var labels: seq<string>

    constructor (prNumber: int, latestSha: string, labels: seq<string>)
      ensures this.prNumber == prNumber && this.latestSha == latestSha && this.labels == labels
    {
      this.prNumber := prNumber;
      this.latestSha := latestSha;
      this.labels := labels;
    }

    /** `PullRequest.from_id`: the pull request decoded from the current labels. */
    function Pr(): PullRequest
      reads this
    {
      PullRequest(prNumber, labels)
    }

    method RemoveLabel(lbl: string)
      modifies this
      ensures labels == Removed(old(labels), lbl)
    {
      labels := Removed(labels, lbl);
    }

    /** Adding a label the pull request already carries changes nothing. */
    method AddLabel(lbl: string)
      modifies this
      ensures labels == if lbl in old(labels) then old(labels) else old(labels) + [lbl]
    {
      if lbl !in labels {
        labels := labels + [lbl];
      }
    }

    method RemoveCircusLabels()
      modifies this
      ensures labels == ForeignLabels(old(labels))
    {
      labels := ForeignLabels(labels);
    }

    /** Remove every circus label, then add the given labels one at a time. */
    method ReplaceCircusLabels(ls: seq<string>)
      requires forall i :: 0 <= i < |ls| ==> IsCircusLabel(ls[i])
      requires forall i, j :: 0 <= i < j < |ls| ==> ls[i] != ls[j]
      modifies this
      ensures labels == ForeignLabels(old(labels)) + ls
      ensures ForeignLabels(labels) == ForeignLabels(old(labels))
    {
      ForeignAfterRewrite(labels, ls);
      RemoveCircusLabels();
      var kept := labels;
      var i := 0;
      while i < |ls|
        invariant 0 <= i <= |ls|
        invariant labels == kept + ls[..i]
      {
        assert ls[i] !in kept;
        assert ls[i] !in ls[..i];
        AddLabel(ls[i]);
        PrefixSnoc(ls, i);
        i := i + 1;
      }
      assert ls[..|ls|] == ls;
    }

    /** Replace the circus labels by the encoding of `s`. */
    method WriteShow(s: Show)
      modifies this
      ensures labels == ForeignLabels(old(labels)) + s.ToCircusLabels()
      ensures ForeignLabels(labels) == ForeignLabels(old(labels))
      ensures s.Encodable() && s.prNumber == prNumber ==>
        Pr().CurrentShow() == Some(s) && Pr().BuildingShow() == None
    {
      ShowLabelsWritable(s);
      ReplaceCircusLabels(s.ToCircusLabels());
      if s.Encodable() && s.prNumber == prNumber {
        RelabelDecodes(old(labels), s);
      }
    }
  }

  // ---------------------------------------------------------------------
  // Handlers
  // ---------------------------------------------------------------------

  /** The building show the start handler creates. */
  function StartShow(prNumber: int, latestSha: string, actor: string, createdAt: string): (s: Show)
    ensures !s.NeedsUpdate(latestSha)
    ensures s.Encodable() <==> latestSha != ""
    ensures s.AwsServiceName() == Aws.ServiceName(prNumber, latestSha)
  {
    Show(prNumber, Take(latestSha, 7), "building", "", createdAt, DefaultTtl, actor, StandardConfig)
  }

  /** The show the start handler ends with: with mocked cloud operations it is running. */
  function StartOutcome(prNumber: int, latestSha: string, actor: string, createdAt: string, dryRunAws: bool): (s: Show)
    ensures s == StartShow(prNumber, latestSha, actor, createdAt).(status := s.status, ip := s.ip)
    ensures s.IsActive() <==> dryRunAws
    ensures dryRunAws ==> s.ip == MockStartIp
    ensures !dryRunAws ==> s == StartShow(prNumber, latestSha, actor, createdAt)
    ensures s.Encodable() <==> latestSha != ""
  {
    var building := StartShow(prNumber, latestSha, actor, createdAt);
    if dryRunAws then building.(status := "running", ip := MockStartIp) else building
  }

  /** `_handle_start_trigger`. */
  method HandleStartTrigger(store: LabelStore, dryRunAws: bool, dryRunGithub: bool, actor: string, createdAt: string)
    returns (show: Show)
    modifies store
    ensures show == StartOutcome(store.prNumber, store.latestSha, actor, createdAt, dryRunAws)
    ensures dryRunGithub ==> store.labels == old(store.labels)
    ensures !dryRunGithub ==> store.labels == ForeignLabels(old(store.labels)) + show.ToCircusLabels()
    ensures ForeignLabels(store.labels) == ForeignLabels(old(store.labels))
    ensures !dryRunGithub && store.latestSha != "" ==>
      store.Pr().CurrentShow() == Some(show) && store.Pr().BuildingShow() == None
  {
    show := StartShow(store.prNumber, store.latestSha, actor, createdAt);
    if !dryRunGithub {
      store.WriteShow(show);
    }
    if dryRunAws {
      show := show.(status := "running", ip := MockStartIp);
      if !dryRunGithub {
        store.WriteShow(show);
      }
    }
  }

  /** `_handle_stop_trigger`: it reports the show it would destroy and writes no label. */
  method HandleStopTrigger(store: LabelStore) returns (target: Option<Show>)
    ensures target == store.Pr().CurrentShow()
  {
    var pr := store.Pr();
    if pr.CurrentShow().None? {
      return None;
    }
    target := pr.CurrentShow();
  }

  /** The current show is out of date with the pull request's head. */
  predicate SyncNeeded(pr: PullRequest, latestSha: string)
  {
    pr.CurrentShow().Some? && pr.CurrentShow().value.NeedsUpdate(latestSha)
  }

  /** The show a rolling update builds: the new SHA; TTL, requester and config carried over. */
  function SyncShow(current: Show, latestSha: string, createdAt: string, dryRunAws: bool): (s: Show)
    ensures !s.NeedsUpdate(latestSha)
    ensures s.sha != current.sha <==> current.NeedsUpdate(latestSha)
    ensures s.prNumber == current.prNumber && s.ttl == current.ttl
    ensures s.requestedBy == current.requestedBy && s.config == current.config
    ensures s.IsActive() <==> dryRunAws
  {
    var building := Show(current.prNumber, Take(latestSha, 7), "building", "", createdAt,
                         current.ttl, current.requestedBy, current.config);
    if dryRunAws then building.(status := "running", ip := MockSyncIp) else building
  }

  /** `_handle_sync_trigger`: it computes the new show and writes no label. */
  method HandleSyncTrigger(store: LabelStore, dryRunAws: bool, createdAt: string) returns (newShow: Option<Show>)
    ensures newShow.Some? <==> SyncNeeded(store.Pr(), store.latestSha)
    ensures newShow.Some? ==>
      newShow.value == SyncShow(store.Pr().CurrentShow().value, store.latestSha, createdAt, dryRunAws)
  {
    var pr := store.Pr();
    if pr.CurrentShow().None? {
      return None;
    }
    var current := pr.CurrentShow().value;
    if !current.NeedsUpdate(store.latestSha) {
      return None;
    }
    var s := Show(store.prNumber, Take(store.latestSha, 7), "building", "", createdAt,
                  current.ttl, current.requestedBy, current.config);
    if dryRunAws {
      s := s.(status := "running", ip := MockSyncIp);
    }
    newShow := Some(s);
  }

  /** The command of a configuration trigger, when it has a non-empty one. */
  function ConfigCommand(trigger: string): (r: Option<string>)
    ensures r.Some? <==> ConfigTriggerPrefix <= trigger && |trigger| > |ConfigTriggerPrefix|
    ensures r.Some? ==> trigger == ConfigTriggerPrefix + r.value
  {
    var command := ParseConfigurationCommand(trigger);
    if command.Some? && command.value != "" then command else None
  }

  /** The show with `merge_config` applied to its config; nothing else changes. */
  function Configured(s: Show, command: string): (r: Show)
    ensures r == s.(config := r.config)
    ensures Config.ParseCommand(command) == Config.Unknown ==> r == s
  {
    s.(config := Config.MergeConfig(s.config, command))
  }

  /** A recognised command leaves the show's config canonical, with the command's effect on its tokens. */
  lemma ConfiguredMeaning(s: Show, command: string)
    requires Config.ParseCommand(command) != Config.Unknown
    requires Config.ValidToken(Config.AddedToken(Config.ParseCommand(command)))
    ensures Config.TokenSet(Configured(s, command).config)
      == Config.Effect(Config.TokenSet(s.config), Config.ParseCommand(command))
    ensures Config.IsCanonical(Configured(s, command).config)
    ensures Configured(s, command).status == s.status
  {
    Config.MergeConfigMeaning(s.config, command);
  }

  /** `_handle_config_trigger`: it computes the reconfigured show and writes no label. */
  method HandleConfigTrigger(store: LabelStore, trigger: string) returns (updated: Option<Show>)
    ensures updated.Some? <==> ConfigCommand(trigger).Some? && store.Pr().CurrentShow().Some?
    ensures updated.Some? ==>
      updated.value == Configured(store.Pr().CurrentShow().value, ConfigCommand(trigger).value)
  {
    var command := ParseConfigurationCommand(trigger);
    if command.None? || command.value == "" {
      return None;
    }
    var pr := store.Pr();
    if pr.CurrentShow().None? {
      return None;
    }
    var show := pr.CurrentShow().value;
    var newConfig := Config.MergeConfig(show.config, command.value);
    show := show.(config := newConfig);
    updated := Some(show);
  }

  // ---------------------------------------------------------------------
  // Dispatch
  // ---------------------------------------------------------------------

  datatype Handler = StartHandler | StopHandler | SyncHandler | ConfigHandler(trigger: string) | NoHandler

  /** The handler a trigger label is dispatched to. */
  function HandlerFor(trigger: string): Handler
  {
    if trigger == StartTrigger then StartHandler
    else if trigger == StopTrigger then StopHandler
    else if trigger == SyncTrigger then SyncHandler
    else if ConfigTriggerPrefix <= trigger then ConfigHandler(trigger)
    else NoHandler
  }

  /** Every `conf-` label reaches the config handler; an unknown `trigger-` label reaches none. */
  lemma DispatchOfTriggers(t: string)
    ensures ConfigTriggerPrefix <= t ==> HandlerFor(t) == ConfigHandler(t)
    ensures TriggerPrefix <= t && t != StartTrigger && t != StopTrigger && t != SyncTrigger ==>
      HandlerFor(t) == NoHandler
  {
    assert TriggerPrefix[|Prefix|] == 't';
    assert ConfigTriggerPrefix[|Prefix|] == 'c';
    if ConfigTriggerPrefix <= t {
      assert t[|Prefix|] == 'c';
      assert StartTrigger[|Prefix|] == 't' && StopTrigger[|Prefix|] == 't' && SyncTrigger[|Prefix|] == 't';
    }
    if TriggerPrefix <= t {
      assert t[|Prefix|] == 't';
    }
  }

  /** What `handle_trigger` does, in order: claim a trigger by removing it, then run its handler. */
  datatype Event = Claimed(lbl: string) | Ran(handler: Handler)

  function Step(trigger: string, dryRunGithub: bool): seq<Event>
  {
    (if dryRunGithub then [] else [Claimed(trigger)]) + [Ran(HandlerFor(trigger))]
  }

  /** The events of the first `n` rounds over `triggers`. */
  function Schedule(triggers: seq<string>, n: nat, dryRunGithub: bool): seq<Event>
    requires n <= |triggers|
  {
    if n == 0 then [] else Schedule(triggers, n - 1, dryRunGithub) + Step(triggers[n - 1], dryRunGithub)
  }

  /**
   * Each trigger is claimed just before its handler runs, unless GitHub
   * writes are skipped, when only the handlers run.
   */
  lemma {:induction false} ClaimBeforeRun(triggers: seq<string>, n: nat, dryRunGithub: bool)
    requires n <= |triggers|
    ensures !dryRunGithub ==> |Schedule(triggers, n, dryRunGithub)| == 2 * n
    ensures !dryRunGithub ==> forall i :: 0 <= i < n ==>
      Schedule(triggers, n, dryRunGithub)[2 * i] == Claimed(triggers[i])
      && Schedule(triggers, n, dryRunGithub)[2 * i + 1] == Ran(HandlerFor(triggers[i]))
    ensures dryRunGithub ==> |Schedule(triggers, n, dryRunGithub)| == n
    ensures dryRunGithub ==> forall i :: 0 <= i < n ==>
      Schedule(triggers, n, dryRunGithub)[i] == Ran(HandlerFor(triggers[i]))
  {
    if n > 0 {
      ClaimBeforeRun(triggers, n - 1, dryRunGithub);
    }
  }

  /** Removing a label the pull request does not carry changes nothing. */
  lemma {:induction false} RemovedAbsent(labels: seq<string>, lbl: string)
    requires lbl !in labels
    ensures Removed(labels, lbl) == labels
    decreases |labels|
  {
    if labels != [] {
      RemovedAbsent(labels[1..], lbl);
      assert labels == [labels[0]] + labels[1..];
    }
  }

  /** Labels a handler may write: circus labels, none of them a trigger. */
  predicate Writable(written: seq<string>)
  {
    forall i :: 0 <= i < |written| ==> IsCircusLabel(written[i]) && !IsTrigger(written[i])
  }

  /** The labels once the handler of `trigger` has run: only the start handler writes, the labels of the show it ends with. */
  function AfterHandler(labels: seq<string>, trigger: string, written: seq<string>): seq<string>
  {
    if trigger == StartTrigger then ForeignLabels(labels) + written else labels
  }

  /** One round of `handle_trigger`: the trigger is removed, then its handler runs. */
  function RoundLabels(labels: seq<string>, trigger: string, written: seq<string>): seq<string>
  {
    AfterHandler(Removed(labels, trigger), trigger, written)
  }

  /** The labels after the first `n` rounds over `triggers`; `written` are the labels of the show the start handler ends with. */
  function FinalLabels(labels: seq<string>, triggers: seq<string>, n: nat, written: seq<string>): seq<string>
    requires n <= |triggers|
  {
    if n == 0 then labels else RoundLabels(FinalLabels(labels, triggers, n - 1, written), triggers[n - 1], written)
  }

  /** A round keeps the labels that are not the tool's. */
  lemma RoundKeepsForeign(labels: seq<string>, t: string, written: seq<string>)
    requires IsTrigger(t)
    requires Writable(written)
    ensures ForeignLabels(RoundLabels(labels, t, written)) == ForeignLabels(labels)
  {
    TriggerIsCircus(t);
    RemovedKeepsForeign(labels, t);
    if HandlerFor(t) == StartHandler {
      ForeignAfterRewrite(Removed(labels, t), written);
    }
  }

  /** However many rounds run, the labels that are not the tool's stay as they were. */
  lemma {:induction false} FinalKeepsForeign(labels: seq<string>, triggers: seq<string>, n: nat, written: seq<string>)
    requires n <= |triggers|
    requires forall i :: 0 <= i < |triggers| ==> IsTrigger(triggers[i])
    requires Writable(written)
    ensures ForeignLabels(FinalLabels(labels, triggers, n, written)) == ForeignLabels(labels)
  {
    if n > 0 {
      FinalKeepsForeign(labels, triggers, n - 1, written);
      RoundKeepsForeign(FinalLabels(labels, triggers, n - 1, written), triggers[n - 1], written);
    }
  }

  /** A label present after a start round is a foreign one or a written one, never a trigger. */
  lemma RewrittenNoTrigger(foreign: seq<string>, written: seq<string>, l: string)
    requires forall f :: f in foreign ==> !IsCircusLabel(f)
    requires Writable(written)
    requires l in foreign + written
    ensures !IsTrigger(l)
  {
    TriggerIsCircus(l);
    if l !in foreign {
      var k :| 0 <= k < |written| && written[k] == l;
    }
  }

  /** The start round leaves the foreign labels followed by the written ones. */
  lemma StartRound(labels: seq<string>, written: seq<string>)
    ensures RoundLabels(labels, StartTrigger, written) == ForeignLabels(labels) + written
  {
    TriggerIsCircus(StartTrigger);
    RemovedKeepsForeign(labels, StartTrigger);
  }

  /** Any round after the start round leaves the labels as they are: a trigger other than start is already gone. */
  lemma RoundAfterStart(foreign: seq<string>, written: seq<string>, t: string)
    requires forall f :: f in foreign ==> !IsCircusLabel(f)
    requires Writable(written)
    requires IsTrigger(t)
    ensures RoundLabels(foreign + written, t, written) == foreign + written
  {
    if t == StartTrigger {
      StartRound(foreign + written, written);
      assert forall i :: 0 <= i < |foreign| ==> !IsCircusLabel(foreign[i]) by {
        forall i | 0 <= i < |foreign| ensures !IsCircusLabel(foreign[i]) {
          assert foreign[i] in foreign;
        }
      }
      ForeignLabelsOfUniform(foreign);
      ForeignAfterRewrite(foreign, written);
    } else {
      assert t !in foreign + written by {
        if t in foreign + written {
          RewrittenNoTrigger(foreign, written, t);
        }
      }
      RemovedAbsent(foreign + written, t);
    }
  }

  /** The round of `trigger-start` as the `n`-th round. */
  lemma StartAt(labels: seq<string>, triggers: seq<string>, n: nat, written: seq<string>)
    requires 0 < n <= |triggers| && triggers[n - 1] == StartTrigger
    requires forall i :: 0 <= i < |triggers| ==> IsTrigger(triggers[i])
    requires Writable(written)
    ensures FinalLabels(labels, triggers, n, written) == ForeignLabels(labels) + written
  {
    FinalKeepsForeign(labels, triggers, n - 1, written);
    StartRound(FinalLabels(labels, triggers, n - 1, written), written);
  }

  /** A round after the start round, as the `n`-th round. */
  lemma AfterStartAt(labels: seq<string>, triggers: seq<string>, n: nat, written: seq<string>)
    requires 0 < n <= |triggers| && IsTrigger(triggers[n - 1])
    requires Writable(written)
    requires FinalLabels(labels, triggers, n - 1, written) == ForeignLabels(labels) + written
    ensures FinalLabels(labels, triggers, n, written) == ForeignLabels(labels) + written
  {
    RoundAfterStart(ForeignLabels(labels), written, triggers[n - 1]);
  }

  /**
   * Once `trigger-start` has been processed, the pull request carries its
   * foreign labels and the started show's labels: later triggers were
   * removed with the circus labels, and no other handler writes.
   */
  lemma {:induction false} StartTriggerDecides(labels: seq<string>, triggers: seq<string>, n: nat, written: seq<string>, k: nat)
    requires k < n <= |triggers|
    requires forall i :: 0 <= i < |triggers| ==> IsTrigger(triggers[i])
    requires Writable(written)
    requires triggers[k] == StartTrigger
    ensures FinalLabels(labels, triggers, n, written) == ForeignLabels(labels) + written
    decreases n
  {
    if k == n - 1 {
      StartAt(labels, triggers, n, written);
    } else {
      StartTriggerDecides(labels, triggers, n - 1, written, k);
      AfterStartAt(labels, triggers, n, written);
    }
  }

  /** Without `trigger-start`, the rounds remove exactly the processed triggers and keep every other label. */
  lemma {:induction false} NoStartRemovesTriggers(labels: seq<string>, triggers: seq<string>, n: nat, written: seq<string>)
    requires n <= |triggers|
    requires StartTrigger !in triggers[..n]
    ensures forall l :: l in FinalLabels(labels, triggers, n, written) <==> l in labels && l !in triggers[..n]
  {
    if n > 0 {
      assert triggers[..n] == triggers[..n - 1] + [triggers[n - 1]];
      NoStartRemovesTriggers(labels, triggers, n - 1, written);
    }
  }

  /** After all rounds over a pull request's own triggers, no trigger label is left. */
  lemma FinalNoTriggers(labels: seq<string>, written: seq<string>)
    requires Writable(written)
    ensures var triggers := TriggerLabels(labels);
            TriggerLabels(FinalLabels(labels, triggers, |triggers|, written)) == []
  {
    var triggers := TriggerLabels(labels);
    var final := FinalLabels(labels, triggers, |triggers|, written);
    assert triggers[..|triggers|] == triggers;
    if StartTrigger in triggers {
      var k :| 0 <= k < |triggers| && triggers[k] == StartTrigger;
      StartTriggerDecides(labels, triggers, |triggers|, written, k);
      forall l | l in final ensures !IsTrigger(l) {
        RewrittenNoTrigger(ForeignLabels(labels), written, l);
      }
    } else {
      NoStartRemovesTriggers(labels, triggers, |triggers|, written);
    }
    if TriggerLabels(final) != [] {
      assert TriggerLabels(final)[0] in TriggerLabels(final);
    }
  }

  /** The rounds over a pull request's own triggers, for any labels the start handler may write. */
  lemma RoundsOutcome(labels: seq<string>, written: seq<string>)
    requires Writable(written)
    ensures var triggers := TriggerLabels(labels);
            var final := FinalLabels(labels, triggers, |triggers|, written);
            && TriggerLabels(final) == []
            && ForeignLabels(final) == ForeignLabels(labels)
            && (StartTrigger in labels ==> final == ForeignLabels(labels) + written)
  {
    var triggers := TriggerLabels(labels);
    FinalNoTriggers(labels, written);
    FinalKeepsForeign(labels, triggers, |triggers|, written);
    if StartTrigger in labels {
      assert StartTrigger in triggers;
      var k :| 0 <= k < |triggers| && triggers[k] == StartTrigger;
      StartTriggerDecides(labels, triggers, |triggers|, written, k);
    }
  }

  /**
   * What the rounds over a pull request's own triggers leave, with `started`
   * the show the start handler ends with: no trigger, the foreign labels as
   * they were, and after `trigger-start` exactly the started show.
   */
  lemma TriggersOutcome(labels: seq<string>, started: Show)
    ensures var triggers := TriggerLabels(labels);
            var final := FinalLabels(labels, triggers, |triggers|, started.ToCircusLabels());
            && TriggerLabels(final) == []
            && ForeignLabels(final) == ForeignLabels(labels)
            && (StartTrigger in labels ==> final == ForeignLabels(labels) + started.ToCircusLabels())
            && (StartTrigger in labels && started.Encodable() ==>
                  PullRequest(started.prNumber, final).CurrentShow() == Some(started))
  {
    ShowLabelsWritable(started);
    RoundsOutcome(labels, started.ToCircusLabels());
    if StartTrigger in labels && started.Encodable() {
      RelabelDecodes(labels, started);
    }
  }

  /** Run the handler a trigger is dispatched to; only the start handler writes labels. */
  method RunHandler(store: LabelStore, trigger: string, dryRunAws: bool, dryRunGithub: bool, actor: string, createdAt: string)
    returns (h: Handler)
    modifies store
    ensures h == HandlerFor(trigger)
    ensures dryRunGithub ==> store.labels == old(store.labels)
    ensures !dryRunGithub ==> store.labels == AfterHandler(old(store.labels), trigger,
      StartOutcome(store.prNumber, store.latestSha, actor, createdAt, dryRunAws).ToCircusLabels())
  {
    h := HandlerFor(trigger);
    match h {
    case StartHandler =>
      var started := HandleStartTrigger(store, dryRunAws, dryRunGithub, actor, createdAt);
    case StopHandler =>
      var target := HandleStopTrigger(store);
    case SyncHandler =>
      var newShow := HandleSyncTrigger(store, dryRunAws, createdAt);
    case ConfigHandler(_) =>
      var updated := HandleConfigTrigger(store, trigger);
    case NoHandler =>
    }
  }

  /** One round of `handle_trigger`: claim the trigger unless GitHub writes are skipped, then run its handler. */
  method ProcessTrigger(store: LabelStore, t: string, dryRunAws: bool, dryRunGithub: bool, actor: string, createdAt: string)
    returns (events: seq<Event>)
    modifies store
    ensures events == Step(t, dryRunGithub)
    ensures dryRunGithub ==> store.labels == old(store.labels)
    ensures !dryRunGithub ==> store.labels == RoundLabels(old(store.labels), t,
      StartOutcome(store.prNumber, store.latestSha, actor, createdAt, dryRunAws).ToCircusLabels())
  {
    events := [];
    if !dryRunGithub {
      store.RemoveLabel(t);
      events := events + [Claimed(t)];
    }
    var h := RunHandler(store, t, dryRunAws, dryRunGithub, actor, createdAt);
    events := events + [Ran(h)];
  }

  /** The loop of `handle_trigger`: one round per trigger, in order. */
  method RunRounds(store: LabelStore, triggers: seq<string>, dryRunAws: bool, dryRunGithub: bool, actor: string, createdAt: string)
    returns (trace: seq<Event>)
    modifies store
    ensures trace == Schedule(triggers, |triggers|, dryRunGithub)
    ensures dryRunGithub ==> store.labels == old(store.labels)
    ensures !dryRunGithub ==> store.labels == FinalLabels(old(store.labels), triggers, |triggers|,
      StartOutcome(store.prNumber, store.latestSha, actor, createdAt, dryRunAws).ToCircusLabels())
  {
    ghost var written := StartOutcome(store.prNumber, store.latestSha, actor, createdAt, dryRunAws).ToCircusLabels();
    trace := [];
    var i := 0;
    while i < |triggers|
      invariant 0 <= i <= |triggers|
      invariant trace == Schedule(triggers, i, dryRunGithub)
      invariant dryRunGithub ==> store.labels == old(store.labels)
      invariant !dryRunGithub ==> store.labels == FinalLabels(old(store.labels), triggers, i, written)
    {
      var events := ProcessTrigger(store, triggers[i], dryRunAws, dryRunGithub, actor, createdAt);
      trace := trace + events;
      i := i + 1;
    }
  }

  /**
   * `handle_trigger`: the triggers found on the pull request are processed
   * in label order. The final labels are the fold of the rounds; every
   * trigger is consumed, the labels that are not the tool's are kept, and
   * after `trigger-start` the started show is the current show.
   */
  method HandleTrigger(store: LabelStore, dryRunAws: bool, dryRunGithub: bool, actor: string, createdAt: string)
    returns (trace: seq<Event>)
    modifies store
    ensures trace == Schedule(TriggerLabels(old(store.labels)), |TriggerLabels(old(store.labels))|, dryRunGithub)
    ensures TriggerLabels(old(store.labels)) == [] ==> store.labels == old(store.labels)
    ensures dryRunGithub ==> store.labels == old(store.labels)
    ensures !dryRunGithub ==> store.labels == FinalLabels(old(store.labels), TriggerLabels(old(store.labels)),
      |TriggerLabels(old(store.labels))|,
      StartOutcome(store.prNumber, store.latestSha, actor, createdAt, dryRunAws).ToCircusLabels())
    ensures !dryRunGithub ==> TriggerLabels(store.labels) == []
    ensures ForeignLabels(store.labels) == ForeignLabels(old(store.labels))
    ensures !dryRunGithub && StartTrigger in old(store.labels) ==>
      store.labels == ForeignLabels(old(store.labels))
        + StartOutcome(store.prNumber, store.latestSha, actor, createdAt, dryRunAws).ToCircusLabels()
    ensures !dryRunGithub && StartTrigger in old(store.labels) && store.latestSha != "" ==>
      store.Pr().CurrentShow() == Some(StartOutcome(store.prNumber, store.latestSha, actor, createdAt, dryRunAws))
  {
    var triggers := TriggerLabels(store.labels);
    TriggersOutcome(store.labels, StartOutcome(store.prNumber, store.latestSha, actor, createdAt, dryRunAws));
    trace := RunRounds(store, triggers, dryRunAws, dryRunGithub, actor, createdAt);
  }

  // ---------------------------------------------------------------------
  // Commands
  // ---------------------------------------------------------------------

  /** `start`: nothing but a report on a dry run or when a show is already up. */
  method StartCommand(store: LabelStore, dryRun: bool, dryRunAws: bool, actor: string, createdAt: string)
    returns (started: Option<Show>)
    modifies store
    ensures started.None? <==> dryRun || old(store.Pr().CurrentShow()).Some?
    ensures started.None? ==> store.labels == old(store.labels)
    ensures started.Some? ==>
      started.value == StartOutcome(store.prNumber, store.latestSha, actor, createdAt, dryRunAws)
      && store.labels == ForeignLabels(old(store.labels)) + started.value.ToCircusLabels()
  {
    if dryRun {
      return None;
    }
    if store.Pr().CurrentShow().Some? {
      return None;
    }
    var show := HandleStartTrigger(store, dryRunAws, false, actor, createdAt);
    started := Some(show);
  }

  /** `stop`: circus labels go only outside a dry run, and with `--force` or a confirmation. */
  method StopCommand(store: LabelStore, force: bool, dryRun: bool, confirmed: bool) returns (stopped: bool)
    modifies store
    ensures stopped <==> old(store.Pr().CurrentShow()).Some? && !dryRun && (force || confirmed)
    ensures stopped ==> store.labels == ForeignLabels(old(store.labels)) && !store.Pr().HasShows()
    ensures !stopped ==> store.labels == old(store.labels)
  {
    if store.Pr().CurrentShow().None? {
      return false;
    }
    if dryRun {
      return false;
    }
    if !force && !confirmed {
      return false;
    }
    store.RemoveCircusLabels();
    NoCircusLabelsNoShows(store.Pr());
    stopped := true;
  }

  /** `handle-sync`: the short SHA it would sync to; the rolling update itself is not written. */
  method HandleSyncCommand(store: LabelStore) returns (target: Option<string>)
    ensures target.Some? <==> SyncNeeded(store.Pr(), store.latestSha)
    ensures target.Some? ==> target.value == Take(store.latestSha, 7) && target.value != store.Pr().CurrentShow().value.sha
  {
    var pr := store.Pr();
    if pr.CurrentShow().None? {
      return None;
    }
    if !pr.CurrentShow().value.NeedsUpdate(store.latestSha) {
      return None;
    }
    target := Some(Take(store.latestSha, 7));
  }

  // ---------------------------------------------------------------------
  // list
  // ---------------------------------------------------------------------

  /** An empty filter (`None` on the command line) lets every show through. */
  predicate Selected(s: Show, statusFilter: string, user: string)
  {
    (statusFilter == "" || s.status == statusFilter) && (user == "" || s.requestedBy == user)
  }

  function Keep(shows: seq<Show>, statusFilter: string, user: string): (r: seq<Show>)
    ensures forall s :: s in r <==> s in shows && Selected(s, statusFilter, user)
    decreases |shows|
  {
    if shows == [] then []
    else
      Keep(shows[..|shows| - 1], statusFilter, user)
      + (if Selected(Last(shows), statusFilter, user) then [Last(shows)] else [])
  }

  /** The shows of each pull request, decoded from its labels. */
  function ShowLists(prs: seq<PullRequest>): (r: seq<seq<Show>>)
    ensures |r| == |prs|
  {
    seq(|prs|, i requires 0 <= i < |prs| => prs[i].Shows())
  }

  /** The selected shows of each list in turn. */
  function Gather(lists: seq<seq<Show>>, statusFilter: string, user: string): seq<Show>
    decreases |lists|
  {
    if lists == [] then []
    else Gather(lists[..|lists| - 1], statusFilter, user) + Keep(Last(lists), statusFilter, user)
  }

  lemma KeepPrefix(shows: seq<Show>, j: nat, statusFilter: string, user: string)
    requires j < |shows|
    ensures Keep(shows[..j + 1], statusFilter, user)
      == Keep(shows[..j], statusFilter, user) + (if Selected(shows[j], statusFilter, user) then [shows[j]] else [])
  {
    assert shows[..j + 1][..j] == shows[..j];
  }

  lemma GatherPrefix(lists: seq<seq<Show>>, i: nat, statusFilter: string, user: string)
    requires i < |lists|
    ensures Gather(lists[..i + 1], statusFilter, user) == Gather(lists[..i], statusFilter, user) + Keep(lists[i], statusFilter, user)
  {
    assert lists[..i + 1][..i] == lists[..i];
  }

  /** The selected shows of each pull request in turn, current before building. */
  function Collected(prs: seq<PullRequest>, statusFilter: string, user: string): seq<Show>
  {
    Gather(ShowLists(prs), statusFilter, user)
  }

  lemma {:induction false} GatherMembers(lists: seq<seq<Show>>, statusFilter: string, user: string, s: Show)
    ensures s in Gather(lists, statusFilter, user) <==>
      Selected(s, statusFilter, user) && exists i :: 0 <= i < |lists| && s in lists[i]
    decreases |lists|
  {
    if lists != [] {
      GatherMembers(lists[..|lists| - 1], statusFilter, user, s);
      InSomeList(lists, lists[..|lists| - 1], s);
    }
  }

  /** A show is in one of the lists exactly when it is in one of all but the last, or in the last. */
  lemma InSomeList(lists: seq<seq<Show>>, init: seq<seq<Show>>, s: Show)
    requires lists != [] && init == lists[..|lists| - 1]
    ensures (exists i :: 0 <= i < |lists| && s in lists[i]) <==>
      (exists i :: 0 <= i < |init| && s in init[i]) || s in Last(lists)
  {
    if exists i :: 0 <= i < |lists| && s in lists[i] {
      var i :| 0 <= i < |lists| && s in lists[i];
      if i < |init| {
        assert init[i] == lists[i];
      }
    }
    if exists i :: 0 <= i < |init| && s in init[i] {
      var i :| 0 <= i < |init| && s in init[i];
      assert init[i] == lists[i];
    }
  }

  predicate SortedByPr(xs: seq<Show>)
  {
    forall i, j :: 0 <= i < j < |xs| ==> xs[i].prNumber <= xs[j].prNumber
  }

  /** Insert before the first show whose PR number is not smaller: equal keys keep their order. */
  function InsertByPr(x: Show, xs: seq<Show>): (r: seq<Show>)
    ensures multiset(r) == multiset(xs) + multiset{x}
  {
    if xs == [] || x.prNumber <= xs[0].prNumber then [x] + xs
    else
      assert xs == [xs[0]] + xs[1..];
      [xs[0]] + InsertByPr(x, xs[1..])
  }

  lemma InsertByPrBound(x: Show, xs: seq<Show>, bound: int)
    requires bound <= x.prNumber
    requires forall i :: 0 <= i < |xs| ==> bound <= xs[i].prNumber
    ensures forall y :: y in InsertByPr(x, xs) ==> bound <= y.prNumber
  {
    var r := InsertByPr(x, xs);
    forall y | y in r ensures bound <= y.prNumber {
      assert y in multiset(r);
      if y != x {
        assert y in multiset(xs);
        var k :| 0 <= k < |xs| && xs[k] == y;
      }
    }
  }

  lemma {:induction false} InsertByPrSorted(x: Show, xs: seq<Show>)
    requires SortedByPr(xs)
    ensures SortedByPr(InsertByPr(x, xs))
    decreases |xs|
  {
    if xs != [] && x.prNumber > xs[0].prNumber {
      InsertByPrSorted(x, xs[1..]);
      InsertByPrBound(x, xs[1..], xs[0].prNumber);
      SortedCons(xs[0], InsertByPr(x, xs[1..]));
    }
  }

  /** A show no later than every show of a sorted list can go in front of it. */
  lemma SortedCons(y: Show, xs: seq<Show>)
    requires SortedByPr(xs)
    requires forall z :: z in xs ==> y.prNumber <= z.prNumber
    ensures SortedByPr([y] + xs)
  {
    var r := [y] + xs;
    forall i, j | 0 <= i < j < |r| ensures r[i].prNumber <= r[j].prNumber {
      assert r[j] == xs[j - 1] && xs[j - 1] in xs;
      if i > 0 {
        assert r[i] == xs[i - 1];
      }
    }
  }

  /** `sorted(shows, key=pr_number)`: a stable insertion sort. */
  function SortByPr(xs: seq<Show>): (r: seq<Show>)
    ensures multiset(r) == multiset(xs)
    ensures SortedByPr(r)
    decreases |xs|
  {
    if xs == [] then []
    else
      var rest := SortByPr(xs[1..]);
      InsertByPrSorted(xs[0], rest);
      MultisetCons(xs);
      InsertByPr(xs[0], rest)
  }

  lemma MultisetCons(xs: seq<Show>)
    requires xs != []
    ensures multiset(xs) == multiset(xs[1..]) + multiset{xs[0]}
  {
    assert xs == [xs[0]] + xs[1..];
  }

  /** The shows of one pull request, in order. */
  function WithPr(xs: seq<Show>, n: int): (r: seq<Show>)
    ensures forall s :: s in r <==> s in xs && s.prNumber == n
  {
    if xs == [] then []
    else (if xs[0].prNumber == n then [xs[0]] else []) + WithPr(xs[1..], n)
  }

  lemma WithPrCons(y: Show, ys: seq<Show>, n: int)
    ensures WithPr([y] + ys, n) == (if y.prNumber == n then [y] else []) + WithPr(ys, n)
  {
    assert ([y] + ys)[0] == y && ([y] + ys)[1..] == ys;
  }

  lemma {:induction false} InsertByPrWithPr(x: Show, xs: seq<Show>, n: int)
    ensures WithPr(InsertByPr(x, xs), n) == (if x.prNumber == n then [x] else []) + WithPr(xs, n)
    decreases |xs|
  {
    if xs == [] || x.prNumber <= xs[0].prNumber {
      WithPrCons(x, xs, n);
    } else {
      var inner := InsertByPr(x, xs[1..]);
      var w := WithPr(xs[1..], n);
      InsertByPrWithPr(x, xs[1..], n);
      WithPrCons(xs[0], inner, n);
      WithPrCons(xs[0], xs[1..], n);
      assert [xs[0]] + xs[1..] == xs;
      if xs[0].prNumber == n {
        assert WithPr(inner, n) == w;
        assert WithPr(xs, n) == [xs[0]] + w;
      } else {
        assert WithPr(xs, n) == w;
      }
    }
  }

  /** Sorting keeps the shows of each pull request in their original order. */
  lemma {:induction false} SortByPrStable(xs: seq<Show>, n: int)
    ensures WithPr(SortByPr(xs), n) == WithPr(xs, n)
    decreases |xs|
  {
    if xs != [] {
      SortByPrStable(xs[1..], n);
      InsertByPrWithPr(xs[0], SortByPr(xs[1..]), n);
    }
  }

  /** The filter step of `list` on the shows of one pull request. */
  method SelectShows(candidates: seq<Show>, statusFilter: string, user: string) returns (kept: seq<Show>)
    ensures kept == Keep(candidates, statusFilter, user)
  {
    kept := [];
    var j := 0;
    while j < |candidates|
      invariant 0 <= j <= |candidates|
      invariant kept == Keep(candidates[..j], statusFilter, user)
    {
      var show := candidates[j];
      KeepPrefix(candidates, j, statusFilter, user);
      if statusFilter != "" && show.status != statusFilter {
        j := j + 1;
        continue;
      }
      if user != "" && show.requestedBy != user {
        j := j + 1;
        continue;
      }
      kept := kept + [show];
      j := j + 1;
    }
    assert candidates[..|candidates|] == candidates;
  }

  /** `list`: collect the selected shows of every pull request, then sort them by PR number. */
  method ListShows(prs: seq<PullRequest>, statusFilter: string, user: string) returns (shows: seq<Show>)
    ensures shows == SortByPr(Collected(prs, statusFilter, user))
  {
    var lists := ShowLists(prs);
    var all: seq<Show> := [];
    var i := 0;
    while i < |prs|
      invariant 0 <= i <= |prs|
      invariant all == Gather(lists[..i], statusFilter, user)
    {
      var kept := SelectShows(lists[i], statusFilter, user);
      all := all + kept;
      GatherPrefix(lists, i, statusFilter, user);
      i := i + 1;
    }
    assert lists[..|prs|] == lists;
    shows := SortByPr(all);
  }

  /** A show is listed exactly when it is selected and some pull request has it. */
  lemma ListedShows(prs: seq<PullRequest>, statusFilter: string, user: string, s: Show)
    ensures s in SortByPr(Collected(prs, statusFilter, user)) <==>
      Selected(s, statusFilter, user) && exists i :: 0 <= i < |prs| && s in prs[i].Shows()
  {
    var lists := ShowLists(prs);
    var c := Collected(prs, statusFilter, user);
    assert s in SortByPr(c) <==> s in multiset(SortByPr(c));
    assert s in c <==> s in multiset(c);
    GatherMembers(lists, statusFilter, user, s);
    if exists i :: 0 <= i < |prs| && s in prs[i].Shows() {
      var i :| 0 <= i < |prs| && s in prs[i].Shows();
      assert s in lists[i];
    }
    if exists i :: 0 <= i < |lists| && s in lists[i] {
      var i :| 0 <= i < |lists| && s in lists[i];
      assert s in prs[i].Shows();
    }
  }

  /** The names a show derives agree with the names the cloud layer uses. */
  lemma ShowNamesAgree(s: Show)
    requires |s.sha| <= 7
    ensures s.AwsServiceName() == Aws.ServiceName(s.prNumber, s.sha)
    ensures s.AwsImageTag() == Aws.ImageTag(s.prNumber, s.sha)
  {
  }
}
