/**
 * The unit tests of the circus label codec (tests/unit/test_circus.py),
 * each stated as a lemma about the model. The test inputs are constants.
 */
module CircusTests {
  import opened Wrappers
  import opened Text
  import opened Circus
  import opened Config

  /** A marker set in a field list decodes to that field's value from any labels whose circus part it spells. */
  lemma DecodedMarker(labels: seq<string>, fields: seq<(string, string)>, k: nat)
    requires CircusLabels(labels) == FieldLabels(fields)
    requires DistinctMarkers(fields)
    requires k < |fields|
    ensures MarkerValue(labels, fields[k].0) == if fields[k].1 == "" then None else Some(fields[k].1)
  {
    MarkerValueIgnoresForeign(labels, fields[k].0);
    MarkerValueOfFields(fields, fields[k].0);
    FieldValueAt(fields, k);
  }

  /** A marker missing from a field list decodes to nothing. */
  lemma DecodedAbsent(labels: seq<string>, fields: seq<(string, string)>, n: string)
    requires CircusLabels(labels) == FieldLabels(fields)
    requires DistinctMarkers(fields)
    requires n in Markers
    requires forall i :: 0 <= i < |fields| ==> fields[i].0 != n
    ensures MarkerValue(labels, n) == None
  {
    MarkerValueIgnoresForeign(labels, n);
    MarkerValueOfFields(fields, n);
    FieldValueAbsent(fields, n);
  }

  // The label spellings the tests use, each checked against `Label` once.

  lemma StatusShaLabels()
    ensures "🎪 🚦 running" == Label(StatusMarker, "running")
    ensures "🎪 🎯 abc123f" == Label(ShaMarker, "abc123f")
  {
  }

  lemma CreatedLabel()
    ensures "🎪 📅 2024-01-15T14-30" == Label(CreatedMarker, "2024-01-15T14-30")
  {
  }

  lemma IpRequesterLabels()
    ensures "🎪 🌐 52-1-2-3" == Label(IpMarker, "52-1-2-3")
    ensures "🎪 👤 maxime" == Label(RequesterMarker, "maxime")
  {
  }

  lemma TtlLabels()
    ensures "🎪 ⌛ 24h" == Label(TtlMarker, "24h")
    ensures "🎪 ⌛ 48h" == Label(TtlMarker, "48h")
  {
  }

  lemma ConfigLabel()
    ensures "🎪 ⚙️ debug,alerts" == Label(ConfigMarker, "debug,alerts")
  {
  }

  lemma UpdateLabels()
    ensures "🎪 🚦 updating" == Label(StatusMarker, "updating")
    ensures "🎪 🎯 def456a" == Label(ShaMarker, "def456a")
    ensures "🎪 🏗️ def456a" == Label(BuildingMarker, "def456a")
  {
  }

  // test_show_from_circus_labels

  const RunningLabels: seq<string> := [
    "🎪 🚦 running",
    "🎪 🎯 abc123f",
    "🎪 📅 2024-01-15T14-30",
    "🎪 🌐 52-1-2-3",
    "🎪 ⌛ 24h",
    "🎪 👤 maxime",
    "some-other-label"]

  const RunningFields: seq<(string, string)> := [
    (StatusMarker, "running"),
    (ShaMarker, "abc123f"),
    (CreatedMarker, "2024-01-15T14-30"),
    (IpMarker, "52-1-2-3"),
    (TtlMarker, "24h"),
    (RequesterMarker, "maxime")]

  lemma RunningLabelsEach()
    ensures RunningLabels[0] == Label(StatusMarker, "running") && RunningLabels[1] == Label(ShaMarker, "abc123f")
    ensures RunningLabels[2] == Label(CreatedMarker, "2024-01-15T14-30")
    ensures RunningLabels[3] == Label(IpMarker, "52-1-2-3") && RunningLabels[4] == Label(TtlMarker, "24h")
    ensures RunningLabels[5] == Label(RequesterMarker, "maxime")
    ensures !IsCircusLabel(RunningLabels[6])
  {
    StatusShaLabels();
    CreatedLabel();
    IpRequesterLabels();
    TtlLabels();
    assert RunningLabels[6][0] == 's';
  }

  lemma RunningFieldLabels()
    ensures FieldLabels(RunningFields) == RunningLabels[..6]
  {
    RunningLabelsEach();
    FieldLabelsAllSet(RunningFields);
  }

  lemma RunningLabelsSpelled()
    ensures CircusLabels(RunningLabels) == FieldLabels(RunningFields)
  {
    var ls := RunningLabels;
    RunningLabelsEach();
    RunningFieldLabels();
    forall i | 0 <= i < 6 ensures IsCircusLabel(ls[..6][i]) {
      KeyMeansCircus(RunningFields[i].0, ls[i]);
    }
    CircusLabelsAllCircus(ls[..6]);
    assert CircusLabels(ls[6..]) == [];
    CircusLabelsAppend(ls[..6], ls[6..]);
    assert ls == ls[..6] + ls[6..];
  }

  lemma RunningFieldsDistinct()
    ensures DistinctMarkers(RunningFields)
  {
  }

  /** Any labels whose circus part spells the running fields decode to them. */
  lemma RunningDecoded(ls: seq<string>)
    requires CircusLabels(ls) == FieldLabels(RunningFields)
    ensures forall k :: 0 <= k < |RunningFields| ==> MarkerValue(ls, RunningFields[k].0) == Some(RunningFields[k].1)
    ensures MarkerValue(ls, ConfigMarker) == None
  {
    RunningFieldsDistinct();
    forall k | 0 <= k < |RunningFields|
      ensures MarkerValue(ls, RunningFields[k].0) == Some(RunningFields[k].1)
    {
      DecodedMarker(ls, RunningFields, k);
    }
    DecodedAbsent(ls, RunningFields, ConfigMarker);
  }

  /** Any labels whose circus part spells the running fields decode to the running show. */
  lemma RunningShowDecoded(ls: seq<string>)
    requires CircusLabels(ls) == FieldLabels(RunningFields)
    ensures FromCircusLabels(1234, ls, "abc123f")
      == Show(1234, "abc123f", "running", "52.1.2.3", "2024-01-15T14-30", "24h", "maxime", StandardConfig)
  {
    RunningDecoded(ls);
    var fs := RunningFields;
    assert fs[0] == (StatusMarker, "running");
    assert fs[2] == (CreatedMarker, "2024-01-15T14-30");
    assert fs[3] == (IpMarker, "52-1-2-3");
    assert fs[4] == (TtlMarker, "24h");
    assert fs[5] == (RequesterMarker, "maxime");
    assert ReplaceChar("52-1-2-3", '-', '.') == "52.1.2.3";
  }

  /** Decoding status, SHA, created, IP, TTL and requester labels; the unrelated label is ignored. */
  lemma TestShowFromCircusLabels()
    ensures FromCircusLabels(1234, RunningLabels, "abc123f")
      == Show(1234, "abc123f", "running", "52.1.2.3", "2024-01-15T14-30", "24h", "maxime", StandardConfig)
  {
    RunningLabelsSpelled();
    RunningShowDecoded(RunningLabels);
  }

  // test_show_with_config

  const ConfigLabels: seq<string> := ["🎪 🚦 running", "🎪 🎯 def456a", "🎪 ⚙️ debug,alerts"]

  const ConfigFields: seq<(string, string)> :=
    [(StatusMarker, "running"), (ShaMarker, "def456a"), (ConfigMarker, "debug,alerts")]

  lemma ConfigLabelsSpelled()
    ensures CircusLabels(ConfigLabels) == FieldLabels(ConfigFields)
    ensures DistinctMarkers(ConfigFields)
  {
    var ls := ConfigLabels;
    StatusShaLabels();
    UpdateLabels();
    ConfigLabel();
    assert ls[0] == Label(StatusMarker, "running");
    assert ls[1] == Label(ShaMarker, "def456a");
    assert ls[2] == Label(ConfigMarker, "debug,alerts");
    FieldLabelsAllSet(ConfigFields);
    assert CircusLabels(ls) == ls;
  }

  /** The config label is decoded verbatim, not re-sorted. */
  lemma TestShowWithConfig()
    ensures var s := FromCircusLabels(1234, ConfigLabels, "def456a");
      s.status == "running" && s.sha == "def456a" && s.config == "debug,alerts"
  {
    ConfigLabelsSpelled();
    DecodedMarker(ConfigLabels, ConfigFields, 0);
    DecodedMarker(ConfigLabels, ConfigFields, 2);
  }

  // test_pullrequest_during_update

  const UpdatingLabels: seq<string> := ["🎪 🚦 updating", "🎪 🎯 abc123f", "🎪 🏗️ def456a"]

  const UpdatingFields: seq<(string, string)> :=
    [(StatusMarker, "updating"), (ShaMarker, "abc123f"), (BuildingMarker, "def456a")]

  lemma UpdatingLabelsSpelled()
    ensures CircusLabels(UpdatingLabels) == FieldLabels(UpdatingFields)
    ensures DistinctMarkers(UpdatingFields)
  {
    var ls := UpdatingLabels;
    StatusShaLabels();
    UpdateLabels();
    assert ls[0] == Label(StatusMarker, "updating");
    assert ls[1] == Label(ShaMarker, "abc123f");
    assert ls[2] == Label(BuildingMarker, "def456a");
    FieldLabelsAllSet(UpdatingFields);
    assert CircusLabels(ls) == ls;
  }

  /** An active and a building SHA give two shows: the current one and the one being built. */
  lemma TestPullRequestDuringUpdate()
    ensures var pr := PullRequest(1234, UpdatingLabels);
      |pr.Shows()| == 2
      && pr.CurrentShow().Some? && pr.CurrentShow().value.sha == "abc123f" && pr.CurrentShow().value.status == "updating"
      && pr.BuildingShow().Some? && pr.BuildingShow().value.sha == "def456a" && pr.BuildingShow().value.status == "building"
  {
    UpdatingLabelsSpelled();
    DecodedMarker(UpdatingLabels, UpdatingFields, 0);
    DecodedMarker(UpdatingLabels, UpdatingFields, 1);
    DecodedMarker(UpdatingLabels, UpdatingFields, 2);
  }

  // test_pullrequest_empty

  const PlainLabels: seq<string> := ["bug", "enhancement", "documentation"]

  lemma TestPullRequestEmpty()
    ensures var pr := PullRequest(1234, PlainLabels);
      |pr.Shows()| == 0 && pr.CurrentShow() == None && !pr.HasShows()
  {
    var pr := PullRequest(1234, PlainLabels);
    assert pr.labels[0][0] == 'b' && pr.labels[1][0] == 'e' && pr.labels[2][0] == 'd';
    NoCircusLabelsNoShows(pr);
  }

  // test_show_to_circus_labels

  const FullShow: Show :=
    Show(1234, "abc123f", "running", "52.1.2.3", "2024-01-15T14-30", "48h", "maxime", "debug,alerts")

  const FullLabels: seq<string> := [
    "🎪 🚦 running",
    "🎪 🎯 abc123f",
    "🎪 📅 2024-01-15T14-30",
    "🎪 🌐 52-1-2-3",
    "🎪 ⌛ 48h",
    "🎪 👤 maxime",
    "🎪 ⚙️ debug,alerts"]

  lemma IpDashed()
    ensures ReplaceChar("52.1.2.3", '.', '-') == "52-1-2-3"
  {
  }

  lemma FullLabelsEach()
    ensures FullLabels[0] == Label(StatusMarker, "running") && FullLabels[1] == Label(ShaMarker, "abc123f")
    ensures FullLabels[2] == Label(CreatedMarker, "2024-01-15T14-30")
    ensures FullLabels[3] == Label(IpMarker, "52-1-2-3") && FullLabels[4] == Label(TtlMarker, "48h")
    ensures FullLabels[5] == Label(RequesterMarker, "maxime")
    ensures FullLabels[6] == Label(ConfigMarker, "debug,alerts")
  {
    StatusShaLabels();
    CreatedLabel();
    IpRequesterLabels();
    TtlLabels();
    ConfigLabel();
  }

  /** Encoding a fully populated show writes exactly these labels, in this order. */
  lemma TestShowToCircusLabels()
    ensures FullShow.ToCircusLabels() == FullLabels
  {
    ToCircusLabelsAllSet(FullShow);
    IpDashed();
    FullLabelsEach();
  }

  /** The encoded labels of the full show decode back to it. */
  lemma TestShowToCircusLabelsRoundTrip()
    ensures FromCircusLabels(1234, FullShow.ToCircusLabels(), "abc123f") == FullShow
  {
    assert '-' !in FullShow.ip by {
      assert FullShow.ip == "52.1.2.3";
    }
    FromOwnLabels(FullShow);
  }

  // test_is_configuration_label and test_parse_configuration_command

  lemma TestIsConfigurationLabel()
    ensures IsConfigurationLabel("🎪 conf-enable-ALERTS")
    ensures IsConfigurationLabel("🎪 conf-debug-on")
    ensures !IsConfigurationLabel("🎪 🚦 running")
    ensures !IsConfigurationLabel("regular-label")
  {
    assert "🎪 🚦 running"[2] != ConfigTriggerPrefix[2];
    assert "regular-label"[0] != ConfigTriggerPrefix[0];
  }

  lemma TestParseConfigurationCommand()
    ensures ParseConfigurationCommand("🎪 conf-enable-ALERTS") == Some("enable-ALERTS")
    ensures ParseConfigurationCommand("🎪 conf-debug-on") == Some("debug-on")
    ensures ParseConfigurationCommand("🎪 🚦 running") == None
  {
    TestIsConfigurationLabel();
  }

  // test_merge_config

  /** A comma-joined list of valid tokens holds exactly those tokens. */
  lemma TokensOfJoin(ts: seq<string>)
    requires |ts| >= 1
    requires forall t :: t in ts ==> ValidToken(t)
    ensures TokenSet(Join(ts, ',')) == set t | t in ts
  {
    ConfigTokensOfJoin(ts);
    TokenSetOf(Join(ts, ','), ts);
  }

  lemma TokenSetOf(c: string, ts: seq<string>)
    requires ConfigTokens(c) == ts
    ensures TokenSet(c) == set t | t in ts
  {
  }

  lemma ConfigTokensOfJoin(ts: seq<string>)
    requires |ts| >= 1
    requires forall t :: t in ts ==> ValidToken(t)
    ensures ConfigTokens(Join(ts, ',')) == ts
  {
    SplitJoin(ts, ',');
    ValidPiecesKeepsValid(ts);
  }

  /** Two distinct valid tokens joined by a comma hold exactly those two. */
  lemma PairTokens(a: string, b: string)
    requires ValidToken(a) && ValidToken(b)
    ensures TokenSet(a + "," + b) == {a, b}
  {
    assert Join([a, b], ',') == a + "," + b;
    TokensOfJoin([a, b]);
  }

  lemma StandardHasNoTokens()
    ensures TokenSet(Standard) == {}
  {
    SplitWithoutSeparator(Standard, ',');
  }

  lemma ParseEnableOf(f: string)
    ensures ParseCommand("enable-" + f) == Enable(Lower(f))
  {
    assert ("enable-" + f)[7..] == f;
  }

  lemma ParseDisableOf(f: string)
    ensures ParseCommand("disable-" + f) == Disable(Lower(f))
  {
    var c := "disable-" + f;
    assert c[0] == 'd';
    assert "disable-" <= c;
    assert c[8..] == f;
  }

  lemma ParseSizeOf(z: string)
    ensures ParseCommand("size-" + z) == Size(Lower(z))
  {
    var c := "size-" + z;
    assert c[0] == 's';
    assert !("enable-" <= c) by { assert "enable-"[0] != c[0]; }
    assert !("disable-" <= c) by { assert "disable-"[0] != c[0]; }
    assert c != "debug-on" && c != "debug-off" by { assert "debug-on"[0] != c[0]; }
    assert "size-" <= c;
    assert c[5..] == z;
  }

  /** Enabling `f` adds `f`, drops `no-f` and keeps every other token. */
  lemma EnableMeaning(current: string, command: string, f: string)
    requires ParseCommand(command) == Enable(f)
    requires ValidToken(f)
    ensures var r := TokenSet(MergeConfig(current, command));
      f in r && (forall t :: t in r ==> t == f || t in TokenSet(current))
    ensures var r := TokenSet(MergeConfig(current, command));
      "no-" + f !in r && (forall t :: t in TokenSet(current) && t != "no-" + f ==> t in r)
  {
    MergeConfigTokens(current, command);
    assert "no-" + f != f by { assert |"no-" + f| != |f|; }
  }

  /** Disabling `f` adds `no-f`, drops `f` and keeps every other token. */
  lemma DisableMeaning(current: string, command: string, f: string)
    requires ParseCommand(command) == Disable(f)
    requires ValidToken("no-" + f)
    ensures var r := TokenSet(MergeConfig(current, command));
      "no-" + f in r && f !in r && (forall t :: t in TokenSet(current) && t != f ==> t in r)
  {
    MergeConfigTokens(current, command);
  }

  /** `debug-off` drops `debug` and keeps every other token. */
  lemma DebugOffMeaning(current: string, command: string)
    requires ParseCommand(command) == DebugOff
    ensures var r := TokenSet(MergeConfig(current, command));
      "debug" !in r && (forall t :: t in TokenSet(current) && t != "debug" ==> t in r)
  {
    MergeConfigTokens(current, command);
  }

  /** A size command adds `size-z` and keeps every token that is not a size. */
  lemma SizeMeaning(current: string, command: string, z: string)
    requires ParseCommand(command) == Size(z)
    requires ValidToken("size-" + z)
    ensures var r := TokenSet(MergeConfig(current, command));
      "size-" + z in r && (forall t :: t in TokenSet(current) && !IsSizeToken(t) ==> t in r)
  {
    MergeConfigTokens(current, command);
  }

  lemma LowerAlerts()
    ensures Lower("ALERTS") == "alerts"
  {
  }

  lemma LowerLarge()
    ensures Lower("large") == "large"
  {
  }

  lemma ParseEnableAlerts()
    ensures ParseCommand("enable-ALERTS") == Enable("alerts")
  {
    assert "enable-ALERTS" == "enable-" + "ALERTS";
    ParseEnableOf("ALERTS");
    LowerAlerts();
  }

  lemma AlertsIsToken()
    ensures ValidToken("alerts")
  {
    assert "alerts"[0] != Standard[0];
  }

  lemma TestMergeEnable()
    ensures "alerts" in TokenSet(MergeConfig("standard", "enable-ALERTS"))
    ensures "standard" !in TokenSet(MergeConfig("standard", "enable-ALERTS"))
  {
    ParseEnableAlerts();
    AlertsIsToken();
    StandardHasNoTokens();
    EnableMeaning("standard", "enable-ALERTS", "alerts");
  }

  lemma ParseDisableAlerts()
    ensures ParseCommand("disable-ALERTS") == Disable("alerts")
  {
    assert "disable-ALERTS" == "disable-" + "ALERTS";
    ParseDisableOf("ALERTS");
    LowerAlerts();
  }

  lemma NoAlertsSpelled()
    ensures "no-" + "alerts" == "no-alerts"
    ensures ValidToken("no-alerts")
  {
    assert "no-alerts"[0] != Standard[0];
  }

  lemma AlertsDebugSpelled()
    ensures "alerts" + "," + "debug" == "alerts,debug"
    ensures "debug" + "," + "alerts" == "debug,alerts"
    ensures ValidToken("debug") && "debug" != "alerts"
  {
    assert "debug"[0] != "alerts"[0];
    assert "debug"[0] != Standard[0];
  }

  lemma TestMergeDisable()
    ensures var r := TokenSet(MergeConfig("alerts,debug", "disable-ALERTS"));
      "no-alerts" in r && "debug" in r && "alerts" !in r
  {
    ParseDisableAlerts();
    AlertsIsToken();
    AlertsDebugSpelled();
    PairTokens("alerts", "debug");
    NoAlertsSpelled();
    DisableMeaning("alerts,debug", "disable-ALERTS", "alerts");
  }

  lemma ParseDebugOn()
    ensures ParseCommand("debug-on") == DebugOn
  {
    assert !("enable-" <= "debug-on") by {
      assert "debug-on"[0] != "enable-"[0];
    }
    assert !("disable-" <= "debug-on") by {
      assert "debug-on"[1] != "disable-"[1];
    }
  }

  lemma TestMergeDebugOn()
    ensures "debug" in TokenSet(MergeConfig("standard", "debug-on"))
  {
    ParseDebugOn();
    AlertsDebugSpelled();
    MergeConfigTokens("standard", "debug-on");
  }

  lemma ParseDebugOff()
    ensures ParseCommand("debug-off") == DebugOff
  {
    assert !("enable-" <= "debug-off") by {
      assert "debug-off"[0] != "enable-"[0];
    }
    assert !("disable-" <= "debug-off") by {
      assert "debug-off"[1] != "disable-"[1];
    }
    assert "debug-off" != "debug-on" by {
      assert "debug-off"[7] != "debug-on"[7];
    }
  }

  /** Switching debug off in "debug,alerts" leaves the one token "alerts", written canonically. */
  lemma DebugOffAlerts()
    ensures TokenSet(MergeConfig("debug,alerts", "debug-off")) == {"alerts"}
    ensures IsCanonical(MergeConfig("debug,alerts", "debug-off"))
  {
    ParseDebugOff();
    AlertsIsToken();
    AlertsDebugSpelled();
    PairTokens("debug", "alerts");
    MergeConfigMeaning("debug,alerts", "debug-off");
  }

  /** The merged config is exactly "alerts", so the substring "debug" occurs nowhere in it. */
  lemma TestMergeDebugOff()
    ensures var r := TokenSet(MergeConfig("debug,alerts", "debug-off"));
      "debug" !in r && "alerts" in r
    ensures MergeConfig("debug,alerts", "debug-off") == "alerts"
  {
    DebugOffAlerts();
    AlertsDebugSpelled();
    SingleTokenCanonical(MergeConfig("debug,alerts", "debug-off"), "alerts");
  }

  lemma ParseSizeLarge()
    ensures ParseCommand("size-large") == Size("large")
  {
    assert "size-large" == "size-" + "large";
    ParseSizeOf("large");
    LowerLarge();
  }

  lemma SizeLargeSpelled()
    ensures "size-" + "large" == "size-large"
    ensures ValidToken("size-large")
    ensures !IsSizeToken("debug")
  {
    assert "size-large"[1] != Standard[1];
    assert "debug"[0] != 's';
  }

  lemma DebugTokens()
    ensures TokenSet("debug") == {"debug"}
  {
    assert Join(["debug"], ',') == "debug";
    TokensOfJoin(["debug"]);
  }

  lemma TestMergeSize()
    ensures var r := TokenSet(MergeConfig("debug", "size-large"));
      "size-large" in r && "debug" in r
  {
    ParseSizeLarge();
    AlertsDebugSpelled();
    DebugTokens();
    SizeLargeSpelled();
    SizeMeaning("debug", "size-large", "large");
  }

  // test_show_properties

  lemma TestShowProperties()
    ensures var s := NewShow(1234, "abc123f", "running");
      s.IsActive() && !s.IsUpdating()
      && s.NeedsUpdate("def456a1234567") && !s.NeedsUpdate("abc123f1234567")
      && s.AwsServiceName() == "pr-1234-abc123f" && s.AwsImageTag() == "pr-1234-abc123f-ci"
  {
    ShortShas();
    PrNumberSpelled();
    assert "abc123f"[0] != "def456a"[0];
  }

  lemma ShortShas()
    ensures Take("def456a1234567", 7) == "def456a"
    ensures Take("abc123f1234567", 7) == "abc123f"
  {
  }

  lemma PrNumberSpelled()
    ensures IntToString(1234) == "1234"
  {
    assert NatToString(1) == "1";
    assert NatToString(12) == NatToString(1) + "2";
    assert NatToString(123) == NatToString(12) + "3";
    assert NatToString(1234) == NatToString(123) + "4";
  }
}
