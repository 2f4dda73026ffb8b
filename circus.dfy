/**
 * The circus-tent label codec: a PR's environment state lives only in its
 * labels, each written "🎪 <marker> <value>". A `Show` (one environment)
 * is encoded as one label per populated field, and a PR's label set is
 * decoded into its current show (active-SHA marker) and its building show
 * (building-SHA marker). Labels without the tent prefix are ignored.
 */
module Circus {
  import opened Wrappers
  import opened Text

  /** Every circus label starts with the tent emoji and a space. */
  const Prefix: string := "\U{1F3AA} "

  const StatusMarker: string := "\U{1F6A6}"           // 🚦
  const ShaMarker: string := "\U{1F3AF}"              // 🎯 active environment SHA
  const BuildingMarker: string := "\U{1F3D7}\U{FE0F}" // 🏗️ building environment SHA
  const CreatedMarker: string := "\U{1F4C5}"          // 📅
  const IpMarker: string := "\U{1F310}"               // 🌐
  const TtlMarker: string := "\U{231B}"               // ⌛
  const RequesterMarker: string := "\U{1F464}"        // 👤
  const ConfigMarker: string := "\U{2699}\U{FE0F}"    // ⚙️

  const Markers: seq<string> :=
    [StatusMarker, ShaMarker, BuildingMarker, CreatedMarker, IpMarker, TtlMarker, RequesterMarker, ConfigMarker]

  /** Values a decoded show takes for fields whose label is absent. */
  const DefaultStatus: string := "building"
  const DefaultTtl: string := "24h"
  const StandardConfig: string := "standard"

  /** Trigger labels the pipeline reacts to. */
  const TriggerPrefix: string := Prefix + "trigger-"
  const ConfigTriggerPrefix: string := Prefix + "conf-"

  function Key(marker: string): string
  {
    Prefix + marker + " "
  }

  function Label(marker: string, value: string): string
  {
    Key(marker) + value
  }

  predicate IsCircusLabel(lbl: string)
  {
    Prefix <= lbl
  }

  /** The labels carrying the tent prefix, in order. */
  function CircusLabels(labels: seq<string>): (r: seq<string>)
    ensures forall l :: l in r <==> l in labels && IsCircusLabel(l)
  {
    if labels == [] then []
    else (if IsCircusLabel(labels[0]) then [labels[0]] else []) + CircusLabels(labels[1..])
  }

  /** The labels without the tent prefix, in order: the ones the codec leaves alone. */
  function ForeignLabels(labels: seq<string>): (r: seq<string>)
    ensures forall l :: l in r <==> l in labels && !IsCircusLabel(l)
  {
    if labels == [] then []
    else (if IsCircusLabel(labels[0]) then [] else [labels[0]]) + ForeignLabels(labels[1..])
  }

  /** The value of `lbl` for `marker`, when the label carries that marker. */
  function MatchMarker(lbl: string, marker: string): (r: Option<string>)
    ensures r.Some? <==> Key(marker) <= lbl
    ensures r.Some? ==> lbl == Label(marker, r.value)
  {
    if Key(marker) <= lbl then Some(lbl[|Key(marker)|..]) else None
  }

  /** The value of the last label carrying `marker`; a later label overrides an earlier one. */
  function MarkerValue(labels: seq<string>, marker: string): Option<string>
  {
    if labels == [] then None
    else
      var later := MarkerValue(labels[1..], marker);
      if later.Some? then later else MatchMarker(labels[0], marker)
  }

  // ---------------------------------------------------------------------
  // Shows
  // ---------------------------------------------------------------------

  /**
   * One environment. Optional text fields hold "" when unset, which is how
   * the codec treats both a missing value and an empty one.
   */
  datatype Show = Show(
    prNumber: int,
    sha: string,
    status: string,
    ip: string,
    createdAt: string,
    ttl: string,
    requestedBy: string,
    config: string)
  {
    /** ECS service name: pr-{pr_number}-{sha}. */
    function AwsServiceName(): string
    {
      "pr-" + IntToString(prNumber) + "-" + sha
    }

    /** ECR image tag: the service name with -ci appended. */
    function AwsImageTag(): string
    {
      AwsServiceName() + "-ci"
    }

    predicate IsActive()
    {
      status == "running"
    }

    predicate IsUpdating()
    {
      status == "updating"
    }

    /** True when the show's short SHA differs from the 7-character prefix of `latestSha`. */
    predicate NeedsUpdate(latestSha: string)
    {
      sha != Take(latestSha, 7)
    }

    /**
     * The label fields in the order they are written, each with the value
     * its label carries: the IP with its dots written as dashes, and no
     * config value for the standard config.
     */
    function Fields(): seq<(string, string)>
    {
      [ (StatusMarker, status),
        (ShaMarker, sha),
        (CreatedMarker, createdAt),
        (IpMarker, ReplaceChar(ip, '.', '-')),
        (TtlMarker, ttl),
        (RequesterMarker, requestedBy),
        (ConfigMarker, if config == StandardConfig then "" else config) ]
    }

    /** The circus labels of this show: one per populated field. */
    function ToCircusLabels(): seq<string>
    {
      FieldLabels(Fields())
    }

    /**
     * Shows that decoding their own labels gives back: every field the
     * decoder defaults is set, and the IP has no dash of its own.
     */
    predicate Encodable()
    {
      status != "" && sha != "" && ttl != "" && config != "" && '-' !in ip
    }
  }

  /** `Show(pr_number, sha, status)` with the dataclass defaults. */
  function NewShow(prNumber: int, sha: string, status: string): Show
  {
    Show(prNumber, sha, status, "", "", DefaultTtl, "", StandardConfig)
  }

  function FieldLabels(fields: seq<(string, string)>): seq<string>
  {
    if fields == [] then []
    else (if fields[0].1 == "" then [] else [Label(fields[0].0, fields[0].1)]) + FieldLabels(fields[1..])
  }

  /** `Show.from_circus_labels`: the show with the given SHA, its other fields read from the labels. */
  function FromCircusLabels(prNumber: int, labels: seq<string>, sha: string): Show
  {
    Show(
      prNumber,
      sha,
      MarkerValue(labels, StatusMarker).GetOr(DefaultStatus),
      ReplaceChar(MarkerValue(labels, IpMarker).GetOr(""), '-', '.'),
      MarkerValue(labels, CreatedMarker).GetOr(""),
      MarkerValue(labels, TtlMarker).GetOr(DefaultTtl),
      MarkerValue(labels, RequesterMarker).GetOr(""),
      MarkerValue(labels, ConfigMarker).GetOr(StandardConfig))
  }

  // ---------------------------------------------------------------------
  // Pull requests
  // ---------------------------------------------------------------------

  /** The decoded state of one PR: recomputed from its labels every time. */
  datatype PullRequest = PullRequest(prNumber: int, labels: seq<string>)
  {
    function ActiveSha(): Option<string>
    {
      MarkerValue(labels, ShaMarker)
    }

    function BuildingSha(): Option<string>
    {
      MarkerValue(labels, BuildingMarker)
    }

    /** The show serving traffic: the one named by the active-SHA marker. */
    function CurrentShow(): Option<Show>
    {
      match ActiveSha()
      case Some(sha) => Some(FromCircusLabels(prNumber, labels, sha))
      case None => None
    }

    /** The show being built: named by the building-SHA marker, its status forced to building. */
    function BuildingShow(): Option<Show>
    {
      match BuildingSha()
      case Some(sha) => Some(FromCircusLabels(prNumber, labels, sha).(status := "building"))
      case None => None
    }

    function Shows(): (r: seq<Show>)
      ensures |r| <= 2
    {
      (if CurrentShow().Some? then [CurrentShow().value] else [])
      + (if BuildingShow().Some? then [BuildingShow().value] else [])
    }

    predicate HasShows()
    {
      |Shows()| > 0
    }
  }

  // ---------------------------------------------------------------------
  // Configuration trigger labels
  // ---------------------------------------------------------------------

  predicate IsConfigurationLabel(lbl: string)
  {
    ConfigTriggerPrefix <= lbl
  }

  /** The command after "🎪 conf-", or None for any other label. */
  function ParseConfigurationCommand(lbl: string): (r: Option<string>)
    ensures r.Some? <==> IsConfigurationLabel(lbl)
    ensures r.Some? ==> lbl == ConfigTriggerPrefix + r.value
  {
    if IsConfigurationLabel(lbl) then Some(lbl[|ConfigTriggerPrefix|..]) else None
  }

  // ---------------------------------------------------------------------
  // Codec laws
  // ---------------------------------------------------------------------

  /** Two labels with different markers never share a key: the markers begin with different code points. */
  lemma KeyMatch(m: string, n: string, v: string)
    requires m in Markers && n in Markers
    ensures Key(n) <= Label(m, v) <==> m == n
    ensures Label(m, v)[|Key(m)|..] == v
  {
    var l := Label(m, v);
    assert l[..|Key(m)|] == Key(m);
    if m != n {
      assert m[0] != n[0];
      assert l[|Prefix|] == m[0];
      assert Key(n)[|Prefix|] == n[0];
    }
  }

  lemma {:induction false} MarkerValueAppend(a: seq<string>, b: seq<string>, n: string)
    ensures MarkerValue(a + b, n) == if MarkerValue(b, n).Some? then MarkerValue(b, n) else MarkerValue(a, n)
    decreases |a|
  {
    if a != [] {
      assert (a + b)[1..] == a[1..] + b;
      MarkerValueAppend(a[1..], b, n);
    } else {
      assert a + b == b;
    }
  }

  /** A marker has a value exactly when some label carries it. */
  lemma {:induction false} MarkerValueSomeIff(labels: seq<string>, n: string)
    ensures MarkerValue(labels, n).Some? <==> exists l :: l in labels && Key(n) <= l
    decreases |labels|
  {
    if labels != [] {
      MarkerValueSomeIff(labels[1..], n);
      if MatchMarker(labels[0], n).Some? {
        assert labels[0] in labels && Key(n) <= labels[0];
      }
      if MarkerValue(labels[1..], n).Some? {
        var l :| l in labels[1..] && Key(n) <= l;
        assert l in labels;
      }
      if exists l :: l in labels && Key(n) <= l {
        var l :| l in labels && Key(n) <= l;
        if l != labels[0] {
          assert l in labels[1..];
        }
      }
    }
  }

  /** Dropping the labels without the tent prefix does not change any marker's value. */
  lemma {:induction false} MarkerValueIgnoresForeign(labels: seq<string>, n: string)
    ensures MarkerValue(labels, n) == MarkerValue(CircusLabels(labels), n)
    decreases |labels|
  {
    if labels != [] {
      MarkerValueIgnoresForeign(labels[1..], n);
      var head := if IsCircusLabel(labels[0]) then [labels[0]] else [];
      MarkerValueAppend(head, CircusLabels(labels[1..]), n);
      KeyMeansCircus(n, labels[0]);
    }
  }

  /** The value of marker `n` among `fields`, when populated. */
  function FieldValue(fields: seq<(string, string)>, n: string): Option<string>
  {
    if fields == [] then None
    else if fields[0].0 == n && fields[0].1 != "" then Some(fields[0].1)
    else FieldValue(fields[1..], n)
  }

  predicate DistinctMarkers(fields: seq<(string, string)>)
  {
    (forall i :: 0 <= i < |fields| ==> fields[i].0 in Markers)
    && (forall i, j :: 0 <= i < j < |fields| ==> fields[i].0 != fields[j].0)
  }

  /** Decoding a marker from a field list with distinct markers reads back that field's value. */
  lemma {:induction false} MarkerValueOfFields(fields: seq<(string, string)>, n: string)
    requires DistinctMarkers(fields)
    requires n in Markers
    ensures MarkerValue(FieldLabels(fields), n) == FieldValue(fields, n)
    decreases |fields|
  {
    if fields != [] {
      var head := if fields[0].1 == "" then [] else [Label(fields[0].0, fields[0].1)];
      assert DistinctMarkers(fields[1..]) by {
        forall i, j | 0 <= i < j < |fields[1..]| ensures fields[1..][i].0 != fields[1..][j].0 {
          assert fields[1..][i] == fields[i + 1] && fields[1..][j] == fields[j + 1];
        }
      }
      MarkerValueOfFields(fields[1..], n);
      MarkerValueAppend(head, FieldLabels(fields[1..]), n);
      if head != [] {
        KeyMatch(fields[0].0, n, fields[0].1);
        assert MarkerValue(head, n) == MatchMarker(head[0], n);
      }
      if fields[0].0 == n {
        FieldValueAbsent(fields[1..], n);
      }
    }
  }

  lemma {:induction false} FieldValueAbsent(fields: seq<(string, string)>, n: string)
    requires forall i :: 0 <= i < |fields| ==> fields[i].0 != n
    ensures FieldValue(fields, n) == None
    decreases |fields|
  {
    if fields != [] {
      FieldValueAbsent(fields[1..], n);
    }
  }

  lemma {:induction false} FieldValueAt(fields: seq<(string, string)>, k: nat)
    requires DistinctMarkers(fields)
    requires k < |fields|
    ensures FieldValue(fields, fields[k].0) == if fields[k].1 == "" then None else Some(fields[k].1)
    decreases k
  {
    if k > 0 {
      assert DistinctMarkers(fields[1..]) by {
        forall i, j | 0 <= i < j < |fields[1..]| ensures fields[1..][i].0 != fields[1..][j].0 {
          assert fields[1..][i] == fields[i + 1] && fields[1..][j] == fields[j + 1];
        }
      }
      FieldValueAt(fields[1..], k - 1);
    } else {
      FieldValueAbsent(fields[1..], fields[0].0);
    }
  }

  lemma {:induction false} CircusLabelsAppend(a: seq<string>, b: seq<string>)
    ensures CircusLabels(a + b) == CircusLabels(a) + CircusLabels(b)
    decreases |a|
  {
    if a != [] {
      assert (a + b)[0] == a[0];
      assert (a + b)[1..] == a[1..] + b;
      CircusLabelsAppend(a[1..], b);
    } else {
      assert a + b == b;
    }
  }

  lemma {:induction false} CircusLabelsAllCircus(labels: seq<string>)
    requires forall i :: 0 <= i < |labels| ==> IsCircusLabel(labels[i])
    ensures CircusLabels(labels) == labels
    decreases |labels|
  {
    if labels != [] {
      CircusLabelsAllCircus(labels[1..]);
    }
  }

  lemma {:induction false} ForeignLabelsAppend(a: seq<string>, b: seq<string>)
    ensures ForeignLabels(a + b) == ForeignLabels(a) + ForeignLabels(b)
    decreases |a|
  {
    if a != [] {
      assert (a + b)[0] == a[0];
      assert (a + b)[1..] == a[1..] + b;
      ForeignLabelsAppend(a[1..], b);
    } else {
      assert a + b == b;
    }
  }

  /** Filtering out the circus labels leaves a list of foreign labels alone, and empties a list of circus labels. */
  lemma {:induction false} ForeignLabelsOfUniform(labels: seq<string>)
    ensures (forall i :: 0 <= i < |labels| ==> !IsCircusLabel(labels[i])) ==> ForeignLabels(labels) == labels
    ensures (forall i :: 0 <= i < |labels| ==> IsCircusLabel(labels[i])) ==> ForeignLabels(labels) == []
    decreases |labels|
  {
    if labels != [] {
      ForeignLabelsOfUniform(labels[1..]);
    }
  }

  /** Rewriting the circus labels leaves the foreign labels as they were. */
  lemma ForeignAfterRewrite(labels: seq<string>, written: seq<string>)
    requires forall i :: 0 <= i < |written| ==> IsCircusLabel(written[i])
    ensures ForeignLabels(ForeignLabels(labels) + written) == ForeignLabels(labels)
  {
    var f := ForeignLabels(labels);
    ForeignLabelsAppend(f, written);
    forall i | 0 <= i < |f| ensures !IsCircusLabel(f[i]) {
      assert f[i] in f;
    }
    ForeignLabelsOfUniform(f);
    ForeignLabelsOfUniform(written);
  }

  /** Labels of fields with distinct markers are pairwise distinct. */
  lemma {:induction false} FieldLabelsUnique(fields: seq<(string, string)>)
    requires DistinctMarkers(fields)
    ensures forall i, j :: 0 <= i < j < |FieldLabels(fields)| ==> FieldLabels(fields)[i] != FieldLabels(fields)[j]
    decreases |fields|
  {
    if fields != [] {
      var rest := fields[1..];
      assert DistinctMarkers(rest) by {
        forall i, j | 0 <= i < j < |rest| ensures rest[i].0 != rest[j].0 {
          assert rest[i] == fields[i + 1] && rest[j] == fields[j + 1];
        }
      }
      FieldLabelsUnique(rest);
      FieldLabelsShape(rest);
      var tail := FieldLabels(rest);
      if fields[0].1 != "" {
        var h := Label(fields[0].0, fields[0].1);
        assert FieldLabels(fields) == [h] + tail;
        forall l | l in tail ensures l != h {
          var k :| 0 <= k < |rest| && l == Label(rest[k].0, rest[k].1);
          assert rest[k] == fields[k + 1];
          KeyMatch(rest[k].0, fields[0].0, rest[k].1);
          KeyMatch(fields[0].0, fields[0].0, fields[0].1);
        }
        var all := FieldLabels(fields);
        forall i, j | 0 <= i < j < |all| ensures all[i] != all[j] {
          assert all[j] == tail[j - 1] && tail[j - 1] in tail;
          if i > 0 {
            assert all[i] == tail[i - 1];
          } else {
            assert all[i] == h;
          }
        }
      }
    }
  }

  /** A label carrying a marker is a circus label. */
  lemma KeyMeansCircus(n: string, l: string)
    ensures Key(n) <= l ==> IsCircusLabel(l)
  {
    if Key(n) <= l {
      assert l[..|Prefix|] == Key(n)[..|Prefix|];
    }
  }

  lemma ShowFieldsDistinct(s: Show)
    ensures DistinctMarkers(s.Fields())
  {
  }

  /** Round trip: a show's own labels decode back to it (Show.to_circus_labels, Show.from_circus_labels). */
  lemma FromOwnLabels(s: Show)
    requires s.Encodable()
    ensures FromCircusLabels(s.prNumber, s.ToCircusLabels(), s.sha) == s
  {
    var fs := s.Fields();
    ShowFieldsDistinct(s);
    forall n | n in Markers ensures MarkerValue(s.ToCircusLabels(), n) == FieldValue(fs, n) {
      MarkerValueOfFields(fs, n);
    }
    for k := 0 to |fs|
      invariant forall i :: 0 <= i < k ==> FieldValue(fs, fs[i].0) == if fs[i].1 == "" then None else Some(fs[i].1)
    {
      FieldValueAt(fs, k);
    }
    assert fs[0] == (StatusMarker, s.status) && fs[4] == (TtlMarker, s.ttl);
    var dashed := ReplaceChar(s.ip, '.', '-');
    assert fs[3] == (IpMarker, dashed);
    ReplaceCharInverse(s.ip, '.', '-');
    assert MarkerValue(s.ToCircusLabels(), IpMarker).GetOr("") == dashed;
    assert fs[2] == (CreatedMarker, s.createdAt);
    assert fs[5] == (RequesterMarker, s.requestedBy);
    assert fs[6].0 == ConfigMarker;
  }

  /** Labels without the tent prefix never affect decoding (the unrelated label of the first unit test). */
  lemma DecodeIgnoresForeignLabels(prNumber: int, labels: seq<string>, sha: string)
    ensures FromCircusLabels(prNumber, labels, sha) == FromCircusLabels(prNumber, CircusLabels(labels), sha)
  {
    forall n ensures MarkerValue(labels, n) == MarkerValue(CircusLabels(labels), n) {
      MarkerValueIgnoresForeign(labels, n);
    }
  }

  /** Every label a show writes is a circus label, and each carries a different marker. */
  lemma {:induction false} FieldLabelsShape(fields: seq<(string, string)>)
    requires DistinctMarkers(fields)
    ensures forall l :: l in FieldLabels(fields) ==> IsCircusLabel(l)
    ensures forall l :: l in FieldLabels(fields) ==> exists i :: 0 <= i < |fields| && l == Label(fields[i].0, fields[i].1)
    decreases |fields|
  {
    if fields != [] {
      assert DistinctMarkers(fields[1..]) by {
        forall i, j | 0 <= i < j < |fields[1..]| ensures fields[1..][i].0 != fields[1..][j].0 {
          assert fields[1..][i] == fields[i + 1] && fields[1..][j] == fields[j + 1];
        }
      }
      FieldLabelsShape(fields[1..]);
      forall l | l in FieldLabels(fields[1..]) ensures exists i :: 0 <= i < |fields| && l == Label(fields[i].0, fields[i].1) {
        var k :| 0 <= k < |fields[1..]| && l == Label(fields[1..][k].0, fields[1..][k].1);
        assert l == Label(fields[k + 1].0, fields[k + 1].1);
      }
    }
  }

  /** With every value set, the field labels are exactly one label per field, in order. */
  lemma {:induction false} FieldLabelsAllSet(fields: seq<(string, string)>)
    requires forall i :: 0 <= i < |fields| ==> fields[i].1 != ""
    ensures |FieldLabels(fields)| == |fields|
    ensures forall i :: 0 <= i < |fields| ==> FieldLabels(fields)[i] == Label(fields[i].0, fields[i].1)
    decreases |fields|
  {
    if fields != [] {
      FieldLabelsAllSet(fields[1..]);
    }
  }

  /** A show with every field set and a non-standard config is written as seven labels in field order. */
  lemma ToCircusLabelsAllSet(s: Show)
    requires s.status != "" && s.sha != "" && s.createdAt != "" && s.ip != ""
    requires s.ttl != "" && s.requestedBy != "" && s.config != "" && s.config != StandardConfig
    ensures s.ToCircusLabels() == [
      Label(StatusMarker, s.status), Label(ShaMarker, s.sha), Label(CreatedMarker, s.createdAt),
      Label(IpMarker, ReplaceChar(s.ip, '.', '-')), Label(TtlMarker, s.ttl),
      Label(RequesterMarker, s.requestedBy), Label(ConfigMarker, s.config)]
  {
    FieldLabelsAllSet(s.Fields());
  }

  /** A decoded PR has a show exactly when some label carries an active-SHA or building-SHA marker. */
  lemma HasShowsIff(pr: PullRequest)
    ensures pr.HasShows() <==> exists l :: l in pr.labels && (Key(ShaMarker) <= l || Key(BuildingMarker) <= l)
  {
    MarkerValueSomeIff(pr.labels, ShaMarker);
    MarkerValueSomeIff(pr.labels, BuildingMarker);
  }

  /** A label set with no circus label decodes to no show at all. */
  lemma NoCircusLabelsNoShows(pr: PullRequest)
    requires forall l :: l in pr.labels ==> !IsCircusLabel(l)
    ensures pr.Shows() == [] && pr.CurrentShow() == None && pr.BuildingShow() == None && !pr.HasShows()
  {
    HasShowsIff(pr);
    forall l | l in pr.labels ensures !(Key(ShaMarker) <= l) && !(Key(BuildingMarker) <= l) {
      KeyMeansCircus(ShaMarker, l);
      KeyMeansCircus(BuildingMarker, l);
    }
  }

  /**
   * Writing a show's labels beside any foreign labels makes it the PR's
   * current show and only show.
   */
  lemma RelabelDecodes(others: seq<string>, s: Show)
    requires s.Encodable()
    ensures var pr := PullRequest(s.prNumber, ForeignLabels(others) + s.ToCircusLabels());
      pr.CurrentShow() == Some(s) && pr.BuildingShow() == None && pr.Shows() == [s]
  {
    var enc := s.ToCircusLabels();
    var ls := ForeignLabels(others) + enc;
    ShowFieldsDistinct(s);
    FieldLabelsShape(s.Fields());
    forall n | n in Markers ensures MarkerValue(ls, n) == MarkerValue(enc, n) {
      MarkerValueAppend(ForeignLabels(others), enc, n);
      ForeignNeverMatch(ForeignLabels(others), n);
    }
    MarkerValueOfFields(s.Fields(), ShaMarker);
    MarkerValueOfFields(s.Fields(), BuildingMarker);
    assert MarkerValue(ls, ShaMarker) == Some(s.sha);
    FieldValueAbsent(s.Fields(), BuildingMarker);
    assert MarkerValue(ls, BuildingMarker) == None;
    forall n | n in Markers ensures MarkerValue(ls, n) == MarkerValue(enc, n) {}
    FromOwnLabels(s);
    assert FromCircusLabels(s.prNumber, ls, s.sha) == FromCircusLabels(s.prNumber, enc, s.sha);
  }

  lemma {:induction false} ForeignNeverMatch(labels: seq<string>, n: string)
    requires forall l :: l in labels ==> !IsCircusLabel(l)
    ensures MarkerValue(labels, n) == None
    decreases |labels|
  {
    if labels != [] {
      ForeignNeverMatch(labels[1..], n);
      KeyMeansCircus(n, labels[0]);
    }
  }

  /** For a full SHA, an update is needed exactly when the show's SHA is not its 7-character prefix. */
  lemma NeedsUpdateIff(s: Show, latestSha: string)
    requires |latestSha| >= 7
    ensures s.NeedsUpdate(latestSha) <==> !(|s.sha| == 7 && s.sha <= latestSha)
  {
  }
}
