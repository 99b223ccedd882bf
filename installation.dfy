/**
 * The installation controller's test doubles: where the local chart fetcher
 * looks for a chart archive, and the constructors of the fixtures.
 */
module Installation {
  import opened Wrappers
  import opened Strings
  import GoPath

  /** A chart reference (shipper.Chart). */
  datatype Chart = Chart(Name: string, Version: string, RepoURL: string)

  function IsAlnum(c: char): (r: bool)
  {
    ('a' <= c <= 'z') || ('A' <= c <= 'Z') || ('0' <= c <= '9')
  }

  /** The regular expression `[^a-zA-Z0-9]+` replaced by "_", scanning left to
      right: inRun says the previous character was already part of a
      replaced run. */
  function Collapse(s: string, inRun: bool): (r: string)
    decreases |s|
  {
    if s == [] then []
    else if IsAlnum(s[0]) then [s[0]] + Collapse(s[1..], false)
    else if inRun then Collapse(s[1..], true)
    else "_" + Collapse(s[1..], true)
  }

  /** The repository URL as a directory name. */
  function Sanitize(repoURL: string): (r: string)
  {
    Collapse(repoURL, false)
  }

  /** Only ASCII letters, digits and "_". */
  ghost predicate InAlphabet(s: string)
  {
    forall i :: 0 <= i < |s| ==> IsAlnum(s[i]) || s[i] == '_'
  }

  /** No "__" anywhere. */
  ghost predicate NoDoubleUnderscore(s: string)
  {
    forall i :: 0 <= i < |s| - 1 ==> !(s[i] == '_' && s[i + 1] == '_')
  }

  function Alnums(s: string): (r: string)
  {
    if s == [] then [] else (if IsAlnum(s[0]) then [s[0]] else []) + Alnums(s[1..])
  }

  lemma {:induction false} CollapseInAlphabet(s: string, inRun: bool)
    ensures InAlphabet(Collapse(s, inRun))
  {
    if s != [] {
      var next := !IsAlnum(s[0]);
      CollapseInAlphabet(s[1..], next);
    }
  }

  lemma {:induction false} CollapseNoDoubleUnderscore(s: string, inRun: bool)
    ensures NoDoubleUnderscore(Collapse(s, inRun))
    ensures inRun ==> Collapse(s, inRun) == [] || Collapse(s, inRun)[0] != '_'
  {
    if s != [] {
      var next := !IsAlnum(s[0]);
      CollapseNoDoubleUnderscore(s[1..], next);
      var rest := Collapse(s[1..], next);
      if IsAlnum(s[0]) {
        assert ([s[0]] + rest)[1..] == rest;
      } else if !inRun {
        assert ("_" + rest)[1..] == rest;
      }
    }
  }

  lemma {:induction false} CollapseAlnums(s: string, inRun: bool)
    ensures Alnums(Collapse(s, inRun)) == Alnums(s)
  {
    if s != [] {
      var next := !IsAlnum(s[0]);
      CollapseAlnums(s[1..], next);
      var rest := Collapse(s[1..], next);
      if IsAlnum(s[0]) {
        assert ([s[0]] + rest)[1..] == rest;
      } else if !inRun {
        assert ("_" + rest)[1..] == rest;
      }
    }
  }

  /** The directory name holds only letters, digits and "_", never two "_"
      in a row, and the letters and digits of the URL in their order. */
  lemma SanitizeShape(repoURL: string)
    ensures InAlphabet(Sanitize(repoURL))
    ensures NoDoubleUnderscore(Sanitize(repoURL))
    ensures Alnums(Sanitize(repoURL)) == Alnums(repoURL)
  {
    CollapseInAlphabet(repoURL, false);
    CollapseNoDoubleUnderscore(repoURL, false);
    CollapseAlnums(repoURL, false);
  }

  lemma {:induction false} CollapseIdempotent(s: string, inRun: bool)
    ensures Collapse(Collapse(s, inRun), inRun) == Collapse(s, inRun)
  {
    if s != [] {
      if IsAlnum(s[0]) {
        var rest := Collapse(s[1..], false);
        CollapseIdempotent(s[1..], false);
        assert ([s[0]] + rest)[1..] == rest;
      } else if inRun {
        CollapseIdempotent(s[1..], true);
      } else {
        var rest := Collapse(s[1..], true);
        CollapseIdempotent(s[1..], true);
        assert ("_" + rest)[1..] == rest;
      }
    }
  }

  /** Sanitizing twice is sanitizing once. */
  lemma SanitizeIdempotent(repoURL: string)
    ensures Sanitize(Sanitize(repoURL)) == Sanitize(repoURL)
  {
    CollapseIdempotent(repoURL, false);
  }

  lemma {:induction false} CollapseAlnum(s: string, inRun: bool)
    requires forall i :: 0 <= i < |s| ==> IsAlnum(s[i])
    ensures Collapse(s, inRun) == s
  {
    if s != [] {
      CollapseAlnum(s[1..], false);
      assert [s[0]] + s[1..] == s;
    }
  }

  lemma {:induction false} CollapseSkipsRun(r: string, y: string)
    requires forall i :: 0 <= i < |r| ==> !IsAlnum(r[i])
    ensures Collapse(r + y, true) == Collapse(y, true)
  {
    if r != [] {
      assert (r + y)[1..] == r[1..] + y;
      CollapseSkipsRun(r[1..], y);
    } else {
      assert r + y == y;
    }
  }

  /** The scan restarts after an alphanumeric character. */
  lemma {:induction false} CollapseConcat(x: string, z: string, inRun: bool)
    requires |x| > 0 && IsAlnum(x[|x| - 1])
    ensures Collapse(x + z, inRun) == Collapse(x, inRun) + Collapse(z, false)
    decreases |x|
  {
    assert (x + z)[1..] == x[1..] + z;
    if |x| == 1 {
      assert x[1..] + z == z;
    } else if IsAlnum(x[0]) {
      CollapseConcat(x[1..], z, false);
    } else {
      CollapseConcat(x[1..], z, true);
    }
  }

  /** A maximal run of other characters, between alphanumeric neighbours or
      the ends of the string, becomes one "_"; alphanumerics stay. Together
      these fix Sanitize on every string. */
  lemma SanitizeRun(x: string, r: string, y: string)
    requires x == [] || IsAlnum(x[|x| - 1])
    requires |r| > 0 && forall i :: 0 <= i < |r| ==> !IsAlnum(r[i])
    requires y == [] || IsAlnum(y[0])
    ensures Sanitize(x + r + y) == Sanitize(x) + "_" + Sanitize(y)
  {
    assert x + r + y == x + (r + y);
    if x != [] {
      CollapseConcat(x, r + y, false);
    } else {
      assert x + (r + y) == r + y;
    }
    assert (r + y)[1..] == r[1..] + y;
    CollapseSkipsRun(r[1..], y);
    if y != [] {
      assert Collapse(y, true) == Collapse(y, false);
    }
  }

  lemma SanitizeKeepsAlnum(s: string)
    requires forall i :: 0 <= i < |s| ==> IsAlnum(s[i])
    ensures Sanitize(s) == s
  {
    CollapseAlnum(s, false);
  }

  /** fmt.Sprintf("%s-%s.tgz", Name, Version) */
  function ArchiveName(chartspec: Chart): (r: string)
  {
    chartspec.Name + "-" + chartspec.Version + ".tgz"
  }

  /** The file localFetchChart reads. */
  function ChartPath(chartspec: Chart): (r: string)
  {
    GoPath.PathJoin(["testdata", "chart-cache", Sanitize(chartspec.RepoURL), ArchiveName(chartspec)])
  }

  lemma SanitizeEmpty(s: string)
    ensures Sanitize(s) == [] <==> s == []
  {
    if s != [] {
      assert Collapse(s, false)[0] == (if IsAlnum(s[0]) then s[0] else '_');
    }
  }

  lemma SanitizedIsPlain(s: string)
    requires s != []
    ensures GoPath.PlainElement(Sanitize(s))
  {
    SanitizeShape(s);
    SanitizeEmpty(s);
    var t := Sanitize(s);
    assert '/' !in t by {
      forall i | 0 <= i < |t| ensures t[i] != '/' {
        assert IsAlnum(t[i]) || t[i] == '_';
      }
    }
    assert t != "." && t != ".." by {
      if |t| <= 2 { assert IsAlnum(t[0]) || t[0] == '_'; }
    }
  }

  lemma ArchiveNameIsPlain(chartspec: Chart)
    requires '/' !in chartspec.Name && '/' !in chartspec.Version
    ensures GoPath.PlainElement(ArchiveName(chartspec))
  {
    var file := ArchiveName(chartspec);
    assert file == chartspec.Name + ("-" + chartspec.Version + ".tgz");
    assert forall c :: c in file ==> c in chartspec.Name || c in ("-" + chartspec.Version + ".tgz");
    assert |file| >= 5;
  }

  lemma JoinSkippingEmpty(a: string, b: string, file: string)
    requires GoPath.PlainElement(a) && GoPath.PlainElement(b) && GoPath.PlainElement(file)
    ensures GoPath.PathJoin([a, b, "", file]) == a + "/" + b + "/" + file
  {
    assert [a, b, "", file] == [a, b] + [""] + [file];
    assert [a, b] + [file] == [a] + ([b] + [file]);
    GoPath.PathJoinSkipsEmpty([a, b], [file]);
    GoPath.JoinPlain([a] + ([b] + [file]));
    JoinCons(a, [b] + [file], '/');
    JoinCons(b, [file], '/');
    assert a + "/" + (b + "/" + file) == a + "/" + b + "/" + file;
  }

  lemma JoinFour(a: string, b: string, dir: string, file: string)
    requires GoPath.PlainElement(a) && GoPath.PlainElement(b)
    requires GoPath.PlainElement(dir) && GoPath.PlainElement(file)
    ensures GoPath.PathJoin([a, b, dir, file]) == a + "/" + b + "/" + dir + "/" + file
  {
    GoPath.JoinPlain([a, b, dir, file]);
    JoinFourElements(a, b, dir, file, '/');
  }

  lemma PathWithoutRepository(file: string)
    requires GoPath.PlainElement(file)
    ensures GoPath.PathJoin(["testdata", "chart-cache", "", file]) == "testdata/chart-cache/" + file
  {
    assert GoPath.PlainElement("testdata") && GoPath.PlainElement("chart-cache");
    assert "testdata" + "/" + "chart-cache" + "/" == "testdata/chart-cache/";
    JoinSkippingEmpty("testdata", "chart-cache", file);
  }

  lemma PathWithRepository(dir: string, file: string)
    requires GoPath.PlainElement(dir) && GoPath.PlainElement(file)
    ensures GoPath.PathJoin(["testdata", "chart-cache", dir, file]) == "testdata/chart-cache/" + dir + "/" + file
  {
    assert GoPath.PlainElement("testdata") && GoPath.PlainElement("chart-cache");
    assert "testdata" + "/" + "chart-cache" + "/" == "testdata/chart-cache/";
    JoinFour("testdata", "chart-cache", dir, file);
  }

  /** With no "/" in the chart's name and version, the archive lies directly
      in the cache directory of its repository, or, for an empty repository
      URL, directly in the cache. */
  lemma ChartPathShape(chartspec: Chart)
    requires '/' !in chartspec.Name && '/' !in chartspec.Version
    ensures chartspec.RepoURL == "" ==>
              ChartPath(chartspec) == "testdata/chart-cache/" + ArchiveName(chartspec)
    ensures chartspec.RepoURL != "" ==>
              ChartPath(chartspec) == "testdata/chart-cache/" + Sanitize(chartspec.RepoURL) + "/" + ArchiveName(chartspec)
  {
    ArchiveNameIsPlain(chartspec);
    SanitizeEmpty(chartspec.RepoURL);
    if chartspec.RepoURL == "" {
      PathWithoutRepository(ArchiveName(chartspec));
    } else {
      SanitizedIsPlain(chartspec.RepoURL);
      PathWithRepository(Sanitize(chartspec.RepoURL), ArchiveName(chartspec));
    }
  }

  /** What reading a file returned. */
  datatype ReadResult = ReadError(err: string) | ReadData(data: seq<int>)

  /** localFetchChart: read the archive at ChartPath and hand its bytes to the
      archive loader; a read error comes back unchanged, with no chart. */
  function LocalFetchChart<C>(chartspec: Chart, readFile: string -> ReadResult,
                              loadArchive: seq<int> -> Result<C, string>): (r: Result<C, string>)
    ensures readFile(ChartPath(chartspec)).ReadError? ==> r == Failure(readFile(ChartPath(chartspec)).err)
    ensures readFile(ChartPath(chartspec)).ReadData? ==> r == loadArchive(readFile(ChartPath(chartspec)).data)
  {
    match readFile(ChartPath(chartspec))
    case ReadError(err) => Failure(err)
    case ReadData(data) => loadArchive(data)
  }

  const AppLabel: string := "shipper-app"
  const HelmWorkaroundLabel: string := "shipper-helm-workaround"
  const True: string := "true"

  datatype ObjectMeta = ObjectMeta(Name: string, Namespace: string, Labels: map<string, string>)

  /** Values: the chart values; None is Go's nil. */
  datatype InstallationTargetSpec = InstallationTargetSpec(Chart: Chart, Values: Option<map<string, string>>, CanOverride: bool)

  datatype InstallationTarget = InstallationTarget(Meta: ObjectMeta, Spec: InstallationTargetSpec)

  /** buildChart */
  function BuildChart(appName: string, version: string, repoUrl: string): (c: Chart)
    ensures c.Name == appName && c.Version == version && c.RepoURL == repoUrl
  {
    Chart(appName, version, repoUrl)
  }

  /** buildInstallationTarget: named after the application, labelled with it
      and with the Helm workaround, carrying the chart, no values, and
      permission to override. */
  function BuildInstallationTarget(namespace: string, appName: string, chart: Chart): (it: InstallationTarget)
    ensures it.Meta.Name == appName && it.Meta.Namespace == namespace
    ensures it.Meta.Labels.Keys == {AppLabel, HelmWorkaroundLabel}
    ensures it.Meta.Labels[AppLabel] == appName && it.Meta.Labels[HelmWorkaroundLabel] == True
    ensures it.Spec.Chart == chart && it.Spec.Values.None? && it.Spec.CanOverride
  {
    InstallationTarget(
      ObjectMeta(appName, namespace, map[AppLabel := appName, HelmWorkaroundLabel := True]),
      InstallationTargetSpec(chart, None, true))
  }

  datatype ConditionStatus = ConditionTrue | ConditionFalse | ConditionUnknown
  datatype TargetConditionType = TargetConditionTypeOperational | TargetConditionTypeReady
  datatype TargetCondition = TargetCondition(Type: TargetConditionType, Status: ConditionStatus)
  datatype InstallationTargetStatus = InstallationTargetStatus(Conditions: seq<TargetCondition>)

  const TargetConditionOperational: TargetCondition := TargetCondition(TargetConditionTypeOperational, ConditionTrue)
  const TargetConditionReady: TargetCondition := TargetCondition(TargetConditionTypeReady, ConditionTrue)

  /** The status of a successful installation: Operational, then Ready, both
      True. */
  function SuccessStatus(): (s: InstallationTargetStatus)
    ensures |s.Conditions| == 2
    ensures s.Conditions[0].Type == TargetConditionTypeOperational && s.Conditions[1].Type == TargetConditionTypeReady
    ensures forall i :: 0 <= i < |s.Conditions| ==> s.Conditions[i].Status == ConditionTrue
  {
    InstallationTargetStatus([TargetConditionOperational, TargetConditionReady])
  }
}
