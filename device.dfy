/**
  Device.java: the build properties computed once by the class's static
  initialiser. The output of each `getprop`/`cat` command is a parameter; the
  XML pull parser is represented by the events it reports.
*/
module Device {
  import opened Wrappers
  import opened JavaStrings

  /** Release channel of stable builds. */
  const RcSnapshot := "SNAPSHOT"
  /** Release channel of nightly builds. */
  const RcNightly := "NIGHTLY"
  /** Release channel of unofficial builds. */
  const RcUnofficial := "UNOFFICIAL"

  // ---------------------------------------------------------------------------
  // ro.cm.version
  // ---------------------------------------------------------------------------

  /** The exceptions the version decoding can raise; either aborts the class's initialisation. */
  datatype InitError =
    | ArrayIndexOutOfBounds(index: nat)
    | StringIndexOutOfBounds(end: nat)

  /** CM_NUMBER, CM_RELEASE_CHANNEL and CM_BRANCH. */
  datatype BuildVersion = BuildVersion(cmNumber: string, releaseChannel: string, branch: string)

  /** `Cmd.exec(...).replace("\n", "")`: the command output without its line breaks. */
  function StripNewlines(output: string): (value: string)
    ensures '\n' !in value
    ensures '\n' !in output ==> value == output
    ensures IsSubsequence(value, output)
  {
    RemoveNewlines(output);
    RemoveAll(output, "\n")
  }

  lemma RemoveNewlines(output: string)
    ensures '\n' !in RemoveAll(output, "\n")
    ensures '\n' !in output ==> RemoveAll(output, "\n") == output
    ensures IsSubsequence(RemoveAll(output, "\n"), output)
  {
    RemoveAllChar(output, '\n');
    ContainsChar(output, '\n');
    RemoveAllFacts(output, "\n");
  }

  /**
    A non-empty version string, cut at every dash into `parts`, that decodes
    without an exception: a non-empty segment at index 2 or later (so `split`
    keeps at least three elements), and for a SNAPSHOT channel a fourth segment
    of at least four characters.
  */
  predicate Decodable(parts: seq<string>) {
    NonEmptyFrom(parts, 2) && (parts[2] == RcSnapshot ==> |parts| > 3 && |parts[3]| >= 4)
  }

  /** The branch name a decoded version implies. */
  function BranchOf(parts: seq<string>): string
    requires Decodable(parts)
  {
    if parts[2] == RcSnapshot then "stable/cm-" + parts[3][..4] else "cm-" + parts[0]
  }

  /**
    The static initialiser's decoding of `ro.cm.version`. The contract is stated
    over the raw dash-separated segments; the body follows the code, which
    indexes the result of `split("-")`.
  */
  function DecodeVersion(version: string): (r: Result<BuildVersion, InitError>)
    ensures version == "" ==> r == Ok(BuildVersion("", "", ""))
    ensures version != "" ==> (r.Ok? <==> Decodable(Segments(version, '-')))
    ensures version != "" && r.Ok? ==>
      var parts := Segments(version, '-');
      && r.value.cmNumber == parts[0]
      && r.value.releaseChannel == parts[2]
      && r.value.branch == BranchOf(parts)
    ensures r.Ok? ==> '-' !in r.value.cmNumber && '-' !in r.value.releaseChannel
  {
    if version == "" then Ok(BuildVersion(version, version, version))
    else
      var version' := Split(version, '-');
      SplitLongerThan(version, '-', 2);
      SplitLongerThan(version, '-', 3);
      if |version'| <= 0 then Err(ArrayIndexOutOfBounds(0))
      else if |version'| <= 2 then Err(ArrayIndexOutOfBounds(2))
      else
        var cmNumber := version'[0];
        var channel := version'[2];
        if channel == RcSnapshot then
          if |version'| <= 3 then Err(ArrayIndexOutOfBounds(3))
          else if |version'[3]| < 4 then Err(StringIndexOutOfBounds(4))
          else Ok(BuildVersion(cmNumber, channel, "stable/cm-" + version'[3][..4]))
        else Ok(BuildVersion(cmNumber, channel, "cm-" + cmNumber))
  }

  /**
    The documented format `<number>-<date>-<channel>[-<extra>...]`: writing the
    fields with dashes between them and decoding gives the fields back.
  */
  lemma DecodeWellFormedVersion(parts: seq<string>)
    requires |parts| >= 3
    requires forall k :: 0 <= k < |parts| ==> '-' !in parts[k]
    requires parts[|parts| - 1] != ""
    requires parts[2] == RcSnapshot ==> |parts[3..]| > 0 && |parts[3]| >= 4
    ensures DecodeVersion(Join(parts, '-')) == Ok(BuildVersion(parts[0], parts[2], BranchOf(parts)))
  {
    var version := Join(parts, '-');
    SegmentsOfJoin(parts, '-');
    assert version == parts[0] + "-" + Join(parts[1..], '-');
    assert version != "";
    assert NonEmptyFrom(parts, 2) by {
      assert parts[|parts| - 1] != "";
    }
  }

  /** A nightly version string decodes to its number, its channel and the `cm-` branch. */
  lemma NightlyVersion()
    ensures DecodeVersion("13.0-20160101-NIGHTLY") == Ok(BuildVersion("13.0", "NIGHTLY", "cm-13.0"))
  {
    var parts := ["13.0", "20160101", "NIGHTLY"];
    assert Join(parts, '-') == "13.0-20160101-NIGHTLY";
    assert '-' !in parts[0] && '-' !in parts[1] && '-' !in parts[2];
    assert BranchOf(parts) == "cm-13.0";
    DecodeWellFormedVersion(parts);
  }

  /** A stable version string decodes to the `stable/cm-` branch named by its fourth field. */
  lemma SnapshotVersion()
    ensures DecodeVersion("13.0-20161224-SNAPSHOT-ZNH2K") == Ok(BuildVersion("13.0", "SNAPSHOT", "stable/cm-ZNH2"))
  {
    var parts := ["13.0", "20161224", "SNAPSHOT", "ZNH2K"];
    assert Join(parts, '-') == "13.0-20161224-SNAPSHOT-ZNH2K";
    assert '-' !in parts[0] && '-' !in parts[1] && '-' !in parts[2] && '-' !in parts[3];
    assert parts[3][..4] == "ZNH2";
    assert BranchOf(parts) == "stable/cm-ZNH2";
    DecodeWellFormedVersion(parts);
  }

  /** A version with only two fields makes `version[2]` fail. */
  lemma TwoFieldVersionFails()
    ensures DecodeVersion("13.0-20160101") == Err(ArrayIndexOutOfBounds(2))
  {
    var parts := ["13.0", "20160101"];
    assert Join(parts, '-') == "13.0-20160101";
    SegmentsOfJoin(parts, '-');
    assert !Decodable(parts);
  }

  // ---------------------------------------------------------------------------
  // build-manifest.xml
  // ---------------------------------------------------------------------------

  /** The event types XmlPullParser reports. */
  datatype EventType = StartDocument | EndDocument | StartTag | EndTag | Text

  /** One parser event: its type, `getName()` and `getAttributeValue(null, "name")`. */
  datatype PullEvent = PullEvent(eventType: EventType, name: string, nameAttribute: Option<string>)

  /** The two checked exceptions the parsing code catches. */
  datatype ParserError = XmlPullParserException | IOException

  /**
    What the parser reports for one manifest: `events[0]` is `getEventType()`,
    each later element the result of one `next()`. Once the list is exhausted,
    the following call raises `failure` when there is one and reports
    END_DOCUMENT otherwise; an empty list with a failure stands for a parser
    that could not be created or given its input.
  */
  datatype PullStream = PullStream(events: seq<PullEvent>, failure: Option<ParserError>)

  const ProjectTag := "project"
  /** The organisation's namespace in a repository name. */
  const OrgMarker := "CyanogenMod/"

  /** An END_TAG of `project` whose `name` attribute is present and in the namespace. */
  predicate IsDeviceProject(e: PullEvent) {
    e.eventType == EndTag && e.name == ProjectTag && e.nameAttribute.Some? && Contains(e.nameAttribute.value, OrgMarker)
  }

  /** The names the parsing code collects from the events it inspects, in event order. */
  function DeviceProjects(events: seq<PullEvent>): (names: seq<string>)
    ensures |names| <= |events|
    ensures forall k :: 0 <= k < |names| ==> Contains(names[k], OrgMarker)
  {
    if |events| == 0 then []
    else (if IsDeviceProject(events[0]) then [events[0].nameAttribute.value] else []) + DeviceProjects(events[1..])
  }

  /** Every `name` attribute the events carry, whatever the event. */
  function NameAttributes(events: seq<PullEvent>): seq<string>
  {
    if |events| == 0 then []
    else (if events[0].nameAttribute.Some? then [events[0].nameAttribute.value] else []) + NameAttributes(events[1..])
  }

  /** The first index from `i` on where `next()` reports END_DOCUMENT, or the end of the list. */
  function StopIndex(events: seq<PullEvent>, i: nat): (j: nat)
    requires i <= |events|
    ensures i <= j <= |events|
    ensures forall k :: i <= k < j ==> events[k].eventType != EndDocument
    ensures j < |events| ==> events[j].eventType == EndDocument
    decreases |events| - i
  {
    if i == |events| || events[i].eventType == EndDocument then i else StopIndex(events, i + 1)
  }

  /** How many events the do-while body inspects: the first one unconditionally, then up to END_DOCUMENT. */
  function Visited(events: seq<PullEvent>): (n: nat)
    ensures n <= |events|
  {
    if |events| == 0 then 0 else StopIndex(events, 1)
  }

  /** `next()` reports END_DOCUMENT before the parser fails. */
  predicate EndsNormally(stream: PullStream) {
    Visited(stream.events) < |stream.events| || stream.failure.None?
  }

  /** The collection `parseBuildManifest` returns: the collected names, or nothing after an exception. */
  function ManifestProjects(stream: PullStream): (projects: seq<string>)
    ensures !EndsNormally(stream) ==> projects == []
    ensures |projects| <= |stream.events|
    ensures forall k :: 0 <= k < |projects| ==> Contains(projects[k], OrgMarker)
  {
    if EndsNormally(stream) then DeviceProjects(stream.events[..Visited(stream.events)]) else []
  }

  /** `parseBuildManifest`: a do-while loop over the parser's events. */
  method ParseBuildManifest(stream: PullStream) returns (projects: seq<string>)
    ensures projects == ManifestProjects(stream)
  {
    var events := stream.events;
    projects := [];
    if |events| == 0 {
      // the parser failed before reporting anything
      return;
    }
    var i := 0;
    while true
      invariant 0 <= i < |events|
      invariant forall k :: 1 <= k <= i ==> events[k].eventType != EndDocument
      invariant projects == DeviceProjects(events[..i])
      decreases |events| - i
    {
      var event := events[i];
      DeviceProjectsAppend(events[..i], [event]);
      assert events[..i + 1] == events[..i] + [event];
      if event.eventType == EndTag && event.name == ProjectTag {
        var value := event.nameAttribute;
        if value.Some? && Contains(value.value, OrgMarker) {
          projects := projects + [value.value];
        }
      }
      // xpp.next()
      if i + 1 == |events| {
        assert events[..i + 1] == events;
        if stream.failure.Some? {
          // the catch blocks: deviceProjects.clear()
          projects := [];
        }
        return;
      }
      i := i + 1;
      if events[i].eventType == EndDocument {
        return;
      }
    }
  }

  /** The static initialiser's gate: no manifest output means no projects. */
  method LoadProjects(manifest: string, stream: PullStream) returns (projects: seq<string>)
    ensures manifest == "" ==> projects == []
    ensures manifest != "" ==> projects == ManifestProjects(stream)
  {
    if manifest == "" {
      projects := [];
    } else {
      projects := ParseBuildManifest(stream);
    }
  }

  /** Collecting from two runs of events is collecting from the first, then from the second. */
  lemma {:induction false} DeviceProjectsAppend(a: seq<PullEvent>, b: seq<PullEvent>)
    ensures DeviceProjects(a + b) == DeviceProjects(a) + DeviceProjects(b)
    decreases |a|
  {
    if |a| > 0 {
      DeviceProjectsAppend(a[1..], b);
      assert (a + b)[1..] == a[1..] + b;
      assert (a + b)[0] == a[0];
    } else {
      assert a + b == b;
    }
  }

  /** An event that is not a device project contributes nothing, wherever it stands. */
  lemma OtherEventContributesNothing(a: seq<PullEvent>, e: PullEvent, b: seq<PullEvent>)
    requires !IsDeviceProject(e)
    ensures DeviceProjects(a + [e] + b) == DeviceProjects(a + b)
  {
    DeviceProjectsAppend(a + [e], b);
    DeviceProjectsAppend(a, [e]);
    DeviceProjectsAppend(a, b);
    assert DeviceProjects([e]) == [] + DeviceProjects([e][1..]);
  }

  /** The result is an ArrayList, not a set: a repeated project is collected once per END_TAG. */
  lemma DuplicatesKept(e: PullEvent)
    requires IsDeviceProject(e)
    ensures DeviceProjects([e, e]) == [e.nameAttribute.value, e.nameAttribute.value]
  {
    DeviceProjectsAppend([e], [e]);
    assert [e, e] == [e] + [e];
    assert DeviceProjects([e]) == [e.nameAttribute.value] + DeviceProjects([]);
  }

  /** The collected names are some of the events' `name` attributes, in the same order. */
  lemma {:induction false} DeviceProjectsAreNameAttributes(events: seq<PullEvent>)
    ensures IsSubsequence(DeviceProjects(events), NameAttributes(events))
    decreases |events|
  {
    if |events| > 0 {
      var rest := events[1..];
      DeviceProjectsAreNameAttributes(rest);
      var e := events[0];
      if IsDeviceProject(e) {
        assert DeviceProjects(events) == [e.nameAttribute.value] + DeviceProjects(rest);
        assert NameAttributes(events) == [e.nameAttribute.value] + NameAttributes(rest);
      } else if e.nameAttribute.Some? {
        assert DeviceProjects(events) == DeviceProjects(rest);
        SubsequenceOfLonger(DeviceProjects(rest), [e.nameAttribute.value], NameAttributes(rest));
      } else {
        assert DeviceProjects(events) == DeviceProjects(rest);
        assert NameAttributes(events) == NameAttributes(rest);
      }
    }
  }

  /** A parser that fails before END_DOCUMENT yields an empty collection. */
  lemma FailureYieldsNothing(stream: PullStream)
    requires stream.failure.Some?
    requires forall k :: 1 <= k < |stream.events| ==> stream.events[k].eventType != EndDocument
    ensures ManifestProjects(stream) == []
  {
    if |stream.events| > 0 {
      assert Visited(stream.events) == |stream.events|;
    }
  }

  /**
    The loop stops at the first END_DOCUMENT reported after the first event:
    what comes after it, a failure included, is never inspected.
  */
  lemma StopsAtEndDocument(events: seq<PullEvent>, n: nat, failure: Option<ParserError>)
    requires 0 < n < |events|
    requires events[n].eventType == EndDocument
    requires forall k :: 1 <= k < n ==> events[k].eventType != EndDocument
    ensures ManifestProjects(PullStream(events, failure)) == DeviceProjects(events[..n])
  {
    var j := StopIndex(events, 1);
    assert j == n;
    var s := PullStream(events, failure);
    assert EndsNormally(s);
    assert s.events[..Visited(s.events)] == events[..n];
  }

  // ---------------------------------------------------------------------------
  // The static initialiser
  // ---------------------------------------------------------------------------

  /** The static fields DEVICE, CM_VERSION, CM_NUMBER, CM_RELEASE_CHANNEL, CM_BRANCH, BUILD_DATE and PROJECTS. */
  datatype DeviceInfo = DeviceInfo(
    device: string,
    cmVersion: string,
    cmNumber: string,
    releaseChannel: string,
    branch: string,
    buildDate: string,
    projects: seq<string>)

  /**
    The class initialisation, from the outputs of `getprop ro.cm.device`,
    `getprop ro.cm.version`, `getprop ro.build.date` and `cat
    /etc/build-manifest.xml`, and the events the parser reports for the last.
    A version that cannot be decoded aborts it before the manifest is read.
  */
  method Initialize(deviceOutput: string, versionOutput: string, dateOutput: string, manifest: string, stream: PullStream)
    returns (r: Result<DeviceInfo, InitError>)
    ensures DecodeVersion(StripNewlines(versionOutput)).Err? ==> r == Err(DecodeVersion(StripNewlines(versionOutput)).error)
    ensures DecodeVersion(StripNewlines(versionOutput)).Ok? ==>
      var v := DecodeVersion(StripNewlines(versionOutput)).value;
      r == Ok(DeviceInfo(
        StripNewlines(deviceOutput), StripNewlines(versionOutput), v.cmNumber, v.releaseChannel, v.branch,
        StripNewlines(dateOutput), if manifest == "" then [] else ManifestProjects(stream)))
  {
    var device := StripNewlines(deviceOutput);
    var cmVersion := StripNewlines(versionOutput);
    var decoded := DecodeVersion(cmVersion);
    if decoded.Err? {
      return Err(decoded.error);
    }
    var buildDate := StripNewlines(dateOutput);
    var projects := LoadProjects(manifest, stream);
    r := Ok(DeviceInfo(device, cmVersion, decoded.value.cmNumber, decoded.value.releaseChannel,
                       decoded.value.branch, buildDate, projects));
  }
}
