/**
  ChangelogActivity.java: the activity that classifies the running build,
  warns about non-nightly builds and asks for the changelog. The system
  properties and the connectivity state are parameters; dialogs, toasts and
  started requests are recorded in ghost fields.
*/
module ChangelogActivity {
  import opened Wrappers
  import opened JavaStrings
  import Device

  // ---------------------------------------------------------------------------
  // String identity
  // ---------------------------------------------------------------------------

  /** Where a String object lives: the constant pool (interned literals) or the heap. */
  datatype Ref = Pool | Heap(id: nat)

  /** A Java String object: its characters and its identity. */
  datatype JString = JString(chars: string, ref: Ref)

  /** Java's `==` on two String objects: they are one object (interned literals with equal text are). */
  predicate SameRef(a: JString, b: JString) {
    a.ref == b.ref && a.chars == b.chars
  }

  /** A string literal of the class. */
  function Literal(s: string): JString {
    JString(s, Pool)
  }

  /**
    Literals with equal text are one interned object; a heap string is the
    same object only as itself, never a literal nor another heap string.
  */
  lemma IdentityOfStrings(s: string, t: string, id: nat, id': nat)
    ensures SameRef(Literal(s), Literal(t)) <==> s == t
    ensures !SameRef(JString(s, Heap(id)), Literal(t))
    ensures SameRef(JString(s, Heap(id)), JString(t, Heap(id'))) ==> id == id' && s == t
  {
  }

  /** The build identifiers `populateOfficial` appends, in order. */
  const OfficialTags: seq<JString> := [Literal("YOG4P"), Literal("YNG4N"), Literal("XNG3C")]

  // ---------------------------------------------------------------------------
  // The alert
  // ---------------------------------------------------------------------------

  /** The string resources the alert uses. */
  datatype StringRes = UnofficialInfo | UnofficialMessage | StableInfo | StableMessage | UnknownInfo

  /** A dialog text: a string resource or a raw string. */
  datatype Text = Res(id: StringRes) | Raw(s: string)

  /** A dialog that was shown, with its title and message. */
  datatype Dialog = Dialog(title: Text, message: Text)

  /**
    The decision `alertBuild` takes for a release type, given whether one of the
    stable identifiers matched it; `None` means no dialog.
  */
  function Decide(releaseType: string, stableMatch: bool): (shown: Option<Dialog>)
    ensures shown.None? <==> Contains(ToUpper(releaseType), Device.RcNightly)
    ensures shown == Some(Dialog(Res(StableInfo), Res(StableMessage))) <==>
      !Contains(ToUpper(releaseType), Device.RcNightly) && !Contains(ToUpper(releaseType), Device.RcUnofficial) && stableMatch
    ensures !Contains(ToUpper(releaseType), Device.RcNightly) && Contains(ToUpper(releaseType), Device.RcUnofficial) ==>
      shown == Some(Dialog(Res(UnofficialInfo), Res(UnofficialMessage)))
    ensures !Contains(ToUpper(releaseType), Device.RcNightly) && !Contains(ToUpper(releaseType), Device.RcUnofficial) && !stableMatch ==>
      shown == Some(Dialog(Res(UnknownInfo), Raw(releaseType)))
    ensures shown.Some? && shown.value.message.Raw? ==> shown.value.message.s == releaseType && !stableMatch
  {
    var upper := ToUpper(releaseType);
    if Contains(upper, Device.RcNightly) then None
    else if Contains(upper, Device.RcUnofficial) then Some(Dialog(Res(UnofficialInfo), Res(UnofficialMessage)))
    else if stableMatch then Some(Dialog(Res(StableInfo), Res(StableMessage)))
    else Some(Dialog(Res(UnknownInfo), Raw(releaseType)))
  }

  /** Some element of `tags` is the very object `releaseType` (the comparison at line 89). */
  predicate MatchesByReference(releaseType: JString, tags: seq<JString>) {
    exists i :: 0 <= i < |tags| && SameRef(releaseType, tags[i])
  }

  /** Some element of `tags` has the text `releaseType`. */
  predicate MatchesByValue(releaseType: string, tags: seq<JString>) {
    exists i :: 0 <= i < |tags| && tags[i].chars == releaseType
  }

  /**
    The dialog `alertBuild` shows, as written: the identifiers compared are the
    list before the call followed by the three `populateOfficial` appends.
  */
  function Classify(releaseType: JString, stableBefore: seq<JString>): Option<Dialog> {
    Decide(releaseType.chars, MatchesByReference(releaseType, stableBefore + OfficialTags))
  }

  /** The evidently intended classification: the identifiers compared by value. */
  function ClassifyByValue(releaseType: string, stableBefore: seq<JString>): Option<Dialog> {
    Decide(releaseType, MatchesByValue(releaseType, stableBefore + OfficialTags))
  }

  /** A release type containing NIGHTLY, in any case, shows nothing, even if it also contains UNOFFICIAL. */
  lemma NightlyShowsNothing(releaseType: JString, stableBefore: seq<JString>)
    requires Contains(ToUpper(releaseType.chars), Device.RcNightly)
    ensures Classify(releaseType, stableBefore) == None
  {
  }

  /** A dialog is shown exactly when the release type does not contain NIGHTLY; UNOFFICIAL comes before the identifiers. */
  lemma DialogUnlessNightly(releaseType: JString, stableBefore: seq<JString>)
    ensures Classify(releaseType, stableBefore).Some? <==> !Contains(ToUpper(releaseType.chars), Device.RcNightly)
    ensures !Contains(ToUpper(releaseType.chars), Device.RcNightly) && Contains(ToUpper(releaseType.chars), Device.RcUnofficial)
      ==> Classify(releaseType, stableBefore) == Some(Dialog(Res(UnofficialInfo), Res(UnofficialMessage)))
  {
  }

  /** The nightly and unofficial release types of the documented version strings. */
  lemma KnownChannels(r: Ref, stableBefore: seq<JString>)
    ensures Classify(JString("NIGHTLY", r), stableBefore) == None
    ensures Classify(JString("nightly", r), stableBefore) == None
    ensures Classify(JString("UNOFFICIAL", r), stableBefore) == Some(Dialog(Res(UnofficialInfo), Res(UnofficialMessage)))
  {
    NightlyUpperCased();
    UnofficialIsNotNightly();
  }

  lemma NightlyUpperCased()
    ensures ToUpper("NIGHTLY") == "NIGHTLY" && ToUpper("nightly") == "NIGHTLY"
  {
    assert ToUpper("NIGHTLY") == "NIGHTLY" by {
      assert forall i :: 0 <= i < 7 ==> !('a' <= "NIGHTLY"[i] <= 'z');
    }
  }

  lemma UnofficialIsNotNightly()
    ensures ToUpper("UNOFFICIAL") == "UNOFFICIAL"
    ensures !Contains("UNOFFICIAL", Device.RcNightly) && Contains("UNOFFICIAL", Device.RcUnofficial)
  {
    var u := "UNOFFICIAL";
    assert ToUpper(u) == u by {
      assert forall i :: 0 <= i < |u| ==> !('a' <= u[i] <= 'z');
    }
    assert u[..7][0] != 'N' && u[1..][..7][1] != 'I' && u[2..][..7][0] != 'N' && u[3..][..7][0] != 'N';
    assert !Contains(u[3..], "NIGHTLY");
    assert !Contains(u[2..], "NIGHTLY");
    assert !Contains(u[1..], "NIGHTLY");
  }

  /** A release type too short to contain either channel name goes to the identifier comparison. */
  lemma ShortReleaseTypeCompared(releaseType: JString, stableBefore: seq<JString>)
    requires |releaseType.chars| < 7
    ensures Classify(releaseType, stableBefore)
         == Some(if MatchesByReference(releaseType, stableBefore + OfficialTags)
                 then Dialog(Res(StableInfo), Res(StableMessage))
                 else Dialog(Res(UnknownInfo), Raw(releaseType.chars)))
  {
    assert |ToUpper(releaseType.chars)| < |Device.RcNightly|;
  }

  /**
    As written, the stable dialog is unreachable for a release type held in a
    heap object, which is what a system-property read returns: the identifiers
    are interned literals, so no reference comparison succeeds.
  */
  lemma HeapReleaseTypeNeverStable(releaseType: JString, stableBefore: seq<JString>)
    requires releaseType.ref.Heap?
    requires forall i :: 0 <= i < |stableBefore| ==> stableBefore[i].ref == Pool
    ensures Classify(releaseType, stableBefore) != Some(Dialog(Res(StableInfo), Res(StableMessage)))
    ensures !Contains(ToUpper(releaseType.chars), Device.RcNightly) && !Contains(ToUpper(releaseType.chars), Device.RcUnofficial) ==>
      Classify(releaseType, stableBefore) == Some(Dialog(Res(UnknownInfo), Raw(releaseType.chars)))
  {
    var tags := stableBefore + OfficialTags;
    forall i | 0 <= i < |tags|
      ensures !SameRef(releaseType, tags[i])
    {
      if i >= |stableBefore| {
        assert tags[i] == OfficialTags[i - |stableBefore|];
      }
    }
  }

  /** The identifier `YOG4P`, read from the properties, is reported as an unknown build. */
  lemma OfficialTagReportedUnknown(id: nat)
    ensures Classify(JString("YOG4P", Heap(id)), []) == Some(Dialog(Res(UnknownInfo), Raw("YOG4P")))
    ensures ClassifyByValue("YOG4P", []) == Some(Dialog(Res(StableInfo), Res(StableMessage)))
  {
    HeapReleaseTypeNeverStable(JString("YOG4P", Heap(id)), []);
    ShortReleaseTypeCompared(JString("YOG4P", Heap(id)), []);
    assert ([] + OfficialTags)[0].chars == "YOG4P";
  }

  /** Compared by value, each of the three identifiers is reported as a stable build. */
  lemma OfficialTagsStableByValue(i: nat, stableBefore: seq<JString>)
    requires i < |OfficialTags|
    ensures ClassifyByValue(OfficialTags[i].chars, stableBefore) == Some(Dialog(Res(StableInfo), Res(StableMessage)))
  {
    var tag := OfficialTags[i].chars;
    assert |ToUpper(tag)| < |Device.RcNightly|;
    assert (stableBefore + OfficialTags)[|stableBefore| + i] == OfficialTags[i];
  }

  /** For an interned release type and interned identifiers, both comparisons agree. */
  lemma ClassificationsAgreeOnInterned(releaseType: JString, stableBefore: seq<JString>)
    requires releaseType.ref == Pool
    requires forall i :: 0 <= i < |stableBefore| ==> stableBefore[i].ref == Pool
    ensures Classify(releaseType, stableBefore) == ClassifyByValue(releaseType.chars, stableBefore)
  {
    var tags := stableBefore + OfficialTags;
    assert forall i :: 0 <= i < |tags| ==> tags[i].ref == Pool by {
      forall i | 0 <= i < |tags|
        ensures tags[i].ref == Pool
      {
        if i >= |stableBefore| {
          assert tags[i] == OfficialTags[i - |stableBefore|];
        }
      }
    }
    assert MatchesByReference(releaseType, tags) == MatchesByValue(releaseType.chars, tags);
  }

  // ---------------------------------------------------------------------------
  // The request
  // ---------------------------------------------------------------------------

  /** The changelog service's host. */
  const ApiHost := "api.cmxlog.com"

  /** The changelog endpoint, before the number and the device. */
  const ChangesBase := "http://" + ApiHost + "/changes/"

  /** The request URL: plain concatenation, nothing escaped. */
  function ChangesUrl(number: string, device: string): string {
    ChangesBase + number + "/" + device
  }

  /** The URL is the join, with `/`, of the API path's pieces, the number and the device. */
  lemma ChangesUrlIsJoin(number: string, device: string)
    ensures Join(["http:", "", ApiHost, "changes", number, device], '/') == ChangesUrl(number, device)
  {
    var p4 := [number, device];
    var p3 := ["changes"] + p4;
    var p2 := [ApiHost] + p3;
    var p1 := [""] + p2;
    var p0 := ["http:"] + p1;
    assert p0 == ["http:", "", ApiHost, "changes", number, device];
    JoinCons("changes", p4, '/');
    JoinCons(ApiHost, p3, '/');
    JoinCons("", p2, '/');
    JoinCons("http:", p1, '/');
    var tail := number + "/" + device;
    assert Join(p4, '/') == tail;
    assert "http:" + "/" + ("" + "/") == "http://";
    assert "/" + ("changes" + "/") == "/changes/";
  }

  /** The URL's path segments give back the number and the device when neither holds a slash. */
  lemma ChangesUrlSegments(number: string, device: string)
    requires '/' !in number && '/' !in device
    ensures Segments(ChangesUrl(number, device), '/') == ["http:", "", ApiHost, "changes", number, device]
  {
    var parts := ["http:", "", ApiHost, "changes", number, device];
    ChangesUrlIsJoin(number, device);
    assert '/' !in parts[0] && '/' !in parts[2] && '/' !in parts[3];
    assert forall k :: 0 <= k < |parts| ==> '/' !in parts[k];
    SegmentsOfJoin(parts, '/');
  }

  /** Different numbers or devices (without slashes) ask for different URLs. */
  lemma ChangesUrlInjective(n1: string, d1: string, n2: string, d2: string)
    requires '/' !in n1 && '/' !in d1 && '/' !in n2 && '/' !in d2
    requires ChangesUrl(n1, d1) == ChangesUrl(n2, d2)
    ensures n1 == n2 && d1 == d2
  {
    ChangesUrlSegments(n1, d1);
    ChangesUrlSegments(n2, d2);
  }

  // ---------------------------------------------------------------------------
  // The number used in the request
  // ---------------------------------------------------------------------------

  /**
    `mCMVersion.split("-")[0]`: the first dash-separated field, or `None` when
    `split` returns an empty array (a version made of dashes only), where the
    index raises ArrayIndexOutOfBoundsException.
  */
  function CmNumberOf(version: string): (r: Option<string>)
    ensures r.None? <==> version != "" && forall i :: 0 <= i < |version| ==> version[i] == '-'
    ensures r.Some? ==> r.value == Segments(version, '-')[0] && '-' !in r.value
  {
    SegmentsNonEmpty(version);
    var version' := Split(version, '-');
    if |version'| == 0 then None else Some(version'[0])
  }

  lemma SegmentsNonEmpty(version: string)
    ensures version != "" ==>
      (|Split(version, '-')| > 0 <==> !forall i :: 0 <= i < |version| ==> version[i] == '-')
  {
    if version != "" {
      SplitLongerThan(version, '-', 0);
      SegmentsAllEmpty(version, '-');
    }
  }

  /** The activity asks for the same number the device information decodes. */
  lemma CmNumberAgrees(version: string)
    requires version != "" && Device.DecodeVersion(version).Ok?
    ensures CmNumberOf(version) == Some(Device.DecodeVersion(version).value.cmNumber)
  {
    SplitLongerThan(version, '-', 2);
    SegmentsNonEmpty(version);
  }

  // ---------------------------------------------------------------------------
  // The activity
  // ---------------------------------------------------------------------------

  /**
    The identifier list after `alertBuild`: the three identifiers are appended
    only on the path that compares them, so the list grows by exactly three
    entries each time that path is taken.
  */
  function StableAfterAlert(releaseType: string, stableBefore: seq<JString>): (stableAfter: seq<JString>)
    ensures stableBefore <= stableAfter
    ensures !Contains(ToUpper(releaseType), Device.RcNightly) && !Contains(ToUpper(releaseType), Device.RcUnofficial) ==>
      stableAfter == stableBefore + OfficialTags
    ensures Contains(ToUpper(releaseType), Device.RcNightly) || Contains(ToUpper(releaseType), Device.RcUnofficial) ==>
      stableAfter == stableBefore
    ensures |stableAfter| != |stableBefore| ==> stableAfter == stableBefore + OfficialTags
  {
    var upper := ToUpper(releaseType);
    if !Contains(upper, Device.RcNightly) && !Contains(upper, Device.RcUnofficial)
    then stableBefore + OfficialTags else stableBefore
  }

  /** The activity's record of one change of the feed: subject, project and last-update text. */
  datatype Change = Change(subject: string, project: string, lastUpdated: string)

  class ChangelogActivity {
    var cmVersion: string
    var cyanogenMod: string
    var releaseType: JString
    var device: string
    var alertTitle: Option<Text>
    var alertMessage: Option<Text>
    var stable: seq<JString>
    /** The swipe-to-refresh indicator. */
    var refreshing: bool
    /** Every dialog `alertBuild` showed, in order. */
    ghost var dialogs: seq<Dialog>
    /** Every URL handed to a changelog task, in order. */
    ghost var requests: seq<string>
    /** How many "data connection required" toasts were shown. */
    ghost var notices: nat

    /** The activity before `onCreate`: Java's null fields are empty strings and `None` here. */
    constructor ()
      ensures stable == [] && alertTitle == None && alertMessage == None && !refreshing
      ensures dialogs == [] && requests == [] && notices == 0
    {
      cmVersion, cyanogenMod, device := "", "", "";
      releaseType := JString("", Pool);
      alertTitle, alertMessage := None, None;
      stable := [];
      refreshing := false;
      dialogs, requests, notices := [], [], 0;
    }

    /** Appends the three stable identifiers, keeping what was there. */
    method PopulateOfficial()
      modifies this`stable
      ensures stable == old(stable) + OfficialTags
    {
      stable := stable + [Literal("YOG4P")];
      stable := stable + [Literal("YNG4N")];
      stable := stable + [Literal("XNG3C")];
    }

    /**
      Classifies the release type and shows at most one dialog. Only the
      branch that compares identifiers calls `populateOfficial`.
    */
    method AlertBuild()
      modifies this`alertTitle, this`alertMessage, this`stable, this`dialogs
      ensures stable == StableAfterAlert(releaseType.chars, old(stable))
      ensures Classify(releaseType, old(stable)).None? ==>
        alertTitle == old(alertTitle) && alertMessage == old(alertMessage) && dialogs == old(dialogs)
      ensures Classify(releaseType, old(stable)).Some? ==>
        var d := Classify(releaseType, old(stable)).value;
        alertTitle == Some(d.title) && alertMessage == Some(d.message) && dialogs == old(dialogs) + [d]
    {
      var checkBuild := 0;
      var upper := ToUpper(releaseType.chars);
      if !Contains(upper, Device.RcNightly) {
        if Contains(upper, Device.RcUnofficial) {
          alertTitle := Some(Res(UnofficialInfo));
          alertMessage := Some(Res(UnofficialMessage));
        } else {
          PopulateOfficial();
          var i := 0;
          while i < |stable|
            invariant 0 <= i <= |stable|
            invariant stable == old(stable) + OfficialTags && dialogs == old(dialogs)
            invariant checkBuild > 0 <==> exists k :: 0 <= k < i && SameRef(releaseType, stable[k])
            invariant checkBuild > 0 ==> alertTitle == Some(Res(StableInfo)) && alertMessage == Some(Res(StableMessage))
          {
            if SameRef(releaseType, stable[i]) {
              alertTitle := Some(Res(StableInfo));
              alertMessage := Some(Res(StableMessage));
              checkBuild := checkBuild + 1;
            }
            i := i + 1;
          }
          assert checkBuild > 0 <==> MatchesByReference(releaseType, old(stable) + OfficialTags);
          if checkBuild == 0 {
            alertTitle := Some(Res(UnknownInfo));
            alertMessage := Some(Raw(releaseType.chars));
          }
        }
        dialogs := dialogs + [Dialog(alertTitle.value, alertMessage.value)];
      }
    }

    /** Without a connection: a toast and the indicator stopped; otherwise one request. */
    method UpdateChangelog(connected: bool)
      modifies this`refreshing, this`requests, this`notices
      ensures !connected ==> !refreshing && requests == old(requests) && notices == old(notices) + 1
      ensures connected ==>
        refreshing == old(refreshing) && notices == old(notices)
        && requests == old(requests) + [ChangesUrl(cyanogenMod, device)]
    {
      if !connected {
        notices := notices + 1;
        refreshing := false;
        return;
      }
      requests := requests + [ChangesUrl(cyanogenMod, device)];
    }

    /**
      Reads the properties, then alerts and refreshes. A version made of dashes
      only makes `version[0]` raise, and nothing after it happens.
    */
    method OnCreate(version: string, releaseTypeProperty: JString, deviceProperty: string, connected: bool)
      returns (ok: bool)
      modifies this
      ensures cmVersion == version
      ensures ok <==> CmNumberOf(version).Some?
      ensures !ok ==>
        cyanogenMod == old(cyanogenMod) && releaseType == old(releaseType) && device == old(device)
        && stable == old(stable) && dialogs == old(dialogs) && requests == old(requests) && notices == old(notices)
      ensures ok ==>
        cyanogenMod == CmNumberOf(version).value && releaseType == releaseTypeProperty && device == deviceProperty
        && dialogs == old(dialogs) + (match Classify(releaseTypeProperty, old(stable))
                                       case None => []
                                       case Some(d) => [d])
        && requests == old(requests) + (if connected then [ChangesUrl(cyanogenMod, device)] else [])
      ensures !ok ==> alertTitle == old(alertTitle) && alertMessage == old(alertMessage) && refreshing == old(refreshing)
      ensures ok ==> stable == StableAfterAlert(releaseTypeProperty.chars, old(stable))
      ensures ok && Classify(releaseTypeProperty, old(stable)).None? ==>
        alertTitle == old(alertTitle) && alertMessage == old(alertMessage)
      ensures ok && Classify(releaseTypeProperty, old(stable)).Some? ==>
        alertTitle == Some(Classify(releaseTypeProperty, old(stable)).value.title)
        && alertMessage == Some(Classify(releaseTypeProperty, old(stable)).value.message)
      ensures ok && !connected ==> !refreshing && notices == old(notices) + 1
      ensures ok && connected ==> refreshing == old(refreshing) && notices == old(notices)
    {
      cmVersion := version;
      var number := CmNumberOf(version);
      if number.None? {
        return false;
      }
      cyanogenMod := number.value;
      releaseType := releaseTypeProperty;
      device := deviceProperty;
      AlertBuild();
      UpdateChangelog(connected);
      ok := true;
    }
  }
}
