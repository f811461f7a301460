# CM Changelog: build decoding, manifest filter, release classification and list presenter

This project models the non-UI logic of the CyanogenMod changelog app in Dafny.

- **Device.** How the `Device` class derives the CM number, release channel and git branch from `ro.cm.version` when it is initialised. It also models how the device projects are collected from `build-manifest.xml`.
- **ChangelogActivity.** How the activity classifies the release type and which dialog it shows. It also models how it gates a refresh on connectivity and builds the changelog URL.
- **ChangelogAdapter.** How the adapter keeps its list of changes and derives each row's project label and review URL.

Files:

- `wrappers.dfy` (`Wrappers`): `Option`, used for Java `null`, and `Result`, used for the exceptions the code can raise.
- `java_strings.dfy` (`JavaStrings`): the Java `String` operations the code relies on.
  - `split` on a one-character delimiter. With no delimiter in the string it returns the string itself. Otherwise it returns the dash-separated segments with the trailing empty segments dropped.
  - `contains`.
  - `replace(CharSequence, CharSequence)`: it scans left to right, replaces non-overlapping occurrences and resumes after each replacement.
  - ASCII `toUpperCase`.
  - It also proves `Join` as the inverse of the raw segmentation.
- `device.dfy` (`Device`):
  - the static initialiser, with version decoding as a pure function;
  - the parser events as a sequence;
  - `parseBuildManifest` as a method with the do-while loop of the source.
- `changelog_activity.dfy` (`ChangelogActivity`): a class with the activity's fields.
  - `populateOfficial`, `alertBuild` (with its loop), `UpdateChangelog` and `onCreate` are methods.
  - Java strings carry an identity, modelled as `JString(chars, ref)`, because line 89 compares them with `==`.
  - The activity's `Change` record (subject, project and last-update text) is the datatype `ChangelogActivity.Change`. No code in the activity uses it.
- `changelog_adapter.dfy` (`ChangelogAdapter`): a class whose `seq` field is the backing list.
  - A ghost counter tracks the full redraws.
  - The row strings are pure functions.

The outputs of `getprop`/`cat`, the system properties and the connectivity state are parameters. The XML pull parser is represented by the events it reports: `PullStream(events, failure)`.
- `events[0]` is `getEventType()`.
- Each later event is one `next()`.
- After the last event, the next call raises `failure` if there is one, and reports END_DOCUMENT otherwise.

The model follows the code on three points:

- **Duplicates.** The manifest result is an `ArrayList`, so duplicates are kept in document order.
- **Malformed versions.** A non-empty malformed version is an error result, because the code throws `ArrayIndexOutOfBoundsException` / `StringIndexOutOfBoundsException` from the static initialiser.
- **Stable tags.** The stable-tag comparison is reference equality, as written (see Findings).

## Model

| member | source | states |
|---|---|---|
| JavaStrings.ContainsIff | app/src/main/java/org/cyanogenmod/changelog/Device.java:176 | `contains` holds exactly when the target occurs at some index of the string |
| JavaStrings.Contains | app/src/main/java/org/cyanogenmod/changelog/Device.java:176 | `contains`: the body is the definition, trying each start position from the left. `ContainsIff` and `ContainsChar` characterise it |
| JavaStrings.ContainsChar | app/src/main/java/org/cyanogenmod/changelog/Device.java:126 | containing the one-character string `[c]` is the same as `c` being an element |
| JavaStrings.IndexOf | app/src/main/java/org/cyanogenmod/changelog/Device.java:131 | the index returned holds the character and is its first occurrence |
| JavaStrings.Segments | app/src/main/java/org/cyanogenmod/changelog/Device.java:131 | the raw cut of a string at a delimiter has at least one segment, and no segment contains the delimiter |
| JavaStrings.JoinOfSegments | app/src/main/java/org/cyanogenmod/changelog/Device.java:131 | joining the segments with the delimiter gives back the string |
| JavaStrings.SegmentsOfJoin | app/src/main/java/org/cyanogenmod/changelog/Device.java:131 | cutting a join of delimiter-free parts gives back the parts |
| JavaStrings.DropTrailingEmpty | app/src/main/java/org/cyanogenmod/changelog/Device.java:131 | the result is a prefix of the input, everything dropped is empty, and the last element kept is not empty |
| JavaStrings.Split | app/src/main/java/org/cyanogenmod/changelog/Device.java:131 | `split` of the empty string is `[""]`. Otherwise the result is a prefix of the segments that drops only empty segments and ends in a non-empty one |
| JavaStrings.SplitLongerThan | app/src/main/java/org/cyanogenmod/changelog/Device.java:131-133 | for a non-empty string, `split` has more than `k` elements exactly when some segment at index `k` or later is non-empty |
| JavaStrings.SegmentsAllEmpty | src/org/cyanogenmod/changelog/ChangelogActivity.java:39-40 | all segments are empty exactly when every character is the delimiter |
| JavaStrings.ReplaceAll | app/src/main/java/org/cyanogenmod/changelog/ChangelogAdapter.java:71 | `replace`: the body is the definition, scanning from the left and resuming after each replaced occurrence. `ReplaceAllLength`, `ReplaceAllWithoutTarget` and `ReplaceAllAtFirstOccurrence` characterise it |
| JavaStrings.ReplaceAllLength | app/src/main/java/org/cyanogenmod/changelog/ChangelogAdapter.java:71 | a replacement no longer than the target never lengthens the string, and one no shorter never shortens it |
| JavaStrings.RemoveAll | app/src/main/java/org/cyanogenmod/changelog/Device.java:126 | `replace(target, "")`: the body is the definition. `RemoveAllShrinks`, `RemoveAllIsSubsequence`, `RemoveAllFacts` and `RemoveAllChar` characterise it |
| JavaStrings.ReplaceAllWithoutTarget | app/src/main/java/org/cyanogenmod/changelog/ChangelogAdapter.java:71 | `replace` leaves a string without the target unchanged |
| JavaStrings.ReplaceAllAtFirstOccurrence | app/src/main/java/org/cyanogenmod/changelog/ChangelogAdapter.java:71 | `replace` keeps the text before the first occurrence, substitutes that occurrence and continues after it |
| JavaStrings.RemoveAllShrinks | app/src/main/java/org/cyanogenmod/changelog/ChangelogAdapter.java:71 | removing a target never lengthens a string, and strictly shortens one that contains it |
| JavaStrings.RemoveAllIsSubsequence | app/src/main/java/org/cyanogenmod/changelog/ChangelogAdapter.java:71 | removing a target keeps the remaining characters in order |
| JavaStrings.RemoveAllFacts | app/src/main/java/org/cyanogenmod/changelog/ChangelogAdapter.java:71 | removal gives no longer string, is the identity without an occurrence, and is a subsequence |
| JavaStrings.RemoveAllChar | app/src/main/java/org/cyanogenmod/changelog/Device.java:126 | removing a one-character target leaves no occurrence of that character |
| JavaStrings.ToUpper | src/org/cyanogenmod/changelog/ChangelogActivity.java:82-83 | `toUpperCase` as ASCII: the length is kept, no lower-case letter remains, each lower-case letter `a`-`z` becomes the letter 32 code points below it, and every other character is unchanged |
| Device.StripNewlines | app/src/main/java/org/cyanogenmod/changelog/Device.java:57 | the command output without line breaks: no `\n` is left, output without one is unchanged, and the characters keep their order |
| Device.DecodeVersion | app/src/main/java/org/cyanogenmod/changelog/Device.java:128-139 | the empty version gives empty number, channel and branch. A non-empty version decodes exactly when segment 2 or a later one is non-empty and, for `SNAPSHOT`, segment 3 has at least four characters. Then the number is segment 0, the channel is segment 2 and the branch is `stable/cm-` plus four characters or `cm-` plus the number. Otherwise the result is the index exception |
| Device.DecodeWellFormedVersion | app/src/main/java/org/cyanogenmod/changelog/Device.java:131-137 | a version written as `<number>-<date>-<channel>[-…]` decodes to its own fields |
| Device.NightlyVersion | app/src/main/java/org/cyanogenmod/changelog/Device.java:136-137 | `13.0-20160101-NIGHTLY` decodes to number `13.0`, channel `NIGHTLY` and branch `cm-13.0` |
| Device.SnapshotVersion | app/src/main/java/org/cyanogenmod/changelog/Device.java:134-135 | `13.0-20161224-SNAPSHOT-ZNH2K` gives branch `stable/cm-ZNH2` |
| Device.TwoFieldVersionFails | app/src/main/java/org/cyanogenmod/changelog/Device.java:133 | a two-field version fails with the out-of-bounds read of `version[2]` |
| Device.DeviceProjects | app/src/main/java/org/cyanogenmod/changelog/Device.java:174-177 | the names collected are at most one per event, and each contains `CyanogenMod/` |
| Device.IsDeviceProject | app/src/main/java/org/cyanogenmod/changelog/Device.java:174-176 | the filter: the body is the definition, an END_TAG named `project` with a present `name` containing `CyanogenMod/` |
| Device.StopIndex | app/src/main/java/org/cyanogenmod/changelog/Device.java:180 | the loop's stop is the first END_DOCUMENT from the given index, or the end of the events |
| Device.ParseBuildManifest | app/src/main/java/org/cyanogenmod/changelog/Device.java:165-189 | the result is the names collected from the events up to END_DOCUMENT, or nothing after an exception |
| Device.ManifestProjects | app/src/main/java/org/cyanogenmod/changelog/Device.java:173-188 | the collection returned: empty after an exception, at most one name per event, and every name contains `CyanogenMod/`. `StopsAtEndDocument` and `FailureYieldsNothing` pin down which events count |
| Device.LoadProjects | app/src/main/java/org/cyanogenmod/changelog/Device.java:152-162 | empty manifest text gives no projects; otherwise the parse result |
| Device.DeviceProjectsAppend | app/src/main/java/org/cyanogenmod/changelog/Device.java:173-180 | collecting distributes over concatenated event runs, so event order is kept |
| Device.OtherEventContributesNothing | app/src/main/java/org/cyanogenmod/changelog/Device.java:174-176 | an event that is not a `project` END_TAG with a namespaced name changes nothing wherever it stands |
| Device.DuplicatesKept | app/src/main/java/org/cyanogenmod/changelog/Device.java:166 | a project closed twice is collected twice |
| Device.DeviceProjectsAreNameAttributes | app/src/main/java/org/cyanogenmod/changelog/Device.java:175-177 | the result is a subsequence of the events' `name` attributes |
| Device.FailureYieldsNothing | app/src/main/java/org/cyanogenmod/changelog/Device.java:181-187 | a parser that fails before END_DOCUMENT yields an empty collection |
| Device.StopsAtEndDocument | app/src/main/java/org/cyanogenmod/changelog/Device.java:180 | the result is exactly the names before the first END_DOCUMENT reported by `next()`; what follows, a failure included, is never inspected |
| Device.Initialize | app/src/main/java/org/cyanogenmod/changelog/Device.java:125-162 | the static fields are the stripped outputs and the decoded version, with projects gated on the manifest. A version that fails to decode aborts with its exception |
| ChangelogActivity.Decide | src/org/cyanogenmod/changelog/ChangelogActivity.java:82-98 | no dialog exactly when the upper-cased type contains `NIGHTLY`. Otherwise, if it contains `UNOFFICIAL`, the unofficial dialog. The stable dialog appears exactly when it contains neither channel name and an identifier matched. When it contains neither and nothing matched, the unknown dialog with the release type itself as message; a raw message appears only then |
| ChangelogActivity.SameRef | src/org/cyanogenmod/changelog/ChangelogActivity.java:89 | Java's `==` on strings: the same object, given by where it lives and its text. Literals with equal text are one interned object, and heap strings are told apart by their id. `IdentityOfStrings` states this |
| ChangelogActivity.IdentityOfStrings | src/org/cyanogenmod/changelog/ChangelogActivity.java:89 | two literals are the same object exactly when their texts are equal. A heap string is never the same object as a literal, and two heap strings are the same object only with the same id and text |
| ChangelogActivity.MatchesByReference | src/org/cyanogenmod/changelog/ChangelogActivity.java:88-94 | the loop over the identifiers succeeds when some element is the very object holding the release type |
| ChangelogActivity.Classify | src/org/cyanogenmod/changelog/ChangelogActivity.java:82-98 | the decision with the line-89 reference comparison over the list plus the three appended identifiers: the body is the definition. `DialogUnlessNightly`, `ShortReleaseTypeCompared` and `HeapReleaseTypeNeverStable` characterise it |
| ChangelogActivity.ClassifyByValue | src/org/cyanogenmod/changelog/ChangelogActivity.java:89 | the corrected decision, comparing by value: the body is the definition. `OfficialTagsStableByValue` and `ClassificationsAgreeOnInterned` characterise it |
| ChangelogActivity.StableAfterAlert | src/org/cyanogenmod/changelog/ChangelogActivity.java:82-87 | the identifier list after `alertBuild` extends the old one. When the upper-cased type contains neither `NIGHTLY` nor `UNOFFICIAL`, the three identifiers are appended; when it contains either, the list is unchanged. Any change is exactly that append |
| ChangelogActivity.NightlyShowsNothing | src/org/cyanogenmod/changelog/ChangelogActivity.java:82 | a release type whose upper-cased text contains `NIGHTLY` gets no dialog |
| ChangelogActivity.DialogUnlessNightly | src/org/cyanogenmod/changelog/ChangelogActivity.java:82-105 | a dialog is shown exactly when the type does not contain `NIGHTLY`. `UNOFFICIAL` then takes precedence over the identifiers |
| ChangelogActivity.KnownChannels | src/org/cyanogenmod/changelog/ChangelogActivity.java:82-85 | `NIGHTLY` and `nightly` show nothing; `UNOFFICIAL` shows the unofficial dialog |
| ChangelogActivity.ShortReleaseTypeCompared | src/org/cyanogenmod/changelog/ChangelogActivity.java:87-98 | a short release type shows the stable dialog exactly when an identifier matches under `==`, and otherwise the unknown title with the raw type as message |
| ChangelogActivity.HeapReleaseTypeNeverStable | src/org/cyanogenmod/changelog/ChangelogActivity.java:89 | a release type that is not an interned literal never gets the stable dialog, since all identifiers are literals. When it contains neither channel name, it gets the unknown dialog with its own text as message |
| ChangelogActivity.OfficialTagReportedUnknown | src/org/cyanogenmod/changelog/ChangelogActivity.java:89-97 | `YOG4P` read from the properties is reported unknown as written, and stable when compared by value |
| ChangelogActivity.OfficialTagsStableByValue | src/org/cyanogenmod/changelog/ChangelogActivity.java:73-77 | compared by value, each of the three identifiers gives the stable dialog |
| ChangelogActivity.ClassificationsAgreeOnInterned | src/org/cyanogenmod/changelog/ChangelogActivity.java:89 | for interned strings, reference and value comparison classify alike |
| ChangelogActivity.ChangesUrl | src/org/cyanogenmod/changelog/ChangelogActivity.java:138-139 | the request URL by plain concatenation: the body is the definition. `ChangesUrlSegments` and `ChangesUrlInjective` characterise it |
| ChangelogActivity.ChangesUrlIsJoin | src/org/cyanogenmod/changelog/ChangelogActivity.java:138-139 | the URL is `http:`, the empty piece, the host, `changes`, the number and the device joined with `/` |
| ChangelogActivity.ChangesUrlSegments | src/org/cyanogenmod/changelog/ChangelogActivity.java:138-139 | the URL's `/` segments are the API path followed by the number and the device |
| ChangelogActivity.ChangesUrlInjective | src/org/cyanogenmod/changelog/ChangelogActivity.java:138-139 | slash-free numbers and devices determine the URL uniquely |
| ChangelogActivity.CmNumberOf | src/org/cyanogenmod/changelog/ChangelogActivity.java:39-40 | `version[0]` fails exactly for a non-empty version of dashes only. Otherwise it is the first dash segment |
| ChangelogActivity.CmNumberAgrees | src/org/cyanogenmod/changelog/ChangelogActivity.java:39-40 | the number the activity requests is the CM number the device decodes |
| ChangelogActivity.ChangelogActivity.constructor | src/org/cyanogenmod/changelog/ChangelogActivity.java:31 | the activity starts with an empty identifier list and nothing shown or requested |
| ChangelogActivity.ChangelogActivity.PopulateOfficial | src/org/cyanogenmod/changelog/ChangelogActivity.java:73-77 | appends `YOG4P`, `YNG4N`, `XNG3C` in that order and keeps earlier entries, so repeated calls duplicate them |
| ChangelogActivity.ChangelogActivity.AlertBuild | src/org/cyanogenmod/changelog/ChangelogActivity.java:79-107 | the fields are unchanged and nothing is shown for `NIGHTLY`. Otherwise the title and message are set and exactly one dialog is shown, as the classification decides. The identifiers are appended only on the comparison path |
| ChangelogActivity.ChangelogActivity.UpdateChangelog | src/org/cyanogenmod/changelog/ChangelogActivity.java:127-140 | offline: one notice, refreshing stopped, no request. Online: exactly one request for `http://api.cmxlog.com/changes/<number>/<device>` |
| ChangelogActivity.ChangelogActivity.OnCreate | src/org/cyanogenmod/changelog/ChangelogActivity.java:38-52 | a version of dashes only stops after `mCMVersion` is set and leaves every other field as it was. Otherwise the number, release type and device are set. Then the identifier list, alert fields and dialogs follow `alertBuild`, and the request, notices and refresh indicator follow `UpdateChangelog` |
| ChangelogAdapter.ProjectLabel | app/src/main/java/org/cyanogenmod/changelog/ChangelogAdapter.java:70-71 | the label is never longer than the name, keeps its characters in order and is the name itself without an `android_` |
| ChangelogAdapter.LabelShorterWithPrefix | app/src/main/java/org/cyanogenmod/changelog/ChangelogAdapter.java:71 | a name with an `android_` gets a strictly shorter label |
| ChangelogAdapter.LabelAtFirstOccurrence | app/src/main/java/org/cyanogenmod/changelog/ChangelogAdapter.java:71 | the first `android_` is removed, the text before it is kept and the rest is labelled on its own |
| ChangelogAdapter.LeadingPrefixDropped | app/src/main/java/org/cyanogenmod/changelog/ChangelogAdapter.java:71 | a single leading `android_` is dropped |
| ChangelogAdapter.LabelMayStillHavePrefix | app/src/main/java/org/cyanogenmod/changelog/ChangelogAdapter.java:71 | one pass does not remove an occurrence the removal forms: `andandroid_roid_` becomes `android_` |
| ChangelogAdapter.ReviewUrl | app/src/main/java/org/cyanogenmod/changelog/ChangelogAdapter.java:87-88 | the URL is the review base followed by exactly the change id |
| ChangelogAdapter.ReviewUrlInjective | app/src/main/java/org/cyanogenmod/changelog/ChangelogAdapter.java:87-88 | different change ids give different URLs |
| ChangelogAdapter.ChangelogAdapter.constructor | app/src/main/java/org/cyanogenmod/changelog/ChangelogAdapter.java:53-57 | the adapter presents exactly the list it is given |
| ChangelogAdapter.ChangelogAdapter.OnBindViewHolder | app/src/main/java/org/cyanogenmod/changelog/ChangelogAdapter.java:68-73 | binding needs a position inside the list, and shows that row's label and subject |
| ChangelogAdapter.ChangelogAdapter.OnSubjectClick | app/src/main/java/org/cyanogenmod/changelog/ChangelogAdapter.java:84-93 | the click reads the list at click time. It opens the review URL of the change then at the position, and fails exactly when the position is now outside the list |
| ChangelogAdapter.ChangelogAdapter.Clear | app/src/main/java/org/cyanogenmod/changelog/ChangelogAdapter.java:100-103 | the list is empty afterwards, with exactly one redraw |
| ChangelogAdapter.ChangelogAdapter.AddAll | app/src/main/java/org/cyanogenmod/changelog/ChangelogAdapter.java:109-112 | the list becomes the old list followed by the new one, with exactly one redraw |
| ChangelogAdapter.ChangelogAdapter.GetItemCount | app/src/main/java/org/cyanogenmod/changelog/ChangelogAdapter.java:119-121 | the count is the list's length |

## Left out

- `Cmd.exec`, `SystemProperties.get` and `Build.*` are shell and system-property I/O. Their outputs are parameters. `MANUFACTURER`, `HARDWARE` and `BOARD` are not modelled: they are locale-dependent lower-casing of platform values, used only in a log line.
- The XmlPullParser itself, and what it reports for attributes at END_TAG, belongs to a library. The model takes its events and its first exception as given.
- `Device.isConnected` and `ConnectivityManager` are platform calls. Connectivity is a boolean parameter of `UpdateChangelog`.
- `ChangelogTask`, the HTTP request and the feed parsing are not part of this model. A started request is recorded as its URL.
- The `SimpleDateFormat` parsing and formatting of the last-update date in `onBindViewHolder` is locale- and library-dependent. A parse failure there is caught and logged, and does not affect the row's other texts.
- Dialogs, toasts, the swipe-to-refresh widget, menus, view inflation, `ViewHolder`, intents, the browser and `Log` are UI. Dialogs, toasts and requests are recorded in ghost fields; the texts are resource identifiers.
- `DeviceInfo` in the activity formats a text into `alertMessage` and shows a dialog. It is UI formatting and is not modelled.
- `toUpperCase` is locale-sensitive in Java. It is modelled as ASCII upper-casing.
- The `_instance` singleton and `getInstance`, `COMMON_REPOS` and `COMMON_REPOS_QCOM`, `onCreateOptionsMenu` and `onOptionsItemSelected` have no behaviour relevant here.
- The app-module `Change` class with `getProject`/`getSubject`/`getLastUpdate`/`getChangeId` is not part of this model. It is a record of four strings.
- ChangelogAdapter.ChangelogAdapter: the constructor keeps the caller's list by reference, so later changes to that list through other references show in the adapter. Here the list is a value held by the adapter, so that aliasing is not captured.
- JavaStrings.ReplaceAll: requires a non-empty target. Java's `replace` with an empty target inserts the replacement between characters, but the code only passes the literals `"\n"` and `"android_"`.
- Java `int` bounds on lengths and indices are not modelled. Lengths are unbounded naturals.
- ChangelogActivity.ChangelogActivity.constructor: Java's initially `null` string fields are empty strings here.

## Findings

| source | as written | input that shows it | evidently intended | confidence | as-written member | corrected member |
|---|---|---|---|---|---|---|
| src/org/cyanogenmod/changelog/ChangelogActivity.java:89 | `mCMReleaseType == mStable.get(i)` compares object identity. The identifiers are interned literals, while the release type is a fresh string from `SystemProperties.get`, so the stable dialog can never be shown | release type `YOG4P` read from `ro.cm.releasetype` is reported as an unknown build | compare by value, `mCMReleaseType.equals(mStable.get(i))`, so the three official identifiers give the stable dialog | high, not executed | ChangelogActivity.HeapReleaseTypeNeverStable | ChangelogActivity.OfficialTagsStableByValue |

The activity class keeps the comparison as written. `ClassifyByValue` is the corrected classification; `ClassificationsAgreeOnInterned` shows that it differs from the as-written one only where the release type is not an interned literal.
