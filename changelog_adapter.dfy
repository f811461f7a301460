/**
  ChangelogAdapter.java: the list presenter over the changes of the feed.
  The backing list is a `seq` field that `clear` and `addAll` reassign; each
  row shows a project label and opens a review URL, both plain strings.
*/
module ChangelogAdapter {
  import opened Wrappers
  import opened JavaStrings

  /** A change of the feed, as the adapter reads it through its four accessors. */
  datatype Change = Change(subject: string, project: string, lastUpdate: string, changeId: string)

  /** The prefix removed from project names. */
  const AndroidPrefix := "android_"

  /** The review site, before the change id. */
  const ReviewBase := "http://review.cyanogenmod.org/#/c/"

  /**
    The project label of a row: every `android_` removed, scanning left to
    right and resuming after each removed occurrence. The label is never
    longer than the name, keeps its characters in order, and is the name
    itself when the name has no occurrence.
  */
  function ProjectLabel(project: string): (shown: string)
    ensures |shown| <= |project|
    ensures !Contains(project, AndroidPrefix) ==> shown == project
    ensures IsSubsequence(shown, project)
  {
    RemoveAllFacts(project, AndroidPrefix);
    RemoveAll(project, AndroidPrefix)
  }

  /** A name with an occurrence gets a strictly shorter label. */
  lemma LabelShorterWithPrefix(project: string)
    requires Contains(project, AndroidPrefix)
    ensures |ProjectLabel(project)| < |project|
  {
    RemoveAllShrinks(project, AndroidPrefix);
  }

  /**
    The first occurrence is removed and everything before it is kept; the
    rest of the name is labelled on its own.
  */
  lemma LabelAtFirstOccurrence(before: string, after: string)
    requires forall i: nat :: i < |before| ==> !OccursAt(before + AndroidPrefix, AndroidPrefix, i)
    ensures ProjectLabel(before + AndroidPrefix + after) == before + ProjectLabel(after)
  {
    ReplaceAllAtFirstOccurrence(before, AndroidPrefix, after, "");
    assert before + "" == before;
  }

  /** A leading `android_` is dropped: `android_frameworks_base` is labelled `frameworks_base`. */
  lemma LeadingPrefixDropped(after: string)
    requires !Contains(after, AndroidPrefix)
    ensures ProjectLabel(AndroidPrefix + after) == after
  {
    LabelAtFirstOccurrence("", after);
    assert "" + AndroidPrefix + after == AndroidPrefix + after;
  }

  /**
    A single pass does not remove occurrences that the removal itself
    forms: `andandroid_roid_` is labelled `android_`.
  */
  lemma LabelMayStillHavePrefix()
    ensures ProjectLabel("andandroid_roid_") == AndroidPrefix
  {
    var before, after := "and", "roid_";
    assert before + AndroidPrefix + after == "andandroid_roid_";
    assert !OccursAt(before + AndroidPrefix, AndroidPrefix, 0) by {
      assert (before + AndroidPrefix)[3] != AndroidPrefix[3];
    }
    assert !OccursAt(before + AndroidPrefix, AndroidPrefix, 1) by {
      assert (before + AndroidPrefix)[1] != AndroidPrefix[0];
    }
    assert !OccursAt(before + AndroidPrefix, AndroidPrefix, 2) by {
      assert (before + AndroidPrefix)[2] != AndroidPrefix[0];
    }
    LabelAtFirstOccurrence(before, after);
    assert !Contains(after, AndroidPrefix);
    assert before + after == AndroidPrefix;
  }

  /** The review URL of a change: plain concatenation of the base and the id. */
  function ReviewUrl(changeId: string): (url: string)
    ensures |url| == |ReviewBase| + |changeId|
    ensures url[..|ReviewBase|] == ReviewBase && url[|ReviewBase|..] == changeId
  {
    ReviewBase + changeId
  }

  /** Different change ids open different pages. */
  lemma ReviewUrlInjective(id1: string, id2: string)
    requires ReviewUrl(id1) == ReviewUrl(id2)
    ensures id1 == id2
  {
    assert id1 == ReviewUrl(id1)[|ReviewBase|..];
  }

  /** What one bound row shows. */
  datatype Row = Row(project: string, subject: string)

  class ChangelogAdapter {
    /** The list of changes: the constructor keeps the caller's list. */
    var dataset: seq<Change>
    /** How many times the whole view was told to redraw. */
    ghost var invalidations: nat

    constructor (changes: seq<Change>)
      ensures dataset == changes && invalidations == 0
    {
      dataset := changes;
      invalidations := 0;
    }

    /**
      Binds row `position`: the label of its project and its subject. The
      date text is left out.
    */
    method OnBindViewHolder(position: nat) returns (row: Row)
      requires position < |dataset|
      ensures row == Row(ProjectLabel(dataset[position].project), dataset[position].subject)
    {
      var change := dataset[position];
      row := Row(ProjectLabel(change.project), change.subject);
    }

    /**
      The click on a bound subject reads the list again at click time: the
      page of the change now at `position`, or `None` where `get` would raise
      because the list has since become shorter.
    */
    method OnSubjectClick(position: nat) returns (url: Option<string>)
      ensures position < |dataset| <==> url.Some?
      ensures url.Some? ==> url.value == ReviewUrl(dataset[position].changeId)
    {
      if position < |dataset| {
        url := Some(ReviewUrl(dataset[position].changeId));
      } else {
        url := None;
      }
    }

    /** Empties the list and redraws once. */
    method Clear()
      modifies this
      ensures dataset == [] && invalidations == old(invalidations) + 1
    {
      dataset := [];
      invalidations := invalidations + 1;
    }

    /** Appends `list` after the present rows and redraws once. */
    method AddAll(list: seq<Change>)
      modifies this
      ensures dataset == old(dataset) + list && invalidations == old(invalidations) + 1
    {
      dataset := dataset + list;
      invalidations := invalidations + 1;
    }

    /** The number of rows. */
    method GetItemCount() returns (count: nat)
      ensures count == |dataset|
    {
      count := |dataset|;
    }
  }
}
