/**
 * The prepay credits snapshot: the month's credits of the groups whose contacts mark them as
 * managed, written to a CSV file named after the month.
 */
module PrepayCreditsSnapshot {
  import opened Wrappers
  import opened Frames
  import opened Records

  /** A contact row whose "Managed" field is exactly "Yes". */
  predicate IsManaged(c: PrepayContact) {
    c.managed == Some("Yes")
  }

  function ContactGroup(c: PrepayContact): Option<string> {
    c.groupName
  }

  /** The group names of the managed contacts, in table order (a missing name stays missing). */
  function ManagedGroups(contacts: seq<PrepayContact>): seq<Option<string>> {
    MapSeq(Where(contacts, IsManaged), ContactGroup)
  }

  /**
   * The credits mask: the credit's month equals the invoice month and its group is in the managed
   * list (`isin`, under which a missing group matches a missing group).
   */
  function InSnapshot(month: string, managed: seq<Option<string>>): PrepayCredit -> bool {
    (c: PrepayCredit) => c.month == Some(month) && c.groupName in managed
  }

  /**
   * `_get_prepay_credits_snapshot`: the credits rows the mask keeps. `_prepare` stores exactly
   * this as the invoice's export data.
   */
  function Snapshot(credits: seq<PrepayCredit>, contacts: seq<PrepayContact>, month: string): seq<PrepayCredit> {
    Where(credits, InSnapshot(month, ManagedGroups(contacts)))
  }

  /** A group is managed exactly when some contact row with that group name says "Yes". */
  lemma ManagedGroupsMembers(contacts: seq<PrepayContact>, g: Option<string>)
    ensures g in ManagedGroups(contacts) <==>
              exists k :: 0 <= k < |contacts| && contacts[k].managed == Some("Yes") && contacts[k].groupName == g
  {
    var managed := Where(contacts, IsManaged);
    if g in ManagedGroups(contacts) {
      var j :| 0 <= j < |managed| && ManagedGroups(contacts)[j] == g;
      WhereMembers(contacts, IsManaged, managed[j]);
      var k :| 0 <= k < |contacts| && contacts[k] == managed[j];
      assert contacts[k].groupName == g;
    }
    if exists k :: 0 <= k < |contacts| && contacts[k].managed == Some("Yes") && contacts[k].groupName == g {
      var k :| 0 <= k < |contacts| && contacts[k].managed == Some("Yes") && contacts[k].groupName == g;
      WhereMembers(contacts, IsManaged, contacts[k]);
      var j :| 0 <= j < |managed| && managed[j] == contacts[k];
      assert ManagedGroups(contacts)[j] == g;
    }
  }

  /**
   * The snapshot is an order-preserving subset of the credits table, and a credit is in it
   * exactly when it is dated in the invoice month and its group is managed.
   */
  lemma SnapshotExactly(credits: seq<PrepayCredit>, contacts: seq<PrepayContact>, month: string, c: PrepayCredit)
    ensures Subsequence(Snapshot(credits, contacts, month), credits)
    ensures c in Snapshot(credits, contacts, month) <==>
              && c in credits
              && c.month == Some(month)
              && exists k :: 0 <= k < |contacts| && contacts[k].managed == Some("Yes") && contacts[k].groupName == c.groupName
  {
    var p := InSnapshot(month, ManagedGroups(contacts));
    WhereSubsequence(credits, p);
    WhereMembers(credits, p, c);
    ManagedGroupsMembers(contacts, c.groupName);
  }

  /** Credits of other months, and of groups no contact marks managed, never appear. */
  lemma SnapshotExcludes(credits: seq<PrepayCredit>, contacts: seq<PrepayContact>, month: string, c: PrepayCredit)
    requires c.month != Some(month) || forall k :: 0 <= k < |contacts| ==> contacts[k].groupName == c.groupName ==> contacts[k].managed != Some("Yes")
    ensures c !in Snapshot(credits, contacts, month)
  {
    SnapshotExactly(credits, contacts, month, c);
  }

  const OUTPUT_PREFIX := "NERC_Prepaid_Group-Credits-"

  /** `output_path`: the CSV file name for the month. */
  function OutputPath(month: string): (path: string)
    ensures |path| == |OUTPUT_PREFIX| + |month| + 4
    ensures path[..|OUTPUT_PREFIX|] == OUTPUT_PREFIX
    ensures path[|OUTPUT_PREFIX|..|path| - 4] == month
    ensures path[|path| - 4..] == ".csv"
  {
    "NERC_Prepaid_Group-Credits-" + month + ".csv"
  }

  /** Different months write different files. */
  lemma OutputPathInjective(a: string, b: string)
    requires OutputPath(a) == OutputPath(b)
    ensures a == b
  {
    var pa := OutputPath(a);
    assert a == pa[|OUTPUT_PREFIX|..|pa| - 4];
  }

  /** `output_s3_key`: the object key the snapshot is uploaded to. */
  function OutputS3Key(month: string): string {
    "Invoices/" + month + "/NERC_Prepaid_Group-Credits-" + month + ".csv"
  }

  /** The upload key is the local file name under the month's `Invoices/` folder. */
  lemma S3KeyIsOutputPathUnderMonth(month: string)
    ensures OutputS3Key(month) == "Invoices/" + month + "/" + OutputPath(month)
  {
    assert "/NERC_Prepaid_Group-Credits-" == "/" + OUTPUT_PREFIX;
  }
}
