/** The cluster-level outcome of one request (ClusterManagementResult) and the
    rule that folds the members' results into it. */
module ClusterManagementResults {
  import opened FunctionResults
  import opened RegionConfigs

  /** One member's status as attached to the cluster-level result. */
  datatype MemberStatus = MemberStatus(memberName: string, success: bool, message: string)

  /** Verdict, status message, the members' statuses in dispatch order, and
      the typed payload of a list request. */
  datatype ClusterManagementResult = ClusterManagementResult(
    successful: bool,
    statusMessage: string,
    memberStatuses: seq<MemberStatus>,
    result: seq<RuntimeRegionConfig>)

  const PartialFailureMessage := "Failed to apply the update on all members"

  function StatusOf(fr: CliFunctionResult): MemberStatus {
    MemberStatus(fr.memberIdOrName, fr.IsSuccessful(), fr.statusMessage)
  }

  /** An unsuccessful result that carries only a message. */
  function Failed(message: string): ClusterManagementResult {
    ClusterManagementResult(false, message, [], [])
  }

  /** addMemberStatus: the status is appended, and one unsuccessful member
      makes the whole result unsuccessful. */
  function AddMemberStatus(acc: ClusterManagementResult, fr: CliFunctionResult): ClusterManagementResult {
    acc.(memberStatuses := acc.memberStatuses + [StatusOf(fr)],
         successful := acc.successful && fr.IsSuccessful())
  }

  /** The member results added one by one to a fresh, successful result. */
  function Collect(rs: seq<CliFunctionResult>): (r: ClusterManagementResult)
    ensures r.successful <==> forall i :: 0 <= i < |rs| ==> rs[i].IsSuccessful()
    ensures |r.memberStatuses| == |rs|
    ensures forall i :: 0 <= i < |rs| ==> r.memberStatuses[i] == StatusOf(rs[i])
    ensures r.result == []
  {
    if rs == [] then ClusterManagementResult(true, "", [], [])
    else AddMemberStatus(Collect(rs[..|rs| - 1]), rs[|rs| - 1])
  }

  /** The collected result with its status message: `successMessage` when every
      member succeeded, the fixed partial-failure summary otherwise. */
  function Reconcile(rs: seq<CliFunctionResult>, successMessage: string): ClusterManagementResult {
    var c := Collect(rs);
    c.(statusMessage := if c.successful then successMessage else PartialFailureMessage)
  }

  /** The request succeeds exactly when every member did; the message is the
      caller's on success and the partial-failure summary otherwise; every
      member's status is kept, in order. */
  lemma ReconcileVerdict(rs: seq<CliFunctionResult>, successMessage: string)
    ensures var r := Reconcile(rs, successMessage);
      && (r.successful <==> forall i :: 0 <= i < |rs| ==> rs[i].IsSuccessful())
      && r.statusMessage == (if r.successful then successMessage else PartialFailureMessage)
      && |r.memberStatuses| == |rs|
      && (forall i :: 0 <= i < |rs| ==> r.memberStatuses[i] == StatusOf(rs[i]))
      && r.result == []
  {
  }

  /** The verdict depends on the members' success flags only, never on their messages. */
  lemma VerdictIgnoresMessages(rs: seq<CliFunctionResult>, ts: seq<CliFunctionResult>, m: string)
    requires |rs| == |ts|
    requires forall i :: 0 <= i < |rs| ==> rs[i].IsSuccessful() == ts[i].IsSuccessful()
    ensures Reconcile(rs, m).successful == Reconcile(ts, m).successful
    ensures Reconcile(rs, m).statusMessage == Reconcile(ts, m).statusMessage
  {
  }

  /** One failing member is enough to fail the request, whatever the others did. */
  lemma OneFailureFails(rs: seq<CliFunctionResult>, k: int, m: string)
    requires 0 <= k < |rs| && !rs[k].IsSuccessful()
    ensures !Reconcile(rs, m).successful
    ensures Reconcile(rs, m).statusMessage == PartialFailureMessage
    ensures |Reconcile(rs, m).memberStatuses| == |rs|
  {
  }
}
