/**
 * The records the dashboard passes around (types/pipeline.ts, types/variable.ts,
 * types/cloudflare.ts), in the shape the code actually builds: project states carry an
 * optional web URL and optional pipeline summaries besides their branches.
 */
module Types {
  import opened Wrappers

  /** `BranchStatus`. */
  datatype BranchStatus = Idle | Triggering | Succeeded | Errored

  /** `BranchState`; `lastTriggeredAt` and `error` are the optional fields. */
  datatype BranchState = BranchState(
    name: string,
    isDefault: bool,
    status: BranchStatus,
    lastTriggeredAt: Option<string>,
    error: Option<string>)

  /** A branch as loaded or revived: idle, never triggered, no error. */
  function IdleBranch(name: string, isDefault: bool): (b: BranchState)
    ensures b.name == name && b.isDefault == isDefault
    ensures b.status == Idle && b.lastTriggeredAt.None? && b.error.None?
  {
    BranchState(name, isDefault, Idle, None, None)
  }

  /** `PipelineSummary`. */
  datatype PipelineSummary = PipelineSummary(
    id: nat, status: string, ref: string, sha: string, webUrl: string, createdAt: string, updatedAt: string)

  /** `PipelineProjectState`; `webUrl` and `pipelines` are absent in states some pages build. */
  datatype ProjectState = ProjectState(
    id: string,
    name: string,
    namespace: string,
    webUrl: Option<string>,
    branches: seq<BranchState>,
    pipelines: Option<seq<PipelineSummary>>)

  /** `StoredBranch`: only the name and the default flag survive storage. */
  datatype StoredBranch = StoredBranch(name: string, isDefault: bool)

  /** `StoredProject`, the persisted form of a project. */
  datatype StoredProject = StoredProject(
    id: string,
    name: string,
    namespace: string,
    webUrl: Option<string>,
    branches: seq<StoredBranch>,
    pipelines: Option<seq<PipelineSummary>>)

  /** `VariableStatus`, the per-key state of the variables and secrets tables. */
  datatype VariableStatus = Pending | InProgress | Success | Error | Skipped

  /** `StatusMessage`: the alert or toast shown to the user. */
  datatype MessageType = SuccessMessage | ErrorMessage
  datatype StatusMessage = StatusMessage(kind: MessageType, text: string)

  /** `CreateR2BucketBody`: every field may be absent from the JSON body. */
  datatype CreateR2BucketBody = CreateR2BucketBody(
    bucketName: Option<string>,
    accountId: Option<string>,
    token: Option<string>,
    enableDevDomain: Option<bool>)

  /** The managed dev domain of a bucket as the Cloudflare API returns it. */
  datatype DevDomain = DevDomain(bucketId: string, domain: string, enabled: bool)

  /** `CreateR2BucketResponse`. */
  datatype R2Bucket = R2Bucket(name: string, location: Option<string>, createdAt: Option<string>)
  datatype CreateR2BucketResponse = CreateR2BucketResponse(bucket: R2Bucket, devDomain: DevDomain)
}
