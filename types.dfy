/**
 * The records the pages work on, after src/types/pipeline.ts. Optional
 * fields (`?`) are `Option`s; `Date` values are timestamps in milliseconds;
 * TypeScript `number` fields are integers.
 */
module PipelineTypes {
  import opened Wrappers

  type Timestamp = int

  datatype PipelineType = Newman | Mobile

  datatype PipelineStatus = Idle | Running | Success | Failed | Cancelled

  datatype Platform = Android | Ios

  /** `NewmanConfig | MobileConfig`: how a pipeline runs, per runner kind. */
  datatype PipelineConfig =
    | NewmanConfig(collection: string, environment: Option<string>,
                   variables: Option<map<string, string>>, iterations: Option<int>,
                   folder: Option<string>, timeout: Option<int>)
    | MobileConfig(apkPath: string, testSuite: string, device: string,
                   platform: Platform, timeout: Option<int>)

  datatype Pipeline = Pipeline(
    id: string,
    name: string,
    description: Option<string>,
    kind: PipelineType,
    config: PipelineConfig,
    createdBy: string,
    createdAt: Timestamp,
    updatedAt: Timestamp,
    lastRun: Option<Timestamp>,
    status: Option<PipelineStatus>)

  datatype AssertionResult = AssertionResult(name: string, passed: bool, error: Option<string>)

  datatype ExecutionResult = ExecutionResult(
    passed: int,
    failed: int,
    skipped: int,
    total: int,
    errors: Option<seq<string>>,
    assertions: Option<seq<AssertionResult>>)

  datatype Execution = Execution(
    id: string,
    pipelineId: string,
    pipelineName: string,
    status: PipelineStatus,
    startedAt: Timestamp,
    completedAt: Option<Timestamp>,
    duration: Option<int>,
    logs: Option<seq<string>>,
    result: Option<ExecutionResult>,
    triggeredBy: string)

  /** The string literal TypeScript uses for each runner kind. */
  function TypeName(t: PipelineType): string
  {
    match t
    case Newman => "newman"
    case Mobile => "mobile"
  }

  /** The string literal TypeScript uses for each status. */
  function StatusName(s: PipelineStatus): string
  {
    match s
    case Idle => "idle"
    case Running => "running"
    case Success => "success"
    case Failed => "failed"
    case Cancelled => "cancelled"
  }

  /** The sentinel the type and status selectors of both pages use for "no restriction". */
  const All: string := "all"

  /** A type selector set to `typeFilter` lets a runner kind through. */
  predicate TypeSelected(t: PipelineType, typeFilter: string)
  {
    typeFilter == All || TypeName(t) == typeFilter
  }

  /** A status selector set to `statusFilter` lets a status through. */
  predicate StatusSelected(s: PipelineStatus, statusFilter: string)
  {
    statusFilter == All || StatusName(s) == statusFilter
  }

  /** The names tell the kinds apart, and none of them is the `'all'` sentinel of the filters. */
  lemma TypeNameDistinct(t: PipelineType, u: PipelineType)
    ensures TypeName(t) == TypeName(u) <==> t == u
    ensures TypeName(t) != All
  {
  }

  /** The names tell the statuses apart, and none of them is the `'all'` sentinel of the filters. */
  lemma StatusNameDistinct(s: PipelineStatus, u: PipelineStatus)
    ensures StatusName(s) == StatusName(u) <==> s == u
    ensures StatusName(s) != All
  {
  }
}
