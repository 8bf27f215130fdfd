/** Run state, stages and checkpoints shared by both workflow stores (services/orchestrator/app/workflow.py). */
module Workflow {
  import opened Common

  datatype Stage = QUALIFY | PREPARE | APPROVE | CONTACT | CONVERSE | HANDOFF | CLOSE

  datatype Status = RUNNING | WAITING_HUMAN | BLOCKED

  /** `carried` stands for the fields the engines only copy: facts, attempts, next action, policy decision. */
  datatype RunState = RunState(
    tenant: string, runId: string, campaign: string, contact: string,
    stage: Stage, status: Status, pending: Option<string>, lastEvent: Option<string>,
    carried: string, workflowVersion: string, checkpointNo: nat)

  /** The text stored for a stage: the value of a Stage member, or text that names none. */
  datatype StageText = Named(stage: Stage) | Unknown(text: string)

  /** The serialized state, with the stage as text. */
  datatype Payload = Payload(
    tenant: string, runId: string, campaign: string, contact: string,
    stage: StageText, status: Status, pending: Option<string>, lastEvent: Option<string>,
    carried: string, workflowVersion: string, checkpointNo: nat)

  /** SHA-256 of a payload, symbolically injective, or any other text found in a hash column. */
  datatype Digest = Sha256(body: Payload) | OtherText(text: string)

  datatype Checkpoint = Checkpoint(body: Payload, stateHash: Digest)

  const WORKFLOW_VERSION := "sales-graph@1"
  const ORDER := [QUALIFY, PREPARE, APPROVE, CONTACT, CONVERSE, HANDOFF, CLOSE]

  function Index(stage: Stage): (i: nat)
    ensures i < |ORDER| && ORDER[i] == stage
  {
    match stage
    case QUALIFY => 0
    case PREPARE => 1
    case APPROVE => 2
    case CONTACT => 3
    case CONVERSE => 4
    case HANDOFF => 5
    case CLOSE => 6
  }

  function NextStage(stage: Stage): Stage {
    ORDER[if Index(stage) + 1 < |ORDER| then Index(stage) + 1 else |ORDER| - 1]
  }

  function ToPayload(s: RunState): Payload {
    Payload(s.tenant, s.runId, s.campaign, s.contact, Named(s.stage), s.status, s.pending, s.lastEvent,
            s.carried, s.workflowVersion, s.checkpointNo)
  }

  /** None is the ValueError of `Stage(text)` for text that names no stage. */
  function FromPayload(p: Payload): Option<RunState> {
    match p.stage
    case Unknown(_) => None
    case Named(stage) =>
      Some(RunState(p.tenant, p.runId, p.campaign, p.contact, stage, p.status, p.pending, p.lastEvent,
                    p.carried, p.workflowVersion, p.checkpointNo))
  }

  /** Saving and loading a state gives it back, and a loadable payload is the saved form of what it loads to. */
  lemma {:induction false} PayloadRoundTrip(s: RunState, p: Payload)
    ensures FromPayload(ToPayload(s)) == Some(s)
    ensures FromPayload(p).Some? ==> ToPayload(FromPayload(p).value) == p
  {
  }

  function Initial(tenant: string, runId: string, campaign: string, contact: string): RunState {
    RunState(tenant, runId, campaign, contact, QUALIFY, RUNNING, None, None, "", WORKFLOW_VERSION, 0)
  }

  /** The stage moves to the next of the seven, and nothing else of the state changes but the event and the number. */
  predicate MovesOneStage(s: RunState, event: string, next: RunState) {
    && Index(next.stage) == (if Index(s.stage) < 6 then Index(s.stage) + 1 else 6)
    && (s.stage, next.stage) in {(QUALIFY, PREPARE), (PREPARE, APPROVE), (CONTACT, CONVERSE), (CONVERSE, HANDOFF),
                                 (HANDOFF, CLOSE), (CLOSE, CLOSE)}
    && next == s.(stage := next.stage, lastEvent := Some(event), checkpointNo := s.checkpointNo + 1)
  }

  function Numbered(s: RunState): RunState {
    s.(checkpointNo := s.checkpointNo + 1)
  }

  function Seal(s: RunState): Checkpoint {
    Checkpoint(ToPayload(s), Sha256(ToPayload(s)))
  }
}
