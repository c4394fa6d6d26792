/** The records, statuses, errors and calls of the TaskBounty contract, and its
    storage as one value. */
module BountyTypes {
  import opened TokenLedger

  const U32_MAX := 0xffff_ffff
  const U64_MAX := 0xffff_ffff_ffff_ffff
  const I128_MAX := 0x7fff_ffff_ffff_ffff_ffff_ffff_ffff_ffff

  type U32 = x: int | 0 <= x <= U32_MAX
  type U64 = x: int | 0 <= x <= U64_MAX
  type I128 = x: int | -I128_MAX - 1 <= x <= I128_MAX

  const MIN_REWARD := 1_000_000
  const MAX_DEADLINE := 31_536_000

  datatype TaskStatus = Open | InProgress | Completed | Cancelled | Disputed

  datatype SubmissionStatus = Pending | Approved | Rejected

  datatype Task = Task(
    id: U64, poster: Address, title: string, description: string, token: Address, reward: I128,
    deadline: U64, maxSubmissions: U32, submissionCount: U32, status: TaskStatus, createdAt: U64)

  datatype Submission = Submission(
    id: U64, taskId: U64, contributor: Address, workUrl: string, description: string,
    status: SubmissionStatus, submittedAt: U64)

  datatype Dispute = Dispute(
    id: U64, taskId: U64, submissionId: U64, raiser: Address, reason: string, createdAt: U64)

  /** The contract's own error codes, and the host's traps. */
  datatype Error =
    | TaskNotFound | SubmissionNotFound | Unauthorized | TaskExpired
    | InvalidTaskStatus | InvalidSubmissionStatus | InsufficientReward | InvalidDeadline
    | InvalidMaxSubmissions | AlreadySubmitted | MaxSubmissionsReached | DisputeAlreadyExists
    | NotAuthenticated | ArithmeticOverflow | TransferFailed | MissingEntry

  datatype Reply = Created(id: U64) | Done | Panicked(error: Error)

  /** The entry points. The account named in a call is the one that authenticates it. */
  datatype Call =
    | CreateTask(poster: Address, title: string, description: string, token: Address,
                 reward: I128, deadline: U64, maxSubmissions: U32)
    | SubmitWork(taskId: U64, contributor: Address, workUrl: string, description: string)
    | ApproveSubmission(taskId: U64, submissionId: U64, poster: Address)
    | RejectSubmission(taskId: U64, submissionId: U64, poster: Address, reason: string)
    | CancelTask(taskId: U64, poster: Address)
    | RaiseDispute(taskId: U64, submissionId: U64, raiser: Address, reason: string)
  {
    function Caller(): Address {
      match this
      case CreateTask(poster, _, _, _, _, _, _) => poster
      case SubmitWork(_, contributor, _, _) => contributor
      case ApproveSubmission(_, _, poster) => poster
      case RejectSubmission(_, _, poster, _) => poster
      case CancelTask(_, poster) => poster
      case RaiseDispute(_, _, raiser, _) => raiser
    }
  }

  datatype State = State(
    self: Address,
    tasks: map<U64, Task>, taskCount: U64,
    submissions: map<U64, Submission>, submissionCount: U64,
    taskSubmissions: map<U64, seq<U64>>,
    hasSubmitted: set<(U64, Address)>,
    disputes: map<U64, Dispute>, disputeCount: U64,
    activeDisputes: map<(U64, U64), U64>,
    ledger: Ledger)
  {
    /** The stored list, empty when nothing is stored. */
    function SubmissionsOf(taskId: U64): seq<U64> {
      if taskId in taskSubmissions then taskSubmissions[taskId] else []
    }
  }

  predicate Finished(status: TaskStatus) {
    status == Completed || status == Cancelled
  }

  predicate Accepting(status: TaskStatus) {
    status == Open || status == InProgress
  }

  /** Storage right after `initialize`, over whatever the tokens hold by then. */
  function Initial(self: Address, ledger: Ledger): State {
    State(self, map[], 0, map[], 0, map[], {}, map[], 0, map[], ledger)
  }
}
