/** What each entry point does: the first check that refuses a call, and the new
    storage when none does. A refused call leaves everything as it was. */
module BountySpec {
  import opened TokenLedger
  import opened BountyTypes
  import opened Sequences

  function CreateTaskRefusal(s: State, now: U64, c: Call): Option<Error>
    requires c.CreateTask?
  {
    if c.reward < MIN_REWARD then Some(InsufficientReward)
    else if c.deadline <= now then Some(InvalidDeadline)
    else if now + MAX_DEADLINE > U64_MAX then Some(ArithmeticOverflow)
    else if c.deadline > now + MAX_DEADLINE then Some(InvalidDeadline)
    else if c.maxSubmissions == 0 then Some(InvalidMaxSubmissions)
    else if !CanTransfer(s.ledger, c.token, c.poster, c.reward) then Some(TransferFailed)
    else if s.taskCount == U64_MAX then Some(ArithmeticOverflow)
    else None
  }

  function CreateTaskEffect(s: State, now: U64, c: Call): State
    requires c.CreateTask? && CreateTaskRefusal(s, now, c).None?
  {
    var id := s.taskCount + 1;
    var task := Task(id, c.poster, c.title, c.description, c.token, c.reward,
                     c.deadline, c.maxSubmissions, 0, Open, now);
    s.(ledger := Move(s.ledger, c.token, c.poster, s.self, c.reward),
       taskCount := id,
       tasks := s.tasks[id := task])
  }

  function SubmitWorkRefusal(s: State, now: U64, c: Call): Option<Error>
    requires c.SubmitWork?
  {
    if c.taskId !in s.tasks then Some(TaskNotFound)
    else if !Accepting(s.tasks[c.taskId].status) then Some(InvalidTaskStatus)
    else if now > s.tasks[c.taskId].deadline then Some(TaskExpired)
    else if (c.taskId, c.contributor) in s.hasSubmitted then Some(AlreadySubmitted)
    else if s.tasks[c.taskId].submissionCount >= s.tasks[c.taskId].maxSubmissions then Some(MaxSubmissionsReached)
    else if s.submissionCount == U64_MAX then Some(ArithmeticOverflow)
    else None
  }

  function SubmitWorkEffect(s: State, now: U64, c: Call): State
    requires c.SubmitWork? && SubmitWorkRefusal(s, now, c).None?
  {
    var id := s.submissionCount + 1;
    var task := s.tasks[c.taskId];
    var submission := Submission(id, c.taskId, c.contributor, c.workUrl, c.description, Pending, now);
    s.(submissionCount := id,
       submissions := s.submissions[id := submission],
       taskSubmissions := s.taskSubmissions[c.taskId := s.SubmissionsOf(c.taskId) + [id]],
       hasSubmitted := s.hasSubmitted + {(c.taskId, c.contributor)},
       tasks := s.tasks[task.id := task.(submissionCount := task.submissionCount + 1, status := InProgress)])
  }

  /** The checks `approve_submission` and `reject_submission` share. */
  function ReviewRefusal(s: State, taskId: U64, submissionId: U64, poster: Address): Option<Error> {
    if taskId !in s.tasks then Some(TaskNotFound)
    else if s.tasks[taskId].poster != poster then Some(Unauthorized)
    else if submissionId !in s.submissions then Some(SubmissionNotFound)
    else if s.submissions[submissionId].taskId != taskId then Some(Unauthorized)
    else if s.submissions[submissionId].status != Pending then Some(InvalidSubmissionStatus)
    else None
  }

  function ApproveRefusal(s: State, c: Call): Option<Error>
    requires c.ApproveSubmission?
  {
    var refusal := ReviewRefusal(s, c.taskId, c.submissionId, c.poster);
    if refusal.Some? then refusal
    else if Finished(s.tasks[c.taskId].status) then Some(InvalidTaskStatus)
    else if (c.taskId, c.submissionId) in s.activeDisputes then Some(InvalidSubmissionStatus)
    else if !CanTransfer(s.ledger, s.tasks[c.taskId].token, s.self, s.tasks[c.taskId].reward) then Some(TransferFailed)
    else None
  }

  function ApproveEffect(s: State, c: Call): State
    requires c.ApproveSubmission? && ApproveRefusal(s, c).None?
  {
    var task := s.tasks[c.taskId];
    var submission := s.submissions[c.submissionId];
    s.(submissions := s.submissions[submission.id := submission.(status := Approved)],
       tasks := s.tasks[task.id := task.(status := Completed)],
       ledger := Move(s.ledger, task.token, s.self, submission.contributor, task.reward))
  }

  function RejectEffect(s: State, c: Call): State
    requires c.RejectSubmission? && ReviewRefusal(s, c.taskId, c.submissionId, c.poster).None?
  {
    var submission := s.submissions[c.submissionId];
    s.(submissions := s.submissions[submission.id := submission.(status := Rejected)])
  }

  /** What the scan over a task's submissions trips over first. */
  function ScanRefusal(submissions: map<U64, Submission>, ids: seq<U64>): Option<Error> {
    if ids == [] then None
    else if ids[0] !in submissions then Some(MissingEntry)
    else if submissions[ids[0]].status == Approved then Some(InvalidTaskStatus)
    else ScanRefusal(submissions, ids[1..])
  }

  function CancelRefusal(s: State, c: Call): Option<Error>
    requires c.CancelTask?
  {
    if c.taskId !in s.tasks then Some(TaskNotFound)
    else if s.tasks[c.taskId].poster != c.poster then Some(Unauthorized)
    else if Finished(s.tasks[c.taskId].status) then Some(InvalidTaskStatus)
    else
      var scan := ScanRefusal(s.submissions, s.SubmissionsOf(c.taskId));
      if scan.Some? then scan
      else if !CanTransfer(s.ledger, s.tasks[c.taskId].token, s.self, s.tasks[c.taskId].reward)
        then Some(TransferFailed)
      else None
  }

  function CancelEffect(s: State, c: Call): State
    requires c.CancelTask? && CancelRefusal(s, c).None?
  {
    var task := s.tasks[c.taskId];
    s.(tasks := s.tasks[task.id := task.(status := Cancelled)],
       ledger := Move(s.ledger, task.token, s.self, c.poster, task.reward))
  }

  function DisputeRefusal(s: State, c: Call): Option<Error>
    requires c.RaiseDispute?
  {
    if c.taskId !in s.tasks then Some(TaskNotFound)
    else if c.submissionId !in s.submissions then Some(SubmissionNotFound)
    else if s.submissions[c.submissionId].taskId != c.taskId then Some(Unauthorized)
    else if c.raiser != s.tasks[c.taskId].poster && c.raiser != s.submissions[c.submissionId].contributor
      then Some(Unauthorized)
    else if s.submissions[c.submissionId].status == Approved then Some(InvalidSubmissionStatus)
    else if (c.taskId, c.submissionId) in s.activeDisputes then Some(DisputeAlreadyExists)
    else if s.disputeCount == U64_MAX then Some(ArithmeticOverflow)
    else None
  }

  function DisputeEffect(s: State, now: U64, c: Call): State
    requires c.RaiseDispute? && DisputeRefusal(s, c).None?
  {
    var id := s.disputeCount + 1;
    var task := s.tasks[c.taskId];
    s.(disputeCount := id,
       disputes := s.disputes[id := Dispute(id, c.taskId, c.submissionId, c.raiser, c.reason, now)],
       activeDisputes := s.activeDisputes[(c.taskId, c.submissionId) := id],
       tasks := s.tasks[task.id := task.(status := Disputed)])
  }

  function Refusal(s: State, now: U64, c: Call): Option<Error> {
    if c.Caller() == s.self then Some(NotAuthenticated)
    else
      match c
      case CreateTask(_, _, _, _, _, _, _) => CreateTaskRefusal(s, now, c)
      case SubmitWork(_, _, _, _) => SubmitWorkRefusal(s, now, c)
      case ApproveSubmission(_, _, _) => ApproveRefusal(s, c)
      case RejectSubmission(t, i, p, _) => ReviewRefusal(s, t, i, p)
      case CancelTask(_, _) => CancelRefusal(s, c)
      case RaiseDispute(_, _, _, _) => DisputeRefusal(s, c)
  }

  predicate Accepts(s: State, now: U64, c: Call) {
    Refusal(s, now, c).None?
  }

  function Effect(s: State, now: U64, c: Call): State
    requires Accepts(s, now, c)
  {
    match c
    case CreateTask(_, _, _, _, _, _, _) => CreateTaskEffect(s, now, c)
    case SubmitWork(_, _, _, _) => SubmitWorkEffect(s, now, c)
    case ApproveSubmission(_, _, _) => ApproveEffect(s, c)
    case RejectSubmission(_, _, _, _) => RejectEffect(s, c)
    case CancelTask(_, _) => CancelEffect(s, c)
    case RaiseDispute(_, _, _, _) => DisputeEffect(s, now, c)
  }

  function ReplyTo(s: State, now: U64, c: Call): Reply {
    match Refusal(s, now, c)
    case Some(error) => Panicked(error)
    case None =>
      if c.CreateTask? then Created(s.taskCount + 1)
      else if c.SubmitWork? then Created(s.submissionCount + 1)
      else Done
  }

  /** One invocation: a call that panics is rolled back. */
  function Invoke(s: State, now: U64, c: Call): State {
    if Accepts(s, now, c) then Effect(s, now, c) else s
  }
}
