/** The contract as the source writes it: an object whose entry points read and
    write stored maps and counters, check by check. */
module BountyContract {
  import opened TokenLedger
  import opened BountyTypes
  import opened BountySpec
  import opened Sequences

  class TaskBountyContract {
    const self: Address
    var tasks: map<U64, Task>
    var taskCount: U64
    var submissions: map<U64, Submission>
    var submissionCount: U64
    var taskSubmissions: map<U64, seq<U64>>
    var hasSubmitted: set<(U64, Address)>
    var disputes: map<U64, Dispute>
    var disputeCount: U64
    var activeDisputes: map<(U64, U64), U64>
    var ledger: Ledger

    function Stored(): State
      reads this
    {
      State(self, tasks, taskCount, submissions, submissionCount, taskSubmissions, hasSubmitted,
            disputes, disputeCount, activeDisputes, ledger)
    }

    constructor Initialize(self: Address, ledger: Ledger)
      ensures Stored() == Initial(self, ledger)
      ensures tasks == map[] && submissions == map[] && taskSubmissions == map[] && hasSubmitted == {}
      ensures disputes == map[] && activeDisputes == map[]
      ensures taskCount == submissionCount == disputeCount == 0
    {
      this.self, this.ledger := self, ledger;
      tasks, taskCount, submissions, submissionCount := map[], 0, map[], 0;
      taskSubmissions, hasSubmitted := map[], {};
      disputes, disputeCount, activeDisputes := map[], 0, map[];
    }

    /** The host undoing the writes of a call that panicked. */
    method Restore(s: State)
      requires s.self == self
      modifies this
      ensures Stored() == s
    {
      tasks, taskCount, submissions, submissionCount := s.tasks, s.taskCount, s.submissions, s.submissionCount;
      taskSubmissions, hasSubmitted := s.taskSubmissions, s.hasSubmitted;
      disputes, disputeCount, activeDisputes := s.disputes, s.disputeCount, s.activeDisputes;
      ledger := s.ledger;
    }

    method Transfer(token: Address, from: Address, to: Address, amount: I128) returns (ok: bool)
      modifies this`ledger
      ensures ok == CanTransfer(old(ledger), token, from, amount)
      ensures ledger == if ok then Move(old(ledger), token, from, to, amount) else old(ledger)
    {
      ok := CanTransfer(ledger, token, from, amount);
      if ok {
        ledger := Move(ledger, token, from, to, amount);
      }
    }

    method AddTaskSubmission(taskId: U64, submissionId: U64)
      modifies this`taskSubmissions
      ensures taskSubmissions == old(taskSubmissions)[taskId := old(Stored()).SubmissionsOf(taskId) + [submissionId]]
    {
      var list := [];
      if taskId in taskSubmissions {
        list := taskSubmissions[taskId];
      }
      list := list + [submissionId];
      taskSubmissions := taskSubmissions[taskId := list];
    }

    method DoCreateTask(now: U64, c: Call) returns (r: Reply)
      requires c.CreateTask?
      modifies this
      ensures match CreateTaskRefusal(old(Stored()), now, c)
              case Some(error) => r == Panicked(error)
              case None => r == Created(old(taskCount) + 1) && Stored() == CreateTaskEffect(old(Stored()), now, c)
    {
      if c.reward < MIN_REWARD { return Panicked(InsufficientReward); }
      if c.deadline <= now { return Panicked(InvalidDeadline); }
      if now + MAX_DEADLINE > U64_MAX { return Panicked(ArithmeticOverflow); }
      if c.deadline > now + MAX_DEADLINE { return Panicked(InvalidDeadline); }
      if c.maxSubmissions == 0 { return Panicked(InvalidMaxSubmissions); }

      var paid := Transfer(c.token, c.poster, self, c.reward);
      if !paid { return Panicked(TransferFailed); }

      if taskCount == U64_MAX { return Panicked(ArithmeticOverflow); }
      taskCount := taskCount + 1;
      var task := Task(taskCount, c.poster, c.title, c.description, c.token, c.reward,
                       c.deadline, c.maxSubmissions, 0, Open, now);
      tasks := tasks[task.id := task];
      return Created(taskCount);
    }

    method DoSubmitWork(now: U64, c: Call) returns (r: Reply)
      requires c.SubmitWork?
      modifies this
      ensures match SubmitWorkRefusal(old(Stored()), now, c)
              case Some(error) => r == Panicked(error)
              case None => r == Created(old(submissionCount) + 1) && Stored() == SubmitWorkEffect(old(Stored()), now, c)
    {
      if c.taskId !in tasks { return Panicked(TaskNotFound); }
      var task := tasks[c.taskId];
      if task.status != Open && task.status != InProgress { return Panicked(InvalidTaskStatus); }
      if now > task.deadline { return Panicked(TaskExpired); }
      if (c.taskId, c.contributor) in hasSubmitted { return Panicked(AlreadySubmitted); }
      if task.submissionCount >= task.maxSubmissions { return Panicked(MaxSubmissionsReached); }

      if submissionCount == U64_MAX { return Panicked(ArithmeticOverflow); }
      submissionCount := submissionCount + 1;
      var id := submissionCount;
      submissions := submissions[id := Submission(id, c.taskId, c.contributor, c.workUrl, c.description, Pending, now)];
      AddTaskSubmission(c.taskId, id);
      hasSubmitted := hasSubmitted + {(c.taskId, c.contributor)};

      task := task.(submissionCount := task.submissionCount + 1);
      if task.status == Open {
        task := task.(status := InProgress);
      }
      tasks := tasks[task.id := task];
      return Created(id);
    }

    method DoApprove(c: Call) returns (r: Reply)
      requires c.ApproveSubmission?
      modifies this
      ensures match ApproveRefusal(old(Stored()), c)
              case Some(error) => r == Panicked(error)
              case None => r == Done && Stored() == ApproveEffect(old(Stored()), c)
    {
      if c.taskId !in tasks { return Panicked(TaskNotFound); }
      var task := tasks[c.taskId];
      if task.poster != c.poster { return Panicked(Unauthorized); }
      if c.submissionId !in submissions { return Panicked(SubmissionNotFound); }
      var submission := submissions[c.submissionId];
      if submission.taskId != c.taskId { return Panicked(Unauthorized); }
      if submission.status != Pending { return Panicked(InvalidSubmissionStatus); }
      if task.status == Completed || task.status == Cancelled { return Panicked(InvalidTaskStatus); }
      if (c.taskId, c.submissionId) in activeDisputes { return Panicked(InvalidSubmissionStatus); }

      submission := submission.(status := Approved);
      task := task.(status := Completed);
      submissions := submissions[submission.id := submission];
      tasks := tasks[task.id := task];

      var paid := Transfer(task.token, self, submission.contributor, task.reward);
      return if paid then Done else Panicked(TransferFailed);
    }

    method DoReject(c: Call) returns (r: Reply)
      requires c.RejectSubmission?
      modifies this
      ensures match ReviewRefusal(old(Stored()), c.taskId, c.submissionId, c.poster)
              case Some(error) => r == Panicked(error)
              case None => r == Done && Stored() == RejectEffect(old(Stored()), c)
    {
      if c.taskId !in tasks { return Panicked(TaskNotFound); }
      if tasks[c.taskId].poster != c.poster { return Panicked(Unauthorized); }
      if c.submissionId !in submissions { return Panicked(SubmissionNotFound); }
      var submission := submissions[c.submissionId];
      if submission.taskId != c.taskId { return Panicked(Unauthorized); }
      if submission.status != Pending { return Panicked(InvalidSubmissionStatus); }

      submission := submission.(status := Rejected);
      submissions := submissions[submission.id := submission];
      return Done;
    }

    method DoCancel(c: Call) returns (r: Reply)
      requires c.CancelTask?
      modifies this
      ensures match CancelRefusal(old(Stored()), c)
              case Some(error) => r == Panicked(error)
              case None => r == Done && Stored() == CancelEffect(old(Stored()), c)
    {
      if c.taskId !in tasks { return Panicked(TaskNotFound); }
      var task := tasks[c.taskId];
      if task.poster != c.poster { return Panicked(Unauthorized); }
      if task.status == Completed || task.status == Cancelled { return Panicked(InvalidTaskStatus); }

      var ids := Stored().SubmissionsOf(c.taskId);
      var i := 0;
      while i < |ids|
        invariant 0 <= i <= |ids|
        invariant Stored() == old(Stored())
        invariant ScanRefusal(submissions, ids[i..]) == ScanRefusal(submissions, ids)
      {
        if ids[i] !in submissions { return Panicked(MissingEntry); }
        if submissions[ids[i]].status == Approved { return Panicked(InvalidTaskStatus); }
        i := i + 1;
      }

      task := task.(status := Cancelled);
      tasks := tasks[task.id := task];
      var paid := Transfer(task.token, self, c.poster, task.reward);
      return if paid then Done else Panicked(TransferFailed);
    }

    method DoRaiseDispute(now: U64, c: Call) returns (r: Reply)
      requires c.RaiseDispute?
      modifies this
      ensures match DisputeRefusal(old(Stored()), c)
              case Some(error) => r == Panicked(error)
              case None => r == Done && Stored() == DisputeEffect(old(Stored()), now, c)
    {
      if c.taskId !in tasks { return Panicked(TaskNotFound); }
      var task := tasks[c.taskId];
      if c.submissionId !in submissions { return Panicked(SubmissionNotFound); }
      var submission := submissions[c.submissionId];
      if submission.taskId != c.taskId { return Panicked(Unauthorized); }
      if c.raiser != task.poster && c.raiser != submission.contributor { return Panicked(Unauthorized); }
      if submission.status != Pending && submission.status != Rejected { return Panicked(InvalidSubmissionStatus); }
      if (c.taskId, c.submissionId) in activeDisputes { return Panicked(DisputeAlreadyExists); }

      if disputeCount == U64_MAX { return Panicked(ArithmeticOverflow); }
      disputeCount := disputeCount + 1;
      disputes := disputes[disputeCount := Dispute(disputeCount, c.taskId, c.submissionId, c.raiser, c.reason, now)];
      activeDisputes := activeDisputes[(c.taskId, c.submissionId) := disputeCount];
      task := task.(status := Disputed);
      tasks := tasks[task.id := task];
      return Done;
    }

    /** An entry point as the host runs it: authenticate, dispatch, and undo
        every write if the call panics. */
    method Serve(now: U64, c: Call) returns (r: Reply)
      modifies this
      ensures r == ReplyTo(old(Stored()), now, c)
      ensures Stored() == Invoke(old(Stored()), now, c)
    {
      if c.Caller() == self { return Panicked(NotAuthenticated); }
      var before := Stored();
      match c {
        case CreateTask(_, _, _, _, _, _, _) => r := DoCreateTask(now, c);
        case SubmitWork(_, _, _, _) => r := DoSubmitWork(now, c);
        case ApproveSubmission(_, _, _) => r := DoApprove(c);
        case RejectSubmission(_, _, _, _) => r := DoReject(c);
        case CancelTask(_, _) => r := DoCancel(c);
        case RaiseDispute(_, _, _, _) => r := DoRaiseDispute(now, c);
      }
      if r.Panicked? {
        Restore(before);
      }
    }
  }
}
