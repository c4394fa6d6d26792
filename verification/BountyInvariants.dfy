/** What the contract's storage satisfies between any two calls, and why every
    call keeps it: the stored indexes agree with the records they summarise. */
module BountyInvariants {
  import opened TokenLedger
  import opened BountyTypes
  import opened BountySpec
  import opened Sequences

  ghost predicate Increasing(ids: seq<U64>) {
    forall i, j :: 0 <= i < j < |ids| ==> ids[i] < ids[j]
  }

  /** Records are numbered 1 to the counter, and each sits under its own number. */
  ghost predicate Numbered(s: State) {
    && (forall t: U64 :: t in s.tasks <==> 1 <= t <= s.taskCount)
    && (forall t :: t in s.tasks ==> s.tasks[t].id == t)
    && (forall i: U64 :: i in s.submissions <==> 1 <= i <= s.submissionCount)
    && (forall i :: i in s.submissions ==> s.submissions[i].id == i && s.submissions[i].taskId in s.tasks)
    && (forall d: U64 :: d in s.disputes <==> 1 <= d <= s.disputeCount)
    && (forall d :: d in s.disputes ==> s.disputes[d].id == d)
  }

  /** What creation checked stays true of a task. */
  predicate TaskChecked(s: State, task: Task) {
    && task.reward >= MIN_REWARD && task.poster != s.self
    && task.createdAt < task.deadline <= task.createdAt + MAX_DEADLINE
    && (task.status == Open ==> task.submissionCount == 0)
  }

  /** What submission checked stays true of a submission. */
  predicate SubmissionChecked(s: State, submission: Submission) {
    && submission.contributor != s.self
    && (submission.taskId in s.tasks ==> submission.submittedAt <= s.tasks[submission.taskId].deadline)
  }

  ghost predicate Checked(s: State) {
    && (forall t :: t in s.tasks ==> TaskChecked(s, s.tasks[t]))
    && (forall i :: i in s.submissions ==> SubmissionChecked(s, s.submissions[i]))
  }

  /** A task's list is increasing and holds exactly the task's submissions. */
  ghost predicate ListSound(s: State, t: U64)
    requires t in s.tasks
  {
    var list := s.SubmissionsOf(t);
    && Increasing(list)
    && (forall i :: i in list <==> i in s.submissions && s.submissions[i].taskId == t)
    && |list| == s.tasks[t].submissionCount <= s.tasks[t].maxSubmissions
  }

  ghost predicate Listed(s: State) {
    && (forall t :: t in s.taskSubmissions ==> t in s.tasks)
    && (forall t :: t in s.tasks ==> ListSound(s, t))
  }

  ghost predicate IsBy(s: State, i: U64, taskId: U64, contributor: Address) {
    i in s.submissions && s.submissions[i].taskId == taskId && s.submissions[i].contributor == contributor
  }

  /** A contributor is marked for a task iff a submission of theirs exists, and then just one does. */
  ghost predicate Marked(s: State) {
    && (forall t: U64, c: Address :: (t, c) in s.hasSubmitted <==> exists i: U64 :: IsBy(s, i, t, c))
    && (forall i: U64, j: U64, t: U64, c: Address :: IsBy(s, i, t, c) && IsBy(s, j, t, c) ==> i == j)
  }

  /** An active dispute is over an unapproved submission of its task and has its record. */
  predicate ActiveSound(s: State, taskId: U64, submissionId: U64, d: U64) {
    && submissionId in s.submissions && s.submissions[submissionId].taskId == taskId
    && s.submissions[submissionId].status != Approved
    && d in s.disputes && s.disputes[d].taskId == taskId && s.disputes[d].submissionId == submissionId
  }

  predicate IsActive(s: State, taskId: U64, submissionId: U64, d: U64) {
    (taskId, submissionId) in s.activeDisputes && s.activeDisputes[(taskId, submissionId)] == d
  }

  /** Active disputes and dispute records name each other. */
  ghost predicate DisputesSound(s: State) {
    && (forall t, i, d :: IsActive(s, t, i, d) ==> ActiveSound(s, t, i, d))
    && (forall d :: d in s.disputes ==> IsActive(s, s.disputes[d].taskId, s.disputes[d].submissionId, d))
  }

  /** The submission counts of tasks 1 to n, added up. */
  ghost function CountsTo(tasks: map<U64, Task>, n: nat): nat {
    if n == 0 then 0 else CountsTo(tasks, n - 1) + if n in tasks then tasks[n].submissionCount else 0
  }

  ghost predicate Sound(s: State) {
    && Numbered(s) && Checked(s) && Listed(s) && Marked(s) && DisputesSound(s)
    && CountsTo(s.tasks, s.taskCount) == s.submissionCount
    && NoDebts(s.ledger)
  }

  lemma {:induction false} InitialSound(self: Address, ledger: Ledger)
    requires NoDebts(ledger)
    ensures Sound(Initial(self, ledger))
  {
  }

  /** The two storages differ at most in statuses, disputes and money: no record
      or index entry came, went or changed hands, and no task was opened again. */
  ghost predicate SameRecords(s: State, s': State) {
    && s'.self == s.self
    && s'.taskCount == s.taskCount && s'.submissionCount == s.submissionCount
    && s'.taskSubmissions == s.taskSubmissions && s'.hasSubmitted == s.hasSubmitted
    && s'.tasks.Keys == s.tasks.Keys && s'.submissions.Keys == s.submissions.Keys
    && (forall t :: t in s.tasks ==>
          && s'.tasks[t] == s.tasks[t].(status := s'.tasks[t].status)
          && (s'.tasks[t].status == Open ==> s.tasks[t].status == Open))
    && (forall i :: i in s.submissions ==>
          s'.submissions[i] == s.submissions[i].(status := s'.submissions[i].status))
  }

  predicate AddsRecord(c: Call) {
    c.CreateTask? || c.SubmitWork?
  }

  lemma {:induction false} ApproveKeepsRecords(s: State, c: Call)
    requires Numbered(s) && c.ApproveSubmission? && ApproveRefusal(s, c).None?
    ensures SameRecords(s, ApproveEffect(s, c))
  {
    assert c.taskId in s.tasks && s.tasks[c.taskId].id == c.taskId;
    assert c.submissionId in s.submissions && s.submissions[c.submissionId].id == c.submissionId;
    hide ApproveRefusal, Numbered, Move;
  }

  lemma {:induction false} CancelKeepsRecords(s: State, c: Call)
    requires Numbered(s) && c.CancelTask? && CancelRefusal(s, c).None?
    ensures SameRecords(s, CancelEffect(s, c))
  {
  }

  lemma {:induction false} DisputeKeepsRecords(s: State, now: U64, c: Call)
    requires Numbered(s) && c.RaiseDispute? && DisputeRefusal(s, c).None?
    ensures SameRecords(s, DisputeEffect(s, now, c))
  {
  }

  lemma {:induction false} StatusCallsKeepRecords(s: State, now: U64, c: Call)
    requires Numbered(s) && Accepts(s, now, c) && !AddsRecord(c)
    ensures SameRecords(s, Effect(s, now, c))
  {
    if c.ApproveSubmission? {
      ApproveKeepsRecords(s, c);
    } else if c.CancelTask? {
      CancelKeepsRecords(s, c);
    } else if c.RaiseDispute? {
      DisputeKeepsRecords(s, now, c);
    }
  }

  lemma {:induction false} CreateKeepsNumbered(s: State, now: U64, c: Call)
    requires Numbered(s) && c.CreateTask? && CreateTaskRefusal(s, now, c).None?
    ensures Numbered(CreateTaskEffect(s, now, c))
  {
  }

  lemma {:induction false} SubmitKeepsNumbered(s: State, now: U64, c: Call)
    requires Numbered(s) && c.SubmitWork? && SubmitWorkRefusal(s, now, c).None?
    ensures Numbered(SubmitWorkEffect(s, now, c))
  {
  }

  lemma {:induction false} DisputeKeepsNumbered(s: State, now: U64, c: Call)
    requires Numbered(s) && c.RaiseDispute? && DisputeRefusal(s, c).None?
    ensures Numbered(DisputeEffect(s, now, c))
  {
  }

  lemma {:induction false} NumberedKept(s: State, now: U64, c: Call)
    requires Numbered(s) && Accepts(s, now, c)
    ensures Numbered(Effect(s, now, c))
  {
    if c.CreateTask? {
      CreateKeepsNumbered(s, now, c);
    } else if c.SubmitWork? {
      SubmitKeepsNumbered(s, now, c);
    } else if c.RaiseDispute? {
      DisputeKeepsNumbered(s, now, c);
    } else {
      StatusCallsKeepRecords(s, now, c);
    }
  }

  lemma {:induction false} CreateKeepsChecked(s: State, now: U64, c: Call)
    requires Numbered(s) && Checked(s) && c.Caller() != s.self
    requires c.CreateTask? && CreateTaskRefusal(s, now, c).None?
    ensures Checked(CreateTaskEffect(s, now, c))
  {
  }

  lemma {:induction false} SubmitKeepsChecked(s: State, now: U64, c: Call)
    requires Numbered(s) && Checked(s) && c.Caller() != s.self
    requires c.SubmitWork? && SubmitWorkRefusal(s, now, c).None?
    ensures Checked(SubmitWorkEffect(s, now, c))
  {
  }

  lemma {:induction false} SameRecordsKeepChecked(s: State, s': State)
    requires Checked(s) && SameRecords(s, s')
    ensures Checked(s')
  {
    assert forall t :: t in s.tasks ==> TaskChecked(s', s'.tasks[t]);
  }

  lemma {:induction false} CheckedKept(s: State, now: U64, c: Call)
    requires Numbered(s) && Checked(s) && Accepts(s, now, c)
    ensures Checked(Effect(s, now, c))
  {
    hide Numbered, Checked, SameRecords;
    if c.CreateTask? {
      CreateKeepsChecked(s, now, c);
    } else if c.SubmitWork? {
      SubmitKeepsChecked(s, now, c);
    } else {
      StatusCallsKeepRecords(s, now, c);
      SameRecordsKeepChecked(s, Effect(s, now, c));
    }
  }

  lemma {:induction false} CreateKeepsListed(s: State, now: U64, c: Call)
    requires Numbered(s) && Listed(s) && c.CreateTask? && CreateTaskRefusal(s, now, c).None?
    ensures Listed(CreateTaskEffect(s, now, c))
  {
    var s' := CreateTaskEffect(s, now, c);
    forall t | t in s'.tasks
      ensures ListSound(s', t)
    {
      assert t in s.tasks ==> ListSound(s, t);
    }
  }

  lemma {:induction false} AppendKeepsIncreasing(ids: seq<U64>, id: U64)
    requires Increasing(ids) && forall i :: i in ids ==> i < id
    ensures Increasing(ids + [id])
  {
    assert forall k :: 0 <= k < |ids| ==> ids[k] in ids;
  }

  lemma {:induction false} SubmitKeepsOwnList(s: State, now: U64, c: Call)
    requires Numbered(s) && c.SubmitWork? && SubmitWorkRefusal(s, now, c).None? && ListSound(s, c.taskId)
    ensures ListSound(SubmitWorkEffect(s, now, c), c.taskId)
  {
    AppendKeepsIncreasing(s.SubmissionsOf(c.taskId), s.submissionCount + 1);
    hide Increasing;
  }

  lemma {:induction false} SubmitKeepsOtherList(s: State, now: U64, c: Call, t: U64)
    requires Numbered(s) && c.SubmitWork? && SubmitWorkRefusal(s, now, c).None?
    requires t in s.tasks && t != c.taskId && ListSound(s, t)
    ensures ListSound(SubmitWorkEffect(s, now, c), t)
  {
    hide Increasing;
  }

  lemma {:induction false} SubmitKeepsListed(s: State, now: U64, c: Call)
    requires Numbered(s) && Listed(s) && c.SubmitWork? && SubmitWorkRefusal(s, now, c).None?
    ensures Listed(SubmitWorkEffect(s, now, c))
  {
    hide ListSound;
    var s' := SubmitWorkEffect(s, now, c);
    SubmitKeepsOwnList(s, now, c);
    forall t | t in s'.tasks
      ensures ListSound(s', t)
    {
      if t != c.taskId { SubmitKeepsOtherList(s, now, c, t); }
    }
  }

  lemma {:induction false} SameRecordsKeepListed(s: State, s': State)
    requires Listed(s) && SameRecords(s, s')
    ensures Listed(s')
  {
    forall t | t in s'.tasks
      ensures ListSound(s', t)
    {
      assert ListSound(s, t);
    }
  }

  lemma {:induction false} ListedKept(s: State, now: U64, c: Call)
    requires Numbered(s) && Listed(s) && Accepts(s, now, c)
    ensures Listed(Effect(s, now, c))
  {
    if c.CreateTask? {
      CreateKeepsListed(s, now, c);
    } else if c.SubmitWork? {
      SubmitKeepsListed(s, now, c);
    } else {
      StatusCallsKeepRecords(s, now, c);
      SameRecordsKeepListed(s, Effect(s, now, c));
    }
  }

  lemma {:induction false} SubmitKeepsMarked(s: State, now: U64, c: Call)
    requires Numbered(s) && Marked(s) && c.SubmitWork? && SubmitWorkRefusal(s, now, c).None?
    ensures Marked(SubmitWorkEffect(s, now, c))
  {
    var s' := SubmitWorkEffect(s, now, c);
    var id := s'.submissionCount;
    assert forall i: U64, t: U64, a: Address ::
      IsBy(s', i, t, a) <==> IsBy(s, i, t, a) || (i == id && t == c.taskId && a == c.contributor);
    assert IsBy(s', id, c.taskId, c.contributor);
  }

  lemma {:induction false} SameSubmissionsKeepMarked(s: State, s': State)
    requires Marked(s) && s'.hasSubmitted == s.hasSubmitted && s'.submissions.Keys == s.submissions.Keys
    requires forall i :: i in s.submissions ==>
      s'.submissions[i].taskId == s.submissions[i].taskId
        && s'.submissions[i].contributor == s.submissions[i].contributor
    ensures Marked(s')
  {
    assert forall i: U64, t: U64, a: Address :: IsBy(s', i, t, a) <==> IsBy(s, i, t, a);
  }

  lemma {:induction false} MarkedKept(s: State, now: U64, c: Call)
    requires Numbered(s) && Marked(s) && Accepts(s, now, c)
    ensures Marked(Effect(s, now, c))
  {
    hide Marked;
    if c.SubmitWork? {
      SubmitKeepsMarked(s, now, c);
    } else {
      if !c.CreateTask? { StatusCallsKeepRecords(s, now, c); }
      SameSubmissionsKeepMarked(s, Effect(s, now, c));
    }
  }

  lemma {:induction false} DisputeKeepsDisputesSound(s: State, now: U64, c: Call)
    requires Numbered(s) && DisputesSound(s) && c.RaiseDispute? && DisputeRefusal(s, c).None?
    ensures DisputesSound(DisputeEffect(s, now, c))
  {
    var s' := DisputeEffect(s, now, c);
    var id := s'.disputeCount;
    assert id !in s.disputes;
    assert forall t, i, d ::
      IsActive(s', t, i, d)
      <==> IsActive(s, t, i, d) || (t == c.taskId && i == c.submissionId && d == id);
  }

  /** No dispute came or went, and no disputed submission was approved. */
  ghost predicate DisputesLeft(s: State, s': State) {
    && s'.disputes == s.disputes && s'.activeDisputes == s.activeDisputes
    && forall i :: i in s.submissions ==>
         && i in s'.submissions && s'.submissions[i].taskId == s.submissions[i].taskId
         && (s'.submissions[i].status == Approved ==>
               s.submissions[i].status == Approved || (s.submissions[i].taskId, i) !in s.activeDisputes)
  }

  lemma {:induction false} ApprovalLeavesDisputes(s: State, c: Call)
    requires Numbered(s) && c.ApproveSubmission? && ApproveRefusal(s, c).None?
    ensures DisputesLeft(s, ApproveEffect(s, c))
  {
  }

  lemma {:induction false} OtherCallsLeaveDisputes(s: State, now: U64, c: Call)
    requires Numbered(s) && Accepts(s, now, c) && !c.RaiseDispute?
    ensures DisputesLeft(s, Effect(s, now, c))
  {
    if c.ApproveSubmission? {
      hide DisputesLeft, ApproveEffect, ApproveRefusal;
      ApprovalLeavesDisputes(s, c);
    } else if c.SubmitWork? {
      assert s.submissionCount + 1 !in s.submissions;
    }
  }

  lemma {:induction false} DisputesLeftStaySound(s: State, s': State)
    requires DisputesSound(s) && DisputesLeft(s, s')
    ensures DisputesSound(s')
  {
    assert forall t, i, d :: IsActive(s', t, i, d) <==> IsActive(s, t, i, d);
  }

  lemma {:induction false} DisputesSoundKept(s: State, now: U64, c: Call)
    requires Numbered(s) && DisputesSound(s) && Accepts(s, now, c)
    ensures DisputesSound(Effect(s, now, c))
  {
    hide DisputesSound, DisputesLeft;
    if c.RaiseDispute? {
      DisputeKeepsDisputesSound(s, now, c);
    } else {
      OtherCallsLeaveDisputes(s, now, c);
      DisputesLeftStaySound(s, Effect(s, now, c));
    }
  }

  /** None of this reads the ledger. */
  lemma {:induction false} SoundUnderLedger(s: State, ledger: Ledger)
    requires Sound(s) && NoDebts(ledger)
    ensures Sound(s.(ledger := ledger))
  {
    var s' := s.(ledger := ledger);
    hide Checked, Listed, Marked, DisputesSound;
    SameRecordsKeepChecked(s, s');
    SameRecordsKeepListed(s, s');
    SameSubmissionsKeepMarked(s, s');
    DisputesLeftStaySound(s, s');
  }

  /** Replacing one task changes the sum by the change of that task's count. */
  lemma {:induction false} CountsAfterSet(tasks: map<U64, Task>, t: U64, task: Task, n: nat)
    requires 1 <= t
    ensures CountsTo(tasks[t := task], n)
            == CountsTo(tasks, n)
               + if t <= n then task.submissionCount - (if t in tasks then tasks[t].submissionCount else 0) else 0
  {
    if n > 0 { CountsAfterSet(tasks, t, task, n - 1); }
  }

  lemma {:induction false} CountsKept(s: State, now: U64, c: Call)
    requires Numbered(s) && Accepts(s, now, c)
    requires CountsTo(s.tasks, s.taskCount) == s.submissionCount
    ensures var s' := Effect(s, now, c); CountsTo(s'.tasks, s'.taskCount) == s'.submissionCount
  {
    var s' := Effect(s, now, c);
    if c.RejectSubmission? {
    } else {
      var t := if c.CreateTask? then s'.taskCount else c.taskId;
      assert s'.tasks == s.tasks[t := s'.tasks[t]];
      CountsAfterSet(s.tasks, t, s'.tasks[t], s.taskCount);
    }
  }

  lemma {:induction false} NoDebtsKept(s: State, now: U64, c: Call)
    requires NoDebts(s.ledger) && Accepts(s, now, c)
    ensures NoDebts(Effect(s, now, c).ledger)
  {
    if c.CreateTask? {
      MoveBalances(s.ledger, c.token, c.poster, s.self, c.reward);
    } else if c.ApproveSubmission? || c.CancelTask? {
      var task := s.tasks[c.taskId];
      var to := if c.CancelTask? then c.poster else s.submissions[c.submissionId].contributor;
      MoveBalances(s.ledger, task.token, s.self, to, task.reward);
    }
  }

  lemma {:induction false} SoundKept(s: State, now: U64, c: Call)
    requires Sound(s)
    ensures Sound(Invoke(s, now, c))
  {
    if Accepts(s, now, c) {
      NumberedKept(s, now, c);
      CheckedKept(s, now, c);
      ListedKept(s, now, c);
      MarkedKept(s, now, c);
      DisputesSoundKept(s, now, c);
      CountsKept(s, now, c);
      NoDebtsKept(s, now, c);
    }
  }
}
