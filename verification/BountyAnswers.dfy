/** What each entry point answers in any reachable state, and what it leaves behind, over the
    stored fields alone: who may call it, when, and which records and balances it changes. */
module BountyAnswers {
  import opened TokenLedger
  import opened BountyTypes
  import opened BountySpec
  import opened Sequences
  import opened BountyInvariants
  import opened BountyRuns
  import opened BountyTheorems

  /** The amount, and nothing else, went from one account to the other. */
  ghost predicate Moved(ledger: Ledger, ledger': Ledger, token: Address, from: Address, to: Address, amount: int) {
    forall k, a ::
      Balance(ledger', k, a)
      == Balance(ledger, k, a)
         + (if k == token && a == to then amount else 0)
         - (if k == token && a == from then amount else 0)
  }

  ghost predicate SubmittedBy(s: State, t: U64, worker: Address) {
    exists i :: i in s.submissions && s.submissions[i].taskId == t && s.submissions[i].contributor == worker
  }

  ghost predicate HasApprovedSubmission(s: State, t: U64) {
    exists i :: i in s.submissions && s.submissions[i].taskId == t && s.submissions[i].status == Approved
  }

  lemma {:induction false} RefusedLeavesAll(s: State, now: U64, c: Call)
    ensures ReplyTo(s, now, c).Panicked? ==> Invoke(s, now, c) == s
  {
  }

  /** Some run from the start leads to this storage. */
  ghost predicate Reachable(s: State) {
    exists w0, actions :: Start(w0) && Chronological(w0.clock, actions) && Exec(w0, actions).state == s
  }

  lemma {:induction false} RunSound(w0: World, actions: seq<Action>)
    requires Start(w0) && Chronological(w0.clock, actions)
    ensures Sound(Exec(w0, actions).state) && Lawful(Exec(w0, actions))
  {
    StartLawful(w0);
    RunLawful(w0, actions);
    hide Sound, PaidSoundly, Accounted, Dated, NothingTakenOutside;
  }

  lemma {:induction false} ReachableSound(s: State)
    requires Reachable(s)
    ensures Sound(s)
  {
    hide Sound, Lawful, Start, Exec, Chronological;
    var w0, actions :| Start(w0) && Chronological(w0.clock, actions) && Exec(w0, actions).state == s;
    RunSound(w0, actions);
  }

  lemma {:induction false} ReachableRecords(s: State, t: U64, i: U64)
    requires Reachable(s)
    ensures t in s.tasks ==> s.tasks[t].id == t && s.tasks[t].reward >= 0 && ListSound(s, t)
    ensures i in s.submissions ==> s.submissions[i].id == i
    ensures (t, i) in s.activeDisputes ==> i in s.submissions && s.submissions[i].status != Approved
  {
    ReachableSound(s);
    hide Reachable, ListSound, Marked;
    if t in s.tasks { assert TaskChecked(s, s.tasks[t]); }
    if (t, i) in s.activeDisputes {
      assert IsActive(s, t, i, s.activeDisputes[(t, i)]);
      assert ActiveSound(s, t, i, s.activeDisputes[(t, i)]);
    }
  }

  /** A task is created for any account but the contract's that puts up at least 1,000,000 it
      holds, for a deadline ahead and within 365 days, and takes submissions. */
  lemma {:induction false} CreateTaskAnswers(s: State, now: U64, poster: Address, title: string, description: string,
        token: Address, reward: I128, deadline: U64, m: U32)
    requires Reachable(s)
    ensures var c := CreateTask(poster, title, description, token, reward, deadline, m);
      var n := s.taskCount + 1;
      && (ReplyTo(s, now, c).Created?
          <==> && poster != s.self && reward >= 1_000_000 && now < deadline <= now + 31_536_000
               && now + 31_536_000 <= 0xffff_ffff_ffff_ffff && m >= 1
               && reward <= Balance(s.ledger, token, poster) && s.taskCount < 0xffff_ffff_ffff_ffff)
      && (ReplyTo(s, now, c) == Panicked(NotAuthenticated) <==> poster == s.self)
      && (ReplyTo(s, now, c) == Panicked(InsufficientReward) <==> poster != s.self && reward < 1_000_000)
      && (ReplyTo(s, now, c) == Panicked(InvalidDeadline)
          <==> && poster != s.self && reward >= 1_000_000
               && (deadline <= now || now + 31_536_000 < deadline))
      && (ReplyTo(s, now, c) == Panicked(InvalidMaxSubmissions)
          <==> && poster != s.self && reward >= 1_000_000 && now < deadline <= now + 31_536_000
               && now + 31_536_000 <= 0xffff_ffff_ffff_ffff && m == 0)
      && (ReplyTo(s, now, c) == Panicked(TransferFailed)
          <==> && poster != s.self && reward >= 1_000_000 && now < deadline <= now + 31_536_000
               && now + 31_536_000 <= 0xffff_ffff_ffff_ffff && m >= 1 && Balance(s.ledger, token, poster) < reward)
  {
  }

  lemma {:induction false} CreateTaskLeaves(s: State, now: U64, poster: Address, title: string, description: string,
        token: Address, reward: I128, deadline: U64, m: U32)
    requires Reachable(s)
    ensures var c := CreateTask(poster, title, description, token, reward, deadline, m);
      var n, s' := s.taskCount + 1, Invoke(s, now, c);
      if ReplyTo(s, now, c).Panicked? then s' == s
      else
        && n <= 0xffff_ffff_ffff_ffff && ReplyTo(s, now, c) == Created(n)
        && Moved(s.ledger, s'.ledger, token, poster, s.self, reward)
        && s' == s.(ledger := s'.ledger, taskCount := n,
                    tasks := s.tasks[n := Task(n, poster, title, description, token, reward, deadline, m, 0, Open,
                                          now)])
  {
    hide Reachable, Move, Balance;
    MoveBalances(s.ledger, token, poster, s.self, reward);
  }

  /** Work is accepted from any account but the contract's that has none submitted to the task,
      while the task is open or in progress, until its deadline and up to its maximum. */
  lemma {:induction false} SubmitWorkAnswers(s: State, now: U64, t: U64, worker: Address, workUrl: string,
        description: string)
    requires Reachable(s)
    ensures var c := SubmitWork(t, worker, workUrl, description);
      var takes := worker != s.self && t in s.tasks && s.tasks[t].status in {Open, InProgress};
      var again := SubmittedBy(s, t, worker);
      && (ReplyTo(s, now, c).Created?
          <==> && takes && now <= s.tasks[t].deadline && !again
               && s.tasks[t].submissionCount < s.tasks[t].maxSubmissions && s.submissionCount < 0xffff_ffff_ffff_ffff)
      && (ReplyTo(s, now, c) == Panicked(NotAuthenticated) <==> worker == s.self)
      && (ReplyTo(s, now, c) == Panicked(TaskNotFound) <==> worker != s.self && t !in s.tasks)
      && (ReplyTo(s, now, c) == Panicked(InvalidTaskStatus)
          <==> worker != s.self && t in s.tasks && s.tasks[t].status in {Completed, Cancelled, Disputed})
      && (ReplyTo(s, now, c) == Panicked(TaskExpired) <==> takes && s.tasks[t].deadline < now)
      && (ReplyTo(s, now, c) == Panicked(AlreadySubmitted) <==> takes && now <= s.tasks[t].deadline && again)
      && (ReplyTo(s, now, c) == Panicked(MaxSubmissionsReached)
          <==> && takes && now <= s.tasks[t].deadline && !again
               && s.tasks[t].submissionCount == s.tasks[t].maxSubmissions)
  {
    hide Reachable, ListSound;
    ReachableRecords(s, t, 0);
    ReachableSubmittedBy(s, t, worker);
    if t in s.tasks { ReachableCount(s, t); }
  }

  lemma {:induction false} SubmitWorkLeaves(s: State, now: U64, t: U64, worker: Address, workUrl: string,
        description: string)
    requires Reachable(s)
    ensures var c := SubmitWork(t, worker, workUrl, description);
      var n, s' := s.submissionCount + 1, Invoke(s, now, c);
      if ReplyTo(s, now, c).Panicked? then s' == s
      else
        && n <= 0xffff_ffff_ffff_ffff && ReplyTo(s, now, c) == Created(n)
        && t in s.tasks
        && s' == s.(submissionCount := n,
                    submissions := s.submissions[n := Submission(n, t, worker, workUrl, description, Pending, now)],
                    taskSubmissions := s.taskSubmissions[t := s.SubmissionsOf(t) + [n]],
                    hasSubmitted := s.hasSubmitted + {(t, worker)},
                    tasks := s.tasks[t := s.tasks[t].(status := InProgress,
                                                      submissionCount := s.tasks[t].submissionCount + 1)])
  {
    hide Reachable, ListSound;
    ReachableRecords(s, t, 0);
  }

  lemma {:induction false} ReachableSubmittedBy(s: State, t: U64, worker: Address)
    requires Reachable(s)
    ensures (t, worker) in s.hasSubmitted <==> SubmittedBy(s, t, worker)
  {
    hide Sound;
    ReachableSound(s);
    SubmittedByExactly(s, t, worker);
  }

  lemma {:induction false} ReachableCount(s: State, t: U64)
    requires Reachable(s) && t in s.tasks
    ensures s.tasks[t].submissionCount <= s.tasks[t].maxSubmissions
  {
    hide Reachable;
    ReachableRecords(s, t, 0);
  }

  lemma {:induction false} SubmittedByExactly(s: State, t: U64, worker: Address)
    requires Sound(s)
    ensures (t, worker) in s.hasSubmitted <==> SubmittedBy(s, t, worker)
  {
    hide Numbered, Checked, Listed, DisputesSound, NoDebts;
    if (t, worker) in s.hasSubmitted {
      var i :| IsBy(s, i, t, worker);
    }
    if SubmittedBy(s, t, worker) {
      var i :| i in s.submissions && s.submissions[i].taskId == t && s.submissions[i].contributor == worker;
      assert IsBy(s, i, t, worker);
    }
  }

  /** A submission is approved by its task's poster alone, while it is pending and undisputed and
      the task unfinished, with the reward in the contract; and the contributor gets the reward. */
  lemma {:induction false} ApproveAnswers(s: State, now: U64, t: U64, i: U64, caller: Address)
    requires Reachable(s)
    ensures var c := ApproveSubmission(t, i, caller);
      var mine := caller != s.self && t in s.tasks && s.tasks[t].poster == caller;
      var pending := i in s.submissions && s.submissions[i].taskId == t && s.submissions[i].status == Pending;
      var live := t in s.tasks && s.tasks[t].status in {Open, InProgress, Disputed};
      && (ReplyTo(s, now, c) == Done
          <==> && mine && pending && live && (t, i) !in s.activeDisputes
               && s.tasks[t].reward <= Balance(s.ledger, s.tasks[t].token, s.self))
      && (ReplyTo(s, now, c) == Panicked(NotAuthenticated) <==> caller == s.self)
      && (ReplyTo(s, now, c) == Panicked(TaskNotFound) <==> caller != s.self && t !in s.tasks)
      && (ReplyTo(s, now, c) == Panicked(Unauthorized)
          <==> && caller != s.self && t in s.tasks
               && (s.tasks[t].poster != caller || (i in s.submissions && s.submissions[i].taskId != t)))
      && (ReplyTo(s, now, c) == Panicked(SubmissionNotFound) <==> mine && i !in s.submissions)
      && (ReplyTo(s, now, c) == Panicked(InvalidTaskStatus) <==> mine && pending && !live)
      && (ReplyTo(s, now, c) == Panicked(InvalidSubmissionStatus)
          <==> && mine && i in s.submissions && s.submissions[i].taskId == t
               && (s.submissions[i].status != Pending || (live && (t, i) in s.activeDisputes)))
      && (ReplyTo(s, now, c) == Panicked(TransferFailed)
          <==> && mine && pending && live && (t, i) !in s.activeDisputes
               && Balance(s.ledger, s.tasks[t].token, s.self) < s.tasks[t].reward)
  {
    hide Reachable, ListSound, Balance;
    ReachableRecords(s, t, i);
  }

  lemma {:induction false} ApproveLeaves(s: State, now: U64, t: U64, i: U64, caller: Address)
    requires Reachable(s)
    ensures var c := ApproveSubmission(t, i, caller);
      var s' := Invoke(s, now, c);
      if ReplyTo(s, now, c).Panicked? then s' == s
      else
        && ReplyTo(s, now, c) == Done
        && t in s.tasks && i in s.submissions
        && Moved(s.ledger, s'.ledger, s.tasks[t].token, s.self, s.submissions[i].contributor, s.tasks[t].reward)
        && s' == s.(ledger := s'.ledger,
                    submissions := s.submissions[i := s.submissions[i].(status := Approved)],
                    tasks := s.tasks[t := s.tasks[t].(status := Completed)])
  {
    hide Reachable, ListSound, Move, Balance;
    ReachableRecords(s, t, i);
    if t in s.tasks && i in s.submissions {
      MoveBalances(s.ledger, s.tasks[t].token, s.self, s.submissions[i].contributor, s.tasks[t].reward);
    }
  }

  /** A submission is rejected by its task's poster alone, while it is pending, whatever became of
      the task; and nothing but the submission's status changes. */
  lemma {:induction false} RejectAnswers(s: State, now: U64, t: U64, i: U64, caller: Address, reason: string)
    requires Reachable(s)
    ensures var c := RejectSubmission(t, i, caller, reason);
      var mine := caller != s.self && t in s.tasks && s.tasks[t].poster == caller;
      && (ReplyTo(s, now, c) == Done
          <==> mine && i in s.submissions && s.submissions[i].taskId == t && s.submissions[i].status == Pending)
      && (ReplyTo(s, now, c) == Panicked(NotAuthenticated) <==> caller == s.self)
      && (ReplyTo(s, now, c) == Panicked(TaskNotFound) <==> caller != s.self && t !in s.tasks)
      && (ReplyTo(s, now, c) == Panicked(Unauthorized)
          <==> && caller != s.self && t in s.tasks
               && (s.tasks[t].poster != caller || (i in s.submissions && s.submissions[i].taskId != t)))
      && (ReplyTo(s, now, c) == Panicked(SubmissionNotFound) <==> mine && i !in s.submissions)
      && (ReplyTo(s, now, c) == Panicked(InvalidSubmissionStatus)
          <==> mine && i in s.submissions && s.submissions[i].taskId == t && s.submissions[i].status != Pending)
  {
    hide Reachable;
  }

  lemma {:induction false} RejectLeaves(s: State, now: U64, t: U64, i: U64, caller: Address, reason: string)
    requires Reachable(s)
    ensures var c := RejectSubmission(t, i, caller, reason);
      if ReplyTo(s, now, c).Panicked? then Invoke(s, now, c) == s
      else
        && ReplyTo(s, now, c) == Done
        && i in s.submissions
        && Invoke(s, now, c) == s.(submissions := s.submissions[i := s.submissions[i].(status := Rejected)])
  {
    hide Reachable, ListSound;
    ReachableRecords(s, t, i);
  }

  /** A task is cancelled by its poster alone, while it is unfinished and has no approved
      submission, with the reward in the contract; and the poster gets the reward. */
  lemma {:induction false} CancelAnswers(s: State, now: U64, t: U64, caller: Address)
    requires Reachable(s)
    ensures var c := CancelTask(t, caller);
      var mine := caller != s.self && t in s.tasks && s.tasks[t].poster == caller;
      var live := t in s.tasks && s.tasks[t].status in {Open, InProgress, Disputed};
      var approved := HasApprovedSubmission(s, t);
      && (ReplyTo(s, now, c) == Done
          <==> mine && live && !approved && s.tasks[t].reward <= Balance(s.ledger, s.tasks[t].token, s.self))
      && (ReplyTo(s, now, c) == Panicked(NotAuthenticated) <==> caller == s.self)
      && (ReplyTo(s, now, c) == Panicked(TaskNotFound) <==> caller != s.self && t !in s.tasks)
      && (ReplyTo(s, now, c) == Panicked(Unauthorized)
          <==> caller != s.self && t in s.tasks && s.tasks[t].poster != caller)
      && (ReplyTo(s, now, c) == Panicked(InvalidTaskStatus) <==> mine && (!live || approved))
      && (ReplyTo(s, now, c) == Panicked(TransferFailed)
          <==> mine && live && !approved && Balance(s.ledger, s.tasks[t].token, s.self) < s.tasks[t].reward)
  {
    hide Reachable, ListSound, Balance, ScanRefusal;
    ReachableRecords(s, t, 0);
    if t in s.tasks { ScanAnswers(s, t); }
  }

  lemma {:induction false} CancelLeaves(s: State, now: U64, t: U64, caller: Address)
    requires Reachable(s)
    ensures var c := CancelTask(t, caller);
      var s' := Invoke(s, now, c);
      if ReplyTo(s, now, c).Panicked? then s' == s
      else
        && ReplyTo(s, now, c) == Done
        && t in s.tasks
        && Moved(s.ledger, s'.ledger, s.tasks[t].token, s.self, caller, s.tasks[t].reward)
        && s' == s.(ledger := s'.ledger, tasks := s.tasks[t := s.tasks[t].(status := Cancelled)])
  {
    hide Reachable, ListSound, Move, Balance, ScanRefusal;
    ReachableRecords(s, t, 0);
    if t in s.tasks { MoveBalances(s.ledger, s.tasks[t].token, s.self, caller, s.tasks[t].reward); }
  }

  lemma {:induction false} ScanAnswers(s: State, t: U64)
    requires t in s.tasks && ListSound(s, t)
    ensures ScanRefusal(s.submissions, s.SubmissionsOf(t))
            == if HasApprovedSubmission(s, t)
               then Some(InvalidTaskStatus) else None
  {
    ScanOfSoundList(s, t);
    ScanFindsApproved(s.submissions, s.SubmissionsOf(t));
    if HasApprovedSubmission(s, t) {
      var i :| i in s.submissions && s.submissions[i].taskId == t && s.submissions[i].status == Approved;
      assert IsApproved(s.submissions, i, t);
    } else if i :| IsApproved(s.submissions, i, t) {
      assert false;
    }
  }

  lemma {:induction false} ScanFindsApproved(submissions: map<U64, Submission>, ids: seq<U64>)
    requires forall i :: i in ids ==> i in submissions
    ensures ScanRefusal(submissions, ids) in {None, Some(InvalidTaskStatus)}
  {
    if ids != [] { ScanFindsApproved(submissions, ids[1..]); }
  }

  /** A dispute is raised by the task's poster or the submission's contributor over a submission
      that is not approved and not under dispute, whatever became of the task. */
  lemma {:induction false} DisputeAnswers(s: State, now: U64, t: U64, i: U64, caller: Address, reason: string)
    requires Reachable(s)
    ensures var c := RaiseDispute(t, i, caller, reason);
      var there := caller != s.self && t in s.tasks && i in s.submissions;
      var party := there && s.submissions[i].taskId == t
                   && (s.tasks[t].poster == caller || s.submissions[i].contributor == caller);
      && (ReplyTo(s, now, c) == Done
          <==> && party && s.submissions[i].status in {Pending, Rejected} && (t, i) !in s.activeDisputes
               && s.disputeCount < 0xffff_ffff_ffff_ffff)
      && (ReplyTo(s, now, c) == Panicked(NotAuthenticated) <==> caller == s.self)
      && (ReplyTo(s, now, c) == Panicked(TaskNotFound) <==> caller != s.self && t !in s.tasks)
      && (ReplyTo(s, now, c) == Panicked(SubmissionNotFound)
          <==> caller != s.self && t in s.tasks && i !in s.submissions)
      && (ReplyTo(s, now, c) == Panicked(Unauthorized) <==> there && !party)
      && (ReplyTo(s, now, c) == Panicked(InvalidSubmissionStatus) <==> party && s.submissions[i].status == Approved)
      && (ReplyTo(s, now, c) == Panicked(DisputeAlreadyExists) <==> party && (t, i) in s.activeDisputes)
  {
    hide Reachable, ListSound;
    ReachableRecords(s, t, i);
  }

  lemma {:induction false} DisputeLeaves(s: State, now: U64, t: U64, i: U64, caller: Address, reason: string)
    requires Reachable(s)
    ensures var c := RaiseDispute(t, i, caller, reason);
      var n := s.disputeCount + 1;
      if ReplyTo(s, now, c).Panicked? then Invoke(s, now, c) == s
      else
        && n <= 0xffff_ffff_ffff_ffff && ReplyTo(s, now, c) == Done
        && t in s.tasks
        && Invoke(s, now, c)
           == s.(disputeCount := n,
                 disputes := s.disputes[n := Dispute(n, t, i, caller, reason, now)],
                 activeDisputes := s.activeDisputes[(t, i) := n],
                 tasks := s.tasks[t := s.tasks[t].(status := Disputed)])
  {
    hide Reachable, ListSound;
    ReachableRecords(s, t, i);
  }

  // ----- what these answers mean for a whole run

  /** A submission once rejected stays rejected: on every continuation no approval of it is
      accepted, and nobody is ever awarded for it. */
  lemma {:induction false} RejectedForGood(w0: World, before: seq<Action>, now: U64, t: U64, i: U64, caller: Address,
                                           reason: string, after: seq<Action>)
    requires Start(w0) && Chronological(w0.clock, before) && Exec(w0, before).clock <= now
    requires ReplyTo(Exec(w0, before).state, now, RejectSubmission(t, i, caller, reason)) == Done
    requires Chronological(now, after)
    ensures var w := Exec(Next(Exec(w0, before), Invocation(now, RejectSubmission(t, i, caller, reason))), after);
      && i in w.state.submissions && w.state.submissions[i].status == Rejected
      && (forall later, u, poster :: ReplyTo(w.state, later, ApproveSubmission(u, i, poster)).Panicked?)
      && (forall u, p :: p in w.history.PaymentsOf(u) && p.Award? ==> p.submissionId != i)
  {
    var c := RejectSubmission(t, i, caller, reason);
    RunSound(w0, before);
    RejectLeaves(Exec(w0, before).state, now, t, i, caller, reason);
    var w1 := Next(Exec(w0, before), Invocation(now, c));
    assert i in w1.state.submissions && w1.state.submissions[i].status == Rejected;
    StepLawful(Exec(w0, before), Invocation(now, c));
    RunLawful(w1, after);
    RunEvolves(w1, after);
    RejectedStays(w1, Exec(w1, after), i);
  }

  lemma {:induction false} DecidedNotApproved(s: State, i: U64)
    requires i in s.submissions && s.submissions[i].status != Pending
    ensures forall later, u, poster :: ReplyTo(s, later, ApproveSubmission(u, i, poster)).Panicked?
  {
  }

  lemma {:induction false} AwardedIsApproved(w: World, u: U64, p: Payment)
    requires Lawful(w) && p in w.history.PaymentsOf(u) && p.Award?
    ensures p.submissionId in w.state.submissions && w.state.submissions[p.submissionId].status == Approved
  {
    hide Lawful, ListSound, TaskChecked;
    PaidTaskExists(w, u, p);
    LawfulTask(w, u);
  }

  lemma {:induction false} RejectedStays(w: World, w': World, i: U64)
    requires Evolves(w, w') && Lawful(w') && i in w.state.submissions && w.state.submissions[i].status == Rejected
    ensures i in w'.state.submissions && w'.state.submissions[i].status == Rejected
    ensures forall later, u, poster :: ReplyTo(w'.state, later, ApproveSubmission(u, i, poster)).Panicked?
    ensures forall u, p :: p in w'.history.PaymentsOf(u) && p.Award? ==> p.submissionId != i
  {
    assert SubmissionEvolves(w.state, w'.state, i);
    hide Evolves, Lawful, ReplyTo;
    DecidedNotApproved(w'.state, i);
    forall u, p | p in w'.history.PaymentsOf(u) && p.Award?
      ensures p.submissionId != i
    {
      AwardedIsApproved(w', u, p);
    }
  }

  lemma {:induction false} PrefixIsChronological(clock: U64, actions: seq<Action>, k: nat)
    requires Chronological(clock, actions) && k <= |actions|
    ensures Chronological(clock, actions[..k])
    decreases |actions|
  {
    if k > 0 {
      assert actions[..k][1..] == actions[1..][..k - 1];
      PrefixIsChronological(if actions[0].Invocation? then actions[0].now else clock, actions[1..], k - 1);
    }
  }

  /** The call that makes a payment for a task: an approval, or a cancellation. */
  function PayingCall(t: U64, p: Payment, poster: Address): Call {
    if p.Award? then ApproveSubmission(t, p.submissionId, poster) else CancelTask(t, poster)
  }

  predicate IsPaidBy(w0: World, actions: seq<Action>, t: U64, p: Payment, poster: Address, k: nat) {
    && k < |actions| && actions[k].Invocation? && actions[k].call == PayingCall(t, p, poster)
    && ReplyTo(Exec(w0, actions[..k]).state, actions[k].now, actions[k].call) == Done
  }

  /** In every run each payment for a task was made by an accepted call of the task's poster: an
      award by the approval of that submission, a refund by a cancellation. */
  lemma {:induction false} PaymentsAreThePosters(w0: World, actions: seq<Action>, t: U64, p: Payment)
    requires Start(w0) && Chronological(w0.clock, actions) && p in Exec(w0, actions).history.PaymentsOf(t)
    ensures t in Exec(w0, actions).state.tasks
    ensures exists k: nat :: IsPaidBy(w0, actions, t, p, Exec(w0, actions).state.tasks[t].poster, k)
    decreases |actions|
  {
    hide Sound, Lawful;
    RunSound(w0, actions);
    PaidTaskExists(Exec(w0, actions), t, p);
    hide Lawful, Sound, Start, IsPaidBy, Evolves, Next, Chronological, ReplyTo;
    if actions == [] {
      NothingPaidAtStart(w0, t);
    } else {
      hide Exec;
      var n := |actions| - 1;
      var init, last := actions[..n], actions[n];
      assert actions == init + [last];
      PrefixIsChronological(w0.clock, actions, n);
      ExecOneMore(w0, init, last);
      RunSound(w0, init);
      var w := Exec(w0, init);
      if p in w.history.PaymentsOf(t) {
        PaymentsAreThePosters(w0, init, t, p);
        StepEvolves(w, last);
        TaskOfEvolved(w, Next(w, last), t);
        var k: nat :| IsPaidBy(w0, init, t, p, w.state.tasks[t].poster, k);
        PaidEarlier(w0, actions, t, p, w.state.tasks[t].poster, k, n);
      } else {
        NewPaymentIsPosters(w, last, t, p);
        PaidByLast(w0, actions, t, p, w.state.tasks[t].poster);
      }
    }
  }

  lemma {:induction false} NothingPaidAtStart(w: World, t: U64)
    requires Start(w)
    ensures w.history.PaymentsOf(t) == []
  {
  }

  lemma {:induction false} PaidTaskExists(w: World, t: U64, p: Payment)
    requires Lawful(w) && p in w.history.PaymentsOf(t)
    ensures t in w.state.tasks
  {
    hide Sound, Accounted, Dated, Settled;
  }

  lemma {:induction false} PaidEarlier(w0: World, actions: seq<Action>, t: U64, p: Payment, poster: Address, k: nat,
        n: nat)
    requires n <= |actions| && IsPaidBy(w0, actions[..n], t, p, poster, k)
    ensures IsPaidBy(w0, actions, t, p, poster, k)
  {
    assert actions[..n][..k] == actions[..k];
  }

  lemma {:induction false} PaidByLast(w0: World, actions: seq<Action>, t: U64, p: Payment, poster: Address)
    requires actions != [] && actions[|actions| - 1].Invocation?
    requires actions[|actions| - 1].call == PayingCall(t, p, poster)
    requires var last := actions[|actions| - 1];
      ReplyTo(Exec(w0, actions[..|actions| - 1]).state, last.now, last.call) == Done
    ensures IsPaidBy(w0, actions, t, p, poster, |actions| - 1)
  {
  }

  lemma {:induction false} NewPaymentIsPosters(w: World, a: Action, t: U64, p: Payment)
    requires Lawful(w) && p in Next(w, a).history.PaymentsOf(t) && p !in w.history.PaymentsOf(t)
    ensures t in w.state.tasks && t in Next(w, a).state.tasks
    ensures Next(w, a).state.tasks[t].poster == w.state.tasks[t].poster
    ensures a.Invocation? && a.call == PayingCall(t, p, w.state.tasks[t].poster)
    ensures ReplyTo(w.state, a.now, a.call) == Done
  {
    hide Lawful, Evolves, Invoke, TaskEvolves;
    StepEvolves(w, a);
    TaskOfEvolvedPoster(w, Next(w, a), t);
    assert a.Invocation? && Accepts(w.state, a.now, a.call) && Pays(a.call) && a.call.taskId == t;
    assert p == PaymentBy(w.state, a.call);
  }

  lemma {:induction false} TaskOfEvolvedPoster(w: World, w': World, t: U64)
    requires Evolves(w, w')
    ensures t in w.state.tasks ==> t in w'.state.tasks && w'.state.tasks[t].poster == w.state.tasks[t].poster
  {
    if t in w.state.tasks { TaskOfEvolved(w, w', t); }
  }
}
