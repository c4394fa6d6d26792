/** What holds of the contract over every run: where the money is, who was paid,
    what can never change back, and when a task's funds can be had out again. */
module BountyTheorems {
  import opened TokenLedger
  import opened BountyTypes
  import opened BountySpec
  import opened Sequences
  import opened BountyInvariants
  import opened BountyRuns

  // ----- every reachable world is lawful

  predicate SubmissionDated(s: State, submission: Submission, clock: U64) {
    && submission.submittedAt <= clock
    && (submission.taskId in s.tasks ==> s.tasks[submission.taskId].createdAt <= submission.submittedAt)
  }

  predicate DisputeDated(s: State, dispute: Dispute, clock: U64) {
    && dispute.createdAt <= clock
    && (dispute.submissionId in s.submissions ==> s.submissions[dispute.submissionId].submittedAt <= dispute.createdAt)
  }

  /** Records were made in the order their timestamps say. */
  ghost predicate Dated(s: State, clock: U64) {
    && (forall t :: t in s.tasks ==> s.tasks[t].createdAt <= clock)
    && (forall i :: i in s.submissions ==> SubmissionDated(s, s.submissions[i], clock))
    && (forall d :: d in s.disputes ==> DisputeDated(s, s.disputes[d], clock))
  }

  ghost predicate NothingTakenOutside(s: State, h: History) {
    forall token :: Balance(h.outside, token, s.self) >= 0
  }

  ghost predicate Lawful(w: World) {
    && Sound(w.state) && Dated(w.state, w.clock)
    && PaidSoundly(w.state, w.history) && Accounted(w.state, w.history) && NothingTakenOutside(w.state, w.history)
  }

  lemma {:induction false} StartLawful(w: World)
    requires Start(w)
    ensures Lawful(w)
  {
    InitialSound(w.state.self, w.state.ledger);
  }

  lemma {:induction false} CreateKeepsDated(s: State, clock: U64, now: U64, c: Call)
    requires Numbered(s) && Dated(s, clock) && clock <= now && Accepts(s, now, c) && c.CreateTask?
    ensures Dated(Effect(s, now, c), now)
  {
  }

  lemma {:induction false} SubmitEffectDated(s: State, clock: U64, now: U64, c: Call)
    requires Numbered(s) && Dated(s, clock) && clock <= now && c.SubmitWork? && SubmitWorkRefusal(s, now, c).None?
    requires forall d :: d in s.disputes ==> s.disputes[d].submissionId in s.submissions
    ensures Dated(SubmitWorkEffect(s, now, c), now)
  {
  }

  lemma {:induction false} SubmitKeepsDated(s: State, clock: U64, now: U64, c: Call)
    requires Numbered(s) && DisputesSound(s) && Dated(s, clock) && clock <= now && Accepts(s, now, c) && c.SubmitWork?
    ensures Dated(Effect(s, now, c), now)
  {
    hide Numbered, Dated, SubmitWorkEffect, SubmitWorkRefusal;
    assert forall d :: d in s.disputes ==> ActiveSound(s, s.disputes[d].taskId, s.disputes[d].submissionId, d);
    SubmitEffectDated(s, clock, now, c);
  }

  lemma {:induction false} DisputeKeepsDated(s: State, clock: U64, now: U64, c: Call)
    requires Numbered(s) && Dated(s, clock) && clock <= now && Accepts(s, now, c) && c.RaiseDispute?
    ensures Dated(Effect(s, now, c), now)
  {
  }

  lemma {:induction false} SameRecordsKeepDated(s: State, s': State, clock: U64, now: U64)
    requires Dated(s, clock) && clock <= now && SameRecords(s, s') && s'.disputes == s.disputes
    ensures Dated(s', now)
  {
  }

  lemma {:induction false} DatedKept(s: State, clock: U64, now: U64, c: Call)
    requires Numbered(s) && DisputesSound(s) && Dated(s, clock) && clock <= now && Accepts(s, now, c)
    ensures Dated(Effect(s, now, c), now)
  {
    hide DisputesSound, Numbered, Dated, Effect, SameRecords;
    if c.CreateTask? {
      CreateKeepsDated(s, clock, now, c);
    } else if c.SubmitWork? {
      SubmitKeepsDated(s, clock, now, c);
    } else if c.RaiseDispute? {
      DisputeKeepsDated(s, clock, now, c);
    } else {
      StatusCallsKeepRecords(s, now, c);
      OtherCallsLeaveDisputes(s, now, c);
      SameRecordsKeepDated(s, Effect(s, now, c), clock, now);
    }
  }

  lemma {:induction false} CallsPassNobodyOff(s: State, h: History, now: U64, c: Call)
    ensures Invoke(s, now, c).self == s.self && Recorded(h, s, now, c).outside == h.outside
  {
  }

  lemma {:induction false} InvocationLawful(w: World, now: U64, c: Call)
    requires Lawful(w) && w.clock <= now
    ensures Lawful(Next(w, Invocation(now, c)))
  {
    hide Numbered, Checked, Listed, Marked, DisputesSound, NoDebts, PaidSoundly, Accounted, Effect, Accepts;
    SoundKept(w.state, now, c);
    CallsPassNobodyOff(w.state, w.history, now, c);
    if Accepts(w.state, now, c) {
      DatedKept(w.state, w.clock, now, c);
      PaidSoundlyKept(w.state, w.history, now, c);
      AccountedKept(w.state, w.history, now, c);
    } else {
      DatesOnlyAge(w.state, w.clock, now);
      RefusalRecordsNothing(w.history, w.state, now, c);
    }
  }

  lemma {:induction false} DatesOnlyAge(s: State, clock: U64, now: U64)
    requires Dated(s, clock) && clock <= now
    ensures Dated(s, now)
  {
  }

  lemma {:induction false} RefusalRecordsNothing(h: History, s: State, now: U64, c: Call)
    requires !Accepts(s, now, c)
    ensures Recorded(h, s, now, c) == h && Invoke(s, now, c) == s
  {
  }

  lemma {:induction false} OutsideTransferKeepsAccounted(s: State, h: History, token: Address, from: Address,
        to: Address, amount: int)
    requires Accounted(s, h)
    ensures Accounted(s.(ledger := Move(s.ledger, token, from, to, amount)),
            h.(outside := Move(h.outside, token, from, to, amount)))
  {
    var s' := s.(ledger := Move(s.ledger, token, from, to, amount));
    var h' := h.(outside := Move(h.outside, token, from, to, amount));
    MoveBalances(s.ledger, token, from, to, amount);
    MoveBalances(h.outside, token, from, to, amount);
    forall k, a
      ensures Balance(s'.ledger, k, a) == Balance(h'.outside, k, a) + FlowTo(s', h', k, a, s'.taskCount)
    {
      FlowToChange(s, h, s', h', k, a, 0, s.taskCount);
    }
  }

  lemma {:induction false} LedgerLeavesHistorySound(s: State, h: History, clock: U64, ledger: Ledger, outside: Ledger)
    requires Dated(s, clock) && PaidSoundly(s, h)
    ensures Dated(s.(ledger := ledger), clock)
    ensures PaidSoundly(s.(ledger := ledger), h.(outside := outside))
  {
    hide Settled;
    SameRecordsKeepDated(s, s.(ledger := ledger), clock, clock);
    hide Dated;
  }

  lemma {:induction false} OutsideTransferLawful(w: World, a: Action)
    requires Lawful(w) && a.OutsideTransfer?
    ensures Lawful(Next(w, a))
  {
    hide Numbered, Checked, Listed, Marked, DisputesSound, PaidSoundly, Accounted, Dated;
    var w' := Next(w, a);
    if w' != w {
      MoveBalances(w.state.ledger, a.token, a.from, a.to, a.amount);
      MoveBalances(w.history.outside, a.token, a.from, a.to, a.amount);
      SoundUnderLedger(w.state, w'.state.ledger);
      LedgerLeavesHistorySound(w.state, w.history, w.clock, w'.state.ledger, w'.history.outside);
      OutsideTransferKeepsAccounted(w.state, w.history, a.token, a.from, a.to, a.amount);
    }
  }

  lemma {:induction false} StepLawful(w: World, a: Action)
    requires Lawful(w) && (a.Invocation? ==> w.clock <= a.now)
    ensures Lawful(Next(w, a))
  {
    if a.Invocation? { InvocationLawful(w, a.now, a.call); } else { OutsideTransferLawful(w, a); }
  }

  lemma {:induction false} RunLawful(w: World, actions: seq<Action>)
    requires Lawful(w) && Chronological(w.clock, actions)
    ensures Lawful(Exec(w, actions))
    decreases |actions|
  {
    hide Lawful, Invoke, Recorded;
    if actions != [] {
      StepLawful(w, actions[0]);
      RunLawful(Next(w, actions[0]), actions[1..]);
    }
  }

  // ----- what never changes back

  /** A task keeps its terms, its list only grows while it takes submissions, and a
      finished one keeps its outcome unless it is counted as reopened. */
  predicate TaskEvolves(w: World, w': World, t: U64)
    requires t in w.state.tasks
  {
    var s, s' := w.state, w'.state;
    && t in s'.tasks
    && s'.tasks[t] == s.tasks[t].(submissionCount := s'.tasks[t].submissionCount, status := s'.tasks[t].status)
    && s.SubmissionsOf(t) <= s'.SubmissionsOf(t)
    && (!Accepting(s.tasks[t].status) ==> !Accepting(s'.tasks[t].status) && s'.SubmissionsOf(t) == s.SubmissionsOf(t))
    && w.history.ReopeningsOf(t) <= w'.history.ReopeningsOf(t)
    && w.history.PaymentsOf(t) <= w'.history.PaymentsOf(t)
    && (Finished(s.tasks[t].status) && w.history.ReopeningsOf(t) == w'.history.ReopeningsOf(t) ==>
          s'.tasks[t].status == s.tasks[t].status && w'.history.PaymentsOf(t) == w.history.PaymentsOf(t))
  }

  /** A submission keeps all but its status, and a verdict is final. */
  predicate SubmissionEvolves(s: State, s': State, i: U64)
    requires i in s.submissions
  {
    && i in s'.submissions && s'.submissions[i] == s.submissions[i].(status := s'.submissions[i].status)
    && (s.submissions[i].status != Pending ==> s'.submissions[i].status == s.submissions[i].status)
  }

  ghost predicate Evolves(w: World, w': World) {
    && w'.state.self == w.state.self
    && (forall t :: t in w.state.tasks ==> TaskEvolves(w, w', t))
    && (forall i :: i in w.state.submissions ==> SubmissionEvolves(w.state, w'.state, i))
    && w.state.hasSubmitted <= w'.state.hasSubmitted
    && (forall t, i, d :: IsActive(w.state, t, i, d) ==> IsActive(w'.state, t, i, d))
    && (forall d :: d in w.state.disputes ==> d in w'.state.disputes && w'.state.disputes[d] == w.state.disputes[d])
  }

  lemma {:induction false} EvolvesTransitive(w: World, w': World, w'': World)
    requires Evolves(w, w') && Evolves(w', w'')
    ensures Evolves(w, w'')
  {
    forall t | t in w.state.tasks
      ensures TaskEvolves(w, w'', t)
    {
      assert TaskEvolves(w, w', t) && TaskEvolves(w', w'', t);
    }
    forall i | i in w.state.submissions
      ensures SubmissionEvolves(w.state, w''.state, i)
    {
      assert SubmissionEvolves(w.state, w'.state, i) && SubmissionEvolves(w'.state, w''.state, i);
    }
  }

  lemma {:induction false} AddingEvolvesTask(w: World, now: U64, c: Call, t: U64)
    requires Numbered(w.state) && Accepts(w.state, now, c) && t in w.state.tasks && AddsRecord(c)
    ensures TaskEvolves(w, Next(w, Invocation(now, c)), t)
  {
  }

  lemma {:induction false} PayingEvolvesTask(w: World, now: U64, c: Call, t: U64)
    requires Numbered(w.state) && Accepts(w.state, now, c) && t in w.state.tasks && Pays(c)
    ensures TaskEvolves(w, Next(w, Invocation(now, c)), t)
  {
    if c.ApproveSubmission? {
      ApprovalIsPayment(w.state, w.history, now, c);
    } else {
      CancelIsPayment(w.state, w.history, now, c);
    }
    PaymentEvolvesTask(w, Next(w, Invocation(now, c)), c.taskId, PaymentBy(w.state, c), t);
  }

  lemma {:induction false} PaymentEvolvesTask(w: World, w': World, u: U64, p: Payment, t: U64)
    requires PaymentStep(w.state, w.history, w'.state, w'.history, u, p) && t in w.state.tasks
    requires w'.state.taskSubmissions == w.state.taskSubmissions
    ensures TaskEvolves(w, w', t)
  {
  }

  lemma {:induction false} JudgingEvolvesTask(w: World, now: U64, c: Call, t: U64)
    requires Numbered(w.state) && Accepts(w.state, now, c) && t in w.state.tasks
             && (c.RejectSubmission? || c.RaiseDispute?)
    ensures TaskEvolves(w, Next(w, Invocation(now, c)), t)
  {
  }

  lemma {:induction false} CallEvolvesTask(w: World, now: U64, c: Call, t: U64)
    requires Numbered(w.state) && Accepts(w.state, now, c) && t in w.state.tasks
    ensures TaskEvolves(w, Next(w, Invocation(now, c)), t)
  {
    hide TaskEvolves, Numbered, Accepts, Next;
    if AddsRecord(c) {
      AddingEvolvesTask(w, now, c, t);
    } else if Pays(c) {
      PayingEvolvesTask(w, now, c, t);
    } else {
      JudgingEvolvesTask(w, now, c, t);
    }
  }

  lemma {:induction false} CallEvolvesSubmission(s: State, now: U64, c: Call, i: U64)
    requires Numbered(s) && Accepts(s, now, c) && i in s.submissions
    ensures SubmissionEvolves(s, Effect(s, now, c), i)
  {
  }

  lemma {:induction false} CallKeepsDisputesActive(s: State, now: U64, c: Call)
    requires Numbered(s) && Accepts(s, now, c)
    ensures var s' := Effect(s, now, c);
      && s'.self == s.self && s.hasSubmitted <= s'.hasSubmitted
      && (forall t, i, d :: IsActive(s, t, i, d) ==> IsActive(s', t, i, d))
      && (forall d :: d in s.disputes ==> d in s'.disputes && s'.disputes[d] == s.disputes[d])
  {
  }

  /** Where only the ledger and the clock moved, nothing evolved. */
  lemma {:induction false} IdleEvolves(w: World, w': World)
    requires w'.state == w.state.(ledger := w'.state.ledger)
    requires w'.history == w.history.(outside := w'.history.outside)
    ensures Evolves(w, w')
  {
    assert forall t :: t in w.state.tasks ==> TaskEvolves(w, w', t);
  }

  lemma {:induction false} StepEvolves(w: World, a: Action)
    requires Lawful(w)
    ensures Evolves(w, Next(w, a))
  {
    var w' := Next(w, a);
    hide Checked, Listed, Marked, DisputesSound, Dated, PaidSoundly, Accounted, NoDebts;
    if a.Invocation? && Accepts(w.state, a.now, a.call) {
      hide TaskEvolves, SubmissionEvolves, Numbered, Effect;
      forall t | t in w.state.tasks { CallEvolvesTask(w, a.now, a.call, t); }
      forall i | i in w.state.submissions { CallEvolvesSubmission(w.state, a.now, a.call, i); }
      CallKeepsDisputesActive(w.state, a.now, a.call);
    } else {
      IdleEvolves(w, w');
    }
  }

  lemma {:induction false} RunEvolves(w: World, actions: seq<Action>)
    requires Lawful(w) && Chronological(w.clock, actions)
    ensures Evolves(w, Exec(w, actions))
    decreases |actions|
  {
    hide Lawful, Evolves, Invoke, Recorded;
    if actions == [] {
      IdleEvolves(w, w);
    } else {
      var next := Next(w, actions[0]);
      StepEvolves(w, actions[0]);
      StepLawful(w, actions[0]);
      RunEvolves(next, actions[1..]);
      EvolvesTransitive(w, next, Exec(w, actions));
    }
  }

  // ----- the ledger law

  /** What tasks 1 to n still hold in a token, each reward counted once minus its payments. */
  ghost function EscrowTo(w: World, token: Address, n: nat): int
    requires n <= U64_MAX
  {
    if n == 0 then 0
    else
      EscrowTo(w, token, n - 1)
      + if n in w.state.tasks && w.state.tasks[n].token == token
        then w.state.tasks[n].reward * (1 - |w.history.PaymentsOf(n)|) else 0
  }

  lemma {:induction false} PaidOutIsRewards(ps: seq<Payment>, reward: int)
    requires forall p :: p in ps ==> p.amount == reward
    ensures PaidOut(ps) == reward * |ps|
  {
    if ps != [] {
      assert ps[|ps| - 1] in ps;
      PaidOutIsRewards(ps[..|ps| - 1], reward);
    }
  }

  lemma {:induction false} SettledPaidOut(ps: seq<Payment>, task: Task, submissions: map<U64, Submission>,
        reopenings: nat)
    requires Settled(ps, task, submissions, reopenings)
    ensures task.reward - PaidOut(ps) == task.reward * (1 - |ps|)
  {
    PaidOutIsRewards(ps, task.reward);
  }

  lemma {:induction false} SelfFlowIsEscrow(w: World, token: Address, n: nat)
    requires n <= U64_MAX && PaidSoundly(w.state, w.history)
    ensures FlowTo(w.state, w.history, token, w.state.self, n) == EscrowTo(w, token, n)
  {
    hide Settled, PaidOut;
    if n > 0 {
      SelfFlowIsEscrow(w, token, n - 1);
      if n in w.state.tasks {
        SettledPaidOut(w.history.PaymentsOf(n), w.state.tasks[n], w.state.submissions, w.history.ReopeningsOf(n));
      }
    }
  }

  /** In every run the contract holds, of each token, what others gave it and the sum over that
      token's tasks of reward x (1 - payments made); a task has been paid once per reopening,
      plus once if it is finished now. */
  lemma {:induction false} LedgerLaw(w0: World, actions: seq<Action>, token: Address)
    requires Start(w0) && Chronological(w0.clock, actions)
    ensures var w := Exec(w0, actions);
      && Balance(w.state.ledger, token, w.state.self)
         == Balance(w.history.outside, token, w.state.self) + EscrowTo(w, token, w.state.taskCount)
      && Balance(w.history.outside, token, w.state.self) >= 0
    ensures var w := Exec(w0, actions); forall t :: t in w.state.tasks ==>
      |w.history.PaymentsOf(t)| == w.history.ReopeningsOf(t) + if Finished(w.state.tasks[t].status) then 1 else 0
  {
    StartLawful(w0);
    RunLawful(w0, actions);
    var w := Exec(w0, actions);
    SelfFlowIsEscrow(w, token, w.state.taskCount);
    forall t | t in w.state.tasks
      ensures |w.history.PaymentsOf(t)|
              == w.history.ReopeningsOf(t) + if Finished(w.state.tasks[t].status) then 1 else 0
    {
      assert Settled(w.history.PaymentsOf(t), w.state.tasks[t], w.state.submissions, w.history.ReopeningsOf(t));
    }
  }

  lemma {:induction false} StepKeepsSupply(w: World, a: Action, token: Address)
    ensures Supply(AccountsOf(Next(w, a).state.ledger, token)) == Supply(AccountsOf(w.state.ledger, token))
  {
    var s := w.state;
    if a.OutsideTransfer? {
      MoveKeepsSupply(s.ledger, a.token, a.from, a.to, a.amount, token);
    } else if Accepts(s, a.now, a.call) {
      var c := a.call;
      if c.CreateTask? {
        MoveKeepsSupply(s.ledger, c.token, c.poster, s.self, c.reward, token);
      } else if Pays(c) {
        var task := s.tasks[c.taskId];
        MoveKeepsSupply(s.ledger, task.token, s.self, PaymentBy(s, c).to, task.reward, token);
      }
    }
  }

  /** No run makes or destroys tokens. */
  lemma {:induction false} SupplyConserved(w: World, actions: seq<Action>, token: Address)
    ensures Supply(AccountsOf(Exec(w, actions).state.ledger, token)) == Supply(AccountsOf(w.state.ledger, token))
    decreases |actions|
  {
    if actions != [] {
      StepKeepsSupply(w, actions[0], token);
      SupplyConserved(Next(w, actions[0]), actions[1..], token);
    }
  }

  /** The payments an account got for tasks 1 to n of a token. */
  ghost function ReceivedTo(w: World, token: Address, account: Address, n: nat): int
    requires n <= U64_MAX
  {
    if n == 0 then 0
    else
      ReceivedTo(w, token, account, n - 1)
      + if n in w.state.tasks && w.state.tasks[n].token == token then PaidTo(w.history.PaymentsOf(n), account) else 0
  }

  /** The rewards an account put up as poster of tasks 1 to n of a token. */
  ghost function PutUpTo(w: World, token: Address, account: Address, n: nat): int
    requires n <= U64_MAX
  {
    if n == 0 then 0
    else
      PutUpTo(w, token, account, n - 1)
      + if n in w.state.tasks && w.state.tasks[n].token == token && w.state.tasks[n].poster == account
        then w.state.tasks[n].reward else 0
  }

  lemma {:induction false} OthersFlow(w: World, token: Address, account: Address, n: nat)
    requires n <= U64_MAX && account != w.state.self
    ensures FlowTo(w.state, w.history, token, account, n)
            == ReceivedTo(w, token, account, n) - PutUpTo(w, token, account, n)
  {
    if n > 0 { OthersFlow(w, token, account, n - 1); }
  }

  /** In every run every other account holds what outside transfers alone would have left it,
      plus its payments, minus the rewards it put up. */
  lemma {:induction false} EveryBalanceExplained(w0: World, actions: seq<Action>, token: Address, account: Address)
    requires Start(w0) && Chronological(w0.clock, actions) && account != w0.state.self
    ensures var w := Exec(w0, actions);
      Balance(w.state.ledger, token, account) + PutUpTo(w, token, account, w.state.taskCount)
      == Balance(w.history.outside, token, account) + ReceivedTo(w, token, account, w.state.taskCount)
  {
    StartLawful(w0);
    RunLawful(w0, actions);
    RunEvolves(w0, actions);
    OthersFlow(Exec(w0, actions), token, account, Exec(w0, actions).state.taskCount);
  }

  // ----- one payment per finished task

  ghost predicate HasApproved(s: State, t: U64) {
    exists i :: IsApproved(s.submissions, i, t)
  }

  /** A finished task has been paid just once, a completed one to the contributor of its only
      approved submission, a cancelled one back to its poster; and no other task was paid. */
  ghost predicate PaidOnce(w: World, t: U64)
    requires t in w.state.tasks
  {
    var s, ps, task := w.state, w.history.PaymentsOf(t), w.state.tasks[t];
    && (task.status == Completed <==> HasApproved(s, t))
    && (forall i, j :: IsApproved(s.submissions, i, t) && IsApproved(s.submissions, j, t) ==> i == j)
    && (forall i :: IsApproved(s.submissions, i, t) ==> ps == [Award(i, s.submissions[i].contributor, task.reward)])
    && (task.status == Cancelled ==> ps == [Refund(task.poster, task.reward)])
    && (!Finished(task.status) ==> ps == [])
  }

  lemma {:induction false} SettledOnce(w: World, t: U64)
    requires t in w.state.tasks && w.state.tasks[t].id == t && w.history.ReopeningsOf(t) == 0
    requires Settled(w.history.PaymentsOf(t), w.state.tasks[t], w.state.submissions, 0)
    ensures PaidOnce(w, t)
  {
    var s, ps := w.state, w.history.PaymentsOf(t);
    assert |ps| == 1 ==> ps == [ps[0]] && ps[0] in ps;
    if s.tasks[t].status == Completed {
      assert IsApproved(s.submissions, ps[0].submissionId, t);
    }
  }

  lemma {:induction false} PaidOnceCounts(w: World, t: U64)
    requires t in w.state.tasks && w.state.tasks[t].id == t && PaidOnce(w, t)
    requires Settled(w.history.PaymentsOf(t), w.state.tasks[t], w.state.submissions, w.history.ReopeningsOf(t))
    ensures w.history.ReopeningsOf(t) == 0
  {
  }

  /** In every run a task has been paid just once, as its status says, iff it was never reopened. */
  lemma {:induction false} OnePaymentPerFinishedTask(w0: World, actions: seq<Action>, t: U64)
    requires Start(w0) && Chronological(w0.clock, actions) && t in Exec(w0, actions).state.tasks
    ensures PaidOnce(Exec(w0, actions), t) <==> Exec(w0, actions).history.ReopeningsOf(t) == 0
  {
    StartLawful(w0);
    RunLawful(w0, actions);
    var w := Exec(w0, actions);
    LawfulTask(w, t);
    hide Lawful, Settled, PaidOnce;
    if w.history.ReopeningsOf(t) == 0 { SettledOnce(w, t); }
    if PaidOnce(w, t) { PaidOnceCounts(w, t); }
  }

  // ----- funds are never stuck

  lemma {:induction false} ScanPasses(submissions: map<U64, Submission>, ids: seq<U64>)
    ensures ScanRefusal(submissions, ids).None?
            <==> forall i :: i in ids ==> i in submissions && submissions[i].status != Approved
  {
    if ids != [] {
      ScanPasses(submissions, ids[1..]);
      assert ids == [ids[0]] + ids[1..];
    }
  }

  /** No task of the token was ever reopened. */
  ghost predicate Plain(w: World, token: Address) {
    forall t :: t in w.state.tasks && w.state.tasks[t].token == token ==> w.history.ReopeningsOf(t) == 0
  }

  lemma {:induction false} PlainTaskPaid(w: World, t: U64)
    requires PaidSoundly(w.state, w.history) && Checked(w.state) && t in w.state.tasks && w.history.ReopeningsOf(t) == 0
    ensures |w.history.PaymentsOf(t)| == (if Finished(w.state.tasks[t].status) then 1 else 0)
            && w.state.tasks[t].reward >= 0
  {
    assert Settled(w.history.PaymentsOf(t), w.state.tasks[t], w.state.submissions, w.history.ReopeningsOf(t));
    assert TaskChecked(w.state, w.state.tasks[t]);
  }

  lemma {:induction false} EscrowCovers(w: World, token: Address, n: nat, t: U64)
    requires n <= U64_MAX && PaidSoundly(w.state, w.history) && Checked(w.state) && Plain(w, token)
    requires t in w.state.tasks && w.state.tasks[t].token == token && !Finished(w.state.tasks[t].status) && 1 <= t
    ensures EscrowTo(w, token, n) >= if t <= n then w.state.tasks[t].reward else 0
  {
    hide PaidSoundly, Checked;
    if n > 0 {
      EscrowCovers(w, token, n - 1, t);
      if n in w.state.tasks && w.state.tasks[n].token == token {
        PlainTaskPaid(w, n);
      }
    }
  }

  lemma {:induction false} LawfulTask(w: World, t: U64)
    requires Lawful(w) && t in w.state.tasks
    ensures w.state.tasks[t].id == t && ListSound(w.state, t) && TaskChecked(w.state, w.state.tasks[t])
    ensures Settled(w.history.PaymentsOf(t), w.state.tasks[t], w.state.submissions, w.history.ReopeningsOf(t))
  {
    hide ListSound, TaskChecked, Settled, Marked, DisputesSound, Dated, Accounted;
  }

  lemma {:induction false} ScanOfSoundList(s: State, t: U64)
    requires t in s.tasks && ListSound(s, t)
    ensures ScanRefusal(s.submissions, s.SubmissionsOf(t)).None? <==> !exists i :: IsApproved(s.submissions, i, t)
  {
    var list := s.SubmissionsOf(t);
    ScanPasses(s.submissions, list);
    if i :| IsApproved(s.submissions, i, t) {
      assert i in list;
    } else {
      forall i | i in list
        ensures i in s.submissions && s.submissions[i].status != Approved
      {
        assert !IsApproved(s.submissions, i, t);
      }
    }
  }

  lemma {:induction false} CancelAccepted(w: World, t: U64, now: U64)
    requires Lawful(w) && t in w.state.tasks && !Finished(w.state.tasks[t].status)
    ensures var task := w.state.tasks[t];
      Accepts(w.state, now, CancelTask(t, task.poster))
      <==> !HasApproved(w.state, t) && task.reward <= Balance(w.state.ledger, task.token, w.state.self)
  {
    hide Lawful, Settled, ListSound;
    LawfulTask(w, t);
    ScanOfSoundList(w.state, t);
  }

  /** In any reachable world, a live task can be cancelled by its poster exactly when no
      submission of it is approved and the contract holds the reward. */
  lemma {:induction false} CancelSucceedsExactly(w0: World, actions: seq<Action>, t: U64, now: U64)
    requires Start(w0) && Chronological(w0.clock, actions)
    requires t in Exec(w0, actions).state.tasks && !Finished(Exec(w0, actions).state.tasks[t].status)
    ensures var w := Exec(w0, actions); var task := w.state.tasks[t];
      Accepts(w.state, now, CancelTask(t, task.poster))
      <==> !HasApproved(w.state, t) && task.reward <= Balance(w.state.ledger, task.token, w.state.self)
  {
    StartLawful(w0);
    RunLawful(w0, actions);
    hide Lawful, Accepts;
    CancelAccepted(Exec(w0, actions), t, now);
  }

  lemma {:induction false} PlainCancelAccepted(w: World, t: U64, now: U64)
    requires Lawful(w) && t in w.state.tasks && !Finished(w.state.tasks[t].status) && Plain(w, w.state.tasks[t].token)
    ensures Accepts(w.state, now, CancelTask(t, w.state.tasks[t].poster))
  {
    var task := w.state.tasks[t];
    SelfFlowIsEscrow(w, task.token, w.state.taskCount);
    EscrowCovers(w, task.token, w.state.taskCount, t);
    SettledOnce(w, t);
    hide Listed, Marked, DisputesSound, PaidSoundly, Accepts;
    CancelAccepted(w, t, now);
  }

  /** Funds are never stuck: while no task of its token was reopened, every live task can be
      cancelled by its poster at any time, and the poster gets the reward back. */
  lemma {:induction false} FundsNeverStuck(w0: World, actions: seq<Action>, t: U64, now: U64)
    requires Start(w0) && Chronological(w0.clock, actions)
    requires t in Exec(w0, actions).state.tasks && !Finished(Exec(w0, actions).state.tasks[t].status)
    requires Plain(Exec(w0, actions), Exec(w0, actions).state.tasks[t].token)
    ensures var s := Exec(w0, actions).state; var task := s.tasks[t]; var c := CancelTask(t, task.poster);
      && Accepts(s, now, c)
      && Balance(Invoke(s, now, c).ledger, task.token, task.poster)
           == Balance(s.ledger, task.token, task.poster) + task.reward
      && t in Invoke(s, now, c).tasks && Invoke(s, now, c).tasks[t].status == Cancelled
  {
    StartLawful(w0);
    RunLawful(w0, actions);
    hide Plain, Accepts, Effect;
    var w := Exec(w0, actions);
    PlainCancelAccepted(w, t, now);
    CancelRefunds(w, t, now);
  }

  lemma {:induction false} CancelRefunds(w: World, t: U64, now: U64)
    requires Lawful(w) && t in w.state.tasks && Accepts(w.state, now, CancelTask(t, w.state.tasks[t].poster))
    ensures var s := w.state; var task := s.tasks[t]; var s' := Effect(s, now, CancelTask(t, task.poster));
      && Balance(s'.ledger, task.token, task.poster) == Balance(s.ledger, task.token, task.poster) + task.reward
      && t in s'.tasks && s'.tasks[t].status == Cancelled
  {
    hide Lawful, Settled, ListSound;
    LawfulTask(w, t);
    var task := w.state.tasks[t];
    MoveBalances(w.state.ledger, task.token, w.state.self, task.poster, task.reward);
  }

  // ----- what can happen to a finished task, and to a disputed submission

  predicate ReopensTask(w: World, a: Action, t: U64) {
    a.Invocation? && Reopens(w.state, a.now, a.call) && a.call.taskId == t
  }

  lemma {:induction false} ReopeningsCounted(w: World, a: Action, t: U64)
    ensures Next(w, a).history.ReopeningsOf(t) == w.history.ReopeningsOf(t) + if ReopensTask(w, a, t) then 1 else 0
  {
  }

  lemma {:induction false} ReopenedIsDisputed(s: State, now: U64, c: Call)
    requires Numbered(s) && Reopens(s, now, c)
    ensures c.taskId in Effect(s, now, c).tasks && Effect(s, now, c).tasks[c.taskId].status == Disputed
  {
  }

  /** Completed and Cancelled are left by exactly one kind of step: a dispute accepted
      over some submission of the finished task. */
  lemma {:induction false} FinishedLeftExactlyByReopening(w: World, a: Action, t: U64)
    requires Lawful(w) && t in w.state.tasks && Finished(w.state.tasks[t].status)
    ensures t in Next(w, a).state.tasks
    ensures Next(w, a).state.tasks[t].status != w.state.tasks[t].status <==> ReopensTask(w, a, t)
  {
    StepEvolves(w, a);
    assert TaskEvolves(w, Next(w, a), t);
    ReopeningsCounted(w, a, t);
    hide Evolves, Effect, Recorded;
    if ReopensTask(w, a, t) {
      ReopenedIsDisputed(w.state, a.now, a.call);
    } else {
      hide Lawful, Next;
    }
  }

  /** A later world has the task as it was: the same outcome, and the same payments. */
  predicate KeepsOutcome(w: World, w': World, t: U64)
    requires t in w.state.tasks
  {
    && t in w'.state.tasks && w'.state.tasks[t].status == w.state.tasks[t].status
    && w'.history.PaymentsOf(t) == w.history.PaymentsOf(t)
  }

  /** A finished task that is not reopened later keeps its outcome and its payments. */
  lemma {:induction false} UnreopenedKeepsOutcome(w: World, after: seq<Action>, t: U64)
    requires Lawful(w) && Chronological(w.clock, after) && t in w.state.tasks && Finished(w.state.tasks[t].status)
    requires Exec(w, after).history.ReopeningsOf(t) == w.history.ReopeningsOf(t)
    ensures KeepsOutcome(w, Exec(w, after), t)
  {
    RunEvolves(w, after);
    assert TaskEvolves(w, Exec(w, after), t);
  }

  predicate IsContestable(s: State, t: U64, i: U64) {
    && i in s.submissions && s.submissions[i].taskId == t && s.submissions[i].status != Approved
    && (t, i) !in s.activeDisputes
  }

  /** Storage has room for another dispute, and a submission of the task to raise it over. */
  ghost predicate Contestable(s: State, t: U64) {
    s.disputeCount < U64_MAX && exists i :: IsContestable(s, t, i)
  }

  lemma {:induction false} UncontestableNotReopened(w: World, a: Action, t: U64)
    requires t in w.state.tasks && !Contestable(w.state, t)
    ensures !ReopensTask(w, a, t)
  {
    if ReopensTask(w, a, t) {
      assert IsContestable(w.state, t, a.call.submissionId);
    }
  }

  lemma {:induction false} DisputesOnlyGrow(w: World, a: Action)
    ensures w.state.disputeCount <= Next(w, a).state.disputeCount
  {
  }

  /** A task that takes no submissions cannot become contestable. */
  lemma {:induction false} StaysUncontestable(w: World, w': World, t: U64)
    requires t in w.state.tasks && t in w'.state.tasks && ListSound(w.state, t) && ListSound(w'.state, t)
    requires Evolves(w, w') && w.state.disputeCount <= w'.state.disputeCount
    requires !Accepting(w.state.tasks[t].status) && !Contestable(w.state, t)
    ensures !Contestable(w'.state, t)
  {
    assert TaskEvolves(w, w', t);
    forall i | IsContestable(w'.state, t, i)
      ensures IsContestable(w.state, t, i)
    {
      assert i in w'.state.SubmissionsOf(t);
      assert SubmissionEvolves(w.state, w'.state, i);
      assert (t, i) in w.state.activeDisputes ==> IsActive(w.state, t, i, w.state.activeDisputes[(t, i)]);
    }
  }

  lemma {:induction false} TaskOfEvolved(w: World, w': World, t: U64)
    requires Evolves(w, w') && t in w.state.tasks
    ensures TaskEvolves(w, w', t)
  {
  }

  lemma {:induction false} UncontestableStep(w: World, a: Action, t: U64)
    requires Lawful(w) && (a.Invocation? ==> w.clock <= a.now)
    requires t in w.state.tasks && Finished(w.state.tasks[t].status) && !Contestable(w.state, t)
    ensures KeepsOutcome(w, Next(w, a), t) && !Contestable(Next(w, a).state, t)
  {
    hide Lawful, Evolves, Contestable, ListSound, Settled, Next, Accepts, TaskChecked, ReopensTask;
    var w' := Next(w, a);
    StepLawful(w, a);
    StepEvolves(w, a);
    TaskOfEvolved(w, w', t);
    ReopeningsCounted(w, a, t);
    UncontestableNotReopened(w, a, t);
    DisputesOnlyGrow(w, a);
    LawfulTask(w, t);
    LawfulTask(w', t);
    StaysUncontestable(w, w', t);
  }

  lemma {:induction false} UncontestableRun(w: World, after: seq<Action>, t: U64)
    requires Lawful(w) && Chronological(w.clock, after)
    requires t in w.state.tasks && Finished(w.state.tasks[t].status) && !Contestable(w.state, t)
    ensures KeepsOutcome(w, Exec(w, after), t)
    decreases |after|
  {
    hide Lawful, Contestable, Invoke, Recorded;
    if after != [] {
      StepLawful(w, after[0]);
      UncontestableStep(w, after[0], t);
      UncontestableRun(Next(w, after[0]), after[1..], t);
    }
  }

  lemma {:induction false} PosterReopens(s: State, now: U64, t: U64, i: U64)
    requires Numbered(s) && t in s.tasks && TaskChecked(s, s.tasks[t]) && Finished(s.tasks[t].status)
    requires IsContestable(s, t, i) && s.disputeCount < U64_MAX
    ensures Reopens(s, now, RaiseDispute(t, i, s.tasks[t].poster, ""))
  {
  }

  /** The poster's own dispute reopens a contestable task. */
  lemma {:induction false} ContestableReopens(w: World, t: U64) returns (after: seq<Action>)
    requires Lawful(w) && t in w.state.tasks && Finished(w.state.tasks[t].status) && Contestable(w.state, t)
    ensures Chronological(w.clock, after) && !KeepsOutcome(w, Exec(w, after), t)
  {
    hide ListSound, Settled, Dated, Listed, Marked, DisputesSound, PaidSoundly, Accounted, Numbered, Accepts, Effect;
    var i :| IsContestable(w.state, t, i);
    var c := RaiseDispute(t, i, w.state.tasks[t].poster, "");
    LawfulTask(w, t);
    PosterReopens(w.state, w.clock, t, i);
    ReopenedIsDisputed(w.state, w.clock, c);
    after := [Invocation(w.clock, c)];
    assert after[1..] == [] && Exec(Next(w, after[0]), []) == Next(w, after[0]);
  }

  /** In any reachable world a finished task keeps its outcome and its payments however the run
      goes on iff every submission of it is approved or under dispute, or no dispute number is left. */
  lemma {:induction false} FinishedIsAbsorbing(w0: World, before: seq<Action>, t: U64)
    requires Start(w0) && Chronological(w0.clock, before)
    requires t in Exec(w0, before).state.tasks && Finished(Exec(w0, before).state.tasks[t].status)
    ensures var w := Exec(w0, before);
      (forall after :: Chronological(w.clock, after) ==> KeepsOutcome(w, Exec(w, after), t))
      <==> !Contestable(w.state, t)
  {
    StartLawful(w0);
    RunLawful(w0, before);
    var w := Exec(w0, before);
    hide Lawful, Contestable, KeepsOutcome;
    if Contestable(w.state, t) {
      var after := ContestableReopens(w, t);
    } else {
      forall after | Chronological(w.clock, after)
        ensures KeepsOutcome(w, Exec(w, after), t)
      {
        UncontestableRun(w, after, t);
      }
    }
  }

  /** The task is there and was paid once, as its status says. */
  ghost predicate StandsPaidOnce(w: World, t: U64) {
    t in w.state.tasks && PaidOnce(w, t)
  }

  lemma {:induction false} PaidAgainAfter(w: World, t: U64) returns (after: seq<Action>)
    requires Lawful(w) && t in w.state.tasks && Finished(w.state.tasks[t].status)
    requires w.history.ReopeningsOf(t) != 0 || Contestable(w.state, t)
    ensures Chronological(w.clock, after) && !StandsPaidOnce(Exec(w, after), t)
  {
    hide Lawful, Contestable, PaidOnce, KeepsOutcome, Next;
    if w.history.ReopeningsOf(t) != 0 {
      after := [];
    } else {
      after := ContestableReopens(w, t);
    }
    if StandsPaidOnce(Exec(w, after), t) { OnePaymentIsKeptOutcome(w, after, t); }
  }

  /** In any reachable world a finished task will have been paid once, as its status says, however
      the run goes on iff it was not reopened so far and cannot be. */
  lemma {:induction false} PaidOnceForGoodExactly(w0: World, before: seq<Action>, t: U64)
    requires Start(w0) && Chronological(w0.clock, before)
    requires t in Exec(w0, before).state.tasks && Finished(Exec(w0, before).state.tasks[t].status)
    ensures var w := Exec(w0, before);
      (forall after :: Chronological(w.clock, after) ==> StandsPaidOnce(Exec(w, after), t))
      <==> w.history.ReopeningsOf(t) == 0 && !Contestable(w.state, t)
  {
    hide Lawful, Contestable, PaidOnce, KeepsOutcome;
    StartLawful(w0);
    RunLawful(w0, before);
    var w := Exec(w0, before);
    if w.history.ReopeningsOf(t) == 0 && !Contestable(w.state, t) {
      forall after | Chronological(w.clock, after)
        ensures StandsPaidOnce(Exec(w, after), t)
      {
        UncontestableRun(w, after, t);
        KeptOutcomeIsOnePayment(w, after, t);
      }
    } else {
      var after := PaidAgainAfter(w, t);
    }
  }

  lemma {:induction false} KeptOutcomeIsOnePayment(w: World, after: seq<Action>, t: U64)
    requires Lawful(w) && Chronological(w.clock, after) && t in w.state.tasks && Finished(w.state.tasks[t].status)
    requires KeepsOutcome(w, Exec(w, after), t) && w.history.ReopeningsOf(t) == 0
    ensures StandsPaidOnce(Exec(w, after), t)
  {
    var w' := Exec(w, after);
    RunLawful(w, after);
    LawfulTask(w, t);
    LawfulTask(w', t);
    hide Lawful, ListSound, TaskChecked, PaidOnce;
    assert |w'.history.PaymentsOf(t)| == w'.history.ReopeningsOf(t) + 1;
    SettledOnce(w', t);
  }

  lemma {:induction false} OnePaymentIsKeptOutcome(w: World, after: seq<Action>, t: U64)
    requires Lawful(w) && Chronological(w.clock, after) && t in w.state.tasks && Finished(w.state.tasks[t].status)
    requires StandsPaidOnce(Exec(w, after), t)
    ensures w.history.ReopeningsOf(t) == 0 && KeepsOutcome(w, Exec(w, after), t)
  {
    var w' := Exec(w, after);
    RunLawful(w, after);
    RunEvolves(w, after);
    LawfulTask(w', t);
    TaskOfEvolved(w, w', t);
    hide Lawful, Evolves, ListSound, TaskChecked, PaidOnce, Settled;
    PaidOnceCounts(w', t);
    UnreopenedKeepsOutcome(w, after, t);
  }

  /** Once a submission is actively disputed it is never approved, and its task, once it
      stops taking submissions, never takes one again. */
  lemma {:induction false} DisputeFreezes(w0: World, before: seq<Action>, after: seq<Action>, t: U64, i: U64, d: U64)
    requires Start(w0) && Chronological(w0.clock, before)
    requires Chronological(Exec(w0, before).clock, after)
    requires IsActive(Exec(w0, before).state, t, i, d)
    ensures var s, s' := Exec(w0, before).state, Exec(Exec(w0, before), after).state;
      && IsActive(s', t, i, d)
      && i in s.submissions && i in s'.submissions && s.submissions[i].taskId == t
      && s'.submissions[i].status != Approved
      && t in s.tasks && t in s'.tasks
      && (!Accepting(s.tasks[t].status) ==> !Accepting(s'.tasks[t].status) && s'.SubmissionsOf(t) == s.SubmissionsOf(t))
  {
    StartLawful(w0);
    RunLawful(w0, before);
    var w := Exec(w0, before);
    var w' := Exec(w, after);
    RunLawful(w, after);
    RunEvolves(w, after);
    assert ActiveSound(w.state, t, i, d);
    assert IsActive(w'.state, t, i, d);
    assert ActiveSound(w'.state, t, i, d);
    assert TaskEvolves(w, w', t);
  }

  /** A verdict is final, and a task that stopped taking submissions keeps its list as it is. */
  lemma {:induction false} VerdictsAreFinal(w0: World, before: seq<Action>, after: seq<Action>)
    requires Start(w0) && Chronological(w0.clock, before)
    requires Chronological(Exec(w0, before).clock, after)
    ensures var s, s' := Exec(w0, before).state, Exec(Exec(w0, before), after).state;
      && (forall i :: i in s.submissions && s.submissions[i].status != Pending ==>
            i in s'.submissions && s'.submissions[i] == s.submissions[i])
      && (forall t :: t in s.tasks && !Accepting(s.tasks[t].status) ==>
            t in s'.tasks && !Accepting(s'.tasks[t].status) && s'.SubmissionsOf(t) == s.SubmissionsOf(t))
  {
    StartLawful(w0);
    RunLawful(w0, before);
    var w := Exec(w0, before);
    var w' := Exec(w, after);
    RunEvolves(w, after);
    hide Lawful;
    forall i | i in w.state.submissions && w.state.submissions[i].status != Pending
      ensures i in w'.state.submissions && w'.state.submissions[i] == w.state.submissions[i]
    {
      assert SubmissionEvolves(w.state, w'.state, i);
    }
    forall t | t in w.state.tasks && !Accepting(w.state.tasks[t].status)
      ensures t in w'.state.tasks && !Accepting(w'.state.tasks[t].status)
              && w'.state.SubmissionsOf(t) == w.state.SubmissionsOf(t)
    {
      assert TaskEvolves(w, w', t);
    }
  }

  // ----- how much one task can cost

  /** The task's submissions that are under dispute. */
  function DisputedOf(s: State, t: U64): set<U64> {
    set i | i in s.SubmissionsOf(t) && (t, i) in s.activeDisputes
  }

  lemma {:induction false} MembersAtMostLength(ids: seq<U64>, members: set<U64>)
    requires forall i :: i in members ==> i in ids
    ensures |members| <= |ids|
  {
    if ids != [] {
      MembersAtMostLength(ids[1..], members - {ids[0]});
    }
  }

  lemma {:induction false} SubsetSize(small: set<U64>, large: set<U64>)
    requires small <= large
    ensures |small| <= |large|
    decreases |large|
  {
    if x :| x in large {
      SubsetSize(small - {x}, large - {x});
    }
  }

  lemma {:induction false} DisputedAtMostMax(s: State, t: U64)
    requires t in s.tasks && ListSound(s, t)
    ensures |DisputedOf(s, t)| <= s.tasks[t].maxSubmissions
  {
    MembersAtMostLength(s.SubmissionsOf(t), DisputedOf(s, t));
  }

  lemma {:induction false} DisputeIsNew(s: State, now: U64, c: Call)
    requires c.RaiseDispute? && DisputeRefusal(s, c).None? && ListSound(s, c.taskId)
    ensures c.submissionId !in DisputedOf(s, c.taskId)
    ensures c.submissionId in DisputedOf(DisputeEffect(s, now, c), c.taskId)
  {
    assert c.submissionId in s.SubmissionsOf(c.taskId);
  }

  /** A reopening puts one more of the task's submissions under dispute. */
  lemma {:induction false} ReopeningDisputes(w: World, a: Action, t: U64)
    requires Lawful(w) && ReopensTask(w, a, t)
    ensures var i := a.call.submissionId; i !in DisputedOf(w.state, t) && i in DisputedOf(Next(w, a).state, t)
  {
    hide Lawful, Settled, ListSound, DisputedOf, DisputeEffect, TaskChecked;
    LawfulTask(w, t);
    DisputeIsNew(w.state, a.now, a.call);
  }

  lemma {:induction false} DisputedOnlyGrows(w: World, w': World, t: U64)
    requires Evolves(w, w') && Listed(w.state)
    ensures DisputedOf(w.state, t) <= DisputedOf(w'.state, t)
  {
    hide ListSound;
    if t in w.state.tasks { assert TaskEvolves(w, w', t); }
    forall i | i in DisputedOf(w.state, t)
      ensures i in DisputedOf(w'.state, t)
    {
      assert IsActive(w.state, t, i, w.state.activeDisputes[(t, i)]);
    }
  }

  lemma {:induction false} StepBounded(w: World, a: Action, t: U64)
    requires Lawful(w) && w.history.ReopeningsOf(t) <= |DisputedOf(w.state, t)|
    ensures Next(w, a).history.ReopeningsOf(t) <= |DisputedOf(Next(w, a).state, t)|
  {
    hide Numbered, Checked, Listed, Marked, DisputesSound, Dated, PaidSoundly, Accounted;
    hide Next, Evolves, DisputedOf, Accepts;
    var earlier, later := DisputedOf(w.state, t), DisputedOf(Next(w, a).state, t);
    ReopeningsCounted(w, a, t);
    StepEvolves(w, a);
    DisputedOnlyGrows(w, Next(w, a), t);
    if ReopensTask(w, a, t) {
      ReopeningDisputes(w, a, t);
      SubsetSize(earlier + {a.call.submissionId}, later);
    } else {
      SubsetSize(earlier, later);
    }
  }

  lemma {:induction false} RunBounded(w: World, actions: seq<Action>, t: U64)
    requires Lawful(w) && Chronological(w.clock, actions)
    requires w.history.ReopeningsOf(t) <= |DisputedOf(w.state, t)|
    ensures Exec(w, actions).history.ReopeningsOf(t) <= |DisputedOf(Exec(w, actions).state, t)|
    decreases |actions|
  {
    hide Lawful, Invoke, Recorded, DisputedOf;
    if actions != [] {
      StepLawful(w, actions[0]);
      StepBounded(w, actions[0], t);
      RunBounded(Next(w, actions[0]), actions[1..], t);
    }
  }

  /** In every run a task was reopened at most once for each of its submissions under dispute,
      and so paid at most once more than it may take submissions. */
  lemma {:induction false} CostIsBounded(w0: World, actions: seq<Action>, t: U64)
    requires Start(w0) && Chronological(w0.clock, actions) && t in Exec(w0, actions).state.tasks
    ensures var w := Exec(w0, actions);
      && w.history.ReopeningsOf(t) <= |DisputedOf(w.state, t)| <= w.state.tasks[t].maxSubmissions
      && |w.history.PaymentsOf(t)| <= |DisputedOf(w.state, t)| + 1
  {
    StartLawful(w0);
    RunLawful(w0, actions);
    RunBounded(w0, actions, t);
    var w := Exec(w0, actions);
    LawfulTask(w, t);
    hide Lawful, ListSound;
    assert |w.history.PaymentsOf(t)| <= w.history.ReopeningsOf(t) + 1;
    hide Settled;
    assert ListSound(w.state, t);
    DisputedAtMostMax(w.state, t);
  }

  // ----- the indexes agree

  lemma {:induction false} NumbersCounted(numbers: set<U64>, n: U64)
    requires forall i: U64 :: i in numbers <==> 1 <= i <= n
    ensures |numbers| == n
  {
    if n == 0 {
      assert numbers == {};
    } else {
      NumbersCounted(numbers - {n}, n - 1);
    }
  }

  /** In every reachable state a task's list is increasing and holds exactly its submissions,
      as many as its count says and no more than it allows; the counts add up to the submission
      counter; a contributor is marked for a task iff exactly one submission of theirs exists;
      active disputes and dispute records name each other, as many of each as the counter says. */
  lemma {:induction false} IndexesAgree(w0: World, actions: seq<Action>)
    requires Start(w0) && Chronological(w0.clock, actions)
    ensures var s := Exec(w0, actions).state;
      && (forall t :: t in s.tasks ==> ListSound(s, t))
      && CountsTo(s.tasks, s.taskCount) == s.submissionCount == |s.submissions|
      && |s.tasks| == s.taskCount
      && (forall t: U64, c: Address :: (t, c) in s.hasSubmitted <==> exists i: U64 :: IsBy(s, i, t, c))
      && (forall i: U64, j: U64, t: U64, c: Address :: IsBy(s, i, t, c) && IsBy(s, j, t, c) ==> i == j)
      && DisputesSound(s) && |s.disputes| == s.disputeCount == |s.activeDisputes|
      && (forall p, q :: p in s.activeDisputes && q in s.activeDisputes && s.activeDisputes[p] == s.activeDisputes[q]
            ==> p == q)
  {
    StartLawful(w0);
    RunLawful(w0, actions);
    var s := Exec(w0, actions).state;
    NumbersCounted(s.tasks.Keys, s.taskCount);
    NumbersCounted(s.submissions.Keys, s.submissionCount);
    NumbersCounted(s.disputes.Keys, s.disputeCount);
    ActiveCounted(s);
  }

  /** In every run a submission was made after its task was created, by its deadline, and so
      within 365 days; and by someone other than the contract. */
  lemma {:induction false} SubmissionsInTime(w0: World, actions: seq<Action>, i: U64)
    requires Start(w0) && Chronological(w0.clock, actions) && i in Exec(w0, actions).state.submissions
    ensures var s := Exec(w0, actions).state; var submission := s.submissions[i];
      && submission.taskId in s.tasks && submission.contributor != s.self
      && var task := s.tasks[submission.taskId];
         task.createdAt <= submission.submittedAt <= task.deadline <= task.createdAt + MAX_DEADLINE
  {
    StartLawful(w0);
    RunLawful(w0, actions);
    hide ListSound, Settled, Accounted, Marked, DisputesSound;
    var w := Exec(w0, actions);
    var submission := w.state.submissions[i];
    assert SubmissionDated(w.state, submission, w.clock) && SubmissionChecked(w.state, submission);
    assert TaskChecked(w.state, w.state.tasks[submission.taskId]);
  }

  lemma {:induction false} ActiveCounted(s: State)
    requires DisputesSound(s)
    ensures forall p, q :: p in s.activeDisputes && q in s.activeDisputes ==>
              s.activeDisputes[p] == s.activeDisputes[q] ==> p == q
    ensures |s.activeDisputes| == |s.disputes|
  {
    assert forall p :: p in s.activeDisputes ==> IsActive(s, p.0, p.1, s.activeDisputes[p]);
    assert forall p :: p in s.activeDisputes ==> ActiveSound(s, p.0, p.1, s.activeDisputes[p]);
    assert forall d :: d in s.disputes ==> IsActive(s, s.disputes[d].taskId, s.disputes[d].submissionId, d);
    Renamed(s.activeDisputes.Keys, s.disputes.Keys, s.activeDisputes);
  }

  lemma {:induction false} Renamed(xs: set<(U64, U64)>, ys: set<U64>, f: map<(U64, U64), U64>)
    requires xs <= f.Keys
    requires forall x :: x in xs ==> f[x] in ys
    requires forall y :: y in ys ==> exists x :: x in xs && f[x] == y
    requires forall x, x' :: x in xs && x' in xs && f[x] == f[x'] ==> x == x'
    ensures |xs| == |ys|
    decreases |xs|
  {
    if xs == {} {
      assert ys == {};
    } else {
      var x :| x in xs;
      forall y | y in ys - {f[x]}
        ensures exists x' :: x' in xs - {x} && f[x'] == y
      {
        var x' :| x' in xs && f[x'] == y;
        assert x' in xs - {x};
      }
      Renamed(xs - {x}, ys - {f[x]}, f);
    }
  }

  lemma {:induction false} ExecOneMore(w: World, actions: seq<Action>, a: Action)
    ensures Exec(w, actions + [a]) == Next(Exec(w, actions), a)
    decreases |actions|
  {
    if actions == [] {
      assert Exec(Next(w, a), []) == Next(w, a);
    } else {
      assert (actions + [a])[1..] == actions[1..] + [a];
      ExecOneMore(Next(w, actions[0]), actions[1..], a);
    }
  }

  const POSTER := Address(2)
  const WORKER := Address(3)
  const TOKEN := Address(1)

  /** One task of the minimal reward, submitted to once. */
  ghost predicate SubmittedOnce(w: World) {
    && w.clock == 2 && w.state.self == Address(0) && w.state.disputeCount == 0 && w.state.activeDisputes == map[]
    && 1 in w.state.tasks && w.state.tasks[1] == Task(1, POSTER, "", "", TOKEN, MIN_REWARD, 9, 1, 1, InProgress, 1)
    && 1 in w.state.submissions && w.state.submissions[1] == Submission(1, 1, WORKER, "", "", Pending, 2)
    && w.state.SubmissionsOf(1) == [1]
    && Balance(w.state.ledger, TOKEN, w.state.self) == MIN_REWARD
  }

  lemma {:induction false} ReachSubmittedOnce() returns (w0: World, actions: seq<Action>)
    ensures Start(w0) && Chronological(w0.clock, actions) && SubmittedOnce(Exec(w0, actions))
  {
    var ledger: Ledger := map[TOKEN := map[POSTER := MIN_REWARD]];
    w0 := World(Initial(Address(0), ledger), History(map[], map[], ledger), 0);
    var create := Invocation(1, CreateTask(POSTER, "", "", TOKEN, MIN_REWARD, 9, 1));
    var submit := Invocation(2, SubmitWork(1, WORKER, "", ""));
    actions := [create, submit];
    MoveBalances(ledger, TOKEN, POSTER, Address(0), MIN_REWARD);
    assert actions[1..] == [submit] && Chronological(1, [submit]);
    var w1 := Next(w0, create);
    assert w1.state.tasks == map[1 := Task(1, POSTER, "", "", TOKEN, MIN_REWARD, 9, 1, 0, Open, 1)];
    assert Exec(w1, [submit]) == Next(w1, submit);
  }

  lemma {:induction false} CancelAndReopen(w: World)
    requires SubmittedOnce(w)
    ensures
      var w' := Next(Next(w, Invocation(3, CancelTask(1, POSTER))), Invocation(4, RaiseDispute(1, 1, WORKER, "")));
      && w'.clock == 4 && 1 in w'.state.tasks && w'.state.tasks[1].status == Disputed
      && !Accepts(w'.state, 5, CancelTask(1, w'.state.tasks[1].poster))
  {
    MoveBalances(w.state.ledger, TOKEN, w.state.self, POSTER, MIN_REWARD);
    ScanPasses(w.state.submissions, [1]);
    var w3 := Next(w, Invocation(3, CancelTask(1, POSTER)));
    assert w3.state.tasks[1].status == Cancelled && Balance(w3.state.ledger, TOKEN, w3.state.self) == 0;
  }

  /** Without the plain-run condition funds can be stuck: a task that was cancelled and then
      disputed open is live again, but the contract no longer holds its reward. */
  lemma {:induction false} ReopenedTaskCannotBeCancelled() returns (w0: World, actions: seq<Action>)
    ensures Start(w0) && Chronological(w0.clock, actions)
    ensures var w := Exec(w0, actions);
      && 1 in w.state.tasks && w.state.tasks[1].status == Disputed
      && !Accepts(w.state, 5, CancelTask(1, w.state.tasks[1].poster))
  {
    var cancel := Invocation(3, CancelTask(1, POSTER));
    var dispute := Invocation(4, RaiseDispute(1, 1, WORKER, ""));
    var first;
    w0, first := ReachSubmittedOnce();
    CancelAndReopen(Exec(w0, first));
    actions := first + [cancel] + [dispute];
    hide Next, Accepts;
    ExecOneMore(w0, first, cancel);
    ExecOneMore(w0, first + [cancel], dispute);
    LaterIsChronological(w0, first, cancel);
    LaterIsChronological(w0, first + [cancel], dispute);
  }

  lemma {:induction false} LaterIsChronological(w: World, actions: seq<Action>, a: Action)
    requires Chronological(w.clock, actions) && a.Invocation? && Exec(w, actions).clock <= a.now
    ensures Chronological(w.clock, actions + [a]) && Exec(w, actions + [a]).clock == a.now
    decreases |actions|
  {
    ExecOneMore(w, actions, a);
    if actions == [] {
      assert [a][1..] == [];
    } else {
      assert (actions + [a])[1..] == actions[1..] + [a];
      assert Next(w, actions[0]).clock == if actions[0].Invocation? then actions[0].now else w.clock;
      LaterIsChronological(Next(w, actions[0]), actions[1..], a);
    }
  }

  const OTHER := Address(4)
  const SECOND := Address(5)

  /** Two tasks of one token by different posters, the first submitted to twice. */
  ghost predicate TwoTasks(w: World, clock: U64, status: TaskStatus, verdict: SubmissionStatus, held: int,
        payments: seq<Payment>) {
    && w.clock == clock && w.state.self == Address(0)
    && w.state.tasks == map[1 := Task(1, POSTER, "", "", TOKEN, MIN_REWARD, 9, 2, 2, status, 1),
                            2 := Task(2, OTHER, "", "", TOKEN, MIN_REWARD, 9, 1, 0, Open, 1)]
    && w.state.submissions == map[1 := Submission(1, 1, WORKER, "", "", Pending, 2),
                                  2 := Submission(2, 1, SECOND, "", "", verdict, 2)]
    && w.state.SubmissionsOf(1) == [1, 2]
    && Balance(w.state.ledger, TOKEN, w.state.self) == held && w.history.PaymentsOf(1) == payments
  }

  /** A task that takes up to m submissions, open. */
  function NewTask(id: U64, poster: Address, reward: I128, m: U32): Task {
    Task(id, poster, "", "", TOKEN, reward, 9, m, 0, Open, 1)
  }

  lemma {:induction false} CreateOne(w: World, poster: Address, reward: I128, m: U32)
    requires w.clock <= 1 && w.state.self != poster && reward >= MIN_REWARD && m >= 1 && w.state.taskCount < U64_MAX
    requires Balance(w.state.ledger, TOKEN, poster) == reward
    ensures var w' := Next(w, Invocation(1, CreateTask(poster, "", "", TOKEN, reward, 9, m)));
      && w'.clock == 1 && w'.history == w.history
      && w'.state == w.state.(ledger := Move(w.state.ledger, TOKEN, poster, w.state.self, reward),
                              taskCount := w.state.taskCount + 1,
                              tasks := w.state.tasks[w.state.taskCount + 1 :=
                                NewTask(w.state.taskCount + 1, poster, reward, m)])
  {
  }

  lemma {:induction false} CreateTwo(m: U32, reward: I128) returns (w0: World, actions: seq<Action>)
    requires m >= 1 && reward >= MIN_REWARD
    ensures Start(w0) && Chronological(w0.clock, actions)
    ensures var w := Exec(w0, actions);
      && w.clock == 1 && w.state.self == Address(0) && w.history.payments == map[] && w.history.reopenings == map[]
      && w.state.tasks == map[1 := NewTask(1, POSTER, MIN_REWARD, m), 2 := NewTask(2, OTHER, reward, 1)]
      && w.state == Initial(Address(0), w.state.ledger).(tasks := w.state.tasks, taskCount := 2)
      && Balance(w.state.ledger, TOKEN, w.state.self) == MIN_REWARD + reward
  {
    var ledger: Ledger := map[TOKEN := map[POSTER := MIN_REWARD, OTHER := reward]];
    w0 := World(Initial(Address(0), ledger), History(map[], map[], ledger), 0);
    var first := Invocation(1, CreateTask(POSTER, "", "", TOKEN, MIN_REWARD, 9, m));
    var second := Invocation(1, CreateTask(OTHER, "", "", TOKEN, reward, 9, 1));
    actions := [first, second];
    assert actions[1..] == [second] && Chronological(1, [second]);
    CreateOne(w0, POSTER, MIN_REWARD, m);
    MoveBalances(ledger, TOKEN, POSTER, Address(0), MIN_REWARD);
    var w1 := Next(w0, first);
    hide Next, Move;
    CreateOne(w1, OTHER, reward, 1);
    MoveBalances(w1.state.ledger, TOKEN, OTHER, Address(0), reward);
    assert Exec(w1, [second]) == Next(w1, second);
  }

  lemma {:induction false} SubmitBy(w: World, worker: Address)
    requires w.clock <= 2 && worker != w.state.self && w.state.submissionCount < U64_MAX
    requires 1 in w.state.tasks && (1, worker) !in w.state.hasSubmitted
    requires var task := w.state.tasks[1];
      Accepting(task.status) && task.deadline == 9 && task.submissionCount < task.maxSubmissions
    ensures var c := SubmitWork(1, worker, "", "");
      && SubmitWorkRefusal(w.state, 2, c).None?
      && Next(w, Invocation(2, c)) == World(SubmitWorkEffect(w.state, 2, c), w.history, 2)
  {
  }

  lemma {:induction false} SubmitTwo() returns (w0: World, actions: seq<Action>)
    ensures Start(w0) && Chronological(w0.clock, actions)
    ensures var w := Exec(w0, actions);
      && TwoTasks(w, 2, InProgress, Pending, 2 * MIN_REWARD, [])
      && w.state.disputeCount == 0 && w.state.activeDisputes == map[] && w.history.ReopeningsOf(1) == 0
  {
    hide Start, Chronological, Exec, Balance, Next;
    var created;
    w0, created := CreateTwo(2, MIN_REWARD);
    var first, second := Invocation(2, SubmitWork(1, WORKER, "", "")), Invocation(2, SubmitWork(1, SECOND, "", ""));
    actions := created + [first] + [second];
    ExecOneMore(w0, created, first);
    ExecOneMore(w0, created + [first], second);
    LaterIsChronological(w0, created, first);
    LaterIsChronological(w0, created + [first], second);
    SubmitBy(Exec(w0, created), WORKER);
    SubmitBy(Exec(w0, created + [first]), SECOND);
  }

  lemma {:induction false} CancelFirst(w: World)
    requires TwoTasks(w, 2, InProgress, Pending, 2 * MIN_REWARD, [])
    ensures var w' := Next(w, Invocation(3, CancelTask(1, POSTER)));
      && TwoTasks(w', 3, Cancelled, Pending, MIN_REWARD, [Refund(POSTER, MIN_REWARD)])
      && w'.state.disputeCount == w.state.disputeCount && w'.state.activeDisputes == w.state.activeDisputes
      && w'.history.reopenings == w.history.reopenings
  {
    ScanPasses(w.state.submissions, [1, 2]);
    MoveBalances(w.state.ledger, TOKEN, w.state.self, POSTER, MIN_REWARD);
  }

  lemma {:induction false} DisputeFirst(w: World, ps: seq<Payment>)
    requires TwoTasks(w, 3, Cancelled, Pending, MIN_REWARD, ps)
    requires w.state.disputeCount == 0 && w.state.activeDisputes == map[] && w.history.ReopeningsOf(1) == 0
    ensures var w' := Next(w, Invocation(4, RaiseDispute(1, 1, WORKER, "")));
      && TwoTasks(w', 4, Disputed, Pending, MIN_REWARD, ps)
      && w'.state.activeDisputes == map[(1, 1) := 1] && w'.history.ReopeningsOf(1) == 1
  {
  }

  lemma {:induction false} ApproveSecond(w: World, ps: seq<Payment>)
    requires TwoTasks(w, 4, Disputed, Pending, MIN_REWARD, ps) && w.state.activeDisputes == map[(1, 1) := 1]
    ensures var w' := Next(w, Invocation(5, ApproveSubmission(1, 2, POSTER)));
      && TwoTasks(w', 5, Completed, Approved, 0, ps + [Award(2, SECOND, MIN_REWARD)])
      && w'.history.reopenings == w.history.reopenings
  {
    MoveBalances(w.state.ledger, TOKEN, w.state.self, SECOND, MIN_REWARD);
  }

  /** A reopened task can be paid a second time, out of what another task put in: here the first
      task's poster has had the reward back, a contributor of it has been awarded it too, and the
      second task, never reopened, can no longer be cancelled at any time. */
  lemma {:induction false} ReopenedTaskPaidTwice() returns (w0: World, actions: seq<Action>)
    ensures Start(w0) && Chronological(w0.clock, actions)
    ensures var w := Exec(w0, actions);
      && w.history.PaymentsOf(1) == [Refund(POSTER, MIN_REWARD), Award(2, SECOND, MIN_REWARD)]
      && w.history.ReopeningsOf(1) == 1 && 1 in w.state.tasks && !PaidOnce(w, 1)
      && 2 in w.state.tasks && w.state.tasks[2].status == Open && w.state.tasks[2].token == w.state.tasks[1].token
      && forall now :: !Accepts(w.state, now, CancelTask(2, w.state.tasks[2].poster))
  {
    var cancel := Invocation(3, CancelTask(1, POSTER));
    var dispute := Invocation(4, RaiseDispute(1, 1, WORKER, ""));
    var approve := Invocation(5, ApproveSubmission(1, 2, POSTER));
    var submitted;
    w0, submitted := SubmitTwo();
    var cancelled := submitted + [cancel];
    var disputed := cancelled + [dispute];
    actions := disputed + [approve];
    CancelFirst(Exec(w0, submitted));
    LaterIsChronological(w0, submitted, cancel);
    ExecOneMore(w0, submitted, cancel);
    var ps := [Refund(POSTER, MIN_REWARD)];
    DisputeFirst(Exec(w0, cancelled), ps);
    LaterIsChronological(w0, cancelled, dispute);
    ExecOneMore(w0, cancelled, dispute);
    ApproveSecond(Exec(w0, disputed), ps);
    LaterIsChronological(w0, disputed, approve);
    ExecOneMore(w0, disputed, approve);
    SecondIsStuck(Exec(w0, actions), ps + [Award(2, SECOND, MIN_REWARD)]);
  }

  lemma {:induction false} SecondIsStuck(w: World, ps: seq<Payment>)
    requires TwoTasks(w, 5, Completed, Approved, 0, ps) && |ps| == 2
    ensures forall now :: !Accepts(w.state, now, CancelTask(2, OTHER))
    ensures !PaidOnce(w, 1)
  {
    assert IsApproved(w.state.submissions, 2, 1);
  }
}
