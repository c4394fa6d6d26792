/** Runs of the contract among other users of the same tokens, with the history
    that storage does not keep: who was paid for which task, and how often a
    finished task was disputed open again. */
module BountyRuns {
  import opened TokenLedger
  import opened BountyTypes
  import opened BountySpec
  import opened Sequences
  import opened BountyInvariants

  datatype Payment =
    | Award(submissionId: U64, to: Address, amount: int)
    | Refund(to: Address, amount: int)

  /** `outside` is what the ledger would be had the contract never moved a token. */
  datatype History = History(payments: map<U64, seq<Payment>>, reopenings: map<U64, nat>, outside: Ledger) {
    function PaymentsOf(taskId: U64): seq<Payment> {
      if taskId in payments then payments[taskId] else []
    }

    function ReopeningsOf(taskId: U64): nat {
      if taskId in reopenings then reopenings[taskId] else 0
    }
  }

  datatype World = World(state: State, history: History, clock: U64)

  /** A call on the contract, or a transfer some other account makes on a token. */
  datatype Action =
    | Invocation(now: U64, call: Call)
    | OutsideTransfer(token: Address, from: Address, to: Address, amount: I128)

  predicate Reopens(s: State, now: U64, c: Call) {
    Accepts(s, now, c) && c.RaiseDispute? && Finished(s.tasks[c.taskId].status)
  }

  predicate Pays(c: Call) {
    c.ApproveSubmission? || c.CancelTask?
  }

  /** The payment an accepted approval or cancellation makes. */
  function PaymentBy(s: State, c: Call): Payment
    requires Pays(c) && c.taskId in s.tasks && (c.ApproveSubmission? ==> c.submissionId in s.submissions)
  {
    if c.CancelTask? then Refund(c.poster, s.tasks[c.taskId].reward)
    else Award(c.submissionId, s.submissions[c.submissionId].contributor, s.tasks[c.taskId].reward)
  }

  function Recorded(h: History, s: State, now: U64, c: Call): History {
    if !Accepts(s, now, c) then h
    else if Pays(c) then h.(payments := h.payments[c.taskId := h.PaymentsOf(c.taskId) + [PaymentBy(s, c)]])
    else if Reopens(s, now, c) then
      h.(reopenings := h.reopenings[c.taskId := h.ReopeningsOf(c.taskId) + 1])
    else h
  }

  function Next(w: World, a: Action): World {
    match a
    case Invocation(now, c) => World(Invoke(w.state, now, c), Recorded(w.history, w.state, now, c), now)
    case OutsideTransfer(token, from, to, amount) =>
      if from == w.state.self || !CanTransfer(w.state.ledger, token, from, amount) then w
      else w.(state := w.state.(ledger := Move(w.state.ledger, token, from, to, amount)),
              history := w.history.(outside := Move(w.history.outside, token, from, to, amount)))
  }

  function Exec(w: World, actions: seq<Action>): World
    decreases |actions|
  {
    if actions == [] then w else Exec(Next(w, actions[0]), actions[1..])
  }

  /** Ledger time never runs backwards. */
  predicate Chronological(clock: U64, actions: seq<Action>)
    decreases |actions|
  {
    actions == [] ||
    if actions[0].Invocation? then clock <= actions[0].now && Chronological(actions[0].now, actions[1..])
    else Chronological(clock, actions[1..])
  }

  ghost predicate Start(w: World) {
    && NoDebts(w.state.ledger)
    && w.state == Initial(w.state.self, w.state.ledger)
    && w.history == History(map[], map[], w.state.ledger)
  }

  // ----- what a call changes, seen from the money

  predicate SameTerms(task: Task, task': Task) {
    task'.id == task.id && task'.poster == task.poster && task'.token == task.token && task'.reward == task.reward
  }

  /** Payment p left the contract for task t, and the task is finished by it. */
  ghost predicate PaymentStep(s: State, h: History, s': State, h': History, t: U64, p: Payment) {
    && t in s.tasks && !Finished(s.tasks[t].status) && p.amount == s.tasks[t].reward
    && s'.self == s.self && s'.taskCount == s.taskCount
    && s'.tasks == s.tasks[t := s.tasks[t].(status := if p.Refund? then Cancelled else Completed)]
    && (if p.Refund? then p.to == s.tasks[t].poster && s'.submissions == s.submissions
        else
          && p.submissionId in s.submissions && s.submissions[p.submissionId].taskId == t
          && s.submissions[p.submissionId].status != Approved && p.to == s.submissions[p.submissionId].contributor
          && s'.submissions == s.submissions[p.submissionId := s.submissions[p.submissionId].(status := Approved)])
    && s'.ledger == Move(s.ledger, s.tasks[t].token, s.self, p.to, p.amount)
    && h' == h.(payments := h.payments[t := h.PaymentsOf(t) + [p]])
  }

  /** No outcome, term or approved submission of an existing task changed. */
  ghost predicate Quiet(s: State, s': State) {
    && (forall t :: t in s.tasks ==>
          && t in s'.tasks && SameTerms(s.tasks[t], s'.tasks[t])
          && (s'.tasks[t].status == s.tasks[t].status
                || !(Finished(s.tasks[t].status) || Finished(s'.tasks[t].status))))
    && (forall t :: t in s'.tasks && t !in s.tasks ==> s'.tasks[t].id == t && !Finished(s'.tasks[t].status))
    && (forall i, t :: IsApproved(s'.submissions, i, t) <==> IsApproved(s.submissions, i, t))
    && (forall i, t :: IsApproved(s'.submissions, i, t) ==>
          s'.submissions[i].contributor == s.submissions[i].contributor)
  }

  predicate IsApproved(submissions: map<U64, Submission>, i: U64, taskId: U64) {
    i in submissions && submissions[i].taskId == taskId && submissions[i].status == Approved
  }

  lemma {:induction false} ApprovalIsPayment(s: State, h: History, now: U64, c: Call)
    requires Numbered(s) && Accepts(s, now, c) && c.ApproveSubmission?
    ensures PaymentStep(s, h, Effect(s, now, c), Recorded(h, s, now, c), c.taskId, PaymentBy(s, c))
  {
  }

  lemma {:induction false} CancelIsPayment(s: State, h: History, now: U64, c: Call)
    requires Numbered(s) && Accepts(s, now, c) && c.CancelTask?
    ensures PaymentStep(s, h, Effect(s, now, c), Recorded(h, s, now, c), c.taskId, PaymentBy(s, c))
  {
  }

  lemma {:induction false} PaidCallIsPayment(s: State, h: History, now: U64, c: Call)
    requires Numbered(s) && Checked(s) && Accepts(s, now, c) && Pays(c)
    ensures PaymentStep(s, h, Effect(s, now, c), Recorded(h, s, now, c), c.taskId, PaymentBy(s, c))
    ensures PaymentBy(s, c).to != s.self
  {
    if c.ApproveSubmission? { ApprovalIsPayment(s, h, now, c); } else { CancelIsPayment(s, h, now, c); }
  }

  lemma {:induction false} CreateIsQuiet(s: State, now: U64, c: Call)
    requires Numbered(s) && Accepts(s, now, c) && c.CreateTask?
    ensures Quiet(s, Effect(s, now, c))
  {
  }

  lemma {:induction false} SubmitApprovesNothing(s: State, now: U64, c: Call)
    requires Numbered(s) && c.SubmitWork? && SubmitWorkRefusal(s, now, c).None?
    ensures var s' := SubmitWorkEffect(s, now, c);
      && (forall i, t :: IsApproved(s'.submissions, i, t) <==> IsApproved(s.submissions, i, t))
      && (forall i, t :: IsApproved(s'.submissions, i, t) ==>
            s'.submissions[i].contributor == s.submissions[i].contributor)
  {
    assert s.submissionCount + 1 !in s.submissions;
    hide Numbered, SubmitWorkRefusal;
  }

  lemma {:induction false} SubmitIsQuiet(s: State, now: U64, c: Call)
    requires Numbered(s) && Accepts(s, now, c) && c.SubmitWork?
    ensures Quiet(s, Effect(s, now, c))
  {
    SubmitApprovesNothing(s, now, c);
    hide IsApproved;
  }

  lemma {:induction false} RejectIsQuiet(s: State, now: U64, c: Call)
    requires Numbered(s) && Accepts(s, now, c) && c.RejectSubmission?
    ensures Quiet(s, Effect(s, now, c))
  {
  }

  // ----- who was paid

  /** How the payments made for a task match its status and its approved submissions. */
  ghost predicate Settled(ps: seq<Payment>, task: Task, submissions: map<U64, Submission>, reopenings: nat) {
    && |ps| == reopenings + (if Finished(task.status) then 1 else 0)
    && (forall p :: p in ps ==> p.amount == task.reward)
    && (forall p :: p in ps && p.Refund? ==> p.to == task.poster)
    && (forall p :: p in ps && p.Award? ==>
          IsApproved(submissions, p.submissionId, task.id) && p.to == submissions[p.submissionId].contributor)
    && (forall i :: IsApproved(submissions, i, task.id) ==> Award(i, submissions[i].contributor, task.reward) in ps)
    && (forall j, k :: 0 <= j < k < |ps| && ps[j].Award? && ps[k].Award? ==> ps[j].submissionId != ps[k].submissionId)
    && (task.status == Completed ==> ps[|ps| - 1].Award?)
    && (task.status == Cancelled ==> ps[|ps| - 1].Refund?)
  }

  ghost predicate PaidSoundly(s: State, h: History) {
    && (forall t :: t in s.tasks ==> Settled(h.PaymentsOf(t), s.tasks[t], s.submissions, h.ReopeningsOf(t)))
    && (forall t: U64 :: t !in s.tasks ==> h.PaymentsOf(t) == [] && h.ReopeningsOf(t) == 0)
  }

  /** Nothing settled changes while the task keeps its terms, its outcome and its approved submissions. */
  lemma {:induction false} SettledFrame(ps: seq<Payment>, task: Task, task': Task, submissions: map<U64, Submission>,
                     submissions': map<U64, Submission>, reopenings: nat)
    requires Settled(ps, task, submissions, reopenings)
    requires task'.id == task.id && task'.reward == task.reward && task'.poster == task.poster
    requires task'.status == task.status || !(Finished(task.status) || Finished(task'.status))
    requires forall i :: IsApproved(submissions', i, task.id) <==> IsApproved(submissions, i, task.id)
    requires forall i :: IsApproved(submissions', i, task.id) ==>
      submissions'[i].contributor == submissions[i].contributor
    ensures Settled(ps, task', submissions', reopenings)
  {
  }

  lemma {:induction false} SettledByPayment(ps: seq<Payment>, p: Payment, task: Task, status: TaskStatus,
        submissions: map<U64, Submission>, submissions': map<U64, Submission>, reopenings: nat)
    requires Settled(ps, task, submissions, reopenings) && !Finished(task.status)
    requires p.amount == task.reward
    requires if p.Refund?
             then status == Cancelled && p.to == task.poster && submissions' == submissions
             else
               && status == Completed && p.submissionId in submissions
               && submissions[p.submissionId].taskId == task.id && submissions[p.submissionId].status != Approved
               && p.to == submissions[p.submissionId].contributor
               && submissions' == submissions[p.submissionId := submissions[p.submissionId].(status := Approved)]
    ensures Settled(ps + [p], task.(status := status), submissions', reopenings)
  {
    forall j, k | 0 <= j < k < |ps + [p]| && (ps + [p])[j].Award? && (ps + [p])[k].Award?
      ensures (ps + [p])[j].submissionId != (ps + [p])[k].submissionId
    {
      assert (ps + [p])[j] in ps;
    }
  }

  lemma {:induction false} PaymentSettles(s: State, h: History, s': State, h': History, t: U64, p: Payment)
    requires Numbered(s) && PaidSoundly(s, h) && PaymentStep(s, h, s', h', t, p)
    ensures Settled(h'.PaymentsOf(t), s'.tasks[t], s'.submissions, h'.ReopeningsOf(t))
  {
    SettledByPayment(h.PaymentsOf(t), p, s.tasks[t], s'.tasks[t].status, s.submissions, s'.submissions,
      h.ReopeningsOf(t));
  }

  lemma {:induction false} PaymentLeavesOthersSettled(s: State, h: History, s': State, h': History, t: U64,
        p: Payment, u: U64)
    requires Numbered(s) && PaidSoundly(s, h) && PaymentStep(s, h, s', h', t, p) && u in s.tasks && u != t
    ensures Settled(h'.PaymentsOf(u), s'.tasks[u], s'.submissions, h'.ReopeningsOf(u))
  {
    hide Settled;
    SettledFrame(h.PaymentsOf(u), s.tasks[u], s'.tasks[u], s.submissions, s'.submissions, h.ReopeningsOf(u));
  }

  lemma {:induction false} PaymentKeepsPaidSoundly(s: State, h: History, s': State, h': History, t: U64, p: Payment)
    requires Numbered(s) && PaidSoundly(s, h) && PaymentStep(s, h, s', h', t, p)
    ensures PaidSoundly(s', h')
  {
    hide Settled, Numbered;
    assert s'.tasks.Keys == s.tasks.Keys;
    assert forall u: U64 :: u !in s.tasks ==>
      h'.PaymentsOf(u) == h.PaymentsOf(u) && h'.ReopeningsOf(u) == h.ReopeningsOf(u);
    hide PaymentStep;
    forall u | u in s'.tasks
      ensures Settled(h'.PaymentsOf(u), s'.tasks[u], s'.submissions, h'.ReopeningsOf(u))
    {
      if u == t {
        PaymentSettles(s, h, s', h', t, p);
      } else {
        PaymentLeavesOthersSettled(s, h, s', h', t, p, u);
      }
    }
  }

  lemma {:induction false} QuietKeepsPaidSoundly(s: State, s': State, h: History)
    requires Numbered(s) && PaidSoundly(s, h) && Quiet(s, s')
    ensures PaidSoundly(s', h)
  {
    forall t | t in s.tasks
      ensures Settled(h.PaymentsOf(t), s'.tasks[t], s'.submissions, h.ReopeningsOf(t))
    {
      SettledFrame(h.PaymentsOf(t), s.tasks[t], s'.tasks[t], s.submissions, s'.submissions, h.ReopeningsOf(t));
    }
  }

  /** A dispute freezes one task, counting it as reopened if it was finished. */
  ghost predicate DisputeStep(s: State, h: History, s': State, h': History, t: U64) {
    && t in s.tasks && s'.submissions == s.submissions
    && s'.tasks == s.tasks[t := s.tasks[t].(status := Disputed)]
    && h'.payments == h.payments
    && h'.reopenings == if Finished(s.tasks[t].status) then h.reopenings[t := h.ReopeningsOf(t) + 1] else h.reopenings
  }

  lemma {:induction false} DisputeIsDisputeStep(s: State, h: History, now: U64, c: Call)
    requires Numbered(s) && Accepts(s, now, c) && c.RaiseDispute?
    ensures DisputeStep(s, h, Effect(s, now, c), Recorded(h, s, now, c), c.taskId)
  {
  }

  lemma {:induction false} SettledByDispute(ps: seq<Payment>, task: Task, submissions: map<U64, Submission>,
        reopenings: nat)
    requires Settled(ps, task, submissions, reopenings)
    ensures Settled(ps, task.(status := Disputed), submissions, reopenings + if Finished(task.status) then 1 else 0)
  {
  }

  lemma {:induction false} DisputeKeepsPaidSoundly(s: State, h: History, s': State, h': History, t: U64)
    requires Numbered(s) && PaidSoundly(s, h) && DisputeStep(s, h, s', h', t)
    ensures PaidSoundly(s', h')
  {
    hide Settled;
    SettledByDispute(h.PaymentsOf(t), s.tasks[t], s.submissions, h.ReopeningsOf(t));
  }

  lemma {:induction false} PaidSoundlyKept(s: State, h: History, now: U64, c: Call)
    requires Numbered(s) && Checked(s) && PaidSoundly(s, h) && Accepts(s, now, c)
    ensures PaidSoundly(Effect(s, now, c), Recorded(h, s, now, c))
  {
    hide Settled, PaidSoundly, PaymentStep, DisputeStep, Quiet, Numbered, Checked, Effect;
    var s', h' := Effect(s, now, c), Recorded(h, s, now, c);
    if Pays(c) {
      PaidCallIsPayment(s, h, now, c);
      PaymentKeepsPaidSoundly(s, h, s', h', c.taskId, PaymentBy(s, c));
    } else if c.RaiseDispute? {
      DisputeIsDisputeStep(s, h, now, c);
      DisputeKeepsPaidSoundly(s, h, s', h', c.taskId);
    } else {
      if c.CreateTask? {
        CreateIsQuiet(s, now, c);
      } else if c.SubmitWork? {
        SubmitIsQuiet(s, now, c);
      } else {
        RejectIsQuiet(s, now, c);
      }
      QuietKeepsPaidSoundly(s, s', h);
    }
  }

  // ----- where the money is

  function PaidTo(ps: seq<Payment>, a: Address): int {
    if ps == [] then 0 else PaidTo(ps[..|ps| - 1], a) + if ps[|ps| - 1].to == a then ps[|ps| - 1].amount else 0
  }

  function PaidOut(ps: seq<Payment>): int {
    if ps == [] then 0 else PaidOut(ps[..|ps| - 1]) + ps[|ps| - 1].amount
  }

  /** What one task moved into an account's holding of a token: the contract took the
      reward in and paid its payments out; the poster put the reward in. */
  function Flow(s: State, h: History, token: Address, a: Address, t: U64): int {
    if t !in s.tasks || s.tasks[t].token != token then 0
    else if a == s.self then s.tasks[t].reward - PaidOut(h.PaymentsOf(t))
    else PaidTo(h.PaymentsOf(t), a) - if s.tasks[t].poster == a then s.tasks[t].reward else 0
  }

  ghost function FlowTo(s: State, h: History, token: Address, a: Address, n: nat): int
    requires n <= U64_MAX
  {
    if n == 0 then 0 else FlowTo(s, h, token, a, n - 1) + Flow(s, h, token, a, n)
  }

  /** Every account's balance is what the outside world alone would have left
      there, plus what the tasks moved. */
  ghost predicate Accounted(s: State, h: History) {
    forall token, a :: Balance(s.ledger, token, a) == Balance(h.outside, token, a) + FlowTo(s, h, token, a, s.taskCount)
  }

  lemma {:induction false} FlowToChange(s: State, h: History, s': State, h': History, token: Address, a: Address,
        t: U64, n: U64)
    requires forall u: U64 :: u != t ==> Flow(s', h', token, a, u) == Flow(s, h, token, a, u)
    ensures FlowTo(s', h', token, a, n)
            == FlowTo(s, h, token, a, n)
               + if 1 <= t <= n then Flow(s', h', token, a, t) - Flow(s, h, token, a, t) else 0
  {
    if n > 0 { FlowToChange(s, h, s', h', token, a, t, n - 1); }
  }

  /** Task t appeared, and its poster put its reward into the contract. */
  ghost predicate EscrowStep(s: State, s': State, t: U64) {
    && t == s.taskCount + 1 == s'.taskCount && t in s'.tasks && s'.tasks[t].id == t
    && s'.tasks == s.tasks[t := s'.tasks[t]] && s'.self == s.self
    && s'.ledger == Move(s.ledger, s'.tasks[t].token, s'.tasks[t].poster, s.self, s'.tasks[t].reward)
  }

  lemma {:induction false} CreateIsEscrow(s: State, now: U64, c: Call)
    requires Accepts(s, now, c) && c.CreateTask?
    ensures var s' := Effect(s, now, c); EscrowStep(s, s', s'.taskCount) && s'.tasks[s'.taskCount].poster != s.self
  {
  }

  lemma {:induction false} EscrowFlows(s: State, h: History, s': State, t: U64, token: Address, a: Address)
    requires Numbered(s) && EscrowStep(s, s', t) && h.PaymentsOf(t) == []
    ensures forall u: U64 :: u != t ==> Flow(s', h, token, a, u) == Flow(s, h, token, a, u)
    ensures var task := s'.tasks[t]; task.poster != s.self ==>
      Flow(s', h, token, a, t)
      == (if token == task.token && a == s.self then task.reward else 0)
         - (if token == task.token && a == task.poster then task.reward else 0)
  {
  }

  lemma {:induction false} EscrowAccounted(s: State, h: History, s': State, t: U64)
    requires Numbered(s) && Accounted(s, h) && EscrowStep(s, s', t) && s'.tasks[t].poster != s.self
    requires h.PaymentsOf(t) == []
    ensures Accounted(s', h)
  {
    hide Numbered, Flow, Move, Balance;
    var task := s'.tasks[t];
    MoveBalances(s.ledger, task.token, task.poster, s.self, task.reward);
    forall token, a
      ensures Balance(s'.ledger, token, a) == Balance(h.outside, token, a) + FlowTo(s', h, token, a, t)
    {
      EscrowFlows(s, h, s', t, token, a);
      FlowToChange(s, h, s', h, token, a, t, s.taskCount);
    }
  }

  lemma {:induction false} EscrowKeepsAccounted(s: State, h: History, s': State, t: U64)
    requires Numbered(s) && PaidSoundly(s, h) && Accounted(s, h) && EscrowStep(s, s', t) && s'.tasks[t].poster != s.self
    ensures Accounted(s', h)
  {
    hide Settled, Accounted;
    EscrowAccounted(s, h, s', t);
  }

  lemma {:induction false} PaymentFlows(s: State, h: History, s': State, h': History, t: U64, p: Payment,
        token: Address, a: Address)
    requires Numbered(s) && PaymentStep(s, h, s', h', t, p) && p.to != s.self
    ensures forall u: U64 :: u != t ==> Flow(s', h', token, a, u) == Flow(s, h, token, a, u)
    ensures Flow(s', h', token, a, t)
            == Flow(s, h, token, a, t)
               + (if token == s.tasks[t].token && a == p.to then p.amount else 0)
               - (if token == s.tasks[t].token && a == s.self then p.amount else 0)
  {
    var ps := h'.PaymentsOf(t);
    assert ps[..|ps| - 1] == h.PaymentsOf(t);
  }

  lemma {:induction false} PaymentKeepsAccounted(s: State, h: History, s': State, h': History, t: U64, p: Payment)
    requires Numbered(s) && Accounted(s, h) && PaymentStep(s, h, s', h', t, p) && p.to != s.self
    ensures Accounted(s', h')
  {
    assert s'.taskCount == s.taskCount && h'.outside == h.outside && 1 <= t <= s.taskCount;
    assert s'.ledger == Move(s.ledger, s.tasks[t].token, s.self, p.to, p.amount);
    MoveBalances(s.ledger, s.tasks[t].token, s.self, p.to, p.amount);
    hide PaymentStep, Numbered, Flow, Move, Balance;
    forall token, a
      ensures Balance(s'.ledger, token, a) == Balance(h'.outside, token, a) + FlowTo(s', h', token, a, s'.taskCount)
    {
      PaymentFlows(s, h, s', h', t, p, token, a);
      FlowToChange(s, h, s', h', token, a, t, s.taskCount);
    }
  }

  lemma {:induction false} UnpaidKeepsAccounted(s: State, h: History, s': State, h': History)
    requires Accounted(s, h)
    requires s'.self == s.self && s'.ledger == s.ledger && s'.taskCount == s.taskCount && s'.tasks.Keys == s.tasks.Keys
    requires forall t :: t in s.tasks ==> SameTerms(s.tasks[t], s'.tasks[t])
    requires h'.payments == h.payments && h'.outside == h.outside
    ensures Accounted(s', h')
  {
    forall token, a
      ensures Balance(s'.ledger, token, a) == Balance(h'.outside, token, a) + FlowTo(s', h', token, a, s'.taskCount)
    {
      FlowToChange(s, h, s', h', token, a, 0, s.taskCount);
    }
  }

  /** Neither a call that only adds a submission nor one that only judges it moves money. */
  lemma {:induction false} UnpaidCallMovesNothing(s: State, h: History, now: U64, c: Call)
    requires Numbered(s) && Accepts(s, now, c) && !c.CreateTask? && !Pays(c)
    ensures var s' := Effect(s, now, c);
      && s'.self == s.self && s'.ledger == s.ledger && s'.taskCount == s.taskCount && s'.tasks.Keys == s.tasks.Keys
      && (forall t :: t in s.tasks ==> SameTerms(s.tasks[t], s'.tasks[t]))
    ensures Recorded(h, s, now, c).payments == h.payments && Recorded(h, s, now, c).outside == h.outside
  {
  }

  lemma {:induction false} AccountedKept(s: State, h: History, now: U64, c: Call)
    requires Numbered(s) && Checked(s) && PaidSoundly(s, h) && Accounted(s, h) && Accepts(s, now, c)
    ensures Accounted(Effect(s, now, c), Recorded(h, s, now, c))
  {
    hide Settled, PaidSoundly, PaymentStep, EscrowStep, Accounted, Numbered, Checked, Effect;
    var s', h' := Effect(s, now, c), Recorded(h, s, now, c);
    if c.CreateTask? {
      CreateIsEscrow(s, now, c);
      EscrowKeepsAccounted(s, h, s', s'.taskCount);
    } else if Pays(c) {
      PaidCallIsPayment(s, h, now, c);
      PaymentKeepsAccounted(s, h, s', h', c.taskId, PaymentBy(s, c));
    } else {
      UnpaidCallMovesNothing(s, h, now, c);
      UnpaidKeepsAccounted(s, h, s', h');
    }
  }
}
