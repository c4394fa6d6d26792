/** The most a task can cost: a poster who cancels, disputes the task open and cancels
    again, once for every submission, until what other tasks put in is gone. */
module BountyWorstCase {
  import opened TokenLedger
  import opened BountyTypes
  import opened BountySpec
  import opened BountyRuns
  import opened BountyTheorems

  function WorkerOf(i: nat): Address {
    Address(10 + i)
  }

  /** Task 1 of the minimal reward, taking m submissions and with n, k of them disputed and paid
      as often as said; and another poster's task 2, which put in the reward m times over. */
  ghost predicate Stage(w: World, m: U32, n: U32, k: U64, status: TaskStatus, paid: nat) {
    && w.clock == 1 && w.state.self == Address(0)
    && 1 in w.state.tasks && w.state.tasks[1] == Task(1, POSTER, "", "", TOKEN, MIN_REWARD, 9, m, n, status, 1)
    && 2 in w.state.tasks && w.state.tasks[2] == Task(2, OTHER, "", "", TOKEN, m * MIN_REWARD, 9, 1, 0, Open, 1)
    && w.state.submissionCount == n && HasSubmissions(w.state, n)
    && w.state.disputeCount == k && (forall i: U64 :: k < i ==> (1, i) !in w.state.activeDisputes)
    && Balance(w.state.ledger, TOKEN, w.state.self) == (m + 1 - paid) * MIN_REWARD
    && |w.history.PaymentsOf(1)| == paid
  }

  /** Submissions 1 to n are there for task 1, pending, by as many workers. */
  ghost predicate HasSubmissions(s: State, n: U32) {
    && (forall i: U64 :: 1 <= i <= n ==>
          i in s.submissions && s.submissions[i] == Submission(i, 1, WorkerOf(i), "", "", Pending, 1))
    && |s.SubmissionsOf(1)| == n && (forall j :: 0 <= j < n ==> s.SubmissionsOf(1)[j] == j + 1)
    && (forall i: nat :: n < i ==> (1, WorkerOf(i)) !in s.hasSubmitted)
  }

  lemma {:induction false} CreateBoth(m: U32) returns (w0: World, actions: seq<Action>)
    requires m >= 1
    ensures Start(w0) && Chronological(w0.clock, actions) && Stage(Exec(w0, actions), m, 0, 0, Open, 0)
  {
    hide Start, Exec, Chronological, Balance;
    w0, actions := CreateTwo(m, m * MIN_REWARD);
  }

  lemma {:induction false} SubmitOnce(w: World, m: U32, n: U32, status: TaskStatus)
    requires Stage(w, m, n, 0, status, 0) && Accepting(status) && n < m
    ensures Stage(Next(w, Invocation(1, SubmitWork(1, WorkerOf(n + 1), "", ""))), m, n + 1, 0, InProgress, 0)
  {
  }

  lemma {:induction false} CancelOnce(w: World, m: U32, k: U64, status: TaskStatus)
    requires Stage(w, m, m, k, status, k) && !Finished(status) && k <= m
    ensures Stage(Next(w, Invocation(1, CancelTask(1, POSTER))), m, m, k, Cancelled, k + 1)
  {
    ScanPasses(w.state.submissions, w.state.SubmissionsOf(1));
    MoveBalances(w.state.ledger, TOKEN, w.state.self, POSTER, MIN_REWARD);
  }

  lemma {:induction false} DisputeOnce(w: World, m: U32, k: U64)
    requires Stage(w, m, m, k, Cancelled, k + 1) && k < m
    ensures Stage(Next(w, Invocation(1, RaiseDispute(1, k + 1, POSTER, ""))), m, m, k + 1, Disputed, k + 1)
  {
  }

  lemma {:induction false} Continue(w0: World, actions: seq<Action>, c: Call) returns (longer: seq<Action>)
    requires Start(w0) && Chronological(w0.clock, actions) && Exec(w0, actions).clock <= 1
    ensures Chronological(w0.clock, longer) && Exec(w0, longer) == Next(Exec(w0, actions), Invocation(1, c))
  {
    longer := actions + [Invocation(1, c)];
    ExecOneMore(w0, actions, Invocation(1, c));
    LaterIsChronological(w0, actions, Invocation(1, c));
  }

  lemma {:induction false} SubmitOften(m: U32, n: U32) returns (w0: World, actions: seq<Action>)
    requires 1 <= m && n <= m
    ensures Start(w0) && Chronological(w0.clock, actions)
    ensures Stage(Exec(w0, actions), m, n, 0, if n == 0 then Open else InProgress, 0)
  {
    hide Start, Next, Exec, Chronological, HasSubmissions;
    if n == 0 {
      w0, actions := CreateBoth(m);
    } else {
      var fewer;
      w0, fewer := SubmitOften(m, n - 1);
      SubmitOnce(Exec(w0, fewer), m, n - 1, Exec(w0, fewer).state.tasks[1].status);
      actions := Continue(w0, fewer, SubmitWork(1, WorkerOf(n), "", ""));
    }
  }

  lemma {:induction false} CancelOften(m: U32, k: U64) returns (w0: World, actions: seq<Action>)
    requires 1 <= m && k <= m
    ensures Start(w0) && Chronological(w0.clock, actions)
    ensures Stage(Exec(w0, actions), m, m, k, Cancelled, k + 1)
  {
    hide Start, Next, Exec, Chronological, HasSubmissions;
    var earlier;
    if k == 0 {
      w0, earlier := SubmitOften(m, m);
      CancelOnce(Exec(w0, earlier), m, 0, InProgress);
    } else {
      var cancelled;
      w0, cancelled := CancelOften(m, k - 1);
      DisputeOnce(Exec(w0, cancelled), m, k - 1);
      earlier := Continue(w0, cancelled, RaiseDispute(1, k, POSTER, ""));
      CancelOnce(Exec(w0, earlier), m, k, Disputed);
    }
    actions := Continue(w0, earlier, CancelTask(1, POSTER));
  }

  /** Whatever number of submissions a task takes, some run pays it once more than that: the
      poster has had the reward back each time, and another poster's live task of the same token
      is left without any of its reward and cannot be cancelled. */
  lemma {:induction false} CostIsReached(m: U32) returns (w0: World, actions: seq<Action>)
    requires m >= 1
    ensures Start(w0) && Chronological(w0.clock, actions)
    ensures var w := Exec(w0, actions);
      && 1 in w.state.tasks && w.state.tasks[1].maxSubmissions == m && |w.history.PaymentsOf(1)| == m + 1
      && 2 in w.state.tasks && w.state.tasks[2].status == Open && w.state.tasks[2].reward == m * MIN_REWARD
      && Balance(w.state.ledger, w.state.tasks[2].token, w.state.self) == 0
      && forall now :: !Accepts(w.state, now, CancelTask(2, w.state.tasks[2].poster))
  {
    w0, actions := CancelOften(m, m);
  }
}
