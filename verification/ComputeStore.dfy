/** The compute tables and the calls that change them, each one transaction. */
module ComputeStore {
  import opened Text
  import opened Sorting
  import opened Capsules
  import opened Offers
  import opened Recommendations

  datatype Input = Name | Prompt | Provider | Phase | ArtifactKind | Uri

  datatype Problem =
    | UnknownUser | UnknownBranch | UnknownContract | UnknownRun | NotAdmin | BudgetNotPositive | RuntimeNotPositive
    | Missing(input: Input) | NoSignedApproval | DuplicateKey

  // ---------------------------------------------------------------- the tables and the history

  datatype Tables = Tables(users: seq<User>, branches: map<string, Branch>, contracts: seq<Contract>,
                           capsules: map<string, Capsule>, approvals: seq<Approval>, trainings: seq<Training>,
                           artifacts: seq<Artifact>)

  function RunsIn(h: History): (runs: set<string>)
    ensures forall run :: run in runs <==> HasRun(h, run)
  {
    if h.Start? then {}
    else RunsIn(h.past) + (if h.last.Requested? then {h.last.request.id} else {})
  }

  function CapsulesIn(h: History): map<string, Capsule> {
    map run | run in RunsIn(h) :: CapsuleOf(h, run)
  }

  /** Every table, and every column of a capsule, as the history of successful calls determines it. */
  function TablesOf(h: History): Tables {
    Tables(UsersIn(h), BranchesIn(h), ContractsIn(h), CapsulesIn(h), ApprovalsIn(h), TrainingsIn(h), ArtifactsIn(h))
  }

  // ---------------------------------------------------------------- what each call writes

  const EMPTY := Tables([], map[], [], map[], [], [], [])

  function NewRow(q: Request): Capsule {
    Capsule(q, ApprovalRequired, None, None, [LogLine(q.createdAt, CapsuleCreated)], map[], FIRST_AUDIT, None,
            q.createdAt)
  }

  function LaunchedRow(c: Capsule, a: Approval, now: string): Capsule {
    c.(status := Running, provider := Some(a.provider), token := Some(a.token),
       logs := c.logs + [LogLine(now, ApprovalAccepted(a.provider))], updatedAt := now)
  }

  /** The six reported fields are written over the old metrics. */
  function TrainedRow(c: Capsule, t: Training): Capsule {
    c.(metrics := c.metrics + Reported(t), logs := c.logs + [LogLine(t.createdAt, TrainingMessage(t))],
       updatedAt := t.createdAt)
  }

  /** The six audited fields are written over the old audit; only some kinds of artifact replace the model. */
  function PublishedRow(c: Capsule, a: Artifact): Capsule {
    c.(audit := c.audit + Audited(a), status := Verdict(a),
       modelUri := if IsModel(a) then Some(a.uri) else c.modelUri, updatedAt := a.createdAt)
  }

  /** The tables after one successful call. */
  function Apply(t: Tables, e: Event): Tables {
    match e
    case UserAdded(u) => t.(users := t.users + [u])
    case BranchCreated(_, _, _, _) => t.(branches := BranchesAfter(t.branches, e))
    case BranchEnsured(_, _) => t.(branches := BranchesAfter(t.branches, e))
    case BranchMerged(_, _, _) => t.(branches := BranchesAfter(t.branches, e))
    case ContractAdded(c) => t.(contracts := t.contracts + [c])
    case Approved(a) => t.(approvals := t.approvals + [a])
    case Requested(q) => t.(capsules := t.capsules[q.id := NewRow(q)])
    case Launched(run, a, now) =>
      if run in t.capsules then t.(capsules := t.capsules[run := LaunchedRow(t.capsules[run], a, now)]) else t
    case Trained(tr) =>
      if tr.run in t.capsules
      then t.(trainings := t.trainings + [tr], capsules := t.capsules[tr.run := TrainedRow(t.capsules[tr.run], tr)])
      else t
    case Published(a) =>
      if a.run in t.capsules
      then t.(artifacts := t.artifacts + [a], capsules := t.capsules[a.run := PublishedRow(t.capsules[a.run], a)])
      else t
  }

  /** The tables after a history of successful calls, one write at a time. */
  function Replay(h: History): Tables {
    if h.Start? then EMPTY else Apply(Replay(h.past), h.last)
  }

  // ---------------------------------------------------------------- the writes keep every column a projection

  /** An event that writes no capsule leaves the capsule table as it was. */
  lemma RowsKept(h: History, e: Event)
    requires e.Writes().None?
    ensures CapsulesIn(After(h, e)) == CapsulesIn(h)
  {
    forall run | run in RunsIn(h)
      ensures CapsuleOf(After(h, e), run) == CapsuleOf(h, run)
    {
      OthersUntouched(h, e, run);
    }
  }

  /** An event of one run rewrites that run's row and no other. */
  lemma RowRewritten(h: History, e: Event, run: string)
    requires e.Writes() == Some(run) && HasRun(After(h, e), run)
    ensures CapsulesIn(After(h, e)) == CapsulesIn(h)[run := CapsuleOf(After(h, e), run)]
  {
    assert RunsIn(After(h, e)) == RunsIn(h) + {run};
    forall other | other in RunsIn(h) && other != run
      ensures CapsuleOf(After(h, e), other) == CapsuleOf(h, other)
    {
      OthersUntouched(h, e, other);
    }
  }

  lemma RowWritten(h: History, e: Event, run: string)
    requires Legal(h) && Allowed(h, e) && e.Writes() == Some(run)
    ensures Apply(TablesOf(h), e).capsules == CapsulesIn(After(h, e))
  {
    match e
    case Requested(q) =>
      RequestProjects(h, q);
      RowRewritten(h, e, run);
    case Launched(_, a, now) =>
      LaunchProjects(h, run, a, now);
      RowRewritten(h, e, run);
    case Trained(t) =>
      TrainingProjects(h, t);
      RowRewritten(h, e, run);
    case Published(a) =>
      PublicationProjects(h, a);
      RowRewritten(h, e, run);
  }

  lemma ApplyProjects(h: History, e: Event)
    requires Legal(h) && Allowed(h, e)
    ensures Apply(TablesOf(h), e) == TablesOf(After(h, e))
  {
    if e.Writes().Some? {
      RowWritten(h, e, e.Writes().value);
    } else {
      RowsKept(h, e);
    }
  }

  // ---------------------------------------------------------------- refusals

  /** Whether a run may be requested, and otherwise the first thing that stands in its way. */
  function RequestProblem(t: Tables, id: string, user: string, prompt: string, contract: string): (p: Option<Problem>)
    ensures p.None? <==>
            && FindUser(t.users, user).Some? && FindContract(t.contracts, contract).Some?
            && prompt != "" && id !in t.capsules
    ensures p == Some(UnknownUser) <==> FindUser(t.users, user).None?
    ensures p == Some(UnknownContract) <==> FindUser(t.users, user).Some? && FindContract(t.contracts, contract).None?
    ensures p == Some(DuplicateKey) ==> prompt != "" && id in t.capsules
  {
    if FindUser(t.users, user).None? then Some(UnknownUser)
    else if FindContract(t.contracts, contract).None? then Some(UnknownContract)
    else if prompt == "" then Some(Missing(Prompt))
    else if id in t.capsules then Some(DuplicateKey)
    else None
  }

  /** A row may be signed exactly when an admin authorises it for a known run under a new id and token. */
  function ApprovalProblem(t: Tables, a: Approval): (p: Option<Problem>)
    requires a.status == Signed && a.token != ""
    ensures p.None? <==> a.run in t.capsules && Authorised(a, t.users) && !ApprovalTaken(t.approvals, a.id, a.token)
    ensures p == Some(NotAdmin) <==>
            a.run in t.capsules && FindUser(t.users, a.approvedBy).Some? && !IsAdmin(t.users, a.approvedBy)
    ensures p == Some(UnknownRun) <==> a.run !in t.capsules
    ensures p == Some(UnknownUser) <==> a.run in t.capsules && FindUser(t.users, a.approvedBy).None?
    ensures p == Some(BudgetNotPositive) <==> a.run in t.capsules && IsAdmin(t.users, a.approvedBy) && a.budget <= 0.0
    ensures p == Some(RuntimeNotPositive) <==>
            a.run in t.capsules && IsAdmin(t.users, a.approvedBy) && a.budget > 0.0 && a.minutes <= 0
    ensures p == Some(DuplicateKey) ==> ApprovalTaken(t.approvals, a.id, a.token)
  {
    if a.run !in t.capsules then Some(UnknownRun)
    else
      var user := FindUser(t.users, a.approvedBy);
      if user.None? then Some(UnknownUser)
      else if user.value.role != Admin then Some(NotAdmin)
      else if a.budget <= 0.0 then Some(BudgetNotPositive)
      else if a.minutes <= 0 then Some(RuntimeNotPositive)
      else if a.provider == "" then Some(Missing(Provider))
      else if ApprovalTaken(t.approvals, a.id, a.token) then Some(DuplicateKey)
      else None
  }

  /** The row found by the token must be a signed row of this very run. */
  function LaunchProblem(t: Tables, run: string, token: Option<string>): (p: Option<Problem>)
    ensures p.None? ==> FindApproval(t.approvals, TokenText(token)).Some?
    ensures p == Some(UnknownRun) <==> run !in t.capsules
    ensures p.Some? && run in t.capsules ==> p == Some(NoSignedApproval)
  {
    if run !in t.capsules then Some(UnknownRun)
    else
      var approval := FindApproval(t.approvals, TokenText(token));
      if approval.None? || approval.value.run != run || approval.value.status != Signed then Some(NoSignedApproval)
      else None
  }

  function TokenText(token: Option<string>): string {
    if token.Some? then token.value else ""
  }

  function BranchOf(t: Tables, contract: string): string {
    var row := FindContract(t.contracts, contract);
    if row.Some? then row.value.branch else ""
  }

  function TrainingProblem(t: Tables, training: Training): (p: Option<Problem>)
    ensures p.None? <==> training.run in t.capsules && training.phase != "" && !TrainingTaken(t.trainings, training.id)
    ensures p == Some(UnknownRun) <==> training.run !in t.capsules
    ensures p == Some(Missing(Phase)) <==> training.run in t.capsules && training.phase == ""
  {
    if training.run !in t.capsules then Some(UnknownRun)
    else if training.phase == "" then Some(Missing(Phase))
    else if TrainingTaken(t.trainings, training.id) then Some(DuplicateKey)
    else None
  }

  function ArtifactProblem(t: Tables, a: Artifact): (p: Option<Problem>)
    ensures p.None? <==>
            a.run in t.capsules && a.kind != OtherKind("") && a.uri != "" && !ArtifactTaken(t.artifacts, a.id)
    ensures p == Some(UnknownRun) <==> a.run !in t.capsules
    ensures p == Some(Missing(ArtifactKind)) <==> a.run in t.capsules && a.kind == OtherKind("")
    ensures p == Some(Missing(Uri)) <==> a.run in t.capsules && a.kind != OtherKind("") && a.uri == ""
  {
    if a.run !in t.capsules then Some(UnknownRun)
    else if a.kind == OtherKind("") then Some(Missing(ArtifactKind))
    else if a.uri == "" then Some(Missing(Uri))
    else if ArtifactTaken(t.artifacts, a.id) then Some(DuplicateKey)
    else None
  }

  predicate HasApproval(approvals: seq<Approval>, run: string, token: string) {
    exists i :: 0 <= i < |approvals| && approvals[i].token == token && approvals[i].run == run
  }

  /**
   * Only a token of an approval of the very run launches it: a token belongs to one row, so the check on the
   * row it finds is a check on the whole table.
   */
  lemma LaunchNeedsApproval(h: History, run: string, token: Option<string>)
    requires Legal(h)
    ensures LaunchProblem(TablesOf(h), run, token).None? <==>
            HasRun(h, run) && token.Some? && HasApproval(ApprovalsIn(h), run, token.value)
  {
    TokensDistinct(h);
    ApprovalsAuthorised(h);
    if token.None? {
      assert forall a :: a in ApprovalsIn(h) ==> a.token != "";
    }
  }

  /** Some call on these tables succeeds and is recorded as `e`. */
  predicate Accepted(t: Tables, e: Event) {
    match e
    case UserAdded(u) => !UserTaken(t.users, u.id, u.email)
    case BranchCreated(name, _, _, _) => name != ""
    case BranchEnsured(name, _) => name !in t.branches
    case BranchMerged(name, _, _) => name in t.branches
    case ContractAdded(c) =>
      c.name != "" && c.branch in t.branches && !ContractTaken(t.contracts, c.id) && VersionOpen(t.contracts, c)
    case Requested(q) =>
      RequestProblem(t, q.id, q.user, q.prompt, q.contract).None? && q.branch == BranchOf(t, q.contract)
    case Approved(a) => a.status == Signed && a.token != "" && ApprovalProblem(t, a).None?
    case Launched(run, a, _) =>
      LaunchProblem(t, run, Some(a.token)).None? && FindApproval(t.approvals, a.token) == Some(a)
    case Trained(tr) => TrainingProblem(t, tr).None?
    case Published(a) => ArtifactProblem(t, a).None?
  }

  lemma ApprovalFound(h: History, a: Approval)
    requires Legal(h) && a in ApprovalsIn(h)
    ensures FindApproval(ApprovalsIn(h), a.token) == Some(a) && a.status == Signed
  {
    TokensDistinct(h);
    ApprovalsAuthorised(h);
  }

  /** A launch on a row is accepted when the row is found by its token and is about the run. */
  lemma LaunchOnRow(t: Tables, run: string, a: Approval, now: string)
    requires FindApproval(t.approvals, a.token) == Some(a) ==> a.status == Signed
    ensures Accepted(t, Launched(run, a, now)) <==>
            FindApproval(t.approvals, a.token) == Some(a) && run in t.capsules && a.run == run
  {
  }

  lemma RunsListed(h: History, run: string)
    ensures run in TablesOf(h).capsules <==> HasRun(h, run)
  {
  }

  lemma RowFoundExactly(h: History, a: Approval)
    requires Legal(h)
    ensures FindApproval(ApprovalsIn(h), a.token) == Some(a) <==> a in ApprovalsIn(h)
    ensures a in ApprovalsIn(h) ==> a.status == Signed
  {
    if a in ApprovalsIn(h) {
      ApprovalFound(h, a);
    }
  }

  lemma LaunchAccepted(h: History, run: string, a: Approval, now: string)
    requires Legal(h)
    ensures Accepted(TablesOf(h), Launched(run, a, now)) <==> Allowed(h, Launched(run, a, now))
  {
    RowFoundExactly(h, a);
    RunsListed(h, run);
    LaunchOnRow(TablesOf(h), run, a, now);
    assert Allowed(h, Launched(run, a, now)) <==> HasRun(h, run) && a in ApprovalsIn(h) && a.run == run;
  }

  /** On the tables of a history, exactly the events that may follow it are accepted. */
  lemma AcceptedExactly(h: History, e: Event)
    requires Legal(h)
    ensures Accepted(TablesOf(h), e) <==> Allowed(h, e)
  {
    if e.Launched? {
      LaunchAccepted(h, e.run, e.on, e.time);
    }
  }

  /** A run of calls on empty tables had exactly these successes. */
  predicate Happened(h: History) {
    h.Start? || (Happened(h.past) && Accepted(Replay(h.past), h.last))
  }

  /**
   * Whatever calls are made, the successful ones form a legal history, and every table and every column of a
   * capsule is the projection of that history.
   */
  lemma {:induction false} StateIsProjection(h: History)
    ensures Happened(h) <==> Legal(h)
    ensures Legal(h) ==> Replay(h) == TablesOf(h)
  {
    if h.Start? {
      assert CapsulesIn(h) == map[];
    } else {
      StateIsProjection(h.past);
      if Legal(h.past) {
        AcceptedExactly(h.past, h.last);
        if Allowed(h.past, h.last) {
          ApplyProjects(h.past, h.last);
        }
      }
    }
  }

  // ---------------------------------------------------------------- the store

  class Store {
    var users: seq<User>
    var branches: map<string, Branch>
    var contracts: seq<Contract>
    var capsules: map<string, Capsule>
    var approvals: seq<Approval>
    var trainings: seq<Training>
    var artifacts: seq<Artifact>
    /** The successful calls so far. */
    ghost var history: History

    function View(): Tables
      reads this
    {
      Tables(users, branches, contracts, capsules, approvals, trainings, artifacts)
    }

    ghost predicate Valid()
      reads this
    {
      Happened(history) && View() == Replay(history)
    }

    /** A call changes nothing when it has a problem, and is otherwise the event on the tables and in the history. */
    twostate predicate Became(problem: Option<Problem>, e: Event)
      reads this
    {
      if problem.Some? then View() == old(View()) && history == old(history)
      else View() == Apply(old(View()), e) && history == After(old(history), e)
    }

    constructor ()
      ensures Valid() && View() == EMPTY && history == Start
    {
      users, contracts, approvals, trainings, artifacts := [], [], [], [], [];
      branches, capsules := map[], map[];
      history := Start;
    }

    /** Whatever calls were made, the store holds the projections of a legal history. */
    lemma HoldsProjections()
      requires Valid()
      ensures Legal(history) && View() == TablesOf(history)
    {
      StateIsProjection(history);
    }

    /** Contracts and runs are on branches the store knows. */
    lemma BranchesKnown()
      requires Valid()
      ensures forall c :: c in contracts ==> c.branch in branches
      ensures forall run :: run in capsules ==> capsules[run].request.branch in branches
    {
      HoldsProjections();
      ContractBranchesKnown(history);
      forall run | run in capsules
        ensures capsules[run].request.branch in branches
      {
        RunBranchesKnown(history, run);
      }
    }

    /** Whatever became of a run, its audit keeps the reason it began with. */
    lemma ReasonsStay(run: string)
      requires Valid() && run in capsules
      ensures Reason in capsules[run].audit && capsules[run].audit[Reason] == NOT_RUN
    {
      HoldsProjections();
      ReasonStays(history, run);
    }

    /** In the store itself, a running capsule has a row signed by an admin for that very run. */
    lemma RunsOnlyWhenApproved(run: string)
      requires Valid() && run in capsules && capsules[run].status == Running
      ensures exists a :: a in approvals && a.run == run && Authorised(a, users)
                          && capsules[run].provider == Some(a.provider) && capsules[run].token == Some(a.token)
    {
      HoldsProjections();
      Gate(history, run);
    }

    method CreateUser(user: User) returns (problem: Option<Problem>)
      requires Valid()
      modifies this
      ensures Valid()
      ensures problem == if UserTaken(old(users), user.id, user.email) then Some(DuplicateKey) else None
      ensures Became(problem, UserAdded(user))
    {
      if UserTaken(users, user.id, user.email) {
        return Some(DuplicateKey);
      }
      users := users + [user];
      history := After(history, UserAdded(user));
      problem := None;
    }

    /** A branch is created, or created anew under its first creation time. */
    method CreateBranch(name: string, parent: string, snapshot: string, now: string) returns (problem: Option<Problem>)
      requires Valid()
      modifies this
      ensures Valid()
      ensures problem == if name == "" then Some(Missing(Name)) else None
      ensures Became(problem, BranchCreated(name, parent, snapshot, now))
    {
      if name == "" {
        return Some(Missing(Name));
      }
      var createdAt := if name in branches then branches[name].createdAt else now;
      branches := branches[name := Branch(name, Some(parent), Active, snapshot, None, createdAt, None)];
      history := After(history, BranchCreated(name, parent, snapshot, now));
      problem := None;
    }

    method MergeBranch(name: string, note: string, now: string) returns (problem: Option<Problem>)
      requires Valid()
      modifies this
      ensures Valid()
      ensures problem == if name !in old(branches) then Some(UnknownBranch) else None
      ensures Became(problem, BranchMerged(name, note, now))
    {
      if name !in branches {
        return Some(UnknownBranch);
      }
      branches := branches[name := branches[name].(status := Merged, note := Some(note), mergedAt := Some(now))];
      history := After(history, BranchMerged(name, note, now));
      problem := None;
    }

    /** Makes an unknown branch. */
    method EnsureBranch(name: string, now: string)
      requires Valid()
      modifies this
      ensures Valid() && name in branches
      ensures if name in old(branches) then View() == old(View()) && history == old(history)
              else Became(None, BranchEnsured(name, now))
    {
      if name !in branches {
        branches := branches[name := Branch(name, None, Active, NO_SNAPSHOT, None, now, None)];
        history := After(history, BranchEnsured(name, now));
      }
    }

    /**
     * Without a version, or with version zero, the contract gets the next one of its name on its branch. An unknown
     * branch is made first, and stays when the contract is refused.
     */
    method CreateContract(id: string, name: string, branch: string, version: Option<int>, specs: Specs,
                          ensuredAt: string, now: string)
      returns (problem: Option<Problem>, contract: Contract)
      requires Valid()
      modifies this
      ensures Valid()
      ensures contract == Contract(id, name, VersionFor(old(contracts), name, branch, version), branch, specs, now)
      ensures problem == if name == "" then Some(Missing(Name))
                         else if ContractTaken(old(contracts), id) then Some(DuplicateKey) else None
      ensures var ensured := Apply(old(View()), BranchEnsured(branch, ensuredAt));
              View() == if problem.Some? then ensured else Apply(ensured, ContractAdded(contract))
      ensures var ensured := if branch in old(branches) then old(history)
                             else After(old(history), BranchEnsured(branch, ensuredAt));
              history == if problem.Some? then ensured else After(ensured, ContractAdded(contract))
    {
      EnsureBranch(branch, ensuredAt);
      var next := NextVersion(contracts, name, branch);
      if version.Some? && version.value != 0 {
        next := version.value;
      }
      contract := Contract(id, name, next, branch, specs, now);
      if name == "" {
        return Some(Missing(Name)), contract;
      }
      if ContractTaken(contracts, id) {
        return Some(DuplicateKey), contract;
      }
      contracts := contracts + [contract];
      history := After(history, ContractAdded(contract));
      problem := None;
    }

    /** A new capsule waits for approval, with its offers ranked. */
    method RequestRun(id: string, user: string, prompt: string, contract: string, offers: seq<Offer>, cost: string,
                      agent: string, now: string)
      returns (problem: Option<Problem>)
      requires Valid()
      modifies this
      ensures Valid()
      ensures problem == RequestProblem(old(View()), id, user, prompt, contract)
      ensures Became(problem, Requested(Request(id, user, contract, BranchOf(old(View()), contract), prompt, agent,
                                                StableSort(offers, Preferred), cost, now)))
    {
      problem := RequestProblem(View(), id, user, prompt, contract);
      if problem.Some? {
        return;
      }
      var branch := FindContract(contracts, contract).value.branch;
      var request := Request(id, user, contract, branch, prompt, agent, StableSort(offers, Preferred), cost, now);
      var line := LogLine(now, CapsuleCreated);
      capsules := capsules[id := Capsule(request, ApprovalRequired, None, None, [line], map[], FIRST_AUDIT, None, now)];
      history := After(history, Requested(request));
    }

    method ApproveRun(run: string, approvedBy: string, provider: string, budget: real, minutes: int, teardown: string,
                      id: string, nonce: string, now: string)
      returns (problem: Option<Problem>, approval: Approval)
      requires Valid()
      modifies this
      ensures Valid()
      ensures approval == Approval(id, run, approvedBy, provider, budget, minutes, teardown, TOKEN_PREFIX + nonce,
                                   Signed, now)
      ensures problem == ApprovalProblem(old(View()), approval)
      ensures Became(problem, Approved(approval))
    {
      approval := Approval(id, run, approvedBy, provider, budget, minutes, teardown, TOKEN_PREFIX + nonce, Signed, now);
      problem := ApprovalProblem(View(), approval);
      if problem.Some? {
        return;
      }
      approvals := approvals + [approval];
      history := After(history, Approved(approval));
    }

    /** The launch shows the provider and the token of the approval row. */
    method LaunchRun(run: string, token: Option<string>, now: string) returns (problem: Option<Problem>)
      requires Valid()
      modifies this
      ensures Valid()
      ensures problem == LaunchProblem(old(View()), run, token)
      ensures problem.Some? ==> View() == old(View()) && history == old(history)
      ensures problem.None? ==> Became(None, Launched(run, FindApproval(old(approvals), TokenText(token)).value, now))
    {
      problem := LaunchProblem(View(), run, token);
      if problem.Some? {
        return;
      }
      var approval := FindApproval(approvals, TokenText(token)).value;
      var logs := capsules[run].logs + [LogLine(now, ApprovalAccepted(approval.provider))];
      UpdateCapsule(run, capsules[run].(status := Running, provider := Some(approval.provider),
                                        token := Some(approval.token), logs := logs, updatedAt := now));
      history := After(history, Launched(run, approval, now));
    }

    method RecordTraining(training: Training) returns (problem: Option<Problem>)
      requires Valid()
      modifies this
      ensures Valid()
      ensures problem == TrainingProblem(old(View()), training)
      ensures Became(problem, Trained(training))
    {
      problem := TrainingProblem(View(), training);
      if problem.Some? {
        return;
      }
      trainings := trainings + [training];
      var row := capsules[training.run];
      var message := if training.message != "" then Reporting(training.message) else PhaseRecorded(training.phase);
      UpdateCapsule(training.run, row.(metrics := row.metrics + Reported(training),
                                       logs := row.logs + [LogLine(training.createdAt, message)],
                                       updatedAt := training.createdAt));
      history := After(history, Trained(training));
    }

    method PublishArtifact(artifact: Artifact) returns (problem: Option<Problem>)
      requires Valid()
      modifies this
      ensures Valid()
      ensures problem == ArtifactProblem(old(View()), artifact)
      ensures Became(problem, Published(artifact))
    {
      problem := ArtifactProblem(View(), artifact);
      if problem.Some? {
        return;
      }
      artifacts := artifacts + [artifact];
      var row := capsules[artifact.run].(audit := capsules[artifact.run].audit + Audited(artifact),
                                         status := Verdict(artifact), updatedAt := artifact.createdAt);
      if IsModel(artifact) {
        row := row.(modelUri := Some(artifact.uri));
      }
      UpdateCapsule(artifact.run, row);
      history := After(history, Published(artifact));
    }

    method UpdateCapsule(run: string, row: Capsule)
      requires run in capsules
      modifies this`capsules
      ensures capsules == old(capsules)[run := row]
    {
      capsules := capsules[run := row];
    }

    /** The recommendation is read off the best row of the listing. */
    method Recommend(scope: Option<string>) returns (r: Recommendation)
      ensures BestEvidence(r.evidence, Joined(artifacts, capsules, scope))
      ensures if r.evidence == [] then r.provider.None? && r.gpu.None? && r.contract.None?
              else
                var best := r.evidence[0];
                && r.provider == best.capsule.provider && r.gpu == best.artifact.gpu
                && r.contract == Some(best.capsule.request.contract)
    {
      var rows := Joined(artifacts, capsules, scope);
      BetterIsTotalPreorder();
      StableSortSorts(rows, Better);
      var n := if |rows| < EVIDENCE_LIMIT then |rows| else EVIDENCE_LIMIT;
      PrefixIsBest(StableSort(rows, Better), rows, n);
      var evidence := StableSort(rows, Better)[..n];
      if evidence == [] {
        return Recommendation(None, None, None, evidence);
      }
      var best := evidence[0];
      r := Recommendation(best.capsule.provider, best.artifact.gpu, Some(best.capsule.request.contract), evidence);
    }
  }

  /** Whatever provider a recommendation names, an admin approved it for the run it was learnt from. */
  lemma RecommendedWasApproved(h: History, scope: Option<string>, listed: seq<Evidence>)
    requires Legal(h) && listed != []
    requires BestEvidence(listed, Joined(ArtifactsIn(h), CapsulesIn(h), scope))
    requires listed[0].capsule.provider.Some?
    ensures exists a :: a in ApprovalsIn(h) && Authorised(a, UsersIn(h)) && a.run == listed[0].artifact.run
                        && listed[0].capsule.provider == Some(a.provider)
  {
    var rows := Joined(ArtifactsIn(h), CapsulesIn(h), scope);
    assert listed[0] in multiset(listed);
    assert listed[0] in multiset(rows);
    JoinedExactly(ArtifactsIn(h), CapsulesIn(h), scope);
    Gate(h, listed[0].artifact.run);
  }
}
