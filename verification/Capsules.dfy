/**
 * Run capsules: the rows of the compute tables, the events that make them, and what a capsule's columns
 * say about the events. The tables themselves are changed by `ComputeStore`.
 */
module Capsules {
  import opened Text

  // ---------------------------------------------------------------- rows

  /** The one role that matters, and every other by name. */
  datatype Role = Admin | OtherRole(name: string)

  datatype User = User(id: string, email: string, role: Role)

  datatype BranchStatus = Active | Merged

  /** An experiment branch; a branch made for a contract has no parent. */
  datatype Branch = Branch(name: string, parent: Option<string>, status: BranchStatus, snapshot: string,
                           note: Option<string>, createdAt: string, mergedAt: Option<string>)

  /** The five specifications of a contract, as stored. */
  datatype Specs = Specs(env: string, observation: string, action: string, reward: string, passing: string)

  datatype Contract = Contract(id: string, name: string, version: int, branch: string, specs: Specs, createdAt: string)

  /** The availability an offer states; null is not the same as leaving it out. */
  datatype Availability = NotStated | StatedNull | Stated(available: bool)

  /** A provider's offer; the prices may be absent. */
  datatype Offer = Offer(provider: string, available: Availability, pricePerHr: Option<real>,
                         pricePerHourUsd: Option<real>)

  datatype Request = Request(id: string, user: string, contract: string, branch: string, prompt: string, agent: string,
                             offers: seq<Offer>, cost: string, createdAt: string)

  datatype ApprovalStatus = Signed | NotSigned

  datatype Approval = Approval(id: string, run: string, approvedBy: string, provider: string, budget: real,
                               minutes: int, teardown: string, token: string, status: ApprovalStatus, signedAt: string)

  datatype Training = Training(id: string, run: string, phase: string, rollouts: Option<int>, reward: Option<real>,
                               success: Option<real>, cost: Option<real>, gpu: Option<string>, message: string,
                               createdAt: string)

  /** The three kinds that hold a trained model, and every other kind by name. */
  datatype Kind = Model | Checkpoint | ModelCheckpoint | OtherKind(name: string)

  datatype Artifact = Artifact(id: string, run: string, kind: Kind, uri: string, bucket: Option<string>, passed: bool,
                               gpu: Option<string>, cost: Option<real>, rewardDelta: Option<real>,
                               successDelta: Option<real>, createdAt: string)

  datatype Message =
    | CapsuleCreated | ApprovalAccepted(provider: string) | PhaseRecorded(phase: string) | Reporting(text: string)

  datatype LogLine = LogLine(time: string, message: Message)

  /** The fields of the metrics and audit columns. */
  datatype Field =
    | LatestPhase | RolloutCount | RewardMean | SuccessRate | CostBurnUsd
    | GpuName | PassedFlag | Reason | CostUsd | RewardDelta | SuccessRateDelta | ArtifactUri

  /** A value held in a JSON column. */
  datatype Value = Null | Text(text: string) | Whole(whole: int) | Number(number: real) | Flag(flag: bool)

  datatype Status = ApprovalRequired | Running | Passed | Failed

  datatype Capsule = Capsule(request: Request, status: Status, provider: Option<string>, token: Option<string>,
                             logs: seq<LogLine>, metrics: map<Field, Value>, audit: map<Field, Value>,
                             modelUri: Option<string>, updatedAt: string)

  // ---------------------------------------------------------------- events

  /** The successful calls. A launch carries the approval row it was accepted on. */
  datatype Event =
    | UserAdded(user: User)
    | BranchCreated(name: string, parent: string, snapshot: string, createdAt: string)
    | BranchEnsured(name: string, ensuredAt: string)
    | BranchMerged(name: string, note: string, mergedAt: string)
    | ContractAdded(contract: Contract)
    | Requested(request: Request)
    | Approved(approval: Approval)
    | Launched(run: string, on: Approval, time: string)
    | Trained(training: Training)
    | Published(artifact: Artifact)
  {
    /** The run whose capsule row the event writes. */
    function Writes(): Option<string> {
      match this
      case Requested(q) => Some(q.id)
      case Launched(r, _, _) => Some(r)
      case Trained(t) => Some(t.run)
      case Published(a) => Some(a.run)
      case _ => None
    }
  }

  /** The successful calls so far, the latest outermost. */
  datatype History = Start | After(past: History, last: Event)

  const TOKEN_PREFIX := "approval_token_"

  function UsersIn(h: History): seq<User> {
    if h.Start? then []
    else UsersIn(h.past) + (if h.last.UserAdded? then [h.last.user] else [])
  }

  const NO_SNAPSHOT := "{}"

  /** Creating a branch again makes it active once more; only the time of its first creation stays. */
  function CreatedBranch(branches: map<string, Branch>, name: string, parent: string, snapshot: string,
                         now: string): Branch
  {
    Branch(name, Some(parent), Active, snapshot, None, if name in branches then branches[name].createdAt else now, None)
  }

  /** What an event does to the table of branches. */
  function BranchesAfter(branches: map<string, Branch>, e: Event): map<string, Branch> {
    match e
    case BranchCreated(name, parent, snapshot, now) =>
      branches[name := CreatedBranch(branches, name, parent, snapshot, now)]
    case BranchEnsured(name, now) =>
      if name in branches then branches else branches[name := Branch(name, None, Active, NO_SNAPSHOT, None, now, None)]
    case BranchMerged(name, note, now) =>
      if name !in branches then branches
      else branches[name := branches[name].(status := Merged, note := Some(note), mergedAt := Some(now))]
    case _ => branches
  }

  function BranchesIn(h: History): map<string, Branch> {
    if h.Start? then map[] else BranchesAfter(BranchesIn(h.past), h.last)
  }

  function ContractsIn(h: History): seq<Contract> {
    if h.Start? then []
    else ContractsIn(h.past) + (if h.last.ContractAdded? then [h.last.contract] else [])
  }

  function ApprovalsIn(h: History): seq<Approval> {
    if h.Start? then []
    else ApprovalsIn(h.past) + (if h.last.Approved? then [h.last.approval] else [])
  }

  function TrainingsIn(h: History): seq<Training> {
    if h.Start? then []
    else TrainingsIn(h.past) + (if h.last.Trained? then [h.last.training] else [])
  }

  function ArtifactsIn(h: History): seq<Artifact> {
    if h.Start? then []
    else ArtifactsIn(h.past) + (if h.last.Published? then [h.last.artifact] else [])
  }

  /** The row with an id, if any: tables are searched in the order they were filled. */
  function FindUser(users: seq<User>, id: string): (u: Option<User>)
    ensures u.Some? ==> u.value in users && u.value.id == id
    ensures u.None? ==> forall v :: v in users ==> v.id != id
  {
    if users == [] then None else if users[0].id == id then Some(users[0]) else FindUser(users[1..], id)
  }

  function FindContract(contracts: seq<Contract>, id: string): (c: Option<Contract>)
    ensures c.Some? ==> c.value in contracts && c.value.id == id
    ensures c.None? ==> forall d :: d in contracts ==> d.id != id
  {
    if contracts == [] then None
    else if contracts[0].id == id then Some(contracts[0]) else FindContract(contracts[1..], id)
  }

  function FindApproval(approvals: seq<Approval>, token: string): (a: Option<Approval>)
    ensures a.Some? ==> a.value in approvals && a.value.token == token
    ensures a.None? ==> forall b :: b in approvals ==> b.token != token
  {
    if approvals == [] then None
    else if approvals[0].token == token then Some(approvals[0]) else FindApproval(approvals[1..], token)
  }

  // ---------------------------------------------------------------- contract versions

  predicate SameLine(c: Contract, name: string, branch: string) {
    c.name == name && c.branch == branch
  }

  /** The largest version stored for a name on a branch. */
  function MaxVersion(contracts: seq<Contract>, name: string, branch: string): (v: Option<int>)
    ensures v.None? <==> forall c :: c in contracts ==> !SameLine(c, name, branch)
    ensures v.Some? ==> exists c :: c in contracts && SameLine(c, name, branch) && c.version == v.value
    ensures v.Some? ==> forall c :: c in contracts && SameLine(c, name, branch) ==> c.version <= v.value
  {
    if contracts == [] then None
    else
      var rest, c := MaxVersion(contracts[1..], name, branch), contracts[0];
      assert forall d :: d in contracts <==> d == c || d in contracts[1..];
      if SameLine(c, name, branch) && (rest.None? || c.version > rest.value) then Some(c.version) else rest
  }

  /** The version a contract gets when its caller gives none. */
  function NextVersion(contracts: seq<Contract>, name: string, branch: string): int {
    var max := MaxVersion(contracts, name, branch);
    (if max.Some? then max.value else 0) + 1
  }

  /** A given version of zero counts as missing. */
  function VersionFor(contracts: seq<Contract>, name: string, branch: string, given: Option<int>): int {
    if given.Some? && given.value != 0 then given.value else NextVersion(contracts, name, branch)
  }

  /** The versions some call can store: any but zero, and zero only when it is the next one. */
  predicate VersionOpen(contracts: seq<Contract>, c: Contract) {
    c.version != 0 || NextVersion(contracts, c.name, c.branch) == 0
  }

  lemma VersionOpenExactly(contracts: seq<Contract>, c: Contract)
    ensures VersionOpen(contracts, c) <==> exists given :: c.version == VersionFor(contracts, c.name, c.branch, given)
  {
    assert VersionFor(contracts, c.name, c.branch, None) == NextVersion(contracts, c.name, c.branch);
    if c.version != 0 {
      assert VersionFor(contracts, c.name, c.branch, Some(c.version)) == c.version;
    }
  }

  /** No caller gave a version. */
  predicate Automatic(h: History) {
    h.Start? || (Automatic(h.past) &&
                 (h.last.ContractAdded? ==>
                    var c := h.last.contract;
                    c.version == NextVersion(ContractsIn(h.past), c.name, c.branch)))
  }

  function CountLine(h: History, name: string, branch: string): nat {
    if h.Start? then 0
    else CountLine(h.past, name, branch)
         + (if h.last.ContractAdded? && SameLine(h.last.contract, name, branch) then 1 else 0)
  }

  lemma NextVersionSnoc(contracts: seq<Contract>, c: Contract, name: string, branch: string)
    requires c.version == NextVersion(contracts, c.name, c.branch)
    ensures NextVersion(contracts + [c], name, branch) ==
            if SameLine(c, name, branch) then c.version + 1 else NextVersion(contracts, name, branch)
  {
    assert forall d :: d in contracts + [c] <==> d == c || d in contracts;
    var max, past := MaxVersion(contracts + [c], name, branch), MaxVersion(contracts, name, branch);
    if SameLine(c, name, branch) {
      assert c in contracts + [c];
    } else if past.Some? {
      assert exists d :: d in contracts && SameLine(d, name, branch) && d.version == past.value;
    }
  }

  /** Left to themselves, the contracts of a name on a branch are numbered from one without gaps. */
  lemma {:induction false} VersionsCount(h: History, name: string, branch: string)
    requires Automatic(h)
    ensures NextVersion(ContractsIn(h), name, branch) == CountLine(h, name, branch) + 1
  {
    if h.After? {
      VersionsCount(h.past, name, branch);
      if h.last.ContractAdded? {
        NextVersionSnoc(ContractsIn(h.past), h.last.contract, name, branch);
      } else {
        assert ContractsIn(h) == ContractsIn(h.past);
      }
    }
  }

  // ---------------------------------------------------------------- which calls succeed

  function RequestOf(h: History, run: string): Option<Request> {
    if h.Start? then None
    else if h.last.Requested? && h.last.request.id == run then Some(h.last.request) else RequestOf(h.past, run)
  }

  predicate HasRun(h: History, run: string) {
    RequestOf(h, run).Some?
  }

  predicate IsAdmin(users: seq<User>, id: string) {
    FindUser(users, id).Some? && FindUser(users, id).value.role == Admin
  }

  /** What an approval row must be when it is signed. */
  predicate Authorised(a: Approval, users: seq<User>) {
    && a.status == Signed && a.token != ""
    && a.provider != "" && a.budget > 0.0 && a.minutes > 0
    && IsAdmin(users, a.approvedBy)
  }

  predicate UserTaken(users: seq<User>, id: string, email: string) {
    exists i :: 0 <= i < |users| && (users[i].id == id || users[i].email == email)
  }

  predicate ContractTaken(contracts: seq<Contract>, id: string) {
    exists i :: 0 <= i < |contracts| && contracts[i].id == id
  }

  predicate ApprovalTaken(approvals: seq<Approval>, id: string, token: string) {
    exists i :: 0 <= i < |approvals| && (approvals[i].id == id || approvals[i].token == token)
  }

  predicate TrainingTaken(trainings: seq<Training>, id: string) {
    exists i :: 0 <= i < |trainings| && trainings[i].id == id
  }

  predicate ArtifactTaken(artifacts: seq<Artifact>, id: string) {
    exists i :: 0 <= i < |artifacts| && artifacts[i].id == id
  }

  /** The event may follow the history. */
  predicate Allowed(h: History, e: Event) {
    match e
    case UserAdded(u) => !UserTaken(UsersIn(h), u.id, u.email)
    case BranchCreated(name, _, _, _) => name != ""
    case BranchEnsured(name, _) => name !in BranchesIn(h)
    case BranchMerged(name, _, _) => name in BranchesIn(h)
    case ContractAdded(c) =>
      && c.name != "" && c.branch in BranchesIn(h)
      && !ContractTaken(ContractsIn(h), c.id) && VersionOpen(ContractsIn(h), c)
    case Requested(q) =>
      && q.prompt != "" && !HasRun(h, q.id)
      && FindUser(UsersIn(h), q.user).Some?
      && FindContract(ContractsIn(h), q.contract).Some?
      && q.branch == FindContract(ContractsIn(h), q.contract).value.branch
    case Approved(a) =>
      HasRun(h, a.run) && Authorised(a, UsersIn(h)) && !ApprovalTaken(ApprovalsIn(h), a.id, a.token)
    case Launched(r, a, _) => HasRun(h, r) && a in ApprovalsIn(h) && a.run == r
    case Trained(t) => HasRun(h, t.run) && t.phase != "" && !TrainingTaken(TrainingsIn(h), t.id)
    case Published(a) =>
      HasRun(h, a.run) && a.kind != OtherKind("") && a.uri != "" && !ArtifactTaken(ArtifactsIn(h), a.id)
  }

  /** A history of successful calls on empty tables. */
  predicate Legal(h: History) {
    h.Start? || (Legal(h.past) && Allowed(h.past, h.last))
  }

  // ---------------------------------------------------------------- capsule columns, read off the history

  function LastLaunch(h: History, run: string): Option<Approval> {
    if h.Start? then None
    else if h.last.Launched? && h.last.run == run then Some(h.last.on) else LastLaunch(h.past, run)
  }

  function LastTraining(h: History, run: string): Option<Training> {
    if h.Start? then None
    else if h.last.Trained? && h.last.training.run == run then Some(h.last.training) else LastTraining(h.past, run)
  }

  function LastArtifact(h: History, run: string): Option<Artifact> {
    if h.Start? then None
    else if h.last.Published? && h.last.artifact.run == run then Some(h.last.artifact) else LastArtifact(h.past, run)
  }

  predicate IsModel(a: Artifact) {
    !a.kind.OtherKind?
  }

  function LastModel(h: History, run: string): Option<Artifact> {
    if h.Start? then None
    else if h.last.Published? && h.last.artifact.run == run && IsModel(h.last.artifact) then Some(h.last.artifact)
    else LastModel(h.past, run)
  }

  function Verdict(a: Artifact): Status {
    if a.passed then Passed else Failed
  }

  /** The last launch or publication of the run decides its status. */
  function StatusOf(h: History, run: string): Status {
    if h.Start? then ApprovalRequired
    else if h.last.Launched? && h.last.run == run then Running
    else if h.last.Published? && h.last.artifact.run == run then Verdict(h.last.artifact)
    else StatusOf(h.past, run)
  }

  /** The text of a log line; every line has level "info". */
  function MessageText(m: Message): string {
    match m
    case CapsuleCreated => "Run capsule created; signed approval required before paid GPU launch."
    case ApprovalAccepted(provider) => "Signed approval accepted for provider " + provider + "; run marked running."
    case PhaseRecorded(phase) => "Training phase " + phase + " recorded."
    case Reporting(text) => text
  }

  /** A training event without a message of its own gets one naming its phase. */
  function TrainingMessage(t: Training): Message {
    if t.message != "" then Reporting(t.message) else PhaseRecorded(t.phase)
  }

  /** The log line an event writes to its run. */
  function LineOf(e: Event): Option<LogLine> {
    match e
    case Requested(q) => Some(LogLine(q.createdAt, CapsuleCreated))
    case Launched(_, a, time) => Some(LogLine(time, ApprovalAccepted(a.provider)))
    case Trained(t) => Some(LogLine(t.createdAt, TrainingMessage(t)))
    case _ => None
  }

  function LogsOf(h: History, run: string): seq<LogLine> {
    if h.Start? then []
    else LogsOf(h.past, run)
         + (if h.last.Writes() == Some(run) && LineOf(h.last).Some? then [LineOf(h.last).value] else [])
  }

  function TimeOf(e: Event): string {
    match e
    case Requested(q) => q.createdAt
    case Launched(_, _, time) => time
    case Trained(t) => t.createdAt
    case Published(a) => a.createdAt
    case _ => ""
  }

  function LastWrite(h: History, run: string): string {
    if h.Start? then ""
    else if h.last.Writes() == Some(run) then TimeOf(h.last) else LastWrite(h.past, run)
  }

  function TextOrNull(o: Option<string>): Value {
    if o.Some? then Text(o.value) else Null
  }

  function NumberOrNull(o: Option<real>): Value {
    if o.Some? then Number(o.value) else Null
  }

  /** The metrics a training event reports; what it leaves out is reported as null. */
  function Reported(t: Training): map<Field, Value> {
    map[
      LatestPhase := Text(t.phase),
      RolloutCount := if t.rollouts.Some? then Whole(t.rollouts.value) else Null,
      RewardMean := NumberOrNull(t.reward),
      SuccessRate := NumberOrNull(t.success),
      CostBurnUsd := NumberOrNull(t.cost),
      GpuName := TextOrNull(t.gpu)
    ]
  }

  function Audited(a: Artifact): map<Field, Value> {
    map[
      PassedFlag := Flag(a.passed),
      GpuName := TextOrNull(a.gpu),
      CostUsd := NumberOrNull(a.cost),
      RewardDelta := NumberOrNull(a.rewardDelta),
      SuccessRateDelta := NumberOrNull(a.successDelta),
      ArtifactUri := Text(a.uri)
    ]
  }

  const NOT_RUN := Text("not_run")
  const FIRST_AUDIT: map<Field, Value> := map[PassedFlag := Flag(false), Reason := NOT_RUN]

  /** Only the last training event shows in the metrics. */
  function MetricsOf(h: History, run: string): map<Field, Value> {
    if LastTraining(h, run).None? then map[] else Reported(LastTraining(h, run).value)
  }

  /** Only the last artifact shows in the audit, beside the reason of the first audit, which is never removed. */
  function AuditOf(h: History, run: string): map<Field, Value> {
    if LastArtifact(h, run).None? then FIRST_AUDIT
    else Audited(LastArtifact(h, run).value)[Reason := NOT_RUN]
  }

  /** The whole capsule row of a run, as its events determine it. */
  function CapsuleOf(h: History, run: string): Capsule
    requires HasRun(h, run)
  {
    var launch, model := LastLaunch(h, run), LastModel(h, run);
    Capsule(RequestOf(h, run).value, StatusOf(h, run),
            if launch.None? then None else Some(launch.value.provider),
            if launch.None? then None else Some(launch.value.token),
            LogsOf(h, run), MetricsOf(h, run), AuditOf(h, run),
            if model.None? then None else Some(model.value.uri), LastWrite(h, run))
  }

  // ---------------------------------------------------------------- one more event

  /** An event leaves the capsules of other runs alone. */
  lemma OthersUntouched(h: History, e: Event, run: string)
    requires e.Writes() != Some(run)
    ensures RequestOf(After(h, e), run) == RequestOf(h, run)
    ensures HasRun(h, run) ==> CapsuleOf(After(h, e), run) == CapsuleOf(h, run)
  {
  }

  lemma LaunchProjects(h: History, run: string, a: Approval, time: string)
    requires HasRun(h, run)
    ensures var e := Launched(run, a, time);
            && HasRun(After(h, e), run)
            && CapsuleOf(After(h, e), run) == CapsuleOf(h, run).(
              status := Running, provider := Some(a.provider), token := Some(a.token),
              logs := CapsuleOf(h, run).logs + [LineOf(e).value], updatedAt := time)
  {
  }

  lemma TrainingProjects(h: History, t: Training)
    requires HasRun(h, t.run)
    ensures var e := Trained(t);
            && HasRun(After(h, e), t.run)
            && CapsuleOf(After(h, e), t.run) == CapsuleOf(h, t.run).(
              metrics := CapsuleOf(h, t.run).metrics + Reported(t),
              logs := CapsuleOf(h, t.run).logs + [LineOf(e).value], updatedAt := t.createdAt)
  {
  }

  lemma AuditedReplaces(h: History, a: Artifact)
    ensures AuditOf(h, a.run) + Audited(a) == Audited(a)[Reason := NOT_RUN]
  {
    assert AuditOf(h, a.run)[Reason] == NOT_RUN;
  }

  lemma PublicationProjects(h: History, a: Artifact)
    requires HasRun(h, a.run)
    ensures var e := Published(a);
            && HasRun(After(h, e), a.run)
            && CapsuleOf(After(h, e), a.run) == CapsuleOf(h, a.run).(
              audit := CapsuleOf(h, a.run).audit + Audited(a),
              status := Verdict(a),
              modelUri := if IsModel(a) then Some(a.uri) else CapsuleOf(h, a.run).modelUri,
              updatedAt := a.createdAt)
  {
    AuditedReplaces(h, a);
  }

  /** Nothing is recorded for a run before it is requested. */
  lemma {:induction false} Untouched(h: History, run: string)
    requires Legal(h) && !HasRun(h, run)
    ensures LastLaunch(h, run).None? && LastTraining(h, run).None? && LastArtifact(h, run).None?
    ensures LastModel(h, run).None? && StatusOf(h, run) == ApprovalRequired && LogsOf(h, run) == []
  {
    if h.After? {
      Untouched(h.past, run);
    }
  }

  lemma RequestColumns(h: History, q: Request)
    requires Legal(h) && !HasRun(h, q.id)
    ensures var g := After(h, Requested(q));
            && RequestOf(g, q.id) == Some(q) && StatusOf(g, q.id) == ApprovalRequired
            && LastLaunch(g, q.id).None? && LastTraining(g, q.id).None? && LastArtifact(g, q.id).None?
            && LastModel(g, q.id).None? && LastWrite(g, q.id) == q.createdAt && LogsOf(h, q.id) == []
  {
    Untouched(h, q.id);
  }

  lemma RequestProjects(h: History, q: Request)
    requires Legal(h) && !HasRun(h, q.id)
    ensures HasRun(After(h, Requested(q)), q.id)
    ensures CapsuleOf(After(h, Requested(q)), q.id) ==
            Capsule(q, ApprovalRequired, None, None, [LineOf(Requested(q)).value], map[], FIRST_AUDIT, None,
                    q.createdAt)
  {
    RequestColumns(h, q);
  }

  // ---------------------------------------------------------------- what every history keeps

  lemma {:induction false} FindAppend(users: seq<User>, more: seq<User>, id: string)
    requires FindUser(users, id).Some?
    ensures FindUser(users + more, id) == FindUser(users, id)
  {
    if users[0].id != id {
      FindAppend(users[1..], more, id);
      assert (users + more)[1..] == users[1..] + more;
    }
  }

  /** Approvals stay authorised: the tables of users and approvals only grow. */
  lemma {:induction false} ApprovalsAuthorised(h: History)
    requires Legal(h)
    ensures forall a :: a in ApprovalsIn(h) ==> Authorised(a, UsersIn(h))
  {
    if h.After? {
      ApprovalsAuthorised(h.past);
      forall a | a in ApprovalsIn(h)
        ensures Authorised(a, UsersIn(h))
      {
        var more := if h.last.UserAdded? then [h.last.user] else [];
        assert UsersIn(h) == UsersIn(h.past) + more;
        if a in ApprovalsIn(h.past) {
          FindAppend(UsersIn(h.past), more, a.approvedBy);
        } else {
          assert more == [] && UsersIn(h.past) + [] == UsersIn(h.past);
        }
      }
    }
  }

  lemma {:induction false} TokensDistinct(h: History)
    requires Legal(h)
    ensures forall a, b :: a in ApprovalsIn(h) && b in ApprovalsIn(h) && a.token == b.token ==> a == b
  {
    if h.After? {
      TokensDistinct(h.past);
    }
  }

  lemma {:induction false} LaunchesApproved(h: History, run: string)
    requires Legal(h) && LastLaunch(h, run).Some?
    ensures LastLaunch(h, run).value in ApprovalsIn(h) && LastLaunch(h, run).value.run == run
  {
    if !(h.last.Launched? && h.last.run == run) {
      LaunchesApproved(h.past, run);
    }
  }

  lemma {:induction false} RunningWasLaunched(h: History, run: string)
    requires StatusOf(h, run) == Running
    ensures LastLaunch(h, run).Some?
  {
    if !(h.last.Launched? && h.last.run == run) {
      RunningWasLaunched(h.past, run);
    }
  }

  /**
   * The approval gate: a running capsule, or one with a token, shows the provider and the token of a signed row
   * for that very run, given by an admin for a positive budget and runtime.
   */
  lemma Gate(h: History, run: string)
    requires Legal(h) && HasRun(h, run)
    requires var c := CapsuleOf(h, run); c.status == Running || c.token.Some? || c.provider.Some?
    ensures exists a ::
              && a in ApprovalsIn(h) && a.run == run && Authorised(a, UsersIn(h))
              && CapsuleOf(h, run).provider == Some(a.provider) && CapsuleOf(h, run).token == Some(a.token)
  {
    if StatusOf(h, run) == Running {
      RunningWasLaunched(h, run);
    }
    LaunchesApproved(h, run);
    ApprovalsAuthorised(h);
    assert LastLaunch(h, run).value in ApprovalsIn(h);
  }

  /** `g` is how the history stood at some earlier time, or still stands. */
  predicate Earlier(g: History, h: History) {
    g == h || (h.After? && Earlier(g, h.past))
  }

  lemma {:induction false} LegalEarlier(g: History, h: History)
    requires Legal(h) && Earlier(g, h)
    ensures Legal(g)
  {
    if g != h {
      LegalEarlier(g, h.past);
    }
  }

  lemma {:induction false} ApprovalEvent(h: History, a: Approval) returns (g: History)
    requires Legal(h) && a in ApprovalsIn(h)
    ensures Earlier(g, h) && g.After? && g.last == Approved(a) && Authorised(a, UsersIn(g.past))
  {
    g := h;
    if h.last != Approved(a) {
      g := ApprovalEvent(h.past, a);
    }
  }

  /** Every launch in a history comes after an admin's approval of that run, authorised when it was signed. */
  lemma ApprovalComesFirst(h: History, launch: History) returns (g: History)
    requires Legal(h) && Earlier(launch, h) && launch.After? && launch.last.Launched?
    ensures Earlier(g, launch.past) && g.After? && g.last == Approved(launch.last.on)
    ensures launch.last.on.run == launch.last.run && Authorised(launch.last.on, UsersIn(g.past))
  {
    LegalEarlier(launch, h);
    g := ApprovalEvent(launch.past, launch.last.on);
  }

  predicate Occurs(e: Event, h: History) {
    h.After? && (h.last == e || Occurs(e, h.past))
  }

  predicate Starts(e: Event, run: string) {
    e.Launched? && e.run == run
  }

  predicate Finishes(e: Event, run: string) {
    e.Published? && e.artifact.run == run
  }

  ghost predicate NeverBegun(h: History, run: string) {
    forall e :: Occurs(e, h) ==> !Starts(e, run) && !Finishes(e, run)
  }

  lemma NeverBegunUnfold(h: History, run: string)
    requires h.After?
    ensures NeverBegun(h, run) <==> !Starts(h.last, run) && !Finishes(h.last, run) && NeverBegun(h.past, run)
  {
    assert Occurs(h.last, h);
    assert forall e :: Occurs(e, h) <==> e == h.last || Occurs(e, h.past);
  }

  /** A capsule waits for approval exactly while it was never launched and has no artifact. */
  lemma {:induction false} WaitingExactly(h: History, run: string)
    ensures StatusOf(h, run) == ApprovalRequired <==> NeverBegun(h, run)
  {
    if h.After? {
      WaitingExactly(h.past, run);
      NeverBegunUnfold(h, run);
    }
  }

  /** A finished status repeats the audit's verdict. */
  lemma {:induction false} VerdictAgrees(h: History, run: string)
    ensures StatusOf(h, run) == Passed ==> AuditOf(h, run)[PassedFlag] == Flag(true)
    ensures StatusOf(h, run) == Failed ==> AuditOf(h, run)[PassedFlag] == Flag(false)
  {
    if h.After? {
      VerdictAgrees(h.past, run);
    }
  }

  function CountLaunches(h: History, run: string): nat {
    if h.Start? then 0
    else CountLaunches(h.past, run) + (if h.last.Launched? && h.last.run == run then 1 else 0)
  }

  function CountTrainings(h: History, run: string): nat {
    if h.Start? then 0
    else CountTrainings(h.past, run) + (if h.last.Trained? && h.last.training.run == run then 1 else 0)
  }

  /** The log of a requested run holds one line for the request, one for each launch and one for each training event. */
  lemma {:induction false} LogLength(h: History, run: string)
    requires Legal(h)
    ensures |LogsOf(h, run)| == (if HasRun(h, run) then 1 else 0) + CountLaunches(h, run) + CountTrainings(h, run)
  {
    if h.After? {
      LogLength(h.past, run);
    }
  }

  /** The log of a requested run opens with the request. */
  lemma {:induction false} LogOpens(h: History, run: string)
    requires Legal(h) && HasRun(h, run)
    ensures LogsOf(h, run) != [] && LogsOf(h, run)[0] == LogLine(RequestOf(h, run).value.createdAt, CapsuleCreated)
  {
    if HasRun(h.past, run) {
      LogOpens(h.past, run);
    } else {
      Untouched(h.past, run);
    }
  }

  predicate Readable(line: LogLine) {
    MessageText(line.message) != ""
  }

  lemma EventsRead(e: Event)
    requires LineOf(e).Some? && (e.Trained? ==> e.training.phase != "")
    ensures Readable(LineOf(e).value)
  {
    assert |MessageText(LineOf(e).value.message)| > 0;
  }

  /** No line of a log is empty, whatever message a caller sends. */
  lemma {:induction false} LogsRead(h: History, run: string)
    requires Legal(h)
    ensures forall line :: line in LogsOf(h, run) ==> Readable(line)
  {
    if h.After? {
      LogsRead(h.past, run);
      if LineOf(h.last).Some? {
        EventsRead(h.last);
      }
    }
  }

  /** Later events only append to a log. */
  lemma {:induction false} LogsOnlyGrow(g: History, h: History, run: string)
    requires Earlier(g, h)
    ensures LogsOf(g, run) <= LogsOf(h, run)
  {
    if g != h {
      LogsOnlyGrow(g, h.past, run);
    }
  }

  /** The training event the metrics show is the run's last row in its table. */
  lemma {:induction false} MetricsShowLastRow(h: History, run: string)
    ensures if LastTraining(h, run).None? then forall t :: t in TrainingsIn(h) ==> t.run != run
            else exists i :: 0 <= i < |TrainingsIn(h)| && TrainingsIn(h)[i] == LastTraining(h, run).value &&
                             LastTraining(h, run).value.run == run &&
                             (forall j :: i < j < |TrainingsIn(h)| ==> TrainingsIn(h)[j].run != run)
  {
    if h.After? {
      MetricsShowLastRow(h.past, run);
      var before := TrainingsIn(h.past);
      if h.last.Trained? && h.last.training.run == run {
        assert TrainingsIn(h)[|before|] == h.last.training;
      } else if LastTraining(h, run).Some? {
        var i :| 0 <= i < |before| && before[i] == LastTraining(h, run).value &&
                 (forall j :: i < j < |before| ==> before[j].run != run);
        assert TrainingsIn(h)[i] == before[i];
      }
    }
  }

  /** The artifact the audit shows is the run's last row in its table. */
  lemma {:induction false} AuditShowsLastRow(h: History, run: string)
    ensures if LastArtifact(h, run).None? then forall a :: a in ArtifactsIn(h) ==> a.run != run
            else exists i :: 0 <= i < |ArtifactsIn(h)| && ArtifactsIn(h)[i] == LastArtifact(h, run).value &&
                             LastArtifact(h, run).value.run == run &&
                             (forall j :: i < j < |ArtifactsIn(h)| ==> ArtifactsIn(h)[j].run != run)
  {
    if h.After? {
      AuditShowsLastRow(h.past, run);
      var before := ArtifactsIn(h.past);
      if h.last.Published? && h.last.artifact.run == run {
        assert ArtifactsIn(h)[|before|] == h.last.artifact;
      } else if LastArtifact(h, run).Some? {
        var i :| 0 <= i < |before| && before[i] == LastArtifact(h, run).value &&
                 (forall j :: i < j < |before| ==> before[j].run != run);
        assert ArtifactsIn(h)[i] == before[i];
      }
    }
  }

  lemma {:induction false} ArtifactRuns(h: History)
    requires Legal(h)
    ensures forall a :: a in ArtifactsIn(h) ==> HasRun(h, a.run)
  {
    if h.After? {
      ArtifactRuns(h.past);
    }
  }

  /** No artifact ever changes the reason in an audit. */
  lemma ReasonStays(h: History, run: string)
    ensures Reason in AuditOf(h, run) && AuditOf(h, run)[Reason] == NOT_RUN
  {
  }

  // ---------------------------------------------------------------- branches

  /** A branch, once there, stays under its name with the time of its first creation. */
  lemma {:induction false} BranchesStay(g: History, h: History, name: string)
    requires Earlier(g, h) && name in BranchesIn(g)
    ensures name in BranchesIn(h) && BranchesIn(h)[name].createdAt == BranchesIn(g)[name].createdAt
  {
    if g != h {
      BranchesStay(g, h.past, name);
    }
  }

  /** A branch is merged exactly when it has a note and a time of merging. */
  lemma {:induction false} MergedExactly(h: History, name: string)
    requires name in BranchesIn(h)
    ensures var b := BranchesIn(h)[name];
            && b.name == name
            && (b.status == Merged <==> b.note.Some?) && (b.status == Merged <==> b.mergedAt.Some?)
  {
    if name in BranchesIn(h.past) {
      MergedExactly(h.past, name);
    }
  }

  /** Every contract is on a known branch. */
  lemma {:induction false} ContractBranchesKnown(h: History)
    requires Legal(h)
    ensures forall c :: c in ContractsIn(h) ==> c.branch in BranchesIn(h)
  {
    if h.After? {
      ContractBranchesKnown(h.past);
      forall c | c in ContractsIn(h)
        ensures c.branch in BranchesIn(h)
      {
        BranchesStay(h.past, h, c.branch);
      }
    }
  }

  /** So is every run: its branch is that of its contract. */
  lemma {:induction false} RunBranchesKnown(h: History, run: string)
    requires Legal(h) && HasRun(h, run)
    ensures RequestOf(h, run).value.branch in BranchesIn(h)
  {
    if h.last.Requested? && h.last.request.id == run {
      ContractBranchesKnown(h.past);
    } else {
      RunBranchesKnown(h.past, run);
    }
    BranchesStay(h.past, h, RequestOf(h, run).value.branch);
  }
}
