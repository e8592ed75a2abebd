/** Column by column, what the compute tables show: every claim is about the rows, not about how they were written. */
module CapsuleColumns {
  import opened Text
  import opened Capsules
  import opened ComputeStore

  /** The last row of a run in its table. */
  function LastTrainingRow(rows: seq<Training>, run: string): (row: Option<Training>)
    ensures row.Some? ==> row.value in rows && row.value.run == run
    ensures row.None? ==> forall t :: t in rows ==> t.run != run
  {
    if rows == [] then None
    else
      var n := |rows| - 1;
      if rows[n].run == run then Some(rows[n]) else LastTrainingRow(rows[..n], run)
  }

  function LastArtifactRow(rows: seq<Artifact>, run: string): (row: Option<Artifact>)
    ensures row.Some? ==> row.value in rows && row.value.run == run
    ensures row.None? ==> forall a :: a in rows ==> a.run != run
  {
    if rows == [] then None
    else
      var n := |rows| - 1;
      if rows[n].run == run then Some(rows[n]) else LastArtifactRow(rows[..n], run)
  }

  predicate HoldsModel(a: Artifact) {
    a.kind == Model || a.kind == Checkpoint || a.kind == ModelCheckpoint
  }

  /** The last row of a run that holds a model. */
  function LastModelRow(rows: seq<Artifact>, run: string): (row: Option<Artifact>)
    ensures row.Some? ==> row.value in rows && row.value.run == run && HoldsModel(row.value)
    ensures row.None? ==> forall a :: a in rows && a.run == run ==> !HoldsModel(a)
  {
    if rows == [] then None
    else
      var n := |rows| - 1;
      if rows[n].run == run && HoldsModel(rows[n]) then Some(rows[n]) else LastModelRow(rows[..n], run)
  }

  lemma LastTrainingSnoc(rows: seq<Training>, row: Training, run: string)
    ensures LastTrainingRow(rows + [row], run) == if row.run == run then Some(row) else LastTrainingRow(rows, run)
  {
    assert (rows + [row])[..|rows|] == rows;
  }

  lemma LastArtifactSnoc(rows: seq<Artifact>, row: Artifact, run: string)
    ensures LastArtifactRow(rows + [row], run) == if row.run == run then Some(row) else LastArtifactRow(rows, run)
    ensures LastModelRow(rows + [row], run) ==
            if row.run == run && HoldsModel(row) then Some(row) else LastModelRow(rows, run)
  {
    assert (rows + [row])[..|rows|] == rows;
  }

  lemma {:induction false} LastTrainingOf(h: History, run: string)
    ensures LastTraining(h, run) == LastTrainingRow(TrainingsIn(h), run)
  {
    if h.After? {
      LastTrainingOf(h.past, run);
      if h.last.Trained? {
        LastTrainingSnoc(TrainingsIn(h.past), h.last.training, run);
      } else {
        assert TrainingsIn(h) == TrainingsIn(h.past);
      }
    }
  }

  lemma {:induction false} LastArtifactOf(h: History, run: string)
    ensures LastArtifact(h, run) == LastArtifactRow(ArtifactsIn(h), run)
    ensures LastModel(h, run) == LastModelRow(ArtifactsIn(h), run)
  {
    if h.After? {
      LastArtifactOf(h.past, run);
      if h.last.Published? {
        LastArtifactSnoc(ArtifactsIn(h.past), h.last.artifact, run);
      } else {
        assert ArtifactsIn(h) == ArtifactsIn(h.past);
      }
    }
  }

  predicate ShowsText(v: Value, o: Option<string>) {
    (o.Some? ==> v == Text(o.value)) && (o.None? ==> v == Null)
  }

  predicate ShowsNumber(v: Value, o: Option<real>) {
    (o.Some? ==> v == Number(o.value)) && (o.None? ==> v == Null)
  }

  predicate ShowsWhole(v: Value, o: Option<int>) {
    (o.Some? ==> v == Whole(o.value)) && (o.None? ==> v == Null)
  }

  /** The six metrics of a run are the columns of its last training row, nulls included; none without a row. */
  predicate MetricsShow(m: map<Field, Value>, row: Option<Training>) {
    if row.None? then m == map[]
    else
      && m.Keys == {LatestPhase, RolloutCount, RewardMean, SuccessRate, CostBurnUsd, GpuName}
      && m[LatestPhase] == Text(row.value.phase)
      && ShowsWhole(m[RolloutCount], row.value.rollouts)
      && ShowsNumber(m[RewardMean], row.value.reward)
      && ShowsNumber(m[SuccessRate], row.value.success)
      && ShowsNumber(m[CostBurnUsd], row.value.cost)
      && ShowsText(m[GpuName], row.value.gpu)
  }

  /** The audit of a run is the columns of its last artifact row beside the first reason. */
  predicate AuditShows(m: map<Field, Value>, row: Option<Artifact>) {
    && Reason in m && m[Reason] == Text("not_run")
    && PassedFlag in m && m[PassedFlag] == Flag(row.Some? && row.value.passed)
    && (row.None? ==> m.Keys == {PassedFlag, Reason})
    && (row.Some? ==>
          && m.Keys == {PassedFlag, Reason, GpuName, CostUsd, RewardDelta, SuccessRateDelta, ArtifactUri}
          && ShowsText(m[GpuName], row.value.gpu)
          && ShowsNumber(m[CostUsd], row.value.cost)
          && ShowsNumber(m[RewardDelta], row.value.rewardDelta)
          && ShowsNumber(m[SuccessRateDelta], row.value.successDelta)
          && m[ArtifactUri] == Text(row.value.uri))
  }

  lemma MetricsColumns(h: History, run: string)
    ensures MetricsShow(MetricsOf(h, run), LastTrainingRow(TrainingsIn(h), run))
  {
    LastTrainingOf(h, run);
  }

  lemma AuditedShown(a: Artifact)
    ensures AuditShows(Audited(a)[Reason := NOT_RUN], Some(a))
  {
    assert Audited(a).Keys == {PassedFlag, GpuName, CostUsd, RewardDelta, SuccessRateDelta, ArtifactUri};
  }

  lemma AuditColumns(h: History, run: string)
    ensures AuditShows(AuditOf(h, run), LastArtifactRow(ArtifactsIn(h), run))
  {
    LastArtifactOf(h, run);
    if LastArtifact(h, run).Some? {
      AuditedShown(LastArtifact(h, run).value);
    }
  }

  /** The model address of a run is that of its last artifact row that holds a model. */
  lemma ModelColumn(h: History, run: string)
    requires HasRun(h, run)
    ensures var row := LastModelRow(ArtifactsIn(h), run);
            CapsuleOf(h, run).modelUri == if row.Some? then Some(row.value.uri) else None
  {
    LastArtifactOf(h, run);
  }

  /** In every store the columns of a run are those of its last rows. */
  lemma StoreColumns(s: Store, run: string)
    requires s.Valid() && run in s.capsules
    ensures MetricsShow(s.capsules[run].metrics, LastTrainingRow(s.trainings, run))
    ensures AuditShows(s.capsules[run].audit, LastArtifactRow(s.artifacts, run))
    ensures var row := LastModelRow(s.artifacts, run);
            s.capsules[run].modelUri == if row.Some? then Some(row.value.uri) else None
  {
    s.HoldsProjections();
    MetricsColumns(s.history, run);
    AuditColumns(s.history, run);
    ModelColumn(s.history, run);
  }

  // ---------------------------------------------------------------- rows

  predicate DistinctUsers(users: seq<User>) {
    forall i, j :: 0 <= i < j < |users| ==> users[i].id != users[j].id && users[i].email != users[j].email
  }

  predicate DistinctApprovals(rows: seq<Approval>) {
    forall i, j :: 0 <= i < j < |rows| ==> rows[i].id != rows[j].id && rows[i].token != rows[j].token
  }

  predicate DistinctRows(t: Tables) {
    && DistinctUsers(t.users) && DistinctApprovals(t.approvals)
    && (forall i, j :: 0 <= i < j < |t.contracts| ==> t.contracts[i].id != t.contracts[j].id)
    && (forall i, j :: 0 <= i < j < |t.trainings| ==> t.trainings[i].id != t.trainings[j].id)
    && (forall i, j :: 0 <= i < j < |t.artifacts| ==> t.artifacts[i].id != t.artifacts[j].id)
  }

  lemma UsersStayDistinct(users: seq<User>, u: User)
    requires DistinctUsers(users) && !UserTaken(users, u.id, u.email)
    ensures DistinctUsers(users + [u])
  {
  }

  lemma ApprovalsStayDistinct(rows: seq<Approval>, a: Approval)
    requires DistinctApprovals(rows) && !ApprovalTaken(rows, a.id, a.token)
    ensures DistinctApprovals(rows + [a])
  {
  }

  lemma AcceptedKeepsDistinct(t: Tables, e: Event)
    requires DistinctRows(t) && Accepted(t, e)
    ensures DistinctRows(Apply(t, e))
  {
    if e.UserAdded? {
      UsersStayDistinct(t.users, e.user);
    } else if e.Approved? {
      ApprovalsStayDistinct(t.approvals, e.approval);
    }
  }

  /** Keys and unique columns of the tables stay distinct. */
  lemma {:induction false} RowsDistinct(h: History)
    requires Happened(h)
    ensures DistinctRows(Replay(h))
  {
    if h.After? {
      RowsDistinct(h.past);
      AcceptedKeepsDistinct(Replay(h.past), h.last);
    }
  }

  /** What the gate means for money: somebody whose row says admin signed a positive budget and runtime for this run. */
  lemma PaidOnlyWhenSigned(s: Store, run: string)
    requires s.Valid() && run in s.capsules && s.capsules[run].status == Running
    ensures exists a, u ::
              && a in s.approvals && a.run == run && a.status == Signed
              && a.budget > 0.0 && a.minutes > 0 && a.provider != "" && a.token != ""
              && u in s.users && u.id == a.approvedBy && u.role == Admin
              && s.capsules[run].provider == Some(a.provider) && s.capsules[run].token == Some(a.token)
  {
    s.RunsOnlyWhenApproved(run);
    var a :| a in s.approvals && a.run == run && Authorised(a, s.users)
             && s.capsules[run].provider == Some(a.provider) && s.capsules[run].token == Some(a.token);
    var u := FindUser(s.users, a.approvedBy).value;
    assert u in s.users && u.id == a.approvedBy && u.role == Admin;
  }

  // ---------------------------------------------------------------- log lines

  /** The text of the line each event writes. */
  lemma LinesSay(e: Event)
    requires LineOf(e).Some?
    ensures var text := MessageText(LineOf(e).value.message);
            && (e.Requested? ==> text == "Run capsule created; signed approval required before paid GPU launch.")
            && (e.Launched? ==>
                  text == "Signed approval accepted for provider " + e.on.provider + "; run marked running.")
            && (e.Trained? ==>
                  text == if e.training.message != "" then e.training.message
                          else "Training phase " + e.training.phase + " recorded.")
            && LineOf(e).value.time == TimeOf(e)
  {
  }

  // ---------------------------------------------------------------- branches and versions

  /** Column by column, what creating, ensuring and merging a branch leave in its row; other rows stay. */
  lemma BranchColumns(branches: map<string, Branch>, name: string, text: string, more: string, now: string)
    ensures var row := BranchesAfter(branches, BranchCreated(name, text, more, now))[name];
            && row.name == name && row.parent == Some(text) && row.status == Active && row.snapshot == more
            && row.note.None? && row.mergedAt.None?
            && row.createdAt == if name in branches then branches[name].createdAt else now
    ensures name !in branches ==>
              var row := BranchesAfter(branches, BranchEnsured(name, now))[name];
              row == Branch(name, None, Active, "{}", None, now, None)
    ensures name in branches ==>
              var was, row := branches[name], BranchesAfter(branches, BranchMerged(name, text, now))[name];
              && row.status == Merged && row.note == Some(text) && row.mergedAt == Some(now)
              && row.name == was.name && row.parent == was.parent && row.snapshot == was.snapshot
              && row.createdAt == was.createdAt
  {
  }

  lemma OtherBranchesStay(branches: map<string, Branch>, e: Event, other: string)
    requires e.BranchCreated? || e.BranchEnsured? || e.BranchMerged?
    requires other in branches && other != e.name
    ensures other in BranchesAfter(branches, e) && BranchesAfter(branches, e)[other] == branches[other]
  {
  }

  /**
   * A version that is given and not zero is stored; otherwise the contract gets one more than the largest stored for
   * its name on its branch, or one when there is none.
   */
  lemma VersionExact(contracts: seq<Contract>, name: string, branch: string, given: Option<int>)
    ensures var v := VersionFor(contracts, name, branch, given);
            && (given.Some? && given.value != 0 ==> v == given.value)
            && (given.None? || given.value == 0 ==>
                  && (forall c :: c in contracts && c.name == name && c.branch == branch ==> c.version < v)
                  && (v == 1 ||
                      exists c :: c in contracts && c.name == name && c.branch == branch && c.version == v - 1)
                  && ((forall c :: c in contracts ==> c.name != name || c.branch != branch) ==> v == 1))
  {
    var max := MaxVersion(contracts, name, branch);
    if max.Some? {
      assert exists c :: c in contracts && SameLine(c, name, branch) && c.version == max.value;
    }
    assert forall c :: c in contracts && c.name == name && c.branch == branch ==> SameLine(c, name, branch);
  }
}
