/** The public credit ledger: accounts and usage events changed by atomic transactions. */
module CreditLedger {
  import opened Text
  import opened Sorting

  // ---------------------------------------------------------------- normalising arguments

  /** Whitespace as text stripping sees it. */
  predicate IsSpace(c: char) {
    var n := c as int;
    || 0x09 <= n <= 0x0D || 0x1C <= n <= 0x20 || n == 0x85 || n == 0xA0 || n == 0x1680
    || 0x2000 <= n <= 0x200A || n == 0x2028 || n == 0x2029 || n == 0x202F || n == 0x205F || n == 0x3000
  }

  function StripLeft(s: string): string {
    if s != "" && IsSpace(s[0]) then StripLeft(s[1..]) else s
  }

  function StripRight(s: string): string {
    if s != "" && IsSpace(s[|s| - 1]) then StripRight(s[..|s| - 1]) else s
  }

  function Strip(s: string): string {
    StripRight(StripLeft(s))
  }

  predicate Blank(s: string) {
    forall i :: 0 <= i < |s| ==> IsSpace(s[i])
  }

  const MAX_CALLER_LENGTH := 128

  datatype Problem = CallerMissing | CallerTooLong | CountNotPositive | ToolMissing | CreditExhausted | DuplicateEvent

  /** The account id of a caller; nothing when it is blank or too long. */
  function Normalize(caller: string): Option<string> {
    var s := Strip(caller);
    if s == "" || |s| > MAX_CALLER_LENGTH then None else Some(s)
  }

  function CallerProblem(caller: string): Problem {
    if Strip(caller) == "" then CallerMissing else CallerTooLong
  }

  lemma {:induction false} StripLeftIgnores(w: string, s: string)
    requires Blank(w)
    ensures StripLeft(w + s) == StripLeft(s)
  {
    if w == "" {
      assert w + s == s;
    } else {
      assert (w + s)[1..] == w[1..] + s && (w + s)[0] == w[0];
      StripLeftIgnores(w[1..], s);
    }
  }

  lemma {:induction false} StripRightIgnores(s: string, w: string)
    requires Blank(w)
    ensures StripRight(s + w) == StripRight(s)
  {
    if w == "" {
      assert s + w == s;
    } else {
      var n := |w| - 1;
      assert (s + w)[..|s + w| - 1] == s + w[..n] && (s + w)[|s + w| - 1] == w[n];
      StripRightIgnores(s, w[..n]);
    }
  }

  lemma {:induction false} StripLeftAppend(s: string, w: string)
    requires Blank(w)
    ensures if Blank(s) then Blank(StripLeft(s + w)) else StripLeft(s + w) == StripLeft(s) + w
  {
    if s == "" {
      assert s + w == w;
      StripLeftIgnores(w, "");
      assert w + "" == w;
    } else if IsSpace(s[0]) {
      assert (s + w)[1..] == s[1..] + w && (s + w)[0] == s[0];
      StripLeftAppend(s[1..], w);
      assert Blank(s) <==> Blank(s[1..]) by {
        assert forall i :: 0 < i < |s| ==> s[i] == s[1..][i - 1];
      }
    } else {
      assert (s + w)[0] == s[0];
    }
  }

  lemma {:induction false} BlankStripsAway(s: string)
    requires Blank(s)
    ensures StripRight(s) == "" && StripLeft(s) == ""
  {
    if s != "" {
      BlankStripsAway(s[..|s| - 1]);
      StripLeftIgnores(s, "");
      assert s + "" == s;
    }
  }

  /** Surrounding whitespace never reaches the account id. */
  lemma SurroundingSpaceIgnored(before: string, text: string, after: string)
    requires Blank(before) && Blank(after)
    ensures Strip(before + text + after) == Strip(text)
  {
    assert before + text + after == before + (text + after);
    StripLeftIgnores(before, text + after);
    StripLeftAppend(text, after);
    if Blank(text) {
      BlankStripsAway(StripLeft(text + after));
      BlankStripsAway(text);
      assert StripRight("") == "";
    } else {
      StripRightIgnores(StripLeft(text), after);
    }
  }

  lemma {:induction false} StripLeftExact(s: string) returns (before: string)
    ensures Blank(before) && s == before + StripLeft(s)
    ensures StripLeft(s) == "" || !IsSpace(StripLeft(s)[0])
  {
    before := "";
    if s != "" && IsSpace(s[0]) {
      before := StripLeftExact(s[1..]);
      before := [s[0]] + before;
      assert s == [s[0]] + s[1..];
    }
  }

  lemma {:induction false} StripRightExact(s: string) returns (after: string)
    ensures Blank(after) && s == StripRight(s) + after
    ensures StripRight(s) == "" || !IsSpace(StripRight(s)[|StripRight(s)| - 1])
  {
    after := "";
    if s != "" && IsSpace(s[|s| - 1]) {
      var t, c := s[..|s| - 1], s[|s| - 1];
      var rest := StripRightExact(t);
      after := rest + [c];
      AppendAssociative(StripRight(t), rest, [c]);
      assert s == t + [c];
    } else {
      assert s + "" == s;
    }
  }

  /** Nothing but surrounding whitespace is lost, and all of it is. */
  lemma StripExact(s: string) returns (before: string, after: string)
    ensures Blank(before) && Blank(after) && s == before + Strip(s) + after
    ensures Strip(s) == "" || (!IsSpace(Strip(s)[0]) && !IsSpace(Strip(s)[|Strip(s)| - 1]))
  {
    before := StripLeftExact(s);
    after := StripRightExact(StripLeft(s));
    assert s == before + Strip(s) + after;
  }

  // ---------------------------------------------------------------- tables and calls

  datatype Account = Account(tag: Option<string>, limit: int, remaining: int, createdAt: string, updatedAt: string)

  datatype Usage = Usage(id: string, caller: string, tool: string, runs: int, metadata: string, createdAt: string)

  datatype Ledger = Ledger(accounts: map<string, Account>, usage: seq<Usage>)

  datatype Call =
    | Claim(caller: string, tag: Option<string>, limit: int, now: string)
    | Consume(caller: string, tool: string, runs: int, metadata: string, limit: int, now: string, eventId: string)

  datatype Reply = Rejected(problem: Problem) | Claimed(account: Account) | Consumed(account: Account, event: Usage)

  predicate HasEvent(usage: seq<Usage>, id: string) {
    exists i :: 0 <= i < |usage| && usage[i].id == id
  }

  /** What is wrong with a call's arguments, before any table is looked at. */
  function ArgumentProblem(c: Call): Option<Problem> {
    if Normalize(c.caller).None? then Some(CallerProblem(c.caller))
    else if c.Consume? && c.runs <= 0 then Some(CountNotPositive)
    else if c.limit <= 0 then Some(CountNotPositive)
    else if c.Consume? && Strip(c.tool) == "" then Some(ToolMissing)
    else None
  }

  function Opened(c: Call, tag: Option<string>): Account {
    Account(tag, c.limit, c.limit, c.now, c.now)
  }

  /** The effect and the reply of one call. */
  function Step(l: Ledger, c: Call): (Ledger, Reply) {
    if ArgumentProblem(c).Some? then (l, Rejected(ArgumentProblem(c).value))
    else
      var id := Normalize(c.caller).value;
      match c
      case Claim(_, tag, _, _) =>
        var account := if id !in l.accounts then Opened(c, tag)
                       else if tag.None? then l.accounts[id]
                       else l.accounts[id].(tag := tag);
        (l.(accounts := l.accounts[id := account]), Claimed(account))
      case Consume(_, tool, runs, metadata, _, now, eventId) =>
        var account := if id in l.accounts then l.accounts[id] else Opened(c, None);
        if account.remaining < runs then (l, Rejected(CreditExhausted))
        else if HasEvent(l.usage, eventId) then (l, Rejected(DuplicateEvent))
        else
          var updated := account.(remaining := account.remaining - runs, updatedAt := now);
          var event := Usage(eventId, id, tool, runs, metadata, now);
          (Ledger(l.accounts[id := updated], l.usage + [event]), Consumed(updated, event))
  }

  /** The usage rows of one caller, in the order they were written. */
  function EventsOf(usage: seq<Usage>, id: string): seq<Usage> {
    if usage == [] then [] else (if usage[0].caller == id then [usage[0]] else []) + EventsOf(usage[1..], id)
  }

  function Total(usage: seq<Usage>): int {
    if usage == [] then 0 else usage[0].runs + Total(usage[1..])
  }

  predicate Newer(a: Usage, b: Usage) {
    if a.createdAt != b.createdAt then LexLeq(b.createdAt, a.createdAt) else LexLeq(b.id, a.id)
  }

  // ---------------------------------------------------------------- the store

  class Store {
    var accounts: map<string, Account>
    var usage: seq<Usage>

    function View(): Ledger
      reads this
    {
      Ledger(accounts, usage)
    }

    constructor ()
      ensures View() == Ledger(map[], [])
    {
      accounts, usage := map[], [];
    }

    method EnsureAccount(caller: string, tag: Option<string>, limit: int, now: string) returns (reply: Reply)
      modifies this
      ensures (View(), reply) == Step(old(View()), Claim(caller, tag, limit, now))
    {
      var normalized := Normalize(caller);
      if normalized.None? {
        return Rejected(CallerProblem(caller));
      }
      if limit <= 0 {
        return Rejected(CountNotPositive);
      }
      var id := normalized.value;
      if id !in accounts {
        accounts := accounts[id := Account(tag, limit, limit, now, now)];
      } else if tag.Some? {
        accounts := accounts[id := accounts[id].(tag := tag)];
      }
      assert id in old(accounts) && tag.None? ==> old(accounts)[id := old(accounts)[id]] == old(accounts);
      reply := Claimed(accounts[id]);
    }

    /** One transaction: every table write before a failure is rolled back, the opened account included. */
    method ConsumeCredit(caller: string, tool: string, runs: int, metadata: string, limit: int, now: string,
                         eventId: string)
      returns (reply: Reply)
      modifies this
      ensures (View(), reply) == Step(old(View()), Consume(caller, tool, runs, metadata, limit, now, eventId))
    {
      var normalized := Normalize(caller);
      if normalized.None? {
        return Rejected(CallerProblem(caller));
      }
      if runs <= 0 || limit <= 0 {
        return Rejected(CountNotPositive);
      }
      if Strip(tool) == "" {
        return Rejected(ToolMissing);
      }
      var id := normalized.value;
      var savedAccounts, savedUsage := accounts, usage;
      if id !in accounts {
        accounts := accounts[id := Account(None, limit, limit, now, now)];
      }
      var account := accounts[id];
      if account.remaining < runs {
        accounts, usage := savedAccounts, savedUsage;
        return Rejected(CreditExhausted);
      }
      accounts := accounts[id := account.(remaining := account.remaining - runs, updatedAt := now)];
      assert accounts == savedAccounts[id := account.(remaining := account.remaining - runs, updatedAt := now)];
      if exists i :: 0 <= i < |usage| && usage[i].id == eventId {
        accounts, usage := savedAccounts, savedUsage;
        return Rejected(DuplicateEvent);
      }
      var event := Usage(eventId, id, tool, runs, metadata, now);
      usage := usage + [event];
      reply := Consumed(accounts[id], event);
    }

    /** The events of a caller, newest first, ties by larger id. */
    method ListUsage(caller: string) returns (events: Option<seq<Usage>>)
      ensures events.None? <==> Normalize(caller).None?
      ensures events.Some? ==> events.value == StableSort(EventsOf(usage, Normalize(caller).value), Newer)
    {
      var normalized := Normalize(caller);
      if normalized.None? {
        return None;
      }
      events := Some(StableSort(EventsOf(usage, normalized.value), Newer));
    }
  }

  // ---------------------------------------------------------------- the listing

  lemma NewerTransitive(a: Usage, b: Usage, c: Usage)
    requires Newer(a, b) && Newer(b, c)
    ensures Newer(a, c)
  {
    if a.createdAt == b.createdAt == c.createdAt {
      LexTransitive(c.id, b.id, a.id);
    } else if a.createdAt != b.createdAt && b.createdAt != c.createdAt {
      LexTransitive(c.createdAt, b.createdAt, a.createdAt);
      if a.createdAt == c.createdAt {
        LexAntisymmetric(a.createdAt, b.createdAt);
      }
    }
  }

  lemma NewerIsTotalPreorder()
    ensures TotalPreorder(Newer)
  {
    forall a, b
      ensures Newer(a, b) || Newer(b, a)
    {
      LexTotal(a.createdAt, b.createdAt);
      LexTotal(a.id, b.id);
    }
    forall a, b, c | Newer(a, b) && Newer(b, c)
      ensures Newer(a, c)
    {
      NewerTransitive(a, b, c);
    }
  }

  lemma {:induction false} TotalOfInsert(e: Usage, usage: seq<Usage>)
    ensures Total(Insert(e, usage, Newer)) == e.runs + Total(usage)
  {
    if usage == [] || Newer(e, usage[0]) {
      assert ([e] + usage)[1..] == usage;
    } else {
      TotalOfInsert(e, usage[1..]);
      assert ([usage[0]] + Insert(e, usage[1..], Newer))[1..] == Insert(e, usage[1..], Newer);
    }
  }

  lemma {:induction false} TotalOfSorted(usage: seq<Usage>)
    ensures Total(StableSort(usage, Newer)) == Total(usage)
  {
    if usage != [] {
      TotalOfSorted(usage[1..]);
      TotalOfInsert(usage[0], StableSort(usage[1..], Newer));
    }
  }

  lemma {:induction false} EventsOfSnoc(usage: seq<Usage>, e: Usage, id: string)
    ensures EventsOf(usage + [e], id) == EventsOf(usage, id) + (if e.caller == id then [e] else [])
  {
    if usage == [] {
      assert usage + [e] == [e] && [e][1..] == [];
    } else {
      EventsOfSnoc(usage[1..], e, id);
      assert (usage + [e])[1..] == usage[1..] + [e];
    }
  }

  lemma {:induction false} TotalSnoc(usage: seq<Usage>, e: Usage)
    ensures Total(usage + [e]) == Total(usage) + e.runs
  {
    if usage == [] {
      assert usage + [e] == [e] && [e][1..] == [];
    } else {
      TotalSnoc(usage[1..], e);
      assert (usage + [e])[1..] == usage[1..] + [e];
    }
  }

  // ---------------------------------------------------------------- what every call keeps

  /** Every balance is the limit less the recorded runs, and every row belongs to an account. */
  ghost predicate Consistent(l: Ledger) {
    (forall id :: id in l.accounts ==> Balanced(l, id)) && RowsSound(l.usage, l.accounts.Keys)
  }

  /** Rows record positive counts of existing accounts under distinct ids. */
  ghost predicate RowsSound(usage: seq<Usage>, callers: set<string>) {
    && (forall i :: 0 <= i < |usage| ==> usage[i].runs > 0 && usage[i].caller in callers)
    && (forall i, j :: 0 <= i < j < |usage| ==> usage[i].id != usage[j].id)
  }

  ghost predicate Balanced(l: Ledger, id: string)
    requires id in l.accounts
  {
    var a := l.accounts[id];
    0 <= a.remaining <= a.limit && 0 < a.limit && a.remaining + Total(EventsOf(l.usage, id)) == a.limit
  }

  lemma {:induction false} NoEventsOf(usage: seq<Usage>, id: string)
    requires forall i :: 0 <= i < |usage| ==> usage[i].caller != id
    ensures EventsOf(usage, id) == []
  {
    if usage != [] {
      NoEventsOf(usage[1..], id);
    }
  }

  lemma ConsumeBalances(l: Ledger, c: Call, id: string)
    requires Consistent(l) && Step(l, c).1.Consumed? && id in Step(l, c).0.accounts
    ensures Balanced(Step(l, c).0, id)
  {
    var e := Step(l, c).1.event;
    EventsOfSnoc(l.usage, e, id);
    if id in l.accounts {
      assert Balanced(l, id);
    } else {
      NoEventsOf(l.usage, id);
    }
    if e.caller == id {
      TotalSnoc(EventsOf(l.usage, id), e);
    } else {
      assert EventsOf(l.usage, id) + [] == EventsOf(l.usage, id);
    }
  }

  lemma ClaimBalances(l: Ledger, c: Call, id: string)
    requires Consistent(l) && Step(l, c).1.Claimed? && id in Step(l, c).0.accounts
    ensures Balanced(Step(l, c).0, id)
  {
    if id in l.accounts {
      assert Balanced(l, id);
    } else {
      NoEventsOf(l.usage, id);
    }
  }

  lemma ConsumeAddsOneRow(l: Ledger, c: Call)
    requires Step(l, c).1.Consumed?
    ensures Step(l, c).0.usage == l.usage + [Step(l, c).1.event]
    ensures Step(l, c).0.accounts.Keys == l.accounts.Keys + {Step(l, c).1.event.caller}
    ensures Step(l, c).1.event.runs > 0 && !HasEvent(l.usage, Step(l, c).1.event.id)
  {
  }

  lemma RowsStaySound(usage: seq<Usage>, callers: set<string>, e: Usage)
    requires RowsSound(usage, callers) && e.runs > 0 && !HasEvent(usage, e.id)
    ensures RowsSound(usage + [e], callers + {e.caller})
  {
  }

  /** A rejected call changes nothing at all, not even by opening an account. */
  lemma StepConsistent(l: Ledger, c: Call)
    requires Consistent(l)
    ensures Consistent(Step(l, c).0)
    ensures Step(l, c).1.Rejected? ==> Step(l, c).0 == l
  {
    var (m, reply) := Step(l, c);
    match reply
    case Rejected(_) =>
    case Claimed(_) =>
      forall id | id in m.accounts
        ensures Balanced(m, id)
      {
        ClaimBalances(l, c, id);
      }
    case Consumed(_, event) =>
      forall id | id in m.accounts
        ensures Balanced(m, id)
      {
        ConsumeBalances(l, c, id);
      }
      ConsumeAddsOneRow(l, c);
      RowsStaySound(l.usage, l.accounts.Keys, event);
  }

  /** Ids that differ in surrounding whitespace are one caller, whatever the call. */
  lemma OneAccountPerCaller(l: Ledger, c: Call, before: string, after: string)
    requires Blank(before) && Blank(after)
    ensures Step(l, c.(caller := before + c.caller + after)) == Step(l, c)
  {
    SurroundingSpaceIgnored(before, c.caller, after);
  }

  // ---------------------------------------------------------------- whole runs

  /** The ledger after a run of calls on empty tables. */
  function Run(calls: seq<Call>): Ledger {
    if calls == [] then Ledger(map[], [])
    else Step(Run(calls[..|calls| - 1]), calls[|calls| - 1]).0
  }

  /** The calls of a run that were not rejected. */
  function Accepted(calls: seq<Call>): seq<Call> {
    if calls == [] then []
    else
      var n := |calls| - 1;
      Accepted(calls[..n]) + (if Step(Run(calls[..n]), calls[n]).1.Rejected? then [] else [calls[n]])
  }

  /** The calls made by one caller. */
  function CallsOf(calls: seq<Call>, id: string): seq<Call> {
    if calls == [] then []
    else
      var n := |calls| - 1;
      CallsOf(calls[..n], id) + (if Normalize(calls[n].caller) == Some(id) then [calls[n]] else [])
  }

  function RunsTaken(calls: seq<Call>): int {
    if calls == [] then 0
    else
      var n := |calls| - 1;
      RunsTaken(calls[..n]) + (if calls[n].Consume? then calls[n].runs else 0)
  }

  lemma {:induction false} RunConsistent(calls: seq<Call>)
    ensures Consistent(Run(calls))
  {
    if calls != [] {
      RunConsistent(calls[..|calls| - 1]);
      StepConsistent(Run(calls[..|calls| - 1]), calls[|calls| - 1]);
    }
  }

  /** Rejected calls leave no trace: dropping them gives the same ledger. */
  lemma {:induction false} RejectedLeaveNoTrace(calls: seq<Call>)
    ensures Run(Accepted(calls)) == Run(calls)
    ensures Accepted(Accepted(calls)) == Accepted(calls)
  {
    if calls != [] {
      var n := |calls| - 1;
      RejectedLeaveNoTrace(calls[..n]);
      var before := Accepted(calls[..n]);
      if Step(Run(calls[..n]), calls[n]).1.Rejected? {
        assert before + [] == before;
        RunConsistent(calls[..n]);
        StepConsistent(Run(calls[..n]), calls[n]);
      } else {
        assert (before + [calls[n]])[..|before + [calls[n]]| - 1] == before;
      }
    }
  }

  /** The part of a ledger one caller can see. */
  function Project(l: Ledger, id: string): Ledger {
    Ledger(map k | k in l.accounts && k == id :: l.accounts[k], EventsOf(l.usage, id))
  }

  lemma {:induction false} EventsOfCaller(usage: seq<Usage>, id: string, event: string)
    requires HasEvent(EventsOf(usage, id), event)
    ensures HasEvent(usage, event)
  {
    var head := if usage[0].caller == id then [usage[0]] else [];
    var i :| 0 <= i < |EventsOf(usage, id)| && EventsOf(usage, id)[i].id == event;
    if i < |head| {
      assert usage[0].id == event;
    } else {
      assert EventsOf(usage[1..], id)[i - |head|].id == event;
      EventsOfCaller(usage[1..], id, event);
      var j :| 0 <= j < |usage[1..]| && usage[1..][j].id == event;
      assert usage[j + 1].id == event;
    }
  }

  lemma StepProjects(l: Ledger, c: Call, id: string)
    requires !Step(l, c).1.Rejected?
    ensures if Normalize(c.caller) == Some(id)
            then Step(Project(l, id), c) == (Project(Step(l, c).0, id), Step(l, c).1)
            else Project(Step(l, c).0, id) == Project(l, id)
  {
    if Step(l, c).1.Consumed? {
      ConsumeAddsOneRow(l, c);
      var e := Step(l, c).1.event;
      EventsOfSnoc(l.usage, e, id);
      assert EventsOf(l.usage, id) + [] == EventsOf(l.usage, id);
      if HasEvent(EventsOf(l.usage, id), e.id) {
        EventsOfCaller(l.usage, id, e.id);
      }
    }
    if Normalize(c.caller) == Some(id) {
      assert Step(Project(l, id), c).0.accounts == Project(Step(l, c).0, id).accounts;
    } else {
      assert Project(Step(l, c).0, id).accounts == Project(l, id).accounts;
    }
  }

  /** What a caller sees is decided by the caller's own accepted calls; no other caller matters. */
  lemma {:induction false} CallersAreIsolated(calls: seq<Call>, id: string)
    ensures Project(Run(calls), id) == Run(CallsOf(Accepted(calls), id))
  {
    if calls == [] {
      assert Project(Run(calls), id).accounts == map[];
    } else {
      var n := |calls| - 1;
      CallersAreIsolated(calls[..n], id);
      var before := Accepted(calls[..n]);
      var l := Run(calls[..n]);
      if Step(l, calls[n]).1.Rejected? {
        assert before + [] == before;
        RunConsistent(calls[..n]);
        StepConsistent(l, calls[n]);
      } else {
        StepProjects(l, calls[n], id);
        assert CallsOf(before, id) + [] == CallsOf(before, id);
      }
    }
  }

  /** What one more accepted call does to the account of `id`. */
  predicate AccountMoved(l: Ledger, m: Ledger, c: Call, own: bool, id: string) {
    && (id in m.accounts <==> id in l.accounts || own)
    && (id in m.accounts ==>
          && m.accounts[id].limit == (if id in l.accounts then l.accounts[id].limit else c.limit)
          && m.accounts[id].remaining ==
             (if id in l.accounts then l.accounts[id].remaining else c.limit)
             - (if own && c.Consume? then c.runs else 0))
  }

  /** The account of `id` is what the accepted calls of `id`, listed in `own`, made it. */
  ghost predicate Explained(l: Ledger, own: seq<Call>, id: string) {
    && (id in l.accounts <==> own != [])
    && (id in l.accounts ==>
          l.accounts[id].limit == own[0].limit && l.accounts[id].remaining == own[0].limit - RunsTaken(own))
  }

  lemma MoveExplained(l: Ledger, m: Ledger, own: seq<Call>, c: Call, mine: bool, id: string)
    requires Explained(l, own, id) && AccountMoved(l, m, c, mine, id)
    ensures Explained(m, own + (if mine then [c] else []), id)
  {
    assert own + [] == own;
  }

  lemma StepExplained(l: Ledger, own: seq<Call>, c: Call, id: string)
    requires Explained(l, own, id) && !Step(l, c).1.Rejected?
    ensures Explained(Step(l, c).0, own + (if Normalize(c.caller) == Some(id) then [c] else []), id)
  {
    MoveExplained(l, Step(l, c).0, own, c, Normalize(c.caller) == Some(id), id);
  }

  lemma {:induction false} RunExplained(calls: seq<Call>, id: string)
    ensures Explained(Run(calls), CallsOf(Accepted(calls), id), id)
  {
    if calls != [] {
      var n := |calls| - 1;
      var before := Accepted(calls[..n]);
      RunExplained(calls[..n], id);
      if Step(Run(calls[..n]), calls[n]).1.Rejected? {
        assert before + [] == before;
        RunConsistent(calls[..n]);
        StepConsistent(Run(calls[..n]), calls[n]);
      } else {
        StepExplained(Run(calls[..n]), CallsOf(before, id), calls[n], id);
      }
    }
  }

  /** The limit is fixed by a caller's first accepted call; only accepted consumption lowers the balance. */
  lemma Balance(calls: seq<Call>, id: string)
    ensures id in Run(calls).accounts <==> CallsOf(Accepted(calls), id) != []
    ensures id in Run(calls).accounts ==>
              var own := CallsOf(Accepted(calls), id);
              var a := Run(calls).accounts[id];
              a.limit == own[0].limit && 0 <= a.remaining == a.limit - RunsTaken(own)
  {
    RunExplained(calls, id);
    RunConsistent(calls);
    if id in Run(calls).accounts {
      assert Balanced(Run(calls), id);
    }
  }

  /** The listing is complete, newest first, and accounts for every run taken from the balance. */
  lemma ListingExplainsBalance(calls: seq<Call>, id: string)
    requires id in Run(calls).accounts
    ensures var l := Run(calls);
            var listed := StableSort(EventsOf(l.usage, id), Newer);
            && Sorted(listed, Newer)
            && multiset(listed) == multiset(EventsOf(l.usage, id))
            && Total(listed) == l.accounts[id].limit - l.accounts[id].remaining
  {
    RunConsistent(calls);
    assert Balanced(Run(calls), id);
    NewerIsTotalPreorder();
    StableSortSorts(EventsOf(Run(calls).usage, id), Newer);
    TotalOfSorted(EventsOf(Run(calls).usage, id));
  }
}
