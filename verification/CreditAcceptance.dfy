/** When the credit ledger accepts a call, and what an accepted call writes. */
module CreditAcceptance {
  import opened Text
  import opened Sorting
  import opened CreditLedger

  /** A caller is known by its id without surrounding whitespace, when that has 1 to 128 characters. */
  predicate KnownCaller(caller: string) {
    1 <= |Strip(caller)| <= 128
  }

  /** Arguments with nothing wrong before any table is looked at. */
  predicate Sound(c: Call) {
    && KnownCaller(c.caller) && c.limit > 0
    && (c.Consume? ==> c.runs > 0 && Strip(c.tool) != "")
  }

  lemma CallerKnownAs(caller: string)
    ensures Normalize(caller) == if KnownCaller(caller) then Some(Strip(caller)) else None
  {
  }

  /** A call with unsound arguments is refused whatever was called before; the first thing wrong is reported. */
  lemma UnsoundRefused(l: Ledger, c: Call)
    ensures !Sound(c) ==> Step(l, c).1.Rejected?
    ensures var r := Step(l, c).1;
            && (Strip(c.caller) == "" ==> r == Rejected(CallerMissing))
            && (|Strip(c.caller)| > 128 ==> r == Rejected(CallerTooLong))
            && (KnownCaller(c.caller) && (c.limit <= 0 || (c.Consume? && c.runs <= 0)) ==>
                  r == Rejected(CountNotPositive))
            && (KnownCaller(c.caller) && c.limit > 0 && c.Consume? && c.runs > 0 && Strip(c.tool) == "" ==>
                  r == Rejected(ToolMissing))
  {
  }

  /** The accepted calls of a caller so far. */
  function Own(calls: seq<Call>, id: string): seq<Call> {
    CallsOf(Accepted(calls), id)
  }

  /** What a caller may still take: the limit of its first accepted call, or of this one, less all it took. */
  function CreditLeft(calls: seq<Call>, c: Call): int {
    var own := Own(calls, Strip(c.caller));
    if own == [] then c.limit else own[0].limit - RunsTaken(own)
  }

  /** The event ids of the accepted consumptions so far. */
  function EventIds(calls: seq<Call>): set<string> {
    if calls == [] then {}
    else
      var n := |calls| - 1;
      EventIds(calls[..n]) + (if calls[n].Consume? then {calls[n].eventId} else {})
  }

  lemma HasEventSnoc(usage: seq<Usage>, e: Usage, id: string)
    ensures HasEvent(usage + [e], id) <==> HasEvent(usage, id) || e.id == id
  {
    if HasEvent(usage, id) {
      var i :| 0 <= i < |usage| && usage[i].id == id;
      assert (usage + [e])[i].id == id;
    }
    assert (usage + [e])[|usage|] == e;
  }

  lemma EventIdsSnoc(calls: seq<Call>, c: Call)
    ensures EventIds(calls + [c]) == EventIds(calls) + (if c.Consume? then {c.eventId} else {})
  {
    assert (calls + [c])[..|calls|] == calls;
  }

  /** An id is on a row exactly when an accepted consumption brought it. */
  lemma {:induction false} RowIdsExactly(calls: seq<Call>, event: string)
    ensures HasEvent(Run(calls).usage, event) <==> event in EventIds(Accepted(calls))
  {
    if calls != [] {
      var n := |calls| - 1;
      RowIdsExactly(calls[..n], event);
      StepRow(Run(calls[..n]), calls[n], event);
      var before := Accepted(calls[..n]);
      EventIdsSnoc(before, calls[n]);
      assert before + [] == before;
    }
  }

  lemma StepRow(l: Ledger, c: Call, event: string)
    ensures var (m, r) := Step(l, c);
            HasEvent(m.usage, event) <==> HasEvent(l.usage, event) || (!r.Rejected? && c.Consume? && c.eventId == event)
  {
    if Step(l, c).1.Consumed? {
      ConsumeAddsOneRow(l, c);
      HasEventSnoc(l.usage, Step(l, c).1.event, event);
    }
  }

  lemma ReplyOnTables(l: Ledger, c: Call, left: int)
    requires Sound(c) && c.Consume?
    requires left == if Strip(c.caller) in l.accounts then l.accounts[Strip(c.caller)].remaining else c.limit
    ensures Step(l, c).1.Rejected? <==> c.runs > left || HasEvent(l.usage, c.eventId)
    ensures c.runs > left ==> Step(l, c).1 == Rejected(CreditExhausted)
    ensures c.runs <= left && HasEvent(l.usage, c.eventId) ==> Step(l, c).1 == Rejected(DuplicateEvent)
  {
    CallerKnownAs(c.caller);
  }

  /**
   * After any calls, a sound consumption is accepted exactly when its event id is new and its runs are at most the
   * limit of the caller's first accepted call less all the caller took; too many runs are reported first.
   */
  lemma ConsumptionAcceptedExactly(calls: seq<Call>, c: Call)
    requires Sound(c) && c.Consume?
    ensures var r := Step(Run(calls), c).1;
            && (!r.Rejected? <==> c.runs <= CreditLeft(calls, c) && c.eventId !in EventIds(Accepted(calls)))
            && (c.runs > CreditLeft(calls, c) ==> r == Rejected(CreditExhausted))
            && (c.runs <= CreditLeft(calls, c) && c.eventId in EventIds(Accepted(calls)) ==>
                  r == Rejected(DuplicateEvent))
  {
    Balance(calls, Strip(c.caller));
    RowIdsExactly(calls, c.eventId);
    ReplyOnTables(Run(calls), c, CreditLeft(calls, c));
  }

  /** A claim is accepted exactly when its arguments are sound. */
  lemma ClaimAcceptedExactly(l: Ledger, c: Call)
    requires c.Claim?
    ensures !Step(l, c).1.Rejected? <==> Sound(c)
  {
    CallerKnownAs(c.caller);
  }

  /** The last credit can be used, and a first consumption may take the whole limit. */
  lemma WholeLimitUsable(calls: seq<Call>, c: Call)
    requires Sound(c) && c.Consume? && c.eventId !in EventIds(Accepted(calls)) && c.runs == CreditLeft(calls, c)
    ensures var (m, r) := Step(Run(calls), c);
            && r.Consumed? && r.account.remaining == 0
            && Strip(c.caller) in m.accounts && m.accounts[Strip(c.caller)] == r.account
  {
    ConsumptionAcceptedExactly(calls, c);
    Balance(calls, Strip(c.caller));
    CallerKnownAs(c.caller);
  }

  /** Column by column, what an accepted consumption writes; no other account changes. */
  lemma ConsumptionWrites(l: Ledger, c: Call)
    requires Step(l, c).1.Consumed?
    ensures var (m, r) := Step(l, c);
            var id := Strip(c.caller);
            && r.event.id == c.eventId && r.event.caller == id && r.event.tool == c.tool && r.event.runs == c.runs
            && r.event.metadata == c.metadata && r.event.createdAt == c.now
            && id in m.accounts && m.accounts[id] == r.account && r.account.updatedAt == c.now
            && r.account.tag == (if id in l.accounts then l.accounts[id].tag else None)
            && r.account.createdAt == (if id in l.accounts then l.accounts[id].createdAt else c.now)
            && (forall k :: k != id ==> (k in m.accounts <==> k in l.accounts) &&
                                        (k in l.accounts ==> m.accounts[k] == l.accounts[k]))
  {
    CallerKnownAs(c.caller);
  }

  /** Column by column, what an accepted claim writes: a new account, or at most the label of an old one. */
  lemma ClaimWrites(l: Ledger, c: Call)
    requires Step(l, c).1.Claimed?
    ensures var (m, r) := Step(l, c);
            var id := Strip(c.caller);
            && m.usage == l.usage && id in m.accounts && m.accounts[id] == r.account
            && (id !in l.accounts ==>
                  && r.account.tag == c.tag && r.account.limit == c.limit && r.account.remaining == c.limit
                  && r.account.createdAt == c.now && r.account.updatedAt == c.now)
            && (id in l.accounts ==>
                  && r.account.tag == (if c.tag.Some? then c.tag else l.accounts[id].tag)
                  && r.account.limit == l.accounts[id].limit && r.account.remaining == l.accounts[id].remaining
                  && r.account.createdAt == l.accounts[id].createdAt && r.account.updatedAt == l.accounts[id].updatedAt)
            && (forall k :: k != id ==> (k in m.accounts <==> k in l.accounts) &&
                                        (k in l.accounts ==> m.accounts[k] == l.accounts[k]))
  {
    CallerKnownAs(c.caller);
  }

  /** A listing runs from newest to oldest; events of one time run from the larger id to the smaller. */
  lemma NewestFirst(calls: seq<Call>, id: string, i: nat, j: nat)
    requires id in Run(calls).accounts && i < j < |EventsOf(Run(calls).usage, id)|
    ensures var listed := StableSort(EventsOf(Run(calls).usage, id), Newer);
            && |listed| == |EventsOf(Run(calls).usage, id)|
            && LexLeq(listed[j].createdAt, listed[i].createdAt)
            && (listed[i].createdAt == listed[j].createdAt ==> LexLeq(listed[j].id, listed[i].id))
  {
    ListingExplainsBalance(calls, id);
    NewerIsTotalPreorder();
    StableSortSorts(EventsOf(Run(calls).usage, id), Newer);
    var listed := StableSort(EventsOf(Run(calls).usage, id), Newer);
    assert Newer(listed[i], listed[j]);
    LexTotal(listed[i].createdAt, listed[i].createdAt);
  }
}
