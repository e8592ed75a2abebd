/** Promoting routes: moved to the front in place, with roles rewritten by position. */
module Promotions {
  import opened Text
  import opened Sorting
  import opened Routes

  /** The first route of a name, or the number of routes. */
  function FirstNamed(rs: seq<Route>, name: string): (i: nat)
    ensures i <= |rs|
    ensures i < |rs| ==> rs[i].route == name
    ensures forall j :: 0 <= j < i ==> rs[j].route != name
  {
    if rs == [] || rs[0].route == name then 0 else 1 + FirstNamed(rs[1..], name)
  }

  function Renumbered(rs: seq<Route>): seq<Route> {
    seq(|rs|, i requires 0 <= i < |rs| => rs[i].(role := RoleAt(i)))
  }

  /** The named route moved to the front, roles by position; an unknown name changes nothing. */
  function Promoted(rs: seq<Route>, name: string): seq<Route> {
    var i := FirstNamed(rs, name);
    if i == |rs| then rs else Renumbered([rs[i]] + rs[..i] + rs[i + 1..])
  }

  /** The first route degraded and the second healthy, when there are two. */
  function Tested(rs: seq<Route>): seq<Route> {
    if |rs| < 2 then rs
    else [rs[0].(status := Degraded), rs[1].(status := Healthy)] + rs[2..]
  }

  /** A fallback test degrades the first route and restores the second; it touches nothing but their status. */
  lemma TestShows(rs: seq<Route>)
    requires |rs| >= 2
    ensures var after := Tested(rs);
            && |after| == |rs| && after[0].status == Degraded && after[1].status == Healthy
            && after[0].(status := Healthy) == rs[0].(status := Healthy)
            && after[1].(status := Healthy) == rs[1].(status := Healthy)
            && forall i :: 2 <= i < |rs| ==> after[i] == rs[i]
  {
  }

  class Deployment {
    var routes: seq<Route>

    constructor (routes: seq<Route>)
      ensures this.routes == routes
    {
      this.routes := routes;
    }

    /** Moves the first route of the name to the front and rewrites the roles. */
    method Promote(name: string) returns (found: bool)
      modifies this
      ensures found <==> exists i :: 0 <= i < |old(routes)| && old(routes)[i].route == name
      ensures routes == Promoted(old(routes), name)
    {
      var index := 0;
      while index < |routes|
        invariant 0 <= index <= |routes| && routes == old(routes)
        invariant forall j :: 0 <= j < index ==> routes[j].route != name
      {
        if routes[index].route == name {
          assert index == FirstNamed(routes, name);
          routes := [routes[index]] + routes[..index] + routes[index + 1..];
          RewriteRoles();
          return true;
        }
        index := index + 1;
      }
      return false;
    }

    /** The first route is the primary, the second the fallback, the others overflow. */
    method RewriteRoles()
      requires routes != []
      modifies this
      ensures routes == Renumbered(old(routes))
    {
      routes := routes[0 := routes[0].(role := Primary)];
      var fallback := 1;
      while fallback < |routes|
        invariant 1 <= fallback <= |routes| == |old(routes)|
        invariant forall i :: 0 <= i < fallback ==> routes[i] == old(routes)[i].(role := RoleAt(i))
        invariant forall i :: fallback <= i < |routes| ==> routes[i] == old(routes)[i]
      {
        routes := routes[fallback := routes[fallback].(role := if fallback == 1 then Fallback else Overflow)];
        fallback := fallback + 1;
      }
    }

    /** Degrades the primary and marks the fallback healthy; needs two routes. */
    method FallbackTest() returns (ok: bool)
      modifies this
      ensures ok <==> |old(routes)| >= 2
      ensures routes == Tested(old(routes))
    {
      if |routes| < 2 {
        return false;
      }
      routes := routes[0 := routes[0].(status := Degraded)];
      routes := routes[1 := routes[1].(status := Healthy)];
      return true;
    }
  }

  // ---------------------------------------------------------------- sequences of promotions

  function PromoteAll(rs: seq<Route>, names: seq<string>): seq<Route> {
    if names == [] then rs else Promoted(PromoteAll(rs, names[..|names| - 1]), names[|names| - 1])
  }

  /** A route without its role. */
  function Body(r: Route): Route {
    r.(role := Primary)
  }

  function Bodies(rs: seq<Route>): (bs: seq<Route>)
    ensures |bs| == |rs| && forall i :: 0 <= i < |rs| ==> bs[i] == Body(rs[i])
  {
    if rs == [] then [] else [Body(rs[0])] + Bodies(rs[1..])
  }

  predicate HasName(bs: seq<Route>, name: string) {
    exists i :: 0 <= i < |bs| && bs[i].route == name
  }

  function First(bs: seq<Route>, name: string): (r: Route)
    requires HasName(bs, name)
    ensures r in bs && r.route == name
  {
    if bs[0].route == name then bs[0]
    else
      assert exists i :: 0 <= i < |bs[1..]| && bs[1..][i].route == name by {
        var i :| 0 <= i < |bs| && bs[i].route == name;
        assert bs[1..][i - 1] == bs[i];
      }
      First(bs[1..], name)
  }

  function WithoutFirst(bs: seq<Route>, name: string): seq<Route> {
    if bs == [] then [] else if bs[0].route == name then bs[1..] else [bs[0]] + WithoutFirst(bs[1..], name)
  }

  /** The first route of the name in front of the others. */
  function MovedFirst(bs: seq<Route>, name: string): seq<Route> {
    if HasName(bs, name) then [First(bs, name)] + WithoutFirst(bs, name) else bs
  }

  lemma TailNames(bs: seq<Route>, name: string)
    requires bs != []
    ensures HasName(bs, name) <==> bs[0].route == name || HasName(bs[1..], name)
  {
    if HasName(bs[1..], name) {
      var i :| 0 <= i < |bs[1..]| && bs[1..][i].route == name;
      assert bs[i + 1].route == name;
    }
    if HasName(bs, name) && bs[0].route != name {
      var i :| 0 <= i < |bs| && bs[i].route == name;
      assert bs[1..][i - 1].route == name;
    }
  }

  lemma {:induction false} FirstAt(bs: seq<Route>, i: nat)
    requires i < |bs| && forall j :: 0 <= j < i ==> bs[j].route != bs[i].route
    ensures HasName(bs, bs[i].route) && First(bs, bs[i].route) == bs[i]
    ensures WithoutFirst(bs, bs[i].route) == bs[..i] + bs[i + 1..]
  {
    if i > 0 {
      var tail := bs[1..];
      assert tail[i - 1] == bs[i];
      FirstAt(tail, i - 1);
      TailNames(bs, bs[i].route);
      assert [bs[0]] + tail[..i - 1] == bs[..i] && tail[i..] == bs[i + 1..];
    }
  }

  lemma BodiesAppend(a: seq<Route>, b: seq<Route>)
    ensures Bodies(a + b) == Bodies(a) + Bodies(b)
  {
  }

  lemma BodiesSlice(rs: seq<Route>, i: nat)
    requires i <= |rs|
    ensures Bodies(rs[..i]) == Bodies(rs)[..i] && Bodies(rs[i..]) == Bodies(rs)[i..]
  {
    var a, b := rs[..i], rs[i..];
    assert rs == a + b;
    BodiesAppend(a, b);
    assert Bodies(rs)[..i] == Bodies(a) && Bodies(rs)[i..] == Bodies(b);
  }

  lemma RolesAside(rs: seq<Route>)
    ensures Bodies(Renumbered(rs)) == Bodies(rs)
  {
  }

  lemma BodiesMoved(rs: seq<Route>, i: nat)
    requires i < |rs|
    ensures Bodies(Renumbered([rs[i]] + rs[..i] + rs[i + 1..])) ==
            [Bodies(rs)[i]] + (Bodies(rs)[..i] + Bodies(rs)[i + 1..])
  {
    RolesAside([rs[i]] + rs[..i] + rs[i + 1..]);
    AppendAssociative([rs[i]], rs[..i], rs[i + 1..]);
    BodiesAppend([rs[i]], rs[..i] + rs[i + 1..]);
    BodiesAppend(rs[..i], rs[i + 1..]);
    BodiesSlice(rs, i);
    BodiesSlice(rs, i + 1);
  }

  /** Roles aside, a promotion moves the first route of the name to the front and nothing else. */
  lemma PromotedMoves(rs: seq<Route>, name: string)
    ensures Bodies(Promoted(rs, name)) == MovedFirst(Bodies(rs), name)
    ensures PositionalRoles(rs) ==> PositionalRoles(Promoted(rs, name))
  {
    var i := FirstNamed(rs, name);
    if i < |rs| {
      assert Bodies(rs)[i].route == name;
      BodiesMoved(rs, i);
      FirstAt(Bodies(rs), i);
    } else {
      assert forall j :: 0 <= j < |rs| ==> Bodies(rs)[j].route != name;
    }
  }

  lemma {:induction false} MovedKeeps(bs: seq<Route>, name: string)
    ensures multiset(MovedFirst(bs, name)) == multiset(bs)
  {
    if HasName(bs, name) {
      assert bs == [bs[0]] + bs[1..];
      if bs[0].route != name {
        TailNames(bs, name);
        MovedKeeps(bs[1..], name);
      }
    }
  }

  /** Any sequence of promotions keeps the routes, roles aside, and keeps roles positional. */
  lemma {:induction false} PromotionsKeepRoutes(rs: seq<Route>, names: seq<string>)
    ensures multiset(Bodies(PromoteAll(rs, names))) == multiset(Bodies(rs))
    ensures PositionalRoles(rs) ==> PositionalRoles(PromoteAll(rs, names))
  {
    if names != [] {
      var before := PromoteAll(rs, names[..|names| - 1]);
      PromotionsKeepRoutes(rs, names[..|names| - 1]);
      PromotedMoves(before, names[|names| - 1]);
      MovedKeeps(Bodies(before), names[|names| - 1]);
    }
  }

  // ---------------------------------------------------------------- the order after many promotions

  function Without(xs: seq<string>, x: string): seq<string> {
    if xs == [] then [] else (if xs[0] == x then [] else [xs[0]]) + Without(xs[1..], x)
  }

  predicate Distinct(xs: seq<string>) {
    forall i, j :: 0 <= i < j < |xs| ==> xs[i] != xs[j]
  }

  /** The promoted names that some route has, each once, the most recently promoted first. */
  function Recent(bs: seq<Route>, names: seq<string>): seq<string> {
    if names == [] then []
    else
      var earlier, x := Recent(bs, names[..|names| - 1]), names[|names| - 1];
      if HasName(bs, x) then [x] + Without(earlier, x) else earlier
  }

  /** The first route of every name in `names`. */
  function Tops(bs: seq<Route>, names: seq<string>): (tops: seq<Route>)
    requires forall x :: x in names ==> HasName(bs, x)
    ensures |tops| == |names|
  {
    if names == [] then [] else [First(bs, names[0])] + Tops(bs, names[1..])
  }

  /** The routes that are not the first of a name in `names`, in order. */
  function Unpromoted(bs: seq<Route>, names: set<string>): seq<Route> {
    if bs == [] then []
    else if bs[0].route in names then Unpromoted(bs[1..], names - {bs[0].route})
    else [bs[0]] + Unpromoted(bs[1..], names)
  }

  function NameSet(names: seq<string>): set<string> {
    set x | x in names
  }

  lemma {:induction false} WithoutExact(xs: seq<string>, x: string)
    ensures forall y :: y in Without(xs, x) <==> y in xs && y != x
    ensures Distinct(xs) ==> Distinct(Without(xs, x))
    ensures x !in xs ==> Without(xs, x) == xs
  {
    if xs != [] {
      WithoutExact(xs[1..], x);
      assert xs == [xs[0]] + xs[1..];
      var rest := Without(xs[1..], x);
      assert Distinct(xs) ==> Distinct(xs[1..]) && xs[0] !in xs[1..];
      assert forall k :: 0 <= k < |rest| ==> rest[k] in rest;
    }
  }

  lemma {:induction false} RecentExact(bs: seq<Route>, names: seq<string>)
    ensures Distinct(Recent(bs, names))
    ensures forall y :: y in Recent(bs, names) <==> y in names && HasName(bs, y)
  {
    if names != [] {
      var init, x := names[..|names| - 1], names[|names| - 1];
      RecentExact(bs, init);
      WithoutExact(Recent(bs, init), x);
      assert names == init + [x];
      var rest := Without(Recent(bs, init), x);
      assert forall k :: 0 <= k < |rest| ==> rest[k] in rest;
    }
  }

  lemma Headed(r: Route, bs: seq<Route>, name: string)
    ensures HasName([r] + bs, name) <==> r.route == name || HasName(bs, name)
    ensures HasName([r] + bs, name) ==> First([r] + bs, name) == if r.route == name then r else First(bs, name)
    ensures WithoutFirst([r] + bs, name) == if r.route == name then bs else [r] + WithoutFirst(bs, name)
  {
    assert ([r] + bs)[1..] == bs;
    TailNames([r] + bs, name);
  }

  lemma TopsUnfold(bs: seq<Route>, recent: seq<string>, rest: seq<Route>)
    requires recent != [] && forall y :: y in recent ==> HasName(bs, y)
    ensures Tops(bs, recent) + rest == [First(bs, recent[0])] + (Tops(bs, recent[1..]) + rest)
  {
  }

  lemma WithoutHead(recent: seq<string>)
    requires Distinct(recent) && recent != []
    ensures Without(recent, recent[0]) == recent[1..]
  {
    assert recent[0] !in recent[1..] by {
      assert forall k :: 0 <= k < |recent[1..]| ==> recent[1..][k] == recent[k + 1];
    }
    WithoutExact(recent[1..], recent[0]);
    assert [] + recent[1..] == recent[1..];
  }

  /** A promoted name's route is found among the promoted ones. */
  lemma {:induction false} MoveAmongTops(bs: seq<Route>, recent: seq<string>, rest: seq<Route>, x: string)
    requires Distinct(recent) && x in recent && forall y :: y in recent ==> HasName(bs, y)
    ensures HasName(Tops(bs, recent) + rest, x) && First(Tops(bs, recent) + rest, x) == First(bs, x)
    ensures forall y :: y in Without(recent, x) ==> HasName(bs, y)
    ensures WithoutFirst(Tops(bs, recent) + rest, x) == Tops(bs, Without(recent, x)) + rest
  {
    WithoutExact(recent, x);
    TopsUnfold(bs, recent, rest);
    Headed(First(bs, recent[0]), Tops(bs, recent[1..]) + rest, x);
    if recent[0] == x {
      WithoutHead(recent);
    } else {
      MoveAmongTops(bs, recent[1..], rest, x);
      TopsUnfold(bs, Without(recent, x), rest);
    }
  }

  /** The first route of another name is not among the promoted ones. */
  lemma {:induction false} MoveBehindTops(bs: seq<Route>, recent: seq<string>, rest: seq<Route>, x: string)
    requires x !in recent && forall y :: y in recent ==> HasName(bs, y)
    ensures HasName(Tops(bs, recent) + rest, x) <==> HasName(rest, x)
    ensures HasName(rest, x) ==> First(Tops(bs, recent) + rest, x) == First(rest, x)
    ensures WithoutFirst(Tops(bs, recent) + rest, x) == Tops(bs, recent) + WithoutFirst(rest, x)
  {
    if recent == [] {
      assert [] + rest == rest && [] + WithoutFirst(rest, x) == WithoutFirst(rest, x);
    } else {
      MoveBehindTops(bs, recent[1..], rest, x);
      TopsUnfold(bs, recent, rest);
      TopsUnfold(bs, recent, WithoutFirst(rest, x));
      assert recent[0] in recent;
      Headed(First(bs, recent[0]), Tops(bs, recent[1..]) + rest, x);
    }
  }

  /** Promoting a name for the first time takes its first route out of the rest. */
  lemma {:induction false} UnpromotedMove(bs: seq<Route>, names: set<string>, x: string)
    requires x !in names
    ensures HasName(Unpromoted(bs, names), x) <==> HasName(bs, x)
    ensures HasName(bs, x) ==> First(Unpromoted(bs, names), x) == First(bs, x)
    ensures WithoutFirst(Unpromoted(bs, names), x) == Unpromoted(bs, names + {x})
  {
    if bs != [] {
      var r, tail := bs[0], bs[1..];
      TailNames(bs, x);
      if r.route in names {
        UnpromotedMove(tail, names - {r.route}, x);
        assert names + {x} - {r.route} == names - {r.route} + {x};
      } else {
        UnpromotedMove(tail, names, x);
        Headed(r, Unpromoted(tail, names), x);
        assert names + {x} - {x} == names;
      }
    }
  }

  /** The bodies after promotions: the promoted routes, newest first, then the others as they were. */
  function Ordered(bs: seq<Route>, names: seq<string>): seq<Route> {
    RecentExact(bs, names);
    Tops(bs, Recent(bs, names)) + Unpromoted(bs, NameSet(names))
  }

  lemma OrderedStep(bs: seq<Route>, names: seq<string>, x: string)
    ensures MovedFirst(Ordered(bs, names), x) == Ordered(bs, names + [x])
  {
    var recent, rest := Recent(bs, names), Unpromoted(bs, NameSet(names));
    RecentExact(bs, names);
    RecentExact(bs, names + [x]);
    assert (names + [x])[..|names|] == names;
    assert NameSet(names + [x]) == NameSet(names) + {x};
    if x in recent {
      MoveAmongTops(bs, recent, rest, x);
      assert NameSet(names) + {x} == NameSet(names);
      TopsHead(bs, x, Without(recent, x), rest);
    } else if HasName(bs, x) {
      MoveBehindTops(bs, recent, rest, x);
      UnpromotedMove(bs, NameSet(names), x);
      WithoutExact(recent, x);
      TopsHead(bs, x, recent, Unpromoted(bs, NameSet(names) + {x}));
    } else {
      MoveBehindTops(bs, recent, rest, x);
      UnknownUnpromoted(bs, NameSet(names), x);
    }
  }

  lemma TopsHead(bs: seq<Route>, x: string, names: seq<string>, rest: seq<Route>)
    requires HasName(bs, x) && forall y :: y in names ==> HasName(bs, y)
    ensures forall y :: y in [x] + names ==> HasName(bs, y)
    ensures [First(bs, x)] + (Tops(bs, names) + rest) == Tops(bs, [x] + names) + rest
  {
    assert ([x] + names)[1..] == names;
  }

  lemma {:induction false} UnknownUnpromoted(bs: seq<Route>, names: set<string>, x: string)
    requires !HasName(bs, x)
    ensures Unpromoted(bs, names + {x}) == Unpromoted(bs, names) && !HasName(Unpromoted(bs, names), x)
  {
    if bs != [] {
      var r, tail := bs[0], bs[1..];
      TailNames(bs, x);
      if r.route in names {
        UnknownUnpromoted(tail, names - {r.route}, x);
        assert names + {x} - {r.route} == names - {r.route} + {x};
      } else {
        UnknownUnpromoted(tail, names, x);
        Headed(r, Unpromoted(tail, names), x);
      }
    }
  }

  lemma {:induction false} NothingPromoted(bs: seq<Route>)
    ensures Unpromoted(bs, {}) == bs
  {
    if bs != [] {
      NothingPromoted(bs[1..]);
    }
  }

  lemma OrderedAtFirst(bs: seq<Route>)
    ensures Ordered(bs, []) == bs
  {
    NothingPromoted(bs);
    assert NameSet([]) == {} && [] + bs == bs;
  }

  lemma PromotedOrder(rs: seq<Route>, bs: seq<Route>, earlier: seq<string>, x: string)
    requires Bodies(rs) == Ordered(bs, earlier)
    ensures Bodies(Promoted(rs, x)) == Ordered(bs, earlier + [x])
  {
    PromotedMoves(rs, x);
    OrderedStep(bs, earlier, x);
  }

  /**
   * After any promotions the first routes of the promoted names come first, the most recently promoted first, and
   * all other routes keep their order, those that share a promoted name included.
   */
  lemma {:induction false} OrderAfterPromotions(rs: seq<Route>, names: seq<string>)
    ensures Bodies(PromoteAll(rs, names)) == Ordered(Bodies(rs), names)
  {
    if names == [] {
      OrderedAtFirst(Bodies(rs));
    } else {
      var earlier, x := names[..|names| - 1], names[|names| - 1];
      OrderAfterPromotions(rs, earlier);
      PromotedOrder(PromoteAll(rs, earlier), Bodies(rs), earlier, x);
      assert earlier + [x] == names;
    }
  }

  // ---------------------------------------------------------------- names stay distinct

  /** What happens to the routes of a deployment: promotions, fallback tests, and statuses set on start and stop. */
  datatype Command = PromoteTo(name: string) | TestFallback | Mark(i: nat, status: Health)

  function OneCommand(rs: seq<Route>, c: Command): seq<Route> {
    match c
    case PromoteTo(name) => Promoted(rs, name)
    case TestFallback => Tested(rs)
    case Mark(i, status) => if i < |rs| then rs[i := rs[i].(status := status)] else rs
  }

  function Commanded(rs: seq<Route>, commands: seq<Command>): seq<Route> {
    if commands == [] then rs
    else OneCommand(Commanded(rs, commands[..|commands| - 1]), commands[|commands| - 1])
  }

  function RouteName(): Route -> string {
    (r: Route) => r.route
  }

  lemma BodiesNamed(rs: seq<Route>)
    ensures DistinctNames(rs) <==> DistinctBy(Bodies(rs), RouteName())
  {
    assert forall i :: 0 <= i < |rs| ==> RouteName()(Bodies(rs)[i]) == rs[i].route;
  }

  lemma CommandKeepsNames(rs: seq<Route>, c: Command)
    requires DistinctNames(rs)
    ensures DistinctNames(OneCommand(rs, c)) && |OneCommand(rs, c)| == |rs|
  {
    if c.PromoteTo? {
      PromotedMoves(rs, c.name);
      MovedKeeps(Bodies(rs), c.name);
      BodiesNamed(rs);
      PermutationKeepsDistinct(Bodies(rs), Bodies(Promoted(rs, c.name)), RouteName());
      BodiesNamed(Promoted(rs, c.name));
    }
  }

  /** None of it makes names of routes repeat or loses a route. */
  lemma {:induction false} CommandsKeepNames(rs: seq<Route>, commands: seq<Command>)
    requires DistinctNames(rs)
    ensures DistinctNames(Commanded(rs, commands)) && |Commanded(rs, commands)| == |rs|
  {
    if commands != [] {
      var earlier, last := commands[..|commands| - 1], commands[|commands| - 1];
      CommandsKeepNames(rs, earlier);
      CommandKeepsNames(Commanded(rs, earlier), last);
      assert Commanded(rs, commands) == OneCommand(Commanded(rs, earlier), last);
    }
  }
}
