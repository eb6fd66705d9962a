/** Placing a canary route in an existing VirtualService (the loop of prepareCanaryIstioRollout in
    pkg/apps/application/processor_deploy_strategy.go). */
module Routes {
  import opened Wrappers

  datatype StringMatch = Exact(value: string) | PrefixOf(value: string) | Regex(value: string)

  /** `rest` is whatever else a match, destination or route says (methods, subsets, timeouts, retries and so on); routes
      are compared with all of it. */
  datatype HttpMatch = HttpMatch(
    headers: map<string, StringMatch>,
    uri: Option<StringMatch>,
    ignoreUriCase: bool,
    rest: string)

  datatype Destination = Destination(host: string, weight: int, rest: string)

  datatype HttpRoute = HttpRoute(name: string, matches: seq<HttpMatch>, route: seq<Destination>, rest: string)

  /** The route list being rewritten, whether the named route was met, and whether anything was written. */
  datatype Scan = Scan(routes: seq<HttpRoute>, found: bool, updated: bool)

  /** One iteration. The loop ranges over the list as it was at the start; a route met away from the front is moved
      there as it was, so the target written a moment before is lost again. */
  function Visit(s: Scan, orig: seq<HttpRoute>, target: HttpRoute, i: nat): Scan
    requires i < |orig| == |s.routes|
  {
    var v := orig[i];
    if v.name != target.name then s
    else if i == 0 then Scan(s.routes[0 := target], true, s.updated || v != target)
    else Scan([v] + s.routes[..i] + s.routes[i + 1..], true, true)
  }

  function Scanned(orig: seq<HttpRoute>, target: HttpRoute, n: nat): (s: Scan)
    requires n <= |orig|
    ensures |s.routes| == |orig|
    ensures forall j :: n <= j < |orig| ==> s.routes[j] == orig[j]
  {
    if n == 0 then Scan(orig, false, false) else Visit(Scanned(orig, target, n - 1), orig, target, n - 1)
  }

  /** The list to be stored, and whether it has to be. */
  function Placed(routes: seq<HttpRoute>, target: HttpRoute): (seq<HttpRoute>, bool) {
    var s := Scanned(routes, target, |routes|);
    if s.found then (s.routes, s.updated) else ([target] + s.routes, true)
  }

  method PlaceRoute(routes: seq<HttpRoute>, target: HttpRoute) returns (http: seq<HttpRoute>, updated: bool)
    ensures (http, updated) == Placed(routes, target)
  {
    http, updated := routes, false;
    var targetFound := false;
    for i := 0 to |routes|
      invariant Scan(http, targetFound, updated) == Scanned(routes, target, i)
    {
      var v := routes[i];
      if v.name == target.name {
        if v != target {
          http := http[i := target];
          updated := true;
        }
        if i != 0 {
          http := [v] + http[..i] + http[i + 1..];
          updated := true;
        } else {
          assert v == target ==> http[0 := target] == http;
        }
        targetFound := true;
      }
    }
    if !targetFound {
      http := [target] + http;
      updated := true;
    }
  }

  /** The routes that do not bear the name, in order. */
  function Others(routes: seq<HttpRoute>, name: string): seq<HttpRoute> {
    if routes == [] then []
    else
      var last := routes[|routes| - 1];
      Others(routes[..|routes| - 1], name) + if last.name == name then [] else [last]
  }

  lemma {:induction false} OthersAppend(a: seq<HttpRoute>, b: seq<HttpRoute>, name: string)
    ensures Others(a + b, name) == Others(a, name) + Others(b, name)
  {
    if b == [] {
      assert a + b == a;
    } else {
      assert (a + b)[..|a + b| - 1] == a + b[..|b| - 1];
      OthersAppend(a, b[..|b| - 1], name);
    }
  }

  lemma OthersSingle(r: HttpRoute, name: string)
    ensures Others([r], name) == if r.name == name then [] else [r]
  {
  }

  lemma OthersSplit(a: seq<HttpRoute>, r: HttpRoute, b: seq<HttpRoute>, name: string)
    requires r.name == name
    ensures Others(a + [r] + b, name) == Others(a, name) + Others(b, name)
  {
    OthersAppend(a + [r], b, name);
    OthersAppend(a, [r], name);
    OthersSingle(r, name);
  }

  lemma OthersReplaced(s: seq<HttpRoute>, i: nat, v: HttpRoute, name: string)
    requires i < |s| && v.name == name
    ensures Others(s[i := v], name) == Others(s[..i], name) + Others(s[i + 1..], name)
  {
    OthersSplit(s[..i], v, s[i + 1..], name);
    assert s[i := v] == s[..i] + [v] + s[i + 1..];
  }

  lemma OthersFronted(a: seq<HttpRoute>, v: HttpRoute, b: seq<HttpRoute>, name: string)
    requires v.name == name
    ensures Others([v] + a + b, name) == Others(a, name) + Others(b, name)
  {
    OthersAppend([v] + a, b, name);
    OthersAppend([v], a, name);
    OthersSingle(v, name);
  }

  lemma OthersMoved(s: seq<HttpRoute>, i: nat, v: HttpRoute, name: string)
    requires i < |s| && s[i].name == v.name == name
    ensures Others([v] + s[..i] + s[i + 1..], name) == Others(s, name) == Others(s[i := v], name)
  {
    OthersReplaced(s, i, s[i], name);
    assert s[i := s[i]] == s;
    OthersReplaced(s, i, v, name);
    OthersFronted(s[..i], v, s[i + 1..], name);
  }

  /** The other routes are those of the original list. */
  ghost predicate OthersStay(orig: seq<HttpRoute>, routes: seq<HttpRoute>, name: string) {
    Others(routes, name) == Others(orig, name)
  }

  /** One iteration keeps the other routes. */
  lemma VisitKeepsOthers(s: Scan, orig: seq<HttpRoute>, target: HttpRoute, i: nat)
    requires i < |orig| == |s.routes| && s.routes[i] == orig[i]
    requires OthersStay(orig, s.routes, target.name)
    ensures OthersStay(orig, Visit(s, orig, target, i).routes, target.name)
  {
    if orig[i].name == target.name {
      OthersMoved(s.routes, i, orig[i], target.name);
      OthersMoved(s.routes, i, target, target.name);
    }
  }

  lemma ScanKeepsOthers(orig: seq<HttpRoute>, target: HttpRoute, n: nat)
    requires n <= |orig|
    ensures OthersStay(orig, Scanned(orig, target, n).routes, target.name)
  {
    for i := 0 to n
      invariant OthersStay(orig, Scanned(orig, target, i).routes, target.name)
    {
      VisitKeepsOthers(Scanned(orig, target, i), orig, target, i);
    }
  }

  /** However often the name occurs, all other routes stay, in their order. */
  lemma OthersKept(routes: seq<HttpRoute>, target: HttpRoute)
    ensures Others(Placed(routes, target).0, target.name) == Others(routes, target.name)
  {
    var s := Scanned(routes, target, |routes|).routes;
    ScanKeepsOthers(routes, target, |routes|);
    OthersAppend([target], s, target.name);
    OthersSingle(target, target.name);
  }

  ghost predicate Named(routes: seq<HttpRoute>, i: int, name: string) {
    0 <= i < |routes| && routes[i].name == name
  }

  ghost predicate AtMostOne(routes: seq<HttpRoute>, name: string) {
    forall i, j :: Named(routes, i, name) && Named(routes, j, name) ==> i == j
  }

  lemma {:induction false} ScanNone(orig: seq<HttpRoute>, target: HttpRoute, n: nat)
    requires n <= |orig| && forall i :: Named(orig, i, target.name) ==> i >= n
    ensures Scanned(orig, target, n) == Scan(orig, false, false)
  {
    if n > 0 {
      ScanNone(orig, target, n - 1);
      assert !Named(orig, n - 1, target.name);
    }
  }

  lemma {:induction false} ScanOne(orig: seq<HttpRoute>, target: HttpRoute, k: nat, n: nat)
    requires k < n <= |orig| && Named(orig, k, target.name) && AtMostOne(orig, target.name)
    ensures Scanned(orig, target, n) == Visit(Scan(orig, false, false), orig, target, k)
  {
    if n == k + 1 {
      ScanNone(orig, target, k);
    } else {
      ScanOne(orig, target, k, n - 1);
      assert !Named(orig, n - 1, target.name);
    }
  }

  /** The result when the name occurs at most once: the target is put in front if the name is missing and replaces the
      route if that is in front already; a route further back comes to the front, but as it was. */
  lemma PlacedOnce(routes: seq<HttpRoute>, target: HttpRoute)
    requires AtMostOne(routes, target.name)
    ensures (forall i :: !Named(routes, i, target.name)) ==> Placed(routes, target) == ([target] + routes, true)
    ensures forall k :: Named(routes, k, target.name) ==>
              Placed(routes, target) ==
              if k == 0 then ([target] + routes[1..], routes[0] != target)
              else ([routes[k]] + routes[..k] + routes[k + 1..], true)
  {
    if forall i :: !Named(routes, i, target.name) {
      ScanNone(routes, target, |routes|);
    }
    forall k | Named(routes, k, target.name)
      ensures Placed(routes, target) ==
              if k == 0 then ([target] + routes[1..], routes[0] != target)
              else ([routes[k]] + routes[..k] + routes[k + 1..], true)
    {
      ScanOne(routes, target, k, |routes|);
      assert k == 0 ==> routes[0 := target] == [target] + routes[1..];
    }
  }

  /** The routes that bear the name, in reverse order. */
  function Bearers(routes: seq<HttpRoute>, name: string): seq<HttpRoute> {
    if routes == [] then []
    else
      var last := routes[|routes| - 1];
      (if last.name == name then [last] else []) + Bearers(routes[..|routes| - 1], name)
  }

  lemma BearersMore(routes: seq<HttpRoute>, n: nat, name: string)
    requires n < |routes|
    ensures Bearers(routes[..n + 1], name) ==
            if routes[n].name == name then [routes[n]] + Bearers(routes[..n], name) else Bearers(routes[..n], name)
    ensures Others(routes[..n + 1], name) ==
            if routes[n].name == name then Others(routes[..n], name) else Others(routes[..n], name) + [routes[n]]
  {
    assert routes[..n + 1][..n] == routes[..n];
  }

  /** One iteration on a list sorted so far. */
  lemma VisitSorts(done: Scan, orig: seq<HttpRoute>, target: HttpRoute, i: nat, bearers: seq<HttpRoute>,
                   others: seq<HttpRoute>)
    requires i < |orig| && |bearers| + |others| == i && done.routes == bearers + others + orig[i..]
    ensures Visit(done, orig, target, i).routes ==
            if orig[i].name != target.name then bearers + (others + [orig[i]]) + orig[i + 1..]
            else [if i == 0 then target else orig[i]] + bearers + others + orig[i + 1..]
  {
    var sorted, left := bearers + others, orig[i + 1..];
    assert orig[i..] == [orig[i]] + left;
    assert done.routes == sorted + [orig[i]] + left;
    assert done.routes[..i] == sorted && done.routes[i + 1..] == left;
    if orig[i].name != target.name {
      assert bearers + (others + [orig[i]]) == sorted + [orig[i]];
    } else if i == 0 {
      assert sorted == [] && done.routes == [orig[0]] + left;
      assert [target] + bearers + others + left == [target] + left;
    } else {
      assert [orig[i]] + bearers + others + left == [orig[i]] + sorted + left;
    }
  }

  /** The first `n` routes of the original are sorted. */
  ghost predicate SortedUpTo(orig: seq<HttpRoute>, target: HttpRoute, n: nat, routes: seq<HttpRoute>)
    requires n <= |orig|
  {
    routes == Bearers(Fronted(orig, target)[..n], target.name) + Others(orig[..n], target.name) + orig[n..]
  }

  lemma SortsOneMore(done: Scan, orig: seq<HttpRoute>, target: HttpRoute, n: nat)
    requires n < |orig| == |done.routes| && SortedUpTo(orig, target, n, done.routes)
    ensures SortedUpTo(orig, target, n + 1, Visit(done, orig, target, n).routes)
  {
    var same, name := Fronted(orig, target), target.name;
    var bearers, others := Bearers(same[..n], name), Others(orig[..n], name);
    BearersMore(same, n, name);
    BearersMore(orig, n, name);
    SortedLength(orig, same, name, n);
    VisitSorts(done, orig, target, n, bearers, others);
    assert orig[n].name == name ==> same[n] == if n == 0 then target else orig[n];
  }

  lemma NothingSorted(orig: seq<HttpRoute>, target: HttpRoute)
    ensures SortedUpTo(orig, target, 0, orig)
  {
    assert Fronted(orig, target)[..0] == [] && orig[..0] == [] && [] + [] + orig == orig;
  }

  /** After `n` iterations the routes met are sorted. */
  ghost predicate ScanSorted(orig: seq<HttpRoute>, target: HttpRoute, n: nat)
    requires n <= |orig|
  {
    SortedUpTo(orig, target, n, Scanned(orig, target, n).routes)
  }

  lemma ScanSortsStep(orig: seq<HttpRoute>, target: HttpRoute, n: nat)
    requires n < |orig| && ScanSorted(orig, target, n)
    ensures ScanSorted(orig, target, n + 1)
  {
    SortsOneMore(Scanned(orig, target, n), orig, target, n);
  }

  lemma ScanSorts(orig: seq<HttpRoute>, target: HttpRoute)
    ensures ScanSorted(orig, target, |orig|)
  {
    NothingSorted(orig, target);
    for n := 0 to |orig|
      invariant ScanSorted(orig, target, n)
    {
      ScanSortsStep(orig, target, n);
    }
  }

  /** The list with the target in place of a first route that bears its name. */
  function Fronted(routes: seq<HttpRoute>, target: HttpRoute): (r: seq<HttpRoute>)
    ensures |r| == |routes| && forall i :: 0 <= i < |r| ==> r[i].name == routes[i].name && (i > 0 ==> r[i] == routes[i])
  {
    if routes != [] && routes[0].name == target.name then routes[0 := target] else routes
  }

  lemma {:induction false} SortedLength(routes: seq<HttpRoute>, same: seq<HttpRoute>, name: string, n: nat)
    requires n <= |routes| == |same| && forall i :: 0 <= i < |routes| ==> same[i].name == routes[i].name
    ensures |Bearers(same[..n], name)| + |Others(routes[..n], name)| == n
  {
    if n > 0 {
      SortedLength(routes, same, name, n - 1);
      assert routes[..n][..n - 1] == routes[..n - 1] && same[..n][..n - 1] == same[..n - 1];
    }
  }

  /** The outcome for any list, however often the name occurs: the routes that bear it come first, the last one before
      the others, and of these only one that stood in front was replaced; all other routes follow in their order. */
  lemma PlacedSorts(routes: seq<HttpRoute>, target: HttpRoute)
    ensures Placed(routes, target).0 ==
            (if exists i :: Named(routes, i, target.name) then Bearers(Fronted(routes, target), target.name)
             else [target]) + Others(routes, target.name)
  {
    ScanSorts(routes, target);
    ScanFound(routes, target);
    assert routes[..|routes|] == routes && Fronted(routes, target)[..|routes|] == Fronted(routes, target);
    if forall i :: !Named(routes, i, target.name) {
      NoBearers(routes, target.name);
      ScanNone(routes, target, |routes|);
    }
  }

  lemma ScanFound(routes: seq<HttpRoute>, target: HttpRoute)
    ensures Scanned(routes, target, |routes|).found <==> exists i :: Named(routes, i, target.name)
  {
    ScanUpdated(routes, target, |routes|);
  }

  lemma {:induction false} NoBearers(routes: seq<HttpRoute>, name: string)
    requires forall i :: !Named(routes, i, name)
    ensures Others(routes, name) == routes
    decreases |routes|
  {
    if routes != [] {
      var n := |routes| - 1;
      assert forall i :: Named(routes[..n], i, name) ==> Named(routes, i, name);
      NoBearers(routes[..n], name);
      assert !Named(routes, n, name);
    }
  }

  /** The name stands in front and nowhere else. */
  ghost predicate OnlyFront(routes: seq<HttpRoute>, name: string) {
    routes != [] && routes[0].name == name && forall i :: 0 < i < |routes| ==> routes[i].name != name
  }

  lemma MovedToFront(routes: seq<HttpRoute>, k: nat, name: string)
    requires Named(routes, k, name) && AtMostOne(routes, name)
    ensures OnlyFront([routes[k]] + routes[..k] + routes[k + 1..], name)
  {
    var after := [routes[k]] + routes[..k] + routes[k + 1..];
    forall i | 0 < i < |after|
      ensures after[i].name != name
    {
      var j := if i > k then i else i - 1;
      assert after[i] == routes[j] && j != k && !Named(routes, j, name);
    }
  }

  lemma FrontIsNamed(routes: seq<HttpRoute>, name: string)
    requires AtMostOne(routes, name)
    ensures OnlyFront(routes, name) <==> Named(routes, 0, name)
  {
    if Named(routes, 0, name) {
      forall i | 0 < i < |routes|
        ensures routes[i].name != name
      {
        assert Named(routes, i, name) ==> i == 0;
      }
    }
  }

  lemma PlacedFront(routes: seq<HttpRoute>, target: HttpRoute)
    requires AtMostOne(routes, target.name)
    ensures var after := Placed(routes, target).0;
            && OnlyFront(after, target.name)
            && (OnlyFront(routes, target.name) ==> after == [target] + routes[1..])
  {
    PlacedOnce(routes, target);
    FrontIsNamed(routes, target.name);
    if k :| Named(routes, k, target.name) {
      MovedToFront(routes, k, target.name);
    } else {
      assert forall i :: 0 <= i < |routes| ==> !Named(routes, i, target.name);
    }
  }

  /** Two calls always put the desired route in front, and a third then writes nothing. One call is not enough: it only
      moves a differing route that stands further back. */
  lemma TwoCallsPlace(routes: seq<HttpRoute>, target: HttpRoute)
    requires AtMostOne(routes, target.name)
    ensures var twice := Placed(Placed(routes, target).0, target).0;
            twice != [] && twice[0] == target && Placed(twice, target) == (twice, false)
  {
    var once := Placed(routes, target).0;
    PlacedFront(routes, target);
    PlacedFront(once, target);
    var twice := [target] + once[1..];
    assert Named(twice, 0, target.name);
    PlacedOnce(twice, target);
    assert [target] + twice[1..] == twice;
  }

  lemma {:induction false} ScanUpdated(orig: seq<HttpRoute>, target: HttpRoute, n: nat)
    requires n <= |orig|
    ensures Scanned(orig, target, n).found <==> exists i :: Named(orig, i, target.name) && i < n
    ensures Scanned(orig, target, n).updated <==>
            exists i :: Named(orig, i, target.name) && i < n && (i > 0 || orig[0] != target)
  {
    if n > 0 {
      ScanUpdated(orig, target, n - 1);
      if orig[n - 1].name == target.name {
        assert Named(orig, n - 1, target.name);
      }
    }
  }

  /** Nothing is written exactly when the target stands in front and its name occurs nowhere else; with a second route
      of the name every call writes again. */
  lemma NothingWritten(routes: seq<HttpRoute>, target: HttpRoute)
    ensures !Placed(routes, target).1 <==>
            && routes != [] && routes[0] == target
            && forall i :: Named(routes, i, target.name) ==> i == 0
  {
    ScanUpdated(routes, target, |routes|);
    assert routes != [] && routes[0] == target ==> Named(routes, 0, target.name);
  }

  /** When nothing is written the list is what it was. */
  lemma UnwrittenIsSame(routes: seq<HttpRoute>, target: HttpRoute)
    ensures !Placed(routes, target).1 ==> Placed(routes, target).0 == routes
  {
    NothingWritten(routes, target);
    if !Placed(routes, target).1 {
      assert Named(routes, 0, target.name);
      PlacedOnce(routes, target);
    }
  }
}
