/** Match across a graph of muxes (rpc/handler.go:119-140), where a mux may be
    mounted in others, in itself, or in a cycle. */
module Submux {
  import opened Wire
  import opened Router
  import opened Removal

  type Graph = map<nat, State>

  /** Every mux was built by Handle and Remove, and mounts existing muxes. */
  ghost predicate GraphOk(g: Graph) {
    forall id :: id in g ==>
      WellKept(g[id])
      && forall i :: 0 <= i < |g[id].es| && g[id].es[i].h.Submux? ==> g[id].es[i].h.id in g
  }

  datatype Result = Hit(h: Handler, pattern: string) | Miss | OutOfFuel

  /** One level of Match at mux id. */
  function Ask(g: Graph, id: nat, selector: string): Level {
    if id in g then MatchLevel(g[id], selector) else Missing
  }

  /** Match cut off after `fuel` levels; it returns if some fuel is enough. */
  function MatchIn(g: Graph, id: nat, selector: string, fuel: nat): Result
    decreases fuel
  {
    if fuel == 0 then OutOfFuel
    else match Ask(g, id, selector)
      case Found(h, p) => Hit(h, p)
      case Missing => Miss
      case Descend(j, rest) => MatchIn(g, j, rest, fuel - 1)
  }

  ghost predicate Returns(g: Graph, id: nat, selector: string) {
    exists fuel: nat :: MatchIn(g, id, selector, fuel) != OutOfFuel
  }

  /** The answer does not depend on where the cut-off is. */
  lemma {:induction false} MoreFuelSameAnswer(g: Graph, id: nat, selector: string, fuel: nat, more: nat)
    requires fuel <= more && MatchIn(g, id, selector, fuel) != OutOfFuel
    ensures MatchIn(g, id, selector, more) == MatchIn(g, id, selector, fuel)
    decreases fuel
  {
    var level := Ask(g, id, selector);
    Unfold(g, id, selector, fuel, level);
    Unfold(g, id, selector, more, level);
    if level.Descend? {
      MoreFuelSameAnswer(g, level.id, level.rest, fuel - 1, more - 1);
    }
  }

  lemma Unfold(g: Graph, id: nat, selector: string, fuel: nat, level: Level)
    requires fuel > 0 && level == Ask(g, id, selector)
    ensures MatchIn(g, id, selector, fuel) == match level
      case Found(h, p) => Hit(h, p)
      case Missing => Miss
      case Descend(j, rest) => MatchIn(g, j, rest, fuel - 1)
  {
  }

  // ---- what Match means, level by level ----

  /** Match in a mux whose answers follow its map, for any fuel left over: the exact
      entry; else the longest matching prefix, where a leaf answers itself and a
      sub-mux answers as it does for what is left of the selector; else nothing. */
  lemma MatchMeans(g: Graph, id: nat, selector: string, p: string, rest: string, fuel: nat)
    requires id in g && Truthful(g[id])
    ensures Clean(selector) in g[id].m ==>
      MatchIn(g, id, selector, fuel + 1) == Hit(g[id].m[Clean(selector)].h, Clean(selector))
    ensures Clean(selector) !in g[id].m && IsLongest(g[id].m, Clean(selector), p) && p + rest == Clean(selector) ==>
      MatchIn(g, id, selector, fuel + 1)
      == if g[id].m[p].h.Leaf? then Hit(g[id].m[p].h, p) else MatchIn(g, g[id].m[p].h.id, rest, fuel)
    ensures (forall q :: q in g[id].m && (EndsInSlash(q) || q == Clean(selector)) ==> !(q <= Clean(selector))) ==>
      MatchIn(g, id, selector, fuel + 1) == Miss
  {
    var m, c, level := g[id].m, Clean(selector), Ask(g, id, selector);
    Unfold(g, id, selector, fuel + 1, level);
    assert FromMap(m, c, level);
    if c !in m && IsLongest(m, c, p) && p + rest == c { LongestGives(m, c, p, rest, level); }
  }

  lemma LongestGives(m: map<string, Entry>, c: string, p: string, rest: string, r: Level)
    requires c !in m && IsLongest(m, c, p) && p + rest == c && FromMap(m, c, r)
    ensures r == if m[p].h.Leaf? then Found(m[p].h, p) else Descend(m[p].h.id, rest)
  {
    var q :| IsLongest(m, c, q) && Gives(m[q].h, q, c, r);
    LongestIsUnique(m, c, p, q);
    if m[p].h.Submux? { assert r.rest == c[|p|..] == rest; }
  }

  // ---- mounts on "/" ----

  /** The mux mounted on "/", if any. */
  function SlashMount(s: State): Option<nat> {
    match FirstEntry(s.es, "/")
    case Some(e) => if e.h.Submux? then Some(e.h.id) else None
    case None => None
  }

  /** Where n mounts on "/" lead from id, if there are that many. */
  function Follow(g: Graph, id: nat, n: nat): Option<nat>
    decreases n
  {
    if n == 0 then Some(id)
    else if id !in g then None
    else match SlashMount(g[id])
      case None => None
      case Some(j) => Follow(g, j, n - 1)
  }

  /** Following "/" mounts from id comes to an end within n steps. */
  ghost predicate Grounded(g: Graph, id: nat, n: nat) {
    Follow(g, id, n) == None
  }

  ghost predicate EveryChainEnds(g: Graph) {
    forall id :: id in g ==> exists n: nat :: Grounded(g, id, n)
  }

  /** No mux reaches itself through "/" mounts. */
  ghost predicate NoSlashCycle(g: Graph) {
    forall id, n: nat :: id in g && n > 0 ==> Follow(g, id, n) != Some(id)
  }

  lemma {:induction false} FollowOn(g: Graph, id: nat, m: nat, n: nat)
    ensures Follow(g, id, m + n) == match Follow(g, id, m) case Some(j) => Follow(g, j, n) case None => None
    decreases m
  {
    if m > 0 && id in g && SlashMount(g[id]).Some? {
      FollowOn(g, SlashMount(g[id]).value, m - 1, n);
    }
  }

  lemma MountStaysInside(g: Graph, id: nat)
    requires GraphOk(g) && id in g && SlashMount(g[id]).Some?
    ensures SlashMount(g[id]).value in g
  {
    FirstEntryIs(g[id].es, "/");
  }

  lemma {:induction false} FollowStaysInside(g: Graph, id: nat, n: nat)
    requires GraphOk(g) && id in g && Follow(g, id, n).Some?
    ensures Follow(g, id, n).value in g
    decreases n
  {
    if n > 0 {
      MountStaysInside(g, id);
      FollowStaysInside(g, SlashMount(g[id]).value, n - 1);
    }
  }

  lemma {:induction false} DistinctFit<T>(vs: seq<T>, all: set<T>)
    requires forall i :: 0 <= i < |vs| ==> vs[i] in all
    requires forall i, j :: 0 <= i < j < |vs| ==> vs[i] != vs[j]
    ensures |vs| <= |all|
  {
    if vs != [] {
      var n := |vs| - 1;
      DistinctFit(vs[..n], all - {vs[n]});
    }
  }

  /** The muxes on the way, for as many steps as there are muxes. */
  function Path(g: Graph, id: nat, n: nat): (vs: seq<nat>)
    requires forall i: nat :: i < n ==> Follow(g, id, i).Some?
    ensures |vs| == n && forall i :: 0 <= i < n ==> Some(vs[i]) == Follow(g, id, i)
  {
    seq(n, i requires 0 <= i < n => Follow(g, id, i).value)
  }

  lemma FollowEarlier(g: Graph, id: nat, i: nat, n: nat)
    requires i <= n && Follow(g, id, n).Some?
    ensures Follow(g, id, i).Some?
  {
    FollowOn(g, id, i, n - i);
  }

  lemma LongChainIsCyclic(g: Graph, id: nat)
    requires GraphOk(g) && id in g && Follow(g, id, |g|).Some?
    ensures !NoSlashCycle(g)
  {
    forall i: nat | i < |g| + 1 ensures Follow(g, id, i).Some? && Follow(g, id, i).value in g {
      FollowEarlier(g, id, i, |g|);
      FollowStaysInside(g, id, i);
    }
    var vs := Path(g, id, |g| + 1);
    assert |g.Keys| == |g|;
    if forall i, j :: 0 <= i < j < |vs| ==> vs[i] != vs[j] {
      DistinctFit(vs, g.Keys);
    } else {
      var i, j :| 0 <= i < j < |vs| && vs[i] == vs[j];
      FollowOn(g, id, i, j - i);
      assert Follow(g, vs[i], j - i) == Some(vs[i]);
    }
  }

  lemma {:induction false} CycleGoesOn(g: Graph, id: nat, n: nat, k: nat)
    requires n > 0 && Follow(g, id, n) == Some(id)
    ensures Follow(g, id, k * n) == Some(id) && Follow(g, id, k).Some?
  {
    if k > 0 {
      CycleGoesOn(g, id, n, k - 1);
      FollowOn(g, id, (k - 1) * n, n);
      assert (k - 1) * n + n == k * n;
    }
    assert k <= k * n;
    FollowEarlier(g, id, k, k * n);
  }

  /** No cycle means that every chain of "/" mounts ends, and then within as many
      steps as there are muxes: a bound that can be checked on the graph. */
  lemma NoCycleIffChainsEnd(g: Graph)
    requires GraphOk(g)
    ensures NoSlashCycle(g) <==> EveryChainEnds(g)
    ensures NoSlashCycle(g) <==> forall id :: id in g ==> Grounded(g, id, |g|)
  {
    forall id | id in g && !Grounded(g, id, |g|) ensures !NoSlashCycle(g) {
      LongChainIsCyclic(g, id);
    }
    if !NoSlashCycle(g) {
      var id, n: nat :| id in g && n > 0 && Follow(g, id, n) == Some(id);
      forall k: nat ensures !Grounded(g, id, k) { CycleGoesOn(g, id, n, k); }
    }
  }

  lemma {:induction false} SlashIsFirst(es: seq<Entry>, c: string)
    requires c != "" && c[0] == '/' && FirstPrefix(es, c).Some? && FirstPrefix(es, c).value.pattern == "/"
    ensures FirstEntry(es, "/") == FirstPrefix(es, c)
  {
    assert "/" <= c;
    if !(es[0].pattern <= c) { SlashIsFirst(es[1..], c); }
  }

  /** Descending shortens the selector, except through "/", where it cannot grow
      although Clean puts a slash back. */
  lemma DescentShrinks(s: State, selector: string)
    requires WellKept(s) && MatchLevel(s, selector).Descend?
    ensures var r := MatchLevel(s, selector);
      || |Clean(r.rest)| < |Clean(selector)|
      || (|Clean(r.rest)| == |Clean(selector)| && SlashMount(s) == Some(r.id))
  {
    var c := Clean(selector);
    FirstPrefixIs(s.es, c);
    var e := FirstPrefix(s.es, c).value;
    var i :| 0 <= i < |s.es| && s.es[i] == e;
    if |e.pattern| == 1 {
      assert e.pattern == "/";
      SlashIsFirst(s.es, c);
    }
  }

  lemma DescentStaysInside(g: Graph, id: nat, selector: string)
    requires GraphOk(g) && id in g && MatchLevel(g[id], selector).Descend?
    ensures MatchLevel(g[id], selector).id in g
  {
    var c := Clean(selector);
    FirstPrefixIs(g[id].es, c);
    var e := FirstPrefix(g[id].es, c).value;
    var i :| 0 <= i < |g[id].es| && g[id].es[i] == e;
  }

  // ---- without a cycle Match returns ----

  lemma {:induction false} MatchReturns(g: Graph, id: nat, selector: string, n: nat) returns (fuel: nat)
    requires GraphOk(g) && EveryChainEnds(g) && id in g && Grounded(g, id, n)
    ensures MatchIn(g, id, selector, fuel) != OutOfFuel
    decreases |Clean(selector)|, n
  {
    var level := Ask(g, id, selector);
    if level.Descend? {
      DescentShrinks(g[id], selector);
      DescentStaysInside(g, id, selector);
      var k: nat;
      if |Clean(level.rest)| < |Clean(selector)| {
        k :| Grounded(g, level.id, k);
      } else {
        GroundedNext(g, id, n);
        k := n - 1;
      }
      fuel := MatchReturns(g, level.id, level.rest, k);
    } else {
      fuel := 0;
    }
    Unfold(g, id, selector, fuel + 1, level);
    fuel := fuel + 1;
  }

  lemma GroundedNext(g: Graph, id: nat, n: nat)
    requires id in g && SlashMount(g[id]).Some? && Grounded(g, id, n)
    ensures n > 0 && Grounded(g, SlashMount(g[id]).value, n - 1)
  {}

  // ---- with a cycle it does not ----

  lemma {:induction false} LongerThanGraph(g: Graph, ids: set<nat>) returns (n: nat)
    requires ids <= g.Keys
    ensures forall id, k :: id in ids && k in g[id].m ==> |k| < n
  {
    if ids == {} {
      n := 0;
    } else {
      var id :| id in ids;
      n := LongerThanGraph(g, ids - {id});
      var k := LongerThanAll(g[id].m.Keys);
      if n < k { n := k; }
    }
  }

  lemma CleanXs(n: nat, selector: string)
    requires n > 0 && (selector == Xs(n) || selector == "/" + Xs(n))
    ensures Clean(selector) == "/" + Xs(n)
  {
    assert forall i :: 0 <= i < |Clean(selector)| ==> Clean(selector)[i] == ("/" + Xs(n))[i];
  }

  /** A selector of one long component can only be answered through "/". */
  lemma OnlySlashMatches(s: State, n: nat, selector: string)
    requires WellKept(s) && n > 0 && (forall k :: k in s.m ==> |k| < n)
    requires selector == Xs(n) || selector == "/" + Xs(n)
    requires SlashMount(s).Some?
    ensures MatchLevel(s, selector) == Descend(SlashMount(s).value, Xs(n))
  {
    var c := "/" + Xs(n);
    CleanXs(n, selector);
    SlashMatches(s.es, c);
    FirstPrefixIs(s.es, c);
    var e := FirstPrefix(s.es, c).value;
    var i :| 0 <= i < |s.es| && s.es[i] == e;
    PrefixIsSlash(e.pattern, n);
    SlashIsFirst(s.es, c);
    assert c !in s.m && c[1..] == Xs(n);
  }

  lemma PrefixIsSlash(p: string, n: nat)
    requires EndsInSlash(p) && p <= "/" + Xs(n)
    ensures p == "/"
  {
    var c := "/" + Xs(n);
    assert c[|p| - 1] == p[|p| - 1];
  }

  lemma {:induction false} SlashMatches(es: seq<Entry>, c: string)
    requires c != "" && c[0] == '/' && FirstEntry(es, "/").Some?
    ensures FirstPrefix(es, c).Some?
  {
    if es[0].pattern == "/" { assert "/" <= c; }
    else if !(es[0].pattern <= c) { SlashMatches(es[1..], c); }
  }

  /** Following "/" mounts from id never comes to an end. */
  ghost predicate Endless(g: Graph, id: nat) {
    id in g && forall k: nat :: !Grounded(g, id, k)
  }

  /** One name, longer than every pattern in the graph. */
  ghost predicate LongName(g: Graph, n: nat, selector: string) {
    && n > 0 && (forall i, k :: i in g && k in g[i].m ==> |k| < n)
    && (selector == Xs(n) || selector == "/" + Xs(n))
  }

  /** It is passed on along the chain. */
  lemma EndlessStep(g: Graph, id: nat, n: nat, selector: string) returns (j: nat)
    requires GraphOk(g) && Endless(g, id) && LongName(g, n, selector)
    ensures Ask(g, id, selector) == Descend(j, Xs(n)) && Endless(g, j) && LongName(g, n, Xs(n))
  {
    assert !Grounded(g, id, 1);
    OnlySlashMatches(g[id], n, selector);
    j := SlashMount(g[id]).value;
    MountStaysInside(g, id);
    forall k: nat ensures !Grounded(g, j, k) { assert !Grounded(g, id, k + 1); }
  }

  lemma NotYet(g: Graph, id: nat, selector: string, fuel: nat, j: nat, rest: string)
    requires Ask(g, id, selector) == Descend(j, rest) && MatchIn(g, j, rest, fuel) == OutOfFuel
    ensures MatchIn(g, id, selector, fuel + 1) == OutOfFuel
  {}

  lemma {:induction false} CycleNeverReturns(g: Graph, id: nat, n: nat, selector: string, fuel: nat)
    requires GraphOk(g) && Endless(g, id) && LongName(g, n, selector)
    ensures MatchIn(g, id, selector, fuel) == OutOfFuel
    decreases fuel
  {
    if fuel > 0 {
      var j := EndlessStep(g, id, n, selector);
      CycleNeverReturns(g, j, n, Xs(n), fuel - 1);
      NotYet(g, id, selector, fuel - 1, j, Xs(n));
    }
  }

  /** A mux mounted in itself on "/" is such a graph. */
  lemma SelfMountIsACycle()
    ensures var g := map[0 := ApplyAll([Handle("/", Some(Handler.Submux(0)))])];
      GraphOk(g) && !NoSlashCycle(g)
  {
    var ops := [Op.Handle("/", Some(Handler.Submux(0)))];
    var g := map[0 := ApplyAll(ops)];
    RunsKeepOrder(ops);
    assert ops[..0] == [] && Clean("/") == "/";
    var e := Entry(Handler.Submux(0), "/");
    assert ApplyAll(ops) == State(map["/" := e], [e]);
    assert Follow(g, 0, 1) == Some(0);
  }

  /** Match returns on every selector and from every mux of a graph if and only if
      no cycle is made of "/" mounts alone; cycles through longer patterns do no
      harm. */
  lemma MatchReturnsIffNoSlashCycle(g: Graph)
    requires GraphOk(g)
    ensures (forall id, selector :: id in g ==> Returns(g, id, selector)) <==> NoSlashCycle(g)
  {
    NoCycleIffChainsEnd(g);
    if NoSlashCycle(g) {
      forall id, selector | id in g ensures Returns(g, id, selector) {
        var n: nat :| Grounded(g, id, n);
        var fuel := MatchReturns(g, id, selector, n);
      }
    } else {
      var id :| id in g && forall n: nat :: !Grounded(g, id, n);
      var n := LongerThanGraph(g, g.Keys);
      var selector := Xs(n + 1);
      forall fuel: nat ensures MatchIn(g, id, selector, fuel) == OutOfFuel {
        CycleNeverReturns(g, id, n + 1, selector, fuel);
      }
      assert !Returns(g, id, selector);
    }
  }
}
