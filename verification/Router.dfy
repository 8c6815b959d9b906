/** The selector router (rpc/handler.go): a map of exact patterns, an index of the
    patterns that end in "/" sorted from longest to shortest, and descent into
    sub-muxes with the matched prefix trimmed. */
module Router {
  import opened Wire

  // ---- selectors ----

  function Slashes(s: string): (r: string)
    ensures |r| == |s| && forall i :: 0 <= i < |s| ==> r[i] == if s[i] == '.' then '/' else s[i]
  {
    seq(|s|, i requires 0 <= i < |s| => if s[i] == '.' then '/' else s[i])
  }

  /** cleanSelector */
  function Clean(s: string): (r: string)
    ensures r != "" && r[0] == '/' && '.' !in r
  {
    if s == "" then "/"
    else if s[0] != '/' then Slashes("/" + s)
    else Slashes(s)
  }

  lemma CleanIsIdempotent(s: string)
    ensures Clean(Clean(s)) == Clean(s)
  {
    var c := Clean(s);
    assert forall i :: 0 <= i < |c| ==> c[i] in c;
    assert Slashes(c) == c;
  }

  /** What cleaning does, character by character: a leading slash is put in where it
      is missing, and dots become slashes. */
  lemma CleanMeans(s: string)
    ensures s == "" ==> Clean(s) == "/"
    ensures var shift := if s != "" && s[0] == '/' then 0 else 1;
      && (s != "" ==> |Clean(s)| == |s| + shift)
      && Clean(s)[0] == '/'
      && forall i :: 0 <= i < |s| && i + shift < |Clean(s)| ==>
           Clean(s)[i + shift] == if s[i] == '.' then '/' else s[i]
  {}

  predicate EndsInSlash(p: string) {
    p != "" && p[|p| - 1] == '/'
  }

  // ---- one mux ----

  datatype Handler = Leaf(id: nat) | Submux(id: nat)

  datatype Entry = Entry(h: Handler, pattern: string)

  datatype State = State(m: map<string, Entry>, es: seq<Entry>)

  const EMPTY: State := State(map[], [])

  /** What Handle makes of a pattern: a mux is always mounted on a prefix. */
  function PatternFor(pattern: string, h: Handler): (p: string)
    ensures p != "" && p[0] == '/'
  {
    var p := Clean(pattern);
    if h.Submux? && p[|p| - 1] != '/' then p + "/" else p
  }

  /** Longest first; among equals, in order of registration. */
  function Place(es: seq<Entry>, n: nat): (i: nat)
    ensures i <= |es|
  {
    if es == [] || |es[0].pattern| < n then 0 else 1 + Place(es[1..], n)
  }

  function Inserted(es: seq<Entry>, e: Entry): seq<Entry> {
    var i := Place(es, |e.pattern|);
    es[..i] + [e] + es[i..]
  }

  datatype Registered = Ok(s: State) | NilHandler | Duplicate

  function Register(s: State, pattern: string, handler: Option<Handler>): Registered {
    match handler
    case None => NilHandler
    case Some(h) =>
      var p := PatternFor(pattern, h);
      if p in s.m then Duplicate
      else
        var e := Entry(h, p);
        Ok(State(s.m[p := e], if EndsInSlash(p) then Inserted(s.es, e) else s.es))
  }

  /** Remove edits the map and leaves the index alone. */
  function Unregister(s: State, selector: string): State {
    s.(m := s.m - {Clean(selector)})
  }

  /** One level of Match: an answer, or a sub-mux to ask with what is left. */
  datatype Level = Found(h: Handler, pattern: string) | Descend(id: nat, rest: string) | Missing

  function FirstPrefix(es: seq<Entry>, c: string): Option<Entry> {
    if es == [] then None else if es[0].pattern <= c then Some(es[0]) else FirstPrefix(es[1..], c)
  }

  /** strings.TrimPrefix */
  function TrimPrefix(s: string, prefix: string): string {
    if prefix <= s then s[|prefix|..] else s
  }

  function Answer(e: Entry, c: string): Level {
    if e.h.Submux? then Descend(e.h.id, TrimPrefix(c, e.pattern)) else Found(e.h, e.pattern)
  }

  function MatchLevel(s: State, selector: string): Level {
    var c := Clean(selector);
    if c in s.m then Found(s.m[c].h, s.m[c].pattern)
    else match FirstPrefix(s.es, c)
      case None => Missing
      case Some(e) => Answer(e, c)
  }

  lemma {:induction false} FirstPrefixIs(es: seq<Entry>, c: string)
    ensures FirstPrefix(es, c).Some? ==> FirstPrefix(es, c).value in es && FirstPrefix(es, c).value.pattern <= c
    ensures FirstPrefix(es, c).None? ==> forall e :: e in es ==> !(e.pattern <= c)
  {
    if es != [] && !(es[0].pattern <= c) { FirstPrefixIs(es[1..], c); }
  }

  // ---- the index ----

  ghost predicate Sorted(es: seq<Entry>) {
    forall i, j :: 0 <= i < j < |es| ==> |es[i].pattern| >= |es[j].pattern|
  }

  lemma {:induction false} PlaceSplits(es: seq<Entry>, n: nat)
    requires Sorted(es)
    ensures forall j :: 0 <= j < Place(es, n) ==> |es[j].pattern| >= n
    ensures forall j :: Place(es, n) <= j < |es| ==> |es[j].pattern| < n
  {
    if es != [] && !(|es[0].pattern| < n) {
      PlaceSplits(es[1..], n);
      forall j | 0 <= j < Place(es, n) ensures |es[j].pattern| >= n { if j > 0 { assert es[j] == es[1..][j - 1]; } }
      forall j | Place(es, n) <= j < |es| ensures |es[j].pattern| < n { assert es[j] == es[1..][j - 1]; }
    }
  }

  /** es' is es with e put in at i. */
  ghost predicate PutIn(es: seq<Entry>, es': seq<Entry>, e: Entry, i: nat) {
    && i <= |es| && |es'| == |es| + 1 && es'[i] == e
    && (forall j :: 0 <= j < |es'| && j != i ==> es'[j] == es[if j < i then j else j - 1])
  }

  lemma InsertedIndex(es: seq<Entry>, e: Entry)
    ensures PutIn(es, Inserted(es, e), e, Place(es, |e.pattern|))
  {
    var i, es' := Place(es, |e.pattern|), Inserted(es, e);
    forall j | 0 <= j < |es'| && j != i ensures es'[j] == es[if j < i then j else j - 1] {
      if j > i { assert es'[j] == es[i..][j - i - 1]; }
    }
  }

  lemma InsertedSorted(es: seq<Entry>, e: Entry)
    requires Sorted(es)
    ensures Sorted(Inserted(es, e))
  {
    var i, es' := Place(es, |e.pattern|), Inserted(es, e);
    PlaceSplits(es, |e.pattern|);
    InsertedIndex(es, e);
    forall j, k | 0 <= j < k < |es'| ensures |es'[j].pattern| >= |es'[k].pattern| {
      PutInOrdered(es, es', e, i, j, k);
    }
  }

  lemma PutInOrdered(es: seq<Entry>, es': seq<Entry>, e: Entry, i: nat, j: nat, k: nat)
    requires Sorted(es) && PutIn(es, es', e, i) && j < k < |es'|
    requires forall h :: 0 <= h < i ==> |es[h].pattern| >= |e.pattern|
    requires forall h :: i <= h < |es| ==> |es[h].pattern| < |e.pattern|
    ensures |es'[j].pattern| >= |es'[k].pattern|
  {
    if j != i { assert es'[j] == es[if j < i then j else j - 1]; }
    if k != i { assert es'[k] == es[if k < i then k else k - 1]; }
  }

  /** The index is exactly the "/"-terminated part of the map. */
  ghost predicate Synced(s: State) {
    && (forall i :: 0 <= i < |s.es| ==> s.es[i].pattern in s.m && s.m[s.es[i].pattern] == s.es[i])
    && (forall p :: p in s.m && EndsInSlash(p) ==> s.m[p] in s.es)
    && (forall i, j :: 0 <= i < j < |s.es| ==> s.es[i].pattern != s.es[j].pattern)
  }

  ghost predicate WellKept(s: State) {
    && Sorted(s.es)
    && (forall p :: p in s.m ==> s.m[p].pattern == p && p != "" && p[0] == '/')
    && (forall i :: 0 <= i < |s.es| ==> EndsInSlash(s.es[i].pattern) && s.es[i].pattern[0] == '/')
  }

  // ---- longest prefix wins ----

  /** p is the longest registered prefix pattern that matches c: a definition on
      the map alone, with no index in it. */
  ghost predicate IsLongest(m: map<string, Entry>, c: string, p: string) {
    && p in m && EndsInSlash(p) && p <= c
    && forall q :: q in m && EndsInSlash(q) && q <= c ==> |q| <= |p|
  }

  lemma LongestIsUnique(m: map<string, Entry>, c: string, p: string, q: string)
    requires IsLongest(m, c, p) && IsLongest(m, c, q)
    ensures p == q
  {
    assert |p| == |q| && p == c[..|p|] && q == c[..|q|];
  }

  lemma {:induction false} FirstIsLongest(es: seq<Entry>, c: string)
    requires Sorted(es) && FirstPrefix(es, c).Some?
    ensures forall e :: e in es && e.pattern <= c ==> |e.pattern| <= |FirstPrefix(es, c).value.pattern|
  {
    if es[0].pattern <= c {
      forall e | e in es ensures |e.pattern| <= |es[0].pattern| {
        var i :| 0 <= i < |es| && es[i] == e;
      }
    } else {
      assert Sorted(es[1..]);
      FirstIsLongest(es[1..], c);
    }
  }

  /** What a match of c by prefix pattern p, registered for h, is to give: the handler
      and its pattern; or, for a mux, that mux and what is left of c behind p. */
  predicate Gives(h: Handler, p: string, c: string, r: Level) {
    match h
    case Leaf(_) => r == Found(h, p)
    case Submux(j) => r.Descend? && r.id == j && p + r.rest == c
  }

  lemma AnswerGives(e: Entry, c: string)
    requires e.pattern <= c
    ensures Gives(e.h, e.pattern, c, Answer(e, c))
  {}

  lemma GivesOnce(h: Handler, p: string, c: string, r: Level, r': Level)
    requires Gives(h, p, c, r) && Gives(h, p, c, r')
    ensures r == r'
  {
    if h.Submux? { assert r.rest == c[|p|..] && r'.rest == c[|p|..]; }
  }

  /** r is what the map alone says about c: the exact entry if there is one, else
      the longest matching prefix, else nothing. */
  ghost predicate FromMap(m: map<string, Entry>, c: string, r: Level) {
    if c in m then r == Found(m[c].h, c)
    else
      || (r == Missing && forall p :: p in m && EndsInSlash(p) ==> !(p <= c))
      || exists p :: IsLongest(m, c, p) && Gives(m[p].h, p, c, r)
  }

  /** The map leaves no choice. */
  lemma FromMapIsUnique(m: map<string, Entry>, c: string, r: Level, r': Level)
    requires FromMap(m, c, r) && FromMap(m, c, r')
    ensures r == r'
  {
    if c !in m && r != Missing && r' != Missing {
      var p :| IsLongest(m, c, p) && Gives(m[p].h, p, c, r);
      var q :| IsLongest(m, c, q) && Gives(m[q].h, q, c, r');
      LongestIsUnique(m, c, p, q);
      GivesOnce(m[p].h, p, c, r, r');
    }
  }

  /** With a synchronised index, one level of Match is decided by the map alone. */
  lemma LongestPrefixWins(s: State, selector: string)
    requires WellKept(s) && Synced(s)
    ensures FromMap(s.m, Clean(selector), MatchLevel(s, selector))
  {
    var c := Clean(selector);
    FirstPrefixIs(s.es, c);
    if c !in s.m && FirstPrefix(s.es, c).Some? {
      FirstIsLongest(s.es, c);
      AnswerGives(FirstPrefix(s.es, c).value, c);
      assert IsLongest(s.m, c, FirstPrefix(s.es, c).value.pattern);
    }
  }

  /** Hence the order of registration does not matter. */
  lemma OrderDoesNotMatter(s: State, t: State, selector: string)
    requires WellKept(s) && WellKept(t) && Synced(s) && Synced(t) && s.m == t.m
    ensures MatchLevel(s, selector) == MatchLevel(t, selector)
  {
    LongestPrefixWins(s, selector);
    LongestPrefixWins(t, selector);
    FromMapIsUnique(s.m, Clean(selector), MatchLevel(s, selector), MatchLevel(t, selector));
  }

  // ---- runs ----

  datatype Op = Handle(pattern: string, h: Option<Handler>) | Remove(selector: string)

  function Apply(s: State, op: Op): State {
    match op
    case Handle(p, h) => (match Register(s, p, h) case Ok(t) => t case _ => s)
    case Remove(sel) => Unregister(s, sel)
  }

  function ApplyAll(ops: seq<Op>): State {
    if ops == [] then EMPTY else Apply(ApplyAll(ops[..|ops| - 1]), ops[|ops| - 1])
  }

  /** A Remove that takes a registered "/"-terminated pattern out of the map. */
  predicate Drops(s: State, op: Op) {
    op.Remove? && Clean(op.selector) in s.m && EndsInSlash(Clean(op.selector))
  }

  function Dropped(ops: seq<Op>): nat {
    if ops == [] then 0
    else Dropped(ops[..|ops| - 1]) + if Drops(ApplyAll(ops[..|ops| - 1]), ops[|ops| - 1]) then 1 else 0
  }

  function SlashKeys(m: map<string, Entry>): set<string> {
    set p | p in m && EndsInSlash(p)
  }

  lemma {:induction false} RunsKeepOrder(ops: seq<Op>)
    ensures WellKept(ApplyAll(ops))
    ensures |ApplyAll(ops).es| == |SlashKeys(ApplyAll(ops).m)| + Dropped(ops)
  {
    if ops != [] {
      RunsKeepOrder(ops[..|ops| - 1]);
      StepKeepsOrder(ApplyAll(ops[..|ops| - 1]), ops[|ops| - 1]);
    }
  }

  /** How far the index runs ahead of the map. */
  ghost function Surplus(s: State): int {
    |s.es| - |SlashKeys(s.m)|
  }

  lemma RemoveKeepsOrder(s: State, sel: string)
    requires WellKept(s)
    ensures WellKept(Unregister(s, sel))
    ensures Surplus(Unregister(s, sel)) == Surplus(s) + if Drops(s, Remove(sel)) then 1 else 0
  {
    assert SlashKeys(Unregister(s, sel).m) == SlashKeys(s.m) - {Clean(sel)};
  }

  lemma InsertKeepsOrder(s: State, e: Entry)
    requires WellKept(s) && e.pattern !in s.m && e.pattern != "" && e.pattern[0] == '/'
    ensures var t := State(s.m[e.pattern := e], if EndsInSlash(e.pattern) then Inserted(s.es, e) else s.es);
      WellKept(t) && Surplus(t) == Surplus(s)
  {
    var m := s.m[e.pattern := e];
    if EndsInSlash(e.pattern) {
      assert SlashKeys(m) == SlashKeys(s.m) + {e.pattern};
      InsertedSorted(s.es, e);
      InsertedIndex(s.es, e);
    } else {
      assert SlashKeys(m) == SlashKeys(s.m);
    }
  }

  lemma StepKeepsOrder(s: State, op: Op)
    requires WellKept(s)
    ensures WellKept(Apply(s, op)) && Surplus(Apply(s, op)) == Surplus(s) + if Drops(s, op) then 1 else 0
  {
    match op {
      case Remove(sel) => RemoveKeepsOrder(s, sel);
      case Handle(pattern, h) =>
        if Register(s, pattern, h).Ok? { InsertKeepsOrder(s, Entry(h.value, PatternFor(pattern, h.value))); }
    }
  }

  lemma {:induction false} FewerThanKeys(es: seq<Entry>, keys: set<string>)
    requires forall i :: 0 <= i < |es| ==> es[i].pattern in keys
    requires forall i, j :: 0 <= i < j < |es| ==> es[i].pattern != es[j].pattern
    ensures |es| <= |keys|
  {
    if es != [] {
      var last := es[|es| - 1].pattern;
      FewerThanKeys(es[..|es| - 1], keys - {last});
    }
  }

  lemma StepKeepsSync(s: State, op: Op)
    requires WellKept(s) && Synced(s) && !Drops(s, op)
    ensures Synced(Apply(s, op))
  {
    var t := Apply(s, op);
    if op.Handle? && Register(s, op.pattern, op.h).Ok? && EndsInSlash(PatternFor(op.pattern, op.h.value)) {
      InsertKeepsSync(s, Entry(op.h.value, PatternFor(op.pattern, op.h.value)));
    }
  }

  lemma PutInKnown(s: State, es: seq<Entry>, e: Entry, i: nat, j: nat)
    requires Synced(s) && PutIn(s.es, es, e, i) && e.pattern !in s.m && j < |es|
    ensures var m := s.m[e.pattern := e]; es[j].pattern in m && m[es[j].pattern] == es[j]
  {
    if j != i { assert es[j] == s.es[if j < i then j else j - 1]; }
  }

  lemma PutInListed(s: State, es: seq<Entry>, e: Entry, i: nat, p: string)
    requires Synced(s) && PutIn(s.es, es, e, i) && p in s.m && EndsInSlash(p)
    ensures s.m[p] in es
  {
    var j :| 0 <= j < |s.es| && s.es[j] == s.m[p];
    assert es[if j < i then j else j + 1] == s.es[j];
  }

  lemma PutInDistinct(s: State, es: seq<Entry>, e: Entry, i: nat, j: nat, k: nat)
    requires Synced(s) && PutIn(s.es, es, e, i) && e.pattern !in s.m && j < k < |es|
    ensures es[j].pattern != es[k].pattern
  {
    var j', k' := if j < i then j else j - 1, if k < i then k else k - 1;
    if j == i { assert es[k] == s.es[k']; }
    else if k == i { assert es[j] == s.es[j']; }
    else { assert es[j] == s.es[j'] && es[k] == s.es[k'] && j' < k'; }
  }

  lemma InsertKeepsSync(s: State, e: Entry)
    requires WellKept(s) && Synced(s) && e.pattern !in s.m && EndsInSlash(e.pattern)
    ensures Synced(State(s.m[e.pattern := e], Inserted(s.es, e)))
  {
    var i, es, m := Place(s.es, |e.pattern|), Inserted(s.es, e), s.m[e.pattern := e];
    InsertedIndex(s.es, e);
    forall j | 0 <= j < |es| ensures es[j].pattern in m && m[es[j].pattern] == es[j] {
      PutInKnown(s, es, e, i, j);
    }
    forall p | p in m && EndsInSlash(p) ensures m[p] in es {
      if p != e.pattern { PutInListed(s, es, e, i, p); }
    }
    forall j, k | 0 <= j < k < |es| ensures es[j].pattern != es[k].pattern {
      PutInDistinct(s, es, e, i, j, k);
    }
  }

  /** The index and the map agree after a run if and only if the run never removed
      a registered "/"-terminated pattern. */
  lemma {:induction false} SyncedIffNothingDropped(ops: seq<Op>)
    ensures Synced(ApplyAll(ops)) <==> Dropped(ops) == 0
  {
    RunsKeepOrder(ops);
    var s := ApplyAll(ops);
    if Synced(s) {
      FewerThanKeys(s.es, SlashKeys(s.m));
    }
    if ops != [] && Dropped(ops) == 0 {
      var before := ops[..|ops| - 1];
      SyncedIffNothingDropped(before);
      RunsKeepOrder(before);
      StepKeepsSync(ApplyAll(before), ops[|ops| - 1]);
    }
  }

  // ---- registration ----

  /** The pattern under which Handle registers: the cleaned one, with a final slash
      for a mux. */
  predicate RegistersAs(pattern: string, h: Handler, p: string) {
    if h.Leaf? || EndsInSlash(Clean(pattern)) then p == Clean(pattern) else p == Clean(pattern) + "/"
  }

  /** Handle refuses nil and a pattern already registered, and otherwise adds exactly
      that entry: to the map, and to the index if it is a prefix pattern. */
  lemma RegistrationMeans(s: State, pattern: string, h: Handler, p: string)
    requires RegistersAs(pattern, h, p)
    ensures Register(s, pattern, None) == NilHandler
    ensures Register(s, pattern, Some(h)) == Duplicate <==> p in s.m
    ensures p !in s.m ==>
      var r := Register(s, pattern, Some(h));
      && r.Ok? && r.s.m == s.m[p := Entry(h, p)]
      && forall e :: e in r.s.es <==> e in s.es || (EndsInSlash(p) && e == Entry(h, p))
  {
    if p !in s.m && EndsInSlash(p) { InsertedHas(s.es, Entry(h, p)); }
  }

  lemma InsertedHas(es: seq<Entry>, e: Entry)
    ensures forall f :: f in Inserted(es, e) <==> f in es || f == e
  {
    var i := Place(es, |e.pattern|);
    assert es == es[..i] + es[i..];
  }

  /** Every sub-mux is mounted on a prefix. */
  ghost predicate MuxesOnPrefixes(s: State) {
    && (forall p :: p in s.m && s.m[p].h.Submux? ==> EndsInSlash(s.m[p].pattern))
    && (forall e :: e in s.es && e.h.Submux? ==> EndsInSlash(e.pattern))
  }

  lemma {:induction false} MuxesStayOnPrefixes(ops: seq<Op>)
    ensures MuxesOnPrefixes(ApplyAll(ops))
  {
    if ops != [] {
      var before, op := ops[..|ops| - 1], ops[|ops| - 1];
      MuxesStayOnPrefixes(before);
      if op.Handle? && op.h.Some? {
        var cleaned := Clean(op.pattern);
        var p := if op.h.value.Leaf? || EndsInSlash(cleaned) then cleaned else cleaned + "/";
        RegistrationMeans(ApplyAll(before), op.pattern, op.h.value, p);
      }
    }
  }

  /** After an accepted Handle on a mux in step, a selector below the new prefix
      pattern, with no exact entry and no longer prefix, is answered by the new
      handler: a mux is asked for what is left. */
  lemma RegisteredAnswers(s: State, pattern: string, h: Handler, p: string, selector: string)
    requires WellKept(s) && Synced(s) && RegistersAs(pattern, h, p) && EndsInSlash(p) && p !in s.m
    requires p <= Clean(selector) && Clean(selector) !in s.m && Clean(selector) != p
    requires forall q :: q in s.m && EndsInSlash(q) && q <= Clean(selector) ==> |q| <= |p|
    ensures Register(s, pattern, Some(h)).Ok?
    ensures Gives(h, p, Clean(selector), MatchLevel(Register(s, pattern, Some(h)).s, selector))
  {
    RegistrationMeans(s, pattern, h, p);
    var op := Op.Handle(pattern, Some(h));
    StepKeepsOrder(s, op);
    StepKeepsSync(s, op);
    var t := Apply(s, op);
    LongestPrefixWins(t, selector);
    var c := Clean(selector);
    assert IsLongest(t.m, c, p);
    forall q | IsLongest(t.m, c, q) ensures q == p { LongestIsUnique(t.m, c, p, q); }
  }

  /** And its exact selector is answered exactly. */
  lemma RegisteredExactly(s: State, pattern: string, h: Handler, p: string, selector: string)
    requires RegistersAs(pattern, h, p) && p !in s.m && Clean(selector) == p
    ensures Register(s, pattern, Some(h)).Ok?
    ensures MatchLevel(Register(s, pattern, Some(h)).s, selector) == Found(h, p)
  {
    RegistrationMeans(s, pattern, h, p);
  }

  // ---- registration order ----

  /** Registrations that all succeed, in whatever order they are made. */
  ghost predicate Compatible(ops: seq<Op>) {
    && (forall op :: op in ops ==> op.Handle? && op.h.Some?)
    && (forall i, j :: 0 <= i < j < |ops| ==> PatternOf(ops[i]) != PatternOf(ops[j]))
  }

  function PatternOf(op: Op): string {
    if op.Handle? && op.h.Some? then PatternFor(op.pattern, op.h.value) else ""
  }

  ghost predicate Holds(m: map<string, Entry>, ops: seq<Op>) {
    && (forall op :: op in ops ==>
          op.Handle? && op.h.Some? && PatternOf(op) in m && m[PatternOf(op)] == Entry(op.h.value, PatternOf(op)))
    && (forall p :: p in m ==> exists op :: op in ops && PatternOf(op) == p)
  }

  lemma HoldsMore(m: map<string, Entry>, ops: seq<Op>, op: Op)
    requires Holds(m, ops) && op.Handle? && op.h.Some? && PatternOf(op) !in m
    ensures Holds(m[PatternOf(op) := Entry(op.h.value, PatternOf(op))], ops + [op])
  {
    var m' := m[PatternOf(op) := Entry(op.h.value, PatternOf(op))];
    forall p | p in m' ensures exists o :: o in ops + [op] && PatternOf(o) == p {
      if p == PatternOf(op) {
        assert op in ops + [op];
      } else {
        var o :| o in ops && PatternOf(o) == p;
        assert o in ops + [op];
      }
    }
  }

  lemma {:induction false} RegistrationsHold(ops: seq<Op>)
    requires Compatible(ops)
    ensures Dropped(ops) == 0 && Holds(ApplyAll(ops).m, ops)
  {
    if ops != [] {
      var before, op := ops[..|ops| - 1], ops[|ops| - 1];
      assert op in ops && ops == before + [op];
      RegistrationsHold(before);
      var s := ApplyAll(before);
      assert PatternOf(op) !in s.m;
      HoldsMore(s.m, before, op);
    }
  }

  lemma HoldsTheSame(m: map<string, Entry>, m': map<string, Entry>, ops: seq<Op>, ops': seq<Op>)
    requires Holds(m, ops) && Holds(m', ops') && forall op :: op in ops ==> op in ops'
    ensures forall p :: p in m ==> p in m' && m'[p] == m[p]
  {
    forall p | p in m ensures p in m' && m'[p] == m[p] {
      var op :| op in ops && PatternOf(op) == p;
    }
  }

  /** The same registrations made in two orders: every selector is answered
      alike. */
  lemma RegistrationOrderDoesNotMatter(ops: seq<Op>, ops': seq<Op>, selector: string)
    requires Compatible(ops) && Compatible(ops') && forall op :: op in ops <==> op in ops'
    ensures MatchLevel(ApplyAll(ops), selector) == MatchLevel(ApplyAll(ops'), selector)
  {
    RegistrationsSync(ops);
    RegistrationsSync(ops');
    SameMap(ApplyAll(ops).m, ApplyAll(ops').m, ops, ops');
    OrderDoesNotMatter(ApplyAll(ops), ApplyAll(ops'), selector);
  }

  lemma RegistrationsSync(ops: seq<Op>)
    requires Compatible(ops)
    ensures WellKept(ApplyAll(ops)) && Synced(ApplyAll(ops)) && Holds(ApplyAll(ops).m, ops)
  {
    RegistrationsHold(ops);
    RunsKeepOrder(ops);
    SyncedIffNothingDropped(ops);
  }

  lemma SameMap(m: map<string, Entry>, m': map<string, Entry>, ops: seq<Op>, ops': seq<Op>)
    requires Holds(m, ops) && Holds(m', ops') && forall op :: op in ops <==> op in ops'
    ensures m == m'
  {
    HoldsTheSame(m, m', ops, ops');
    HoldsTheSame(m', m, ops', ops);
  }

  // ---- the object ----

  lemma {:induction false} PlaceIs(es: seq<Entry>, n: nat, i: nat)
    requires i <= |es|
    requires forall j :: 0 <= j < i ==> |es[j].pattern| >= n
    requires i < |es| ==> |es[i].pattern| < n
    ensures Place(es, n) == i
  {
    if i > 0 { PlaceIs(es[1..], n, i - 1); }
  }

  datatype Verdict = Accepted | PanicNilHandler | PanicDuplicate

  class RespondMux {
    var m: map<string, Entry>
    var es: seq<Entry>

    ghost function Value(): State reads this { State(m, es) }
    ghost predicate Valid() reads this { WellKept(Value()) }

    constructor ()
      ensures Valid() && Value() == EMPTY
    {
      m, es := map[], [];
    }

    method Handle(pattern: string, handler: Option<Handler>) returns (r: Verdict)
      requires Valid()
      modifies this
      ensures Valid()
      ensures match Register(old(Value()), pattern, handler)
        case Ok(s) => r == Accepted && Value() == s
        case NilHandler => r == PanicNilHandler && Value() == old(Value())
        case Duplicate => r == PanicDuplicate && Value() == old(Value())
    {
      var p := Clean(pattern);
      if handler.Some? && handler.value.Submux? && p[|p| - 1] != '/' {
        p := p + "/";
      }
      if handler == None {
        return PanicNilHandler;
      }
      if p in m {
        return PanicDuplicate;
      }
      Enter(Entry(handler.value, p));
      return Accepted;
    }

    method Enter(e: Entry)
      requires Valid() && e.pattern !in m && e.pattern != "" && e.pattern[0] == '/'
      modifies this
      ensures Valid() && m == old(m)[e.pattern := e]
      ensures es == if EndsInSlash(e.pattern) then Inserted(old(es), e) else old(es)
    {
      InsertKeepsOrder(Value(), e);
      m := m[e.pattern := e];
      if e.pattern[|e.pattern| - 1] == '/' {
        AppendSorted(e);
      }
    }

    /** appendSorted: sort.Search for the first shorter pattern, then a shift. */
    method AppendSorted(e: Entry)
      requires Sorted(es)
      modifies this`es
      ensures es == Inserted(old(es), e)
    {
      var i, j := 0, |es|;
      while i < j
        invariant 0 <= i <= j <= |es|
        invariant forall k :: 0 <= k < i ==> |es[k].pattern| >= |e.pattern|
        invariant forall k :: j <= k < |es| ==> |es[k].pattern| < |e.pattern|
      {
        var h := (i + j) / 2;
        if |es[h].pattern| < |e.pattern| {
          j := h;
        } else {
          i := h + 1;
        }
      }
      PlaceIs(es, |e.pattern|, i);
      if i == |es| {
        assert es[i..] == [];
        es := es + [e];
        return;
      }
      es := es[..i] + [e] + es[i..];
    }

    method Remove(selector: string) returns (h: Option<Handler>)
      requires Valid()
      modifies this`m
      ensures Valid() && Value() == Unregister(old(Value()), selector)
      ensures h == if Clean(selector) in old(m) then Some(old(m)[Clean(selector)].h) else None
    {
      StepKeepsOrder(Value(), Op.Remove(selector));
      var key := Clean(selector);
      h := if key in m then Some(m[key].h) else None;
      m := m - {key};
    }

    /** Match up to the call of the sub-mux. */
    method Match(selector: string) returns (r: Level)
      ensures r == MatchLevel(Value(), selector)
    {
      var c := Clean(selector);
      if c in m {
        return Found(m[c].h, m[c].pattern);
      }
      for i := 0 to |es|
        invariant FirstPrefix(es, c) == FirstPrefix(es[i..], c)
      {
        if es[i].pattern <= c {
          return Answer(es[i], c);
        }
      }
      return Missing;
    }
  }
}
