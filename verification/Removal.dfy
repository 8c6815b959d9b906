/** What Remove does to routing. It deletes from the map and leaves the sorted index
    alone, so a removed prefix pattern goes on answering; this module says exactly
    when Match can be trusted all the same. */
module Removal {
  import opened Wire
  import opened Router

  /** What Remove does achieve: nothing but the exact selector is affected, so a
      removed prefix keeps answering for every selector below it. */
  lemma RemoveAffectsOnlyTheExactSelector(s: State, key: string, selector: string)
    requires Clean(selector) != Clean(key)
    ensures MatchLevel(Unregister(s, key), selector) == MatchLevel(s, selector)
  {}

  /** Remove takes exactly its pattern out of the map. */
  lemma RemovedIsGone(s: State, key: string)
    ensures Clean(key) !in Unregister(s, key).m
    ensures forall p :: p != Clean(key) ==> (p in Unregister(s, key).m <==> p in s.m)
    ensures forall p :: p in Unregister(s, key).m ==> Unregister(s, key).m[p] == s.m[p]
  {}

  /** Every selector is answered as the map alone says. */
  ghost predicate Truthful(s: State) {
    forall selector :: FromMap(s.m, Clean(selector), MatchLevel(s, selector))
  }

  /** The entry of the index that answers for pattern p. */
  function FirstEntry(es: seq<Entry>, p: string): Option<Entry> {
    if es == [] then None else if es[0].pattern == p then Some(es[0]) else FirstEntry(es[1..], p)
  }

  /** That entry is always the one in the map. */
  ghost predicate Current(s: State) {
    forall p :: FirstEntry(s.es, p).Some? ==> p in s.m && s.m[p] == FirstEntry(s.es, p).value
  }

  /** What holds of the index in every run, besides WellKept. */
  ghost predicate Covers(s: State) {
    && (forall p :: p in s.m && EndsInSlash(p) ==> s.m[p] in s.es)
    && (forall e :: e in s.es ==> '.' !in e.pattern)
  }

  lemma {:induction false} FirstEntryIs(es: seq<Entry>, p: string)
    ensures FirstEntry(es, p).Some? ==> FirstEntry(es, p).value in es && FirstEntry(es, p).value.pattern == p
    ensures FirstEntry(es, p).None? ==> forall e :: e in es ==> e.pattern != p
  {
    if es != [] && es[0].pattern != p { FirstEntryIs(es[1..], p); }
  }

  /** The first match is the first entry of its own pattern. */
  lemma {:induction false} FirstPrefixIsFirstEntry(es: seq<Entry>, c: string)
    requires FirstPrefix(es, c).Some?
    ensures FirstEntry(es, FirstPrefix(es, c).value.pattern) == FirstPrefix(es, c)
  {
    if !(es[0].pattern <= c) {
      FirstPrefixIs(es[1..], c);
      FirstPrefixIsFirstEntry(es[1..], c);
    }
  }

  lemma CurrentIsTruthful(s: State, selector: string)
    requires WellKept(s) && Covers(s) && Current(s)
    ensures FromMap(s.m, Clean(selector), MatchLevel(s, selector))
  {
    var c := Clean(selector);
    FirstPrefixIs(s.es, c);
    if c !in s.m && FirstPrefix(s.es, c).Some? {
      var e := FirstPrefix(s.es, c).value;
      FirstPrefixIsFirstEntry(s.es, c);
      FirstIsLongest(s.es, c);
      assert EndsInSlash(e.pattern);
      AnswerGives(e, c);
      assert IsLongest(s.m, c, e.pattern);
    }
  }

  function Xs(n: nat): (s: string)
    ensures |s| == n && forall i :: 0 <= i < n ==> s[i] == 'x'
  {
    seq(n, _ => 'x')
  }

  lemma {:induction false} LongerThanAll(keys: set<string>) returns (n: nat)
    ensures forall k :: k in keys ==> |k| < n
  {
    if keys == {} {
      n := 0;
    } else {
      var k :| k in keys;
      n := LongerThanAll(keys - {k});
      if n <= |k| { n := |k| + 1; }
    }
  }

  /** A prefix pattern that matches a name below p is no longer than p. */
  lemma PrefixBelow(p: string, n: nat, q: string)
    requires q <= p + Xs(n) && EndsInSlash(q)
    ensures |q| <= |p|
  {
    var c := p + Xs(n);
    assert c[|q| - 1] == q[|q| - 1];
  }

  /** The selector of one long name below p. */
  lemma BelowIsClean(p: string, n: nat)
    requires p != "" && p[0] == '/' && '.' !in p
    ensures Clean(p + Xs(n)) == p + Xs(n)
  {
    var c := p + Xs(n);
    forall i | 0 <= i < |c| ensures Slashes(c)[i] == c[i] {
      if i < |p| { assert c[i] == p[i] && p[i] in p; }
    }
  }

  /** What Match says about that selector: what the first entry of p says. */
  lemma BelowIsAnswered(s: State, p: string, n: nat)
    requires WellKept(s) && Covers(s) && FirstEntry(s.es, p).Some? && p + Xs(n) !in s.m
    ensures MatchLevel(s, p + Xs(n)) == Answer(FirstEntry(s.es, p).value, p + Xs(n))
  {
    var c, e := p + Xs(n), FirstEntry(s.es, p).value;
    FirstEntryIs(s.es, p);
    assert EndsInSlash(p) && p[0] == '/' && p <= c;
    BelowIsClean(p, n);
    FirstPrefixIs(s.es, c);
    var f := FirstPrefix(s.es, c).value;
    FirstIsLongest(s.es, c);
    assert EndsInSlash(f.pattern);
    PrefixBelow(p, n, f.pattern);
    assert f.pattern == c[..|p|] == p;
    FirstPrefixIsFirstEntry(s.es, c);
  }

  /** An answer tells which entry gave it. */
  lemma GivesTells(h: Handler, p: string, k: Handler, q: string, c: string, r: Level)
    requires p <= c && q <= c && Gives(h, p, c, r) && Gives(k, q, c, r)
    ensures p == q && h == k
  {
    if h.Submux? { assert |p| == |c| - |r.rest| == |q|; }
    assert p == c[..|p|] && q == c[..|q|];
  }

  /** Exactly when Match can be trusted, in terms of the index: no entry that
      answers has been removed from the map or replaced there. */
  lemma TruthfulIffCurrent(s: State)
    requires WellKept(s) && Covers(s)
    ensures Truthful(s) <==> Current(s)
  {
    if Current(s) {
      forall selector ensures FromMap(s.m, Clean(selector), MatchLevel(s, selector)) {
        CurrentIsTruthful(s, selector);
      }
    } else {
      var p :| FirstEntry(s.es, p).Some? && !(p in s.m && s.m[p] == FirstEntry(s.es, p).value);
      StaleIsSeen(s, p);
    }
  }

  lemma StaleIsSeen(s: State, p: string)
    requires WellKept(s) && Covers(s) && FirstEntry(s.es, p).Some?
    requires !(p in s.m && s.m[p] == FirstEntry(s.es, p).value)
    ensures !Truthful(s)
  {
    var n := LongerThanAll(s.m.Keys);
    var c, e := p + Xs(n), FirstEntry(s.es, p).value;
    assert c !in s.m.Keys;
    FirstEntryIs(s.es, p);
    assert p != "" && p[0] == '/';
    BelowIsAnswered(s, p, n);
    BelowIsClean(p, n);
    if FromMap(s.m, c, Answer(e, c)) {
      var q :| IsLongest(s.m, c, q) && Gives(s.m[q].h, q, c, Answer(e, c));
      AnswerGives(e, c);
      GivesTells(e.h, p, s.m[q].h, q, c, Answer(e, c));
    }
  }

  /** Removing a registered pattern from a mux whose index is in step leaves every
      selector answered from the map if and only if the pattern is not a prefix
      pattern. */
  lemma RemoveIsHonouredIffExact(s: State, key: string)
    requires WellKept(s) && Synced(s) && Covers(s) && Clean(key) in s.m
    ensures Truthful(Unregister(s, key)) <==> !EndsInSlash(Clean(key))
  {
    var t, p := Unregister(s, key), Clean(key);
    RemoveKeepsOrder(s, key);
    TruthfulIffCurrent(t);
    if EndsInSlash(p) {
      FirstEntryIs(s.es, p);
      assert FirstEntry(t.es, p).Some?;
    } else {
      forall q | FirstEntry(t.es, q).Some? ensures q in t.m && t.m[q] == FirstEntry(t.es, q).value {
        FirstEntryIs(t.es, q);
      }
    }
  }

  // ---- over runs ----

  /** The handler with which prefix pattern p was first registered. */
  function FirstHandler(ops: seq<Op>, p: string): Option<Handler> {
    if ops == [] then None
    else
      var before, op := ops[..|ops| - 1], ops[|ops| - 1];
      var first := FirstHandler(before, p);
      if first.Some? || !Adds(ApplyAll(before), op) || PatternOf(op) != p || !EndsInSlash(p) then first
      else op.h
  }

  predicate Adds(s: State, op: Op) {
    op.Handle? && op.h.Some? && PatternOf(op) !in s.m
  }

  lemma {:induction false} FirstEntryPut(es: seq<Entry>, e: Entry, i: nat, p: string)
    requires i <= |es| && (forall j :: i <= j < |es| ==> es[j].pattern != e.pattern)
    ensures FirstEntry(es[..i] + [e] + es[i..], p)
         == if p == e.pattern && FirstEntry(es, p) == None then Some(e) else FirstEntry(es, p)
  {
    var es' := es[..i] + [e] + es[i..];
    if i == 0 {
      assert es' == [e] + es;
      FirstEntryIs(es, p);
    } else {
      FirstEntryPut(es[1..], e, i - 1, p);
      assert es'[1..] == es[1..][..i - 1] + [e] + es[1..][i - 1..];
    }
  }

  /** Later entries of a pattern never overtake the first. */
  lemma FirstEntryInserted(es: seq<Entry>, e: Entry, p: string)
    requires Sorted(es)
    ensures FirstEntry(Inserted(es, e), p)
         == if p == e.pattern && FirstEntry(es, p) == None then Some(e) else FirstEntry(es, p)
  {
    PlaceSplits(es, |e.pattern|);
    FirstEntryPut(es, e, Place(es, |e.pattern|), p);
  }

  lemma NoDots(pattern: string, h: Handler)
    ensures '.' !in PatternFor(pattern, h)
  {}

  lemma StepCovers(s: State, op: Op)
    requires WellKept(s) && Covers(s)
    ensures Covers(Apply(s, op))
  {
    if Adds(s, op) {
      var e := Entry(op.h.value, PatternOf(op));
      NoDots(op.pattern, op.h.value);
      if EndsInSlash(e.pattern) {
        var es := Inserted(s.es, e);
        InsertedIndex(s.es, e);
        forall f | f in s.es ensures f in es { InsertedKeeps(s.es, e, f); }
        forall f | f in es ensures f == e || f in s.es { InsertedOnly(s.es, e, f); }
        assert es[Place(s.es, |e.pattern|)] == e;
      }
    }
  }

  lemma InsertedKeeps(es: seq<Entry>, e: Entry, f: Entry)
    requires f in es
    ensures f in Inserted(es, e)
  {
    InsertedIndex(es, e);
    var j :| 0 <= j < |es| && es[j] == f;
    assert Inserted(es, e)[if j < Place(es, |e.pattern|) then j else j + 1] == f;
  }

  lemma InsertedOnly(es: seq<Entry>, e: Entry, f: Entry)
    requires f in Inserted(es, e)
    ensures f == e || f in es
  {
    InsertedIndex(es, e);
    var j :| 0 <= j < |Inserted(es, e)| && Inserted(es, e)[j] == f;
  }

  lemma {:induction false} RunsCover(ops: seq<Op>)
    ensures Covers(ApplyAll(ops))
  {
    if ops != [] {
      RunsCover(ops[..|ops| - 1]);
      RunsKeepOrder(ops[..|ops| - 1]);
      StepCovers(ApplyAll(ops[..|ops| - 1]), ops[|ops| - 1]);
    }
  }

  /** The index answers for p with its first registration, for ever. */
  lemma {:induction false} FirstRegistrationAnswers(ops: seq<Op>, p: string)
    ensures FirstEntry(ApplyAll(ops).es, p)
         == match FirstHandler(ops, p) case Some(h) => Some(Entry(h, p)) case None => None
  {
    if ops != [] {
      var before, op := ops[..|ops| - 1], ops[|ops| - 1];
      FirstRegistrationAnswers(before, p);
      RunsKeepOrder(before);
      var s := ApplyAll(before);
      if Adds(s, op) && EndsInSlash(PatternOf(op)) {
        FirstEntryInserted(s.es, Entry(op.h.value, PatternOf(op)), p);
      }
    }
  }

  /** After any run, every selector is answered from the map if and only if each
      prefix pattern ever registered is still registered, with the handler of its
      first registration. */
  lemma TruthfulIffFirstKept(ops: seq<Op>)
    ensures Truthful(ApplyAll(ops)) <==>
      forall p :: FirstHandler(ops, p).Some? ==>
        p in ApplyAll(ops).m && ApplyAll(ops).m[p].h == FirstHandler(ops, p).value
  {
    var s := ApplyAll(ops);
    RunsKeepOrder(ops);
    RunsCover(ops);
    TruthfulIffCurrent(s);
    forall p ensures FirstEntry(s.es, p)
                  == match FirstHandler(ops, p) case Some(h) => Some(Entry(h, p)) case None => None {
      FirstRegistrationAnswers(ops, p);
    }
  }

  lemma RemovedPrefixStillAnswers()
    ensures var s := ApplyAll([Handle("foo.", Some(Leaf(1))), Remove("foo.")]);
      && s.m == map[] && MatchLevel(s, "foo.bar") == Found(Leaf(1), "/foo/")
  {
    var ops := [Handle("foo.", Some(Leaf(1))), Remove("foo.")];
    assert ops[..1][..0] == [] && ops[..1] == [ops[0]];
    assert Clean("foo.") == "/foo/" && Clean("foo.bar") == "/foo/bar";
    var e := Entry(Leaf(1), "/foo/");
    assert ApplyAll(ops[..1]) == State(map["/foo/" := e], [e]);
    assert "/foo/bar"[..5] == "/foo/";
  }
}
