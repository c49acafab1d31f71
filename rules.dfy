/** The shape every rule file shares: a list of checks, each a `forEach` over
    `document.querySelectorAll(...)` that pushes zero or more findings per element
    onto one `findings` array, the checks running one after another. A check is
    given here as a function from its position in the file and an element to the
    findings it pushes for that element, still without their path (empty when the
    element does not match the check's selector). */
module Rules {
  import opened Messages
  import opened Dom
  import opened Findings
  import opened Paths
  import opened Strings

  /** The checks of one rule file, by position. */
  type Checks = (nat, Located) -> seq<Report>

  /** The usual check: one report when the element is flagged, nothing otherwise. */
  function Flag(flagged: bool, r: Report): seq<Report> {
    if flagged then [r] else []
  }

  lemma FlagMember(flagged: bool, x: Report, r: Report)
    requires r in Flag(flagged, x)
    ensures r == x
  {
  }

  /** What check `k` pushes while visiting the first `n` elements of `E`. */
  function Loop(E: seq<Located>, checks: Checks, k: nat, n: nat): seq<Finding>
    requires n <= |E|
  {
    if n == 0 then [] else Loop(E, checks, k, n - 1) + AttachAll(checks(k, E[n - 1]), PathOf(E[n - 1]))
  }

  /** What checks `lo` to `hi - 1` push over the first `n` elements, one check after another. */
  function Loops(E: seq<Located>, checks: Checks, lo: nat, hi: nat, n: nat): seq<Finding>
    requires n <= |E|
    decreases hi
  {
    if hi <= lo then [] else Loops(E, checks, lo, hi - 1, n) + Loop(E, checks, hi - 1, n)
  }

  /** The findings of a rule file whose checks are `lo` to `hi - 1`, over the page's elements `E`. */
  function Run(E: seq<Located>, checks: Checks, lo: nat, hi: nat): seq<Finding> {
    Loops(E, checks, lo, hi, |E|)
  }

  /** Everything checks `lo` to `hi - 1` report about one element, in check order. */
  function ReportsAt(l: Located, checks: Checks, lo: nat, hi: nat): seq<Report>
    decreases hi, l  // `l` keeps a literal `hi` from unfolding every check at once
  {
    if hi <= lo then [] else ReportsAt(l, checks, lo, hi - 1) + checks(hi - 1, l)
  }

  /** The same findings listed element by element instead of check by check. */
  function ElementMajor(E: seq<Located>, checks: Checks, lo: nat, hi: nat, n: nat): seq<Finding>
    requires n <= |E|
  {
    if n == 0 then []
    else ElementMajor(E, checks, lo, hi, n - 1) + AttachAll(ReportsAt(E[n - 1], checks, lo, hi), PathOf(E[n - 1]))
  }

  /** One `forEach`: visit the elements in order and push each report of check `k`
      with the path of the element it is about. */
  method RunLoop(E: seq<Located>, checks: Checks, k: nat, findings: seq<Finding>) returns (out: seq<Finding>)
    ensures out == findings + Loop(E, checks, k, |E|)
  {
    out := findings;
    var i := 0;
    while i < |E|
      invariant 0 <= i <= |E|
      invariant out == findings + Loop(E, checks, k, i)
    {
      var reports := checks(k, E[i]);
      if reports != [] {
        var path := GetElementPath(E[i]);
        out := out + AttachAll(reports, path);
      }
      LoopStep(E, checks, k, i, findings, out);
      i := i + 1;
    }
  }

  /** Visiting element `i`: what check `k` had pushed so far, then that element's reports. */
  lemma LoopStep(E: seq<Located>, checks: Checks, k: nat, i: nat, findings: seq<Finding>, out: seq<Finding>)
    requires i < |E|
    requires out == findings + Loop(E, checks, k, i) + AttachAll(checks(k, E[i]), PathOf(E[i]))
    ensures out == findings + Loop(E, checks, k, i + 1)
  {
    ConcatAssoc(findings, Loop(E, checks, k, i), AttachAll(checks(k, E[i]), PathOf(E[i])));
  }

  /** The checks `lo` to `hi - 1` of a rule file, run one after another, pushing
      onto the `findings` array. */
  method RunLoops(E: seq<Located>, checks: Checks, lo: nat, hi: nat, findings: seq<Finding>) returns (out: seq<Finding>)
    requires lo <= hi
    ensures out == findings + Run(E, checks, lo, hi)
  {
    out := findings;
    var k := lo;
    while k < hi
      invariant lo <= k <= hi
      invariant out == findings + Loops(E, checks, lo, k, |E|)
    {
      ConcatAssoc(findings, Loops(E, checks, lo, k, |E|), Loop(E, checks, k, |E|));
      out := RunLoop(E, checks, k, out);
      k := k + 1;
    }
  }

  /** Check `k` pushes `f` when visiting `l`. */
  predicate Produces(checks: Checks, k: nat, l: Located, f: Finding) {
    f.path == PathOf(l) && Unplaced(f) in checks(k, l)
  }

  /** Check `k` pushes `f` when visiting one of the first `n` elements. */
  ghost predicate ProducedAt(E: seq<Located>, checks: Checks, k: nat, n: nat, f: Finding)
    requires n <= |E|
  {
    exists i :: 0 <= i < n && Produces(checks, k, E[i], f)
  }

  /** Every finding of check `k` comes from one element: it carries that
      element's path and is one of that element's reports; and conversely. */
  lemma {:induction false} InLoop(E: seq<Located>, checks: Checks, k: nat, n: nat, f: Finding)
    requires n <= |E|
    ensures f in Loop(E, checks, k, n) <==> ProducedAt(E, checks, k, n, f)
  {
    if n > 0 {
      InLoop(E, checks, k, n - 1, f);
      AttachAllMember(checks(k, E[n - 1]), PathOf(E[n - 1]), f);
      ProducedAtStep(E, checks, k, n, f);
    }
  }

  lemma ProducedAtStep(E: seq<Located>, checks: Checks, k: nat, n: nat, f: Finding)
    requires 0 < n <= |E|
    ensures ProducedAt(E, checks, k, n, f) <==> ProducedAt(E, checks, k, n - 1, f) || Produces(checks, k, E[n - 1], f)
  {
    if ProducedAt(E, checks, k, n, f) {
      var i :| 0 <= i < n && Produces(checks, k, E[i], f);
      if i < n - 1 {
        assert ProducedAt(E, checks, k, n - 1, f);
      }
    }
  }

  /** Some check from `lo` to `hi - 1` pushes `f` while visiting one of the page's elements. */
  ghost predicate ProducedBy(E: seq<Located>, checks: Checks, lo: nat, hi: nat, f: Finding) {
    exists k :: lo <= k < hi && ProducedAt(E, checks, k, |E|, f)
  }

  /** A finding is in the output of a rule file exactly when one of its checks
      pushes it while visiting one of the page's elements. */
  lemma {:induction false} InRun(E: seq<Located>, checks: Checks, lo: nat, hi: nat, f: Finding)
    ensures f in Run(E, checks, lo, hi) <==> ProducedBy(E, checks, lo, hi, f)
    decreases hi
  {
    if lo < hi {
      assert Run(E, checks, lo, hi) == Run(E, checks, lo, hi - 1) + Loop(E, checks, hi - 1, |E|);
      InRun(E, checks, lo, hi - 1, f);
      InLoop(E, checks, hi - 1, |E|, f);
      ProducedByStep(E, checks, lo, hi, f);
    }
  }

  lemma ProducedByStep(E: seq<Located>, checks: Checks, lo: nat, hi: nat, f: Finding)
    requires lo < hi
    ensures ProducedBy(E, checks, lo, hi, f) <==> ProducedBy(E, checks, lo, hi - 1, f) || ProducedAt(E, checks, hi - 1, |E|, f)
  {
    if ProducedBy(E, checks, lo, hi, f) {
      var k :| lo <= k < hi && ProducedAt(E, checks, k, |E|, f);
      if k < hi - 1 {
        assert ProducedBy(E, checks, lo, hi - 1, f);
      }
    }
  }

  /** A report is about an element exactly when one of the checks makes it. */
  lemma {:induction false} InReportsAt(l: Located, checks: Checks, lo: nat, hi: nat, r: Report)
    ensures r in ReportsAt(l, checks, lo, hi) <==> exists k :: lo <= k < hi && r in checks(k, l)
    decreases hi
  {
    if lo < hi {
      InReportsAt(l, checks, lo, hi - 1, r);
      if exists k :: lo <= k < hi && r in checks(k, l) {
        var k :| lo <= k < hi && r in checks(k, l);
        if k < hi - 1 {
          assert exists k :: lo <= k < hi - 1 && r in checks(k, l);
        }
      }
    }
  }

  /** How often `x` occurs in `s`. */
  function Count<T(==)>(s: seq<T>, x: T): nat {
    if s == [] then 0 else (if s[0] == x then 1 else 0) + Count(s[1..], x)
  }

  lemma {:induction false} CountConcat<T>(a: seq<T>, b: seq<T>, x: T)
    ensures Count(a + b, x) == Count(a, x) + Count(b, x)
  {
    if a != [] {
      assert (a + b)[1..] == a[1..] + b;
      CountConcat(a[1..], b, x);
    } else {
      assert a + b == b;
    }
  }

  /** An absent value occurs no times. */
  lemma {:induction false} CountAbsent<T>(s: seq<T>, x: T)
    requires x !in s
    ensures Count(s, x) == 0
  {
    if s != [] {
      assert s[1..] <= s[1..] && forall i :: 0 <= i < |s[1..]| ==> s[1..][i] == s[i + 1];
      CountAbsent(s[1..], x);
    }
  }

  lemma {:induction false} CountMultiplicity<T>(s: seq<T>, x: T)
    ensures Count(s, x) == multiset(s)[x]
  {
    if s != [] {
      assert s == [s[0]] + s[1..];
      CountMultiplicity(s[1..], x);
    }
  }

  /** Taking the `n`th element out of every check of a run. */
  lemma {:induction false} LoopsSplitLast(E: seq<Located>, checks: Checks, lo: nat, hi: nat, n: nat, f: Finding)
    requires 0 < n <= |E|
    ensures SplitsLast(E, checks, lo, hi, n, f)
    decreases hi
  {
    if lo < hi {
      LoopsSplitLast(E, checks, lo, hi - 1, n, f);
      SplitLastStep(E, checks, lo, hi, n, f);
    } else {
      SplitLastNone(E, checks, lo, hi, n, f);
    }
  }

  lemma SplitLastNone(E: seq<Located>, checks: Checks, lo: nat, hi: nat, n: nat, f: Finding)
    requires 0 < n <= |E| && hi <= lo
    ensures SplitsLast(E, checks, lo, hi, n, f)
  {
    assert Loops(E, checks, lo, hi, n) == [] && Loops(E, checks, lo, hi, n - 1) == [];
    assert ReportsAt(E[n - 1], checks, lo, hi) == [];
    assert AttachAll([], PathOf(E[n - 1])) == [];
  }

  /** The occurrences of `f` among the findings over the first `n` elements are
      those over the first `n - 1` and those among the `n`th element's reports. */
  ghost predicate SplitsLast(E: seq<Located>, checks: Checks, lo: nat, hi: nat, n: nat, f: Finding)
    requires 0 < n <= |E|
  {
    Count(Loops(E, checks, lo, hi, n), f)
      == Count(Loops(E, checks, lo, hi, n - 1), f) + Count(AttachAll(ReportsAt(E[n - 1], checks, lo, hi), PathOf(E[n - 1])), f)
  }

  lemma SplitLastStep(E: seq<Located>, checks: Checks, lo: nat, hi: nat, n: nat, f: Finding)
    requires 0 < n <= |E| && lo < hi
    requires SplitsLast(E, checks, lo, hi - 1, n, f)
    ensures SplitsLast(E, checks, lo, hi, n, f)
  {
    var path := PathOf(E[n - 1]);
    var now := checks(hi - 1, E[n - 1]);
    CountConcat(Loops(E, checks, lo, hi - 1, n), Loop(E, checks, hi - 1, n), f);
    CountConcat(Loop(E, checks, hi - 1, n - 1), AttachAll(now, path), f);
    CountConcat(Loops(E, checks, lo, hi - 1, n - 1), Loop(E, checks, hi - 1, n - 1), f);
    AttachAllConcat(ReportsAt(E[n - 1], checks, lo, hi - 1), now, path);
    CountConcat(AttachAll(ReportsAt(E[n - 1], checks, lo, hi - 1), path), AttachAll(now, path), f);
  }

  lemma {:induction false} LoopsCountElementMajor(E: seq<Located>, checks: Checks, lo: nat, hi: nat, n: nat, f: Finding)
    requires n <= |E|
    ensures Count(Loops(E, checks, lo, hi, n), f) == Count(ElementMajor(E, checks, lo, hi, n), f)
  {
    if n > 0 {
      LoopsCountElementMajor(E, checks, lo, hi, n - 1, f);
      LoopsSplitLast(E, checks, lo, hi, n, f);
      assert SplitsLast(E, checks, lo, hi, n, f);
      CountConcat(ElementMajor(E, checks, lo, hi, n - 1), AttachAll(ReportsAt(E[n - 1], checks, lo, hi), PathOf(E[n - 1])), f);
    } else {
      LoopsOfNone(E, checks, lo, hi);
    }
  }

  lemma {:induction false} LoopsOfNone(E: seq<Located>, checks: Checks, lo: nat, hi: nat)
    ensures Loops(E, checks, lo, hi, 0) == []
    decreases hi
  {
    if lo < hi {
      LoopsOfNone(E, checks, lo, hi - 1);
    }
  }

  /** Check by check or element by element, a run pushes the same findings: each
      element's reports from every check, with that element's path. */
  lemma RunPermutesElementMajor(E: seq<Located>, checks: Checks, lo: nat, hi: nat)
    ensures multiset(Run(E, checks, lo, hi)) == multiset(ElementMajor(E, checks, lo, hi, |E|))
  {
    forall f ensures multiset(Run(E, checks, lo, hi))[f] == multiset(ElementMajor(E, checks, lo, hi, |E|))[f] {
      LoopsCountElementMajor(E, checks, lo, hi, |E|, f);
      CountMultiplicity(Run(E, checks, lo, hi), f);
      CountMultiplicity(ElementMajor(E, checks, lo, hi, |E|), f);
    }
  }

  /** Only check `k0` reports anything about `l`: the element's reports are that check's. */
  lemma {:induction false} ReportsAtSingle(l: Located, checks: Checks, lo: nat, hi: nat, k0: nat)
    requires lo <= k0 < hi
    requires forall k :: lo <= k < hi && k != k0 ==> checks(k, l) == []
    ensures ReportsAt(l, checks, lo, hi) == checks(k0, l)
    decreases hi
  {
    if k0 < hi - 1 {
      ReportsAtSingle(l, checks, lo, hi - 1, k0);
      assert ReportsAt(l, checks, lo, hi) == checks(k0, l) + [];
    } else {
      ReportsAtNone(l, checks, lo, hi - 1);
      assert ReportsAt(l, checks, lo, hi) == [] + checks(k0, l);
    }
  }

  /** Only checks `k0` and `k1` report anything about `l`. */
  lemma {:induction false} ReportsAtPair(l: Located, checks: Checks, lo: nat, hi: nat, k0: nat, k1: nat)
    requires lo <= k0 < k1 < hi
    requires forall k :: lo <= k < hi && k != k0 && k != k1 ==> checks(k, l) == []
    ensures ReportsAt(l, checks, lo, hi) == checks(k0, l) + checks(k1, l)
    decreases hi
  {
    if k1 < hi - 1 {
      ReportsAtPair(l, checks, lo, hi - 1, k0, k1);
      assert ReportsAt(l, checks, lo, hi) == checks(k0, l) + checks(k1, l) + [];
    } else {
      ReportsAtSingle(l, checks, lo, hi - 1, k0);
    }
  }

  /** No check reports anything about `l`. */
  lemma {:induction false} ReportsAtNone(l: Located, checks: Checks, lo: nat, hi: nat)
    requires forall k :: lo <= k < hi ==> checks(k, l) == []
    ensures ReportsAt(l, checks, lo, hi) == []
    decreases hi
  {
    if lo < hi {
      ReportsAtNone(l, checks, lo, hi - 1);
    }
  }

  /** Selecting one kind of report commutes with collecting an element's reports. */
  lemma {:induction false} ReportsAtOfKind(l: Located, checks: Checks, lo: nat, hi: nat, kind: Kind)
    ensures OfKind(ReportsAt(l, checks, lo, hi), kind) == ReportsAt(l, (k: nat, l: Located) => OfKind(checks(k, l), kind), lo, hi)
    decreases hi
  {
    if lo < hi {
      ReportsAtOfKind(l, checks, lo, hi - 1, kind);
      OfKindConcat(ReportsAt(l, checks, lo, hi - 1), checks(hi - 1, l), kind);
    }
  }

  /** Every report check `k` makes carries the kind `kinds(k)`. */
  ghost predicate KindedBy(checks: Checks, lo: nat, hi: nat, kinds: nat -> Kind) {
    forall k, l, r :: lo <= k < hi && r in checks(k, l) ==> r.kind == kinds(k)
  }

  /** When each check makes reports of one kind, the findings of a kind in a run
      are those pushed by the checks of that kind. */
  lemma RunOfKind(E: seq<Located>, checks: Checks, lo: nat, hi: nat, kinds: nat -> Kind, kind: Kind, f: Finding)
    requires KindedBy(checks, lo, hi, kinds)
    ensures (f in Run(E, checks, lo, hi) && f.kind == kind)
        <==> exists k :: lo <= k < hi && kinds(k) == kind && ProducedAt(E, checks, k, |E|, f)
  {
    InRun(E, checks, lo, hi, f);
    if f in Run(E, checks, lo, hi) && f.kind == kind {
      var k :| lo <= k < hi && ProducedAt(E, checks, k, |E|, f);
      var i :| 0 <= i < |E| && Produces(checks, k, E[i], f);
      assert Unplaced(f).kind == kinds(k);
    }
    if exists k :: lo <= k < hi && kinds(k) == kind && ProducedAt(E, checks, k, |E|, f) {
      var k :| lo <= k < hi && kinds(k) == kind && ProducedAt(E, checks, k, |E|, f);
      var i :| 0 <= i < |E| && Produces(checks, k, E[i], f);
      assert Unplaced(f).kind == kinds(k);
      assert ProducedBy(E, checks, lo, hi, f);
    }
  }

  /** A check that flags elements one report at a time pushes, for each flagged
      element, that element's report at that element's path, and nothing else. */
  lemma ProducedAtFlag(E: seq<Located>, checks: Checks, k: nat, flagged: (nat, Located) -> bool, report: (nat, Located) -> Report, f: Finding)
    requires forall l :: checks(k, l) == Flag(flagged(k, l), report(k, l))
    ensures ProducedAt(E, checks, k, |E|, f)
        <==> exists i :: 0 <= i < |E| && flagged(k, E[i]) && f == report(k, E[i]).At(PathOf(E[i]))
  {
    if ProducedAt(E, checks, k, |E|, f) {
      var i :| 0 <= i < |E| && Produces(checks, k, E[i], f);
      assert Unplaced(f) == report(k, E[i]);
    }
    if exists i :: 0 <= i < |E| && flagged(k, E[i]) && f == report(k, E[i]).At(PathOf(E[i])) {
      var i :| 0 <= i < |E| && flagged(k, E[i]) && f == report(k, E[i]).At(PathOf(E[i]));
      assert Produces(checks, k, E[i], f);
    }
  }

  /** When only check `k0` makes reports of its kind, the reports of that kind
      about an element are exactly that check's. */
  lemma ReportsAtOfOneKind(l: Located, checks: Checks, lo: nat, hi: nat, kinds: nat -> Kind, k0: nat)
    requires lo <= k0 < hi
    requires KindedBy(checks, lo, hi, kinds)
    requires forall k :: lo <= k < hi && k != k0 ==> kinds(k) != kinds(k0)
    ensures OfKind(ReportsAt(l, checks, lo, hi), kinds(k0)) == checks(k0, l)
  {
    var kind := kinds(k0);
    var selected := (k: nat, l: Located) => OfKind(checks(k, l), kind);
    ReportsAtOfKind(l, checks, lo, hi, kind);
    forall k | lo <= k < hi && k != k0
      ensures selected(k, l) == []
    {
      OfKindNone(checks(k, l), kind);
    }
    OfKindAll(checks(k0, l), kind);
    ReportsAtSingle(l, selected, lo, hi, k0);
  }

  /** When only checks `k0` and `k1` make reports of their shared kind, the reports
      of that kind about an element are those of `k0` followed by those of `k1`. */
  lemma ReportsAtOfTwoKinds(l: Located, checks: Checks, lo: nat, hi: nat, kinds: nat -> Kind, k0: nat, k1: nat)
    requires lo <= k0 < k1 < hi && kinds(k1) == kinds(k0)
    requires KindedBy(checks, lo, hi, kinds)
    requires forall k :: lo <= k < hi && k != k0 && k != k1 ==> kinds(k) != kinds(k0)
    ensures OfKind(ReportsAt(l, checks, lo, hi), kinds(k0)) == checks(k0, l) + checks(k1, l)
  {
    var kind := kinds(k0);
    var selected := (k: nat, l: Located) => OfKind(checks(k, l), kind);
    ReportsAtOfKind(l, checks, lo, hi, kind);
    forall k | lo <= k < hi && k != k0 && k != k1
      ensures selected(k, l) == []
    {
      OfKindNone(checks(k, l), kind);
    }
    OfKindAll(checks(k0, l), kind);
    OfKindAll(checks(k1, l), kind);
    ReportsAtPair(l, selected, lo, hi, k0, k1);
  }

  /** What holds of every report the checks make holds of every finding of the run. */
  lemma RunAll(E: seq<Located>, checks: Checks, lo: nat, hi: nat, P: Report -> bool)
    requires forall k, l, r :: lo <= k < hi && r in checks(k, l) ==> P(r)
    ensures forall f :: f in Run(E, checks, lo, hi) ==> P(Unplaced(f))
  {
    forall f | f in Run(E, checks, lo, hi)
      ensures P(Unplaced(f))
    {
      InRun(E, checks, lo, hi, f);
      var k :| lo <= k < hi && ProducedAt(E, checks, k, |E|, f);
      var i :| 0 <= i < |E| && Produces(checks, k, E[i], f);
    }
  }

  /** When check `k0` flags elements one report at a time and is the only check
      reporting under its kind, the run's findings of that kind are the flagged
      elements' reports, each at its element's path. */
  lemma RunOfFlag(E: seq<Located>, checks: Checks, lo: nat, hi: nat, kinds: nat -> Kind, k0: nat,
                  flagged: (nat, Located) -> bool, report: (nat, Located) -> Report, f: Finding)
    requires lo <= k0 < hi
    requires KindedBy(checks, lo, hi, kinds)
    requires forall k :: lo <= k < hi && k != k0 ==> kinds(k) != kinds(k0)
    requires forall l :: checks(k0, l) == Flag(flagged(k0, l), report(k0, l))
    ensures (f in Run(E, checks, lo, hi) && f.kind == kinds(k0))
        <==> exists i :: 0 <= i < |E| && flagged(k0, E[i]) && f == report(k0, E[i]).At(PathOf(E[i]))
  {
    RunOfKind(E, checks, lo, hi, kinds, kinds(k0), f);
    ProducedAtFlag(E, checks, k0, flagged, report, f);
  }

  /** The same when exactly two flagging checks `k0` and `k1` share a kind. */
  lemma RunOfFlagPair(E: seq<Located>, checks: Checks, lo: nat, hi: nat, kinds: nat -> Kind, k0: nat, k1: nat,
                      flagged: (nat, Located) -> bool, report: (nat, Located) -> Report, f: Finding)
    requires lo <= k0 < hi && lo <= k1 < hi && kinds(k1) == kinds(k0)
    requires KindedBy(checks, lo, hi, kinds)
    requires forall k :: lo <= k < hi && k != k0 && k != k1 ==> kinds(k) != kinds(k0)
    requires forall l :: checks(k0, l) == Flag(flagged(k0, l), report(k0, l))
    requires forall l :: checks(k1, l) == Flag(flagged(k1, l), report(k1, l))
    ensures (f in Run(E, checks, lo, hi) && f.kind == kinds(k0))
        <==> || (exists i :: 0 <= i < |E| && flagged(k0, E[i]) && f == report(k0, E[i]).At(PathOf(E[i])))
             || (exists i :: 0 <= i < |E| && flagged(k1, E[i]) && f == report(k1, E[i]).At(PathOf(E[i])))
  {
    RunOfKind(E, checks, lo, hi, kinds, kinds(k0), f);
    ProducedAtFlag(E, checks, k0, flagged, report, f);
    ProducedAtFlag(E, checks, k1, flagged, report, f);
  }
}
