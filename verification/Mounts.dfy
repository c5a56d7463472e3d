/**
 * Prefix translation between the paths a command sees and the real ones. The program works on
 * characters; the lemmas explain it on the segments of canonical paths.
 */
module Mounts {
  import opened Prelude

  datatype Mount = Mount(path: string, source: string, writable: bool)

  datatype MountedPath = MountedPath(mount: Mount, actual: string)

  // ---- canonical paths ----

  predicate IsSegment(s: string) {
    s != "" && '/' !in s
  }

  predicate AreSegments(p: seq<string>) {
    forall i | 0 <= i < |p| :: IsSegment(p[i])
  }

  function Tail(p: seq<string>): string {
    if p == [] then "" else "/" + p[0] + Tail(p[1..])
  }

  function Render(p: seq<string>): string {
    if p == [] then "/" else Tail(p)
  }

  ghost predicate Canonical(path: string) {
    exists p :: AreSegments(p) && Render(p) == path
  }

  /** The segments of a canonical path; RenderInjective makes them unique. */
  ghost function Segments(path: string): (p: seq<string>)
    requires Canonical(path)
    ensures AreSegments(p) && Render(p) == path
  {
    var p :| AreSegments(p) && Render(p) == path;
    p
  }

  ghost predicate CanonicalMounts(specs: seq<Mount>) {
    forall i | 0 <= i < |specs| :: Canonical(specs[i].path) && Canonical(specs[i].source)
  }

  // ---- the translation ----

  function SuffixUnder(root: string, path: string): Option<string> {
    if path == root then Some("")
    else if root == "/" then if "/" <= path then Some(path) else None
    else if root + "/" <= path then Some(path[|root|..])
    else None
  }

  function JoinSuffix(root: string, suffix: string): string {
    if suffix == "" then root
    else if root == "/" then suffix
    else root + suffix
  }

  function ToReal(specs: seq<Mount>, virtual: string): Option<MountedPath>
    decreases |specs|
  {
    if specs == [] then None
    else
      var rest := SuffixUnder(specs[0].path, virtual);
      if rest.Some? then Some(MountedPath(specs[0], JoinSuffix(specs[0].source, rest.value)))
      else ToReal(specs[1..], virtual)
  }

  /** In front of the first mount whose source is not longer. */
  function Insert(m: Mount, sorted: seq<Mount>): seq<Mount> {
    if sorted == [] || |sorted[0].source| <= |m.source| then [m] + sorted
    else [sorted[0]] + Insert(m, sorted[1..])
  }

  /** Longest source first, and mounts with sources of one length in their given order. */
  function ByLength(specs: seq<Mount>): seq<Mount> {
    if specs == [] then [] else Insert(specs[0], ByLength(specs[1..]))
  }

  /** The path that shows `actual` through one mount. */
  function View(m: Mount, actual: string): Option<string> {
    var rest := SuffixUnder(m.source, actual);
    if rest.Some? then Some(JoinSuffix(m.path, rest.value)) else None
  }

  function FirstView(candidates: seq<Mount>, actual: string): Option<string> {
    if candidates == [] then None
    else if View(candidates[0], actual).Some? then View(candidates[0], actual)
    else FirstView(candidates[1..], actual)
  }

  function ToVirtual(specs: seq<Mount>, actual: string, preferred: Option<Mount>): Option<string> {
    FirstView((if preferred.Some? then [preferred.value] else []) + ByLength(specs), actual)
  }

  predicate IsWritable(specs: seq<Mount>, actual: string) {
    exists i | 0 <= i < |specs| :: specs[i].writable && SuffixUnder(specs[i].source, actual).Some?
  }

  // ---- characters and segments ----

  predicate EmptyOrSlash(s: string) {
    s == "" || s[0] == '/'
  }

  /** Where the first separator stands, or the length. */
  function SlashAt(s: string): (k: nat)
    ensures k <= |s|
  {
    if s == "" || s[0] == '/' then 0 else 1 + SlashAt(s[1..])
  }

  lemma {:induction false} SlashAfter(h: string, x: string)
    requires '/' !in h && EmptyOrSlash(x)
    ensures SlashAt(h + x) == |h|
  {
    if h == "" {
      assert h + x == x;
    } else {
      assert (h + x)[1..] == h[1..] + x;
      SlashAfter(h[1..], x);
    }
  }

  lemma HeadUnique(h: string, k: string, x: string, y: string)
    requires '/' !in h && '/' !in k && EmptyOrSlash(x) && EmptyOrSlash(y)
    requires h + x == k + y
    ensures h == k && x == y
  {
    SlashAfter(h, x);
    SlashAfter(k, y);
    assert h == (h + x)[..|h|] && k == (k + y)[..|k|];
    assert x == (h + x)[|h|..] && y == (k + y)[|k|..];
  }

  lemma TailShape(p: seq<string>)
    ensures EmptyOrSlash(Tail(p)) && (Tail(p) == "" <==> p == [])
  {
  }

  lemma {:induction false} TailConcat(a: seq<string>, b: seq<string>)
    ensures Tail(a + b) == Tail(a) + Tail(b)
  {
    if a == [] {
      assert a + b == b;
    } else {
      assert (a + b)[1..] == a[1..] + b;
      TailConcat(a[1..], b);
    }
  }

  /** A rendering that ends at a separator ends at a segment. */
  lemma {:induction false} TailPrefix(r: seq<string>, p: seq<string>, x: string)
    requires AreSegments(r) && AreSegments(p) && EmptyOrSlash(x)
    requires Tail(r) + x == Tail(p)
    ensures r <= p && x == Tail(p[|r|..])
  {
    if r == [] {
      assert Tail(r) + x == x;
    } else {
      TailShape(p);
      assert p != [];
      TailShape(r[1..]);
      TailShape(p[1..]);
      var y := Tail(r[1..]) + x;
      assert "/" + (r[0] + y) == Tail(r) + x == "/" + (p[0] + Tail(p[1..]));
      assert ("/" + (r[0] + y))[1..] == r[0] + y;
      assert ("/" + (p[0] + Tail(p[1..])))[1..] == p[0] + Tail(p[1..]);
      HeadUnique(r[0], p[0], y, Tail(p[1..]));
      TailPrefix(r[1..], p[1..], x);
      assert r == [r[0]] + r[1..] && p == [p[0]] + p[1..];
    }
  }

  lemma RenderInjective(a: seq<string>, b: seq<string>)
    requires AreSegments(a) && AreSegments(b) && Render(a) == Render(b)
    ensures a == b
  {
    if a == [] || b == [] {
      RenderRoot(a);
      RenderRoot(b);
    } else {
      TailPrefix(a, b, "");
      TailShape(b[|a|..]);
    }
  }

  lemma RenderRoot(a: seq<string>)
    requires AreSegments(a)
    ensures Render(a) == "/" <==> a == []
  {
    if a != [] {
      assert IsSegment(a[0]);
    }
  }

  lemma SegmentsOf(p: seq<string>)
    requires AreSegments(p)
    ensures Canonical(Render(p)) && Segments(Render(p)) == p
  {
    RenderInjective(p, Segments(Render(p)));
  }

  /** Main result: on characters, a suffix exists exactly when the root's segments start the path, and it is the rest. */
  lemma SuffixIsRest(r: seq<string>, p: seq<string>)
    requires AreSegments(r) && AreSegments(p)
    ensures SuffixUnder(Render(r), Render(p)) == if r <= p then Some(Tail(p[|r|..])) else None
  {
    var root, path := Render(r), Render(p);
    RenderRoot(r);
    RenderRoot(p);
    TailShape(p);
    if path == root {
      RenderInjective(r, p);
    } else if r == [] {
      assert path[0] == '/';
    } else {
      if r <= p {
        assert p == r + p[|r|..];
        TailConcat(r, p[|r|..]);
        TailShape(p[|r|..]);
        assert root + "/" <= path;
      } else if root + "/" <= path {
        assert p != [];
        TailPrefix(r, p, path[|root|..]);
        assert false;
      }
      if root + "/" <= path {
        assert path == root + path[|root|..];
      }
    }
  }

  lemma JoinIsConcat(r: seq<string>, x: seq<string>)
    requires AreSegments(r) && AreSegments(x)
    ensures JoinSuffix(Render(r), Tail(x)) == Render(r + x)
  {
    TailShape(x);
    RenderRoot(r);
    TailConcat(r, x);
    if x == [] {
      assert r + x == r;
    }
  }

  // ---- what the translations find ----

  ghost predicate ShowsVirtual(m: Mount, virtual: string)
    requires Canonical(m.path) && Canonical(virtual)
  {
    Segments(m.path) <= Segments(virtual)
  }

  ghost predicate ShowsReal(m: Mount, actual: string)
    requires Canonical(m.source) && Canonical(actual)
  {
    Segments(m.source) <= Segments(actual)
  }

  /** Where m leads from a path below its own: the rest of the path moves under the source. */
  ghost function Behind(m: Mount, p: seq<string>): seq<string>
    requires Canonical(m.path) && Canonical(m.source) && Segments(m.path) <= p
  {
    Segments(m.source) + p[|Segments(m.path)|..]
  }

  ghost function InFront(m: Mount, p: seq<string>): seq<string>
    requires Canonical(m.path) && Canonical(m.source) && Segments(m.source) <= p
  {
    Segments(m.path) + p[|Segments(m.source)|..]
  }

  lemma Move(from: string, to: string, path: string)
    requires Canonical(from) && Canonical(to) && Canonical(path)
    ensures SuffixUnder(from, path).Some? <==> Segments(from) <= Segments(path)
    ensures Segments(from) <= Segments(path) ==>
      var moved := Segments(to) + Segments(path)[|Segments(from)|..];
      && JoinSuffix(to, SuffixUnder(from, path).value) == Render(moved)
      && Canonical(Render(moved)) && Segments(Render(moved)) == moved
  {
    var f, t, p := Segments(from), Segments(to), Segments(path);
    SuffixIsRest(f, p);
    if f <= p {
      assert AreSegments(p[|f|..]);
      JoinIsConcat(t, p[|f|..]);
      SegmentsOf(t + p[|f|..]);
    }
  }

  /** Mount k is the first one whose path is above the given one. */
  ghost predicate IsFirstAbove(specs: seq<Mount>, virtual: string, k: nat)
    requires CanonicalMounts(specs) && Canonical(virtual)
  {
    && k < |specs| && ShowsVirtual(specs[k], virtual)
    && forall i | 0 <= i < k :: !ShowsVirtual(specs[i], virtual)
  }

  ghost predicate LeadsThrough(m: Mount, virtual: string, r: Option<MountedPath>)
    requires Canonical(m.path) && Canonical(m.source) && Canonical(virtual) && ShowsVirtual(m, virtual)
  {
    && r.Some? && r.value.mount == m
    && Canonical(r.value.actual) && Segments(r.value.actual) == Behind(m, Segments(virtual))
  }

  lemma {:induction false} ToRealThrough(specs: seq<Mount>, virtual: string, k: nat)
    requires CanonicalMounts(specs) && Canonical(virtual) && IsFirstAbove(specs, virtual, k)
    ensures LeadsThrough(specs[k], virtual, ToReal(specs, virtual))
  {
    Move(specs[0].path, specs[0].source, virtual);
    if k == 0 {
    } else {
      assert !ShowsVirtual(specs[0], virtual);
      assert forall i | 0 <= i < |specs[1..]| :: specs[1..][i] == specs[i + 1];
      ToRealThrough(specs[1..], virtual, k - 1);
    }
  }

  lemma {:induction false} ToRealNone(specs: seq<Mount>, virtual: string)
    requires CanonicalMounts(specs) && Canonical(virtual)
    requires forall i | 0 <= i < |specs| :: !ShowsVirtual(specs[i], virtual)
    ensures ToReal(specs, virtual).None?
  {
    if specs == [] {
    } else {
      assert !ShowsVirtual(specs[0], virtual);
      Move(specs[0].path, specs[0].source, virtual);
      assert forall i | 0 <= i < |specs[1..]| :: specs[1..][i] == specs[i + 1];
      ToRealNone(specs[1..], virtual);
    }
  }

  /** `toReal` goes through the first mount whose path is above the given one, and fails when there is none. */
  lemma {:induction false} ToRealExactly(specs: seq<Mount>, virtual: string)
    requires CanonicalMounts(specs) && Canonical(virtual)
    ensures ToReal(specs, virtual).None? <==> forall i | 0 <= i < |specs| :: !ShowsVirtual(specs[i], virtual)
    ensures forall k: nat | IsFirstAbove(specs, virtual, k) :: LeadsThrough(specs[k], virtual, ToReal(specs, virtual))
  {
    forall k: nat | IsFirstAbove(specs, virtual, k)
      ensures LeadsThrough(specs[k], virtual, ToReal(specs, virtual))
    {
      ToRealThrough(specs, virtual, k);
    }
    if n: nat :| n < |specs| && ShowsVirtual(specs[n], virtual) {
      var k := FirstShown(specs, virtual, n);
    } else {
      ToRealNone(specs, virtual);
    }
  }

  lemma {:induction false} FirstShown(specs: seq<Mount>, virtual: string, n: nat) returns (k: nat)
    requires CanonicalMounts(specs) && Canonical(virtual) && n < |specs| && ShowsVirtual(specs[n], virtual)
    ensures k <= n && IsFirstAbove(specs, virtual, k)
  {
    if i :| 0 <= i < n && ShowsVirtual(specs[i], virtual) {
      k := FirstShown(specs, virtual, i);
    } else {
      k := n;
    }
  }

  /** Mount k shows `actual` from the longest source, the earliest of several. */
  ghost predicate IsNarrowest(specs: seq<Mount>, actual: string, k: nat)
    requires CanonicalMounts(specs) && Canonical(actual)
  {
    && k < |specs| && ShowsReal(specs[k], actual)
    && forall j | 0 <= j < |specs| && ShowsReal(specs[j], actual) ::
         !GoesFirst(specs, j, k)
  }

  ghost predicate Descending(s: seq<Mount>) {
    forall i, j | 0 <= i < j < |s| :: |s[i].source| >= |s[j].source|
  }

  lemma {:induction false} InsertKeeps(m: Mount, s: seq<Mount>)
    requires Descending(s)
    ensures Descending(Insert(m, s))
    ensures forall i | 0 <= i < |Insert(m, s)| :: Insert(m, s)[i] in s || Insert(m, s)[i] == m
  {
    if s == [] || |s[0].source| <= |m.source| {
    } else {
      InsertKeeps(m, s[1..]);
    }
  }

  lemma {:induction false} InsertAdds(m: Mount, s: seq<Mount>)
    ensures multiset(Insert(m, s)) == multiset(s) + multiset{m}
  {
    if s == [] || |s[0].source| <= |m.source| {
    } else {
      InsertAdds(m, s[1..]);
      assert s == [s[0]] + s[1..];
    }
  }

  lemma {:induction false} ByLengthSorts(specs: seq<Mount>)
    ensures Descending(ByLength(specs)) && multiset(ByLength(specs)) == multiset(specs)
  {
    if specs == [] {
    } else {
      ByLengthSorts(specs[1..]);
      InsertKeeps(specs[0], ByLength(specs[1..]));
      InsertAdds(specs[0], ByLength(specs[1..]));
      assert specs == [specs[0]] + specs[1..];
    }
  }

  /** Inserting a mount changes the outcome exactly when it shows the path and no longer source does. */
  lemma {:induction false} InsertView(m: Mount, s: seq<Mount>, actual: string)
    requires Descending(s)
    ensures View(m, actual).None? ==> FirstView(Insert(m, s), actual) == FirstView(s, actual)
    ensures View(m, actual).Some? && (forall i | 0 <= i < |s| && |s[i].source| > |m.source| :: View(s[i], actual).None?) ==>
      FirstView(Insert(m, s), actual) == View(m, actual)
    ensures (exists i | 0 <= i < |s| :: |s[i].source| > |m.source| && View(s[i], actual).Some?) ==>
      FirstView(Insert(m, s), actual) == FirstView(s, actual)
  {
    if s == [] || |s[0].source| <= |m.source| {
      assert ([m] + s)[1..] == s;
    } else {
      InsertView(m, s[1..], actual);
      var t := [s[0]] + Insert(m, s[1..]);
      assert t[1..] == Insert(m, s[1..]);
      assert View(s[0], actual).Some? ==> FirstView(t, actual) == View(s[0], actual) == FirstView(s, actual);
      if i :| 0 <= i < |s| && |s[i].source| > |m.source| && View(s[i], actual).Some? {
        if i > 0 {
          assert s[1..][i - 1] == s[i];
        }
      }
    }
  }

  lemma ByLengthHolds(specs: seq<Mount>, m: Mount)
    ensures m in ByLength(specs) <==> m in specs
  {
    ByLengthSorts(specs);
    assert m in ByLength(specs) <==> m in multiset(ByLength(specs));
    assert m in specs <==> m in multiset(specs);
  }

  lemma FrontView(specs: seq<Mount>, actual: string)
    requires CanonicalMounts(specs) && Canonical(actual) && IsNarrowest(specs, actual, 0)
    ensures FirstView(ByLength(specs), actual) == View(specs[0], actual)
  {
    var s := ByLength(specs[1..]);
    forall i | 0 <= i < |s| && |s[i].source| > |specs[0].source| ensures View(s[i], actual).None? {
      ByLengthHolds(specs[1..], s[i]);
      var j :| 0 <= j < |specs[1..]| && specs[1..][j] == s[i];
      assert specs[j + 1] == s[i];
      ViewExactly(s[i], actual);
    }
    ByLengthSorts(specs[1..]);
    ViewExactly(specs[0], actual);
    InsertView(specs[0], s, actual);
  }

  lemma LaterView(specs: seq<Mount>, actual: string, k: nat)
    requires CanonicalMounts(specs) && Canonical(actual) && IsNarrowest(specs, actual, k) && k > 0
    ensures FirstView(ByLength(specs), actual) == FirstView(ByLength(specs[1..]), actual)
  {
    var s := ByLength(specs[1..]);
    ByLengthSorts(specs[1..]);
    ViewExactly(specs[0], actual);
    if ShowsReal(specs[0], actual) {
      assert specs[k] == specs[1..][k - 1];
      ByLengthHolds(specs[1..], specs[k]);
      ViewExactly(specs[k], actual);
    }
    InsertView(specs[0], s, actual);
  }

  lemma {:induction false} ByLengthView(specs: seq<Mount>, actual: string, k: nat)
    requires CanonicalMounts(specs) && Canonical(actual) && IsNarrowest(specs, actual, k)
    ensures FirstView(ByLength(specs), actual) == View(specs[k], actual)
  {
    if k == 0 {
      FrontView(specs, actual);
    } else {
      LaterView(specs, actual, k);
      var rest := specs[1..];
      assert forall j | 0 <= j < |rest| :: rest[j] == specs[j + 1];
      ByLengthView(rest, actual, k - 1);
    }
  }

  lemma ViewExactly(m: Mount, actual: string)
    requires Canonical(m.path) && Canonical(m.source) && Canonical(actual)
    ensures View(m, actual).Some? <==> ShowsReal(m, actual)
    ensures ShowsReal(m, actual) ==>
      var v := View(m, actual).value;
      v == Render(InFront(m, Segments(actual))) && Canonical(v) && Segments(v) == InFront(m, Segments(actual))
  {
    Move(m.source, m.path, actual);
  }

  lemma {:induction false} ByLengthNone(s: seq<Mount>, actual: string)
    requires forall i | 0 <= i < |s| :: View(s[i], actual).None?
    ensures FirstView(s, actual).None?
  {
    if s == [] {
    } else {
      assert View(s[0], actual).None?;
      ByLengthNone(s[1..], actual);
    }
  }

  /** Some mount is the narrowest of those that show the path. */
  lemma {:induction false} NarrowestExists(specs: seq<Mount>, actual: string, n: nat) returns (k: nat)
    requires CanonicalMounts(specs) && Canonical(actual) && n < |specs| && ShowsReal(specs[n], actual)
    ensures IsNarrowest(specs, actual, k)
    decreases MaxLength(specs) - |specs[n].source|, n
  {
    MaxLengthIs(specs, n);
    if j: nat :| j < |specs| && ShowsReal(specs[j], actual) && GoesFirst(specs, j, n) {
      MaxLengthIs(specs, j);
      k := NarrowestExists(specs, actual, j);
    } else {
      k := n;
    }
  }

  /** The sort puts mount j in front of mount n. */
  predicate GoesFirst(specs: seq<Mount>, j: nat, n: nat)
    requires j < |specs| && n < |specs|
  {
    |specs[j].source| > |specs[n].source| || (|specs[j].source| == |specs[n].source| && j < n)
  }

  function MaxLength(specs: seq<Mount>): nat {
    if specs == [] then 0
    else if MaxLength(specs[1..]) < |specs[0].source| then |specs[0].source|
    else MaxLength(specs[1..])
  }

  lemma {:induction false} MaxLengthIs(specs: seq<Mount>, n: nat)
    requires n < |specs|
    ensures |specs[n].source| <= MaxLength(specs)
  {
    if n == 0 {
    } else {
      assert specs[1..][n - 1] == specs[n];
      MaxLengthIs(specs[1..], n - 1);
    }
  }

  lemma SortedViewExactly(specs: seq<Mount>, actual: string)
    requires CanonicalMounts(specs) && Canonical(actual)
    ensures FirstView(ByLength(specs), actual).None? <==> forall i | 0 <= i < |specs| :: !ShowsReal(specs[i], actual)
    ensures forall k: nat | IsNarrowest(specs, actual, k) :: FirstView(ByLength(specs), actual) == View(specs[k], actual)
  {
    forall k: nat | IsNarrowest(specs, actual, k)
      ensures FirstView(ByLength(specs), actual) == View(specs[k], actual)
    {
      ByLengthView(specs, actual, k);
    }
    if n: nat :| n < |specs| && ShowsReal(specs[n], actual) {
      SomeView(specs, actual, n);
    } else {
      NoView(specs, actual);
    }
  }

  lemma SomeView(specs: seq<Mount>, actual: string, n: nat)
    requires CanonicalMounts(specs) && Canonical(actual) && n < |specs| && ShowsReal(specs[n], actual)
    ensures FirstView(ByLength(specs), actual).Some?
  {
    var k := NarrowestExists(specs, actual, n);
    ByLengthView(specs, actual, k);
    ViewExactly(specs[k], actual);
  }

  lemma NoView(specs: seq<Mount>, actual: string)
    requires CanonicalMounts(specs) && Canonical(actual)
    requires forall i | 0 <= i < |specs| :: !ShowsReal(specs[i], actual)
    ensures FirstView(ByLength(specs), actual).None?
  {
    var sorted := ByLength(specs);
    ByLengthSorts(specs);
    forall i | 0 <= i < |sorted| ensures View(sorted[i], actual).None? {
      assert sorted[i] in multiset(sorted);
      assert sorted[i] in specs;
      var j :| 0 <= j < |specs| && specs[j] == sorted[i];
      ViewExactly(specs[j], actual);
    }
    ByLengthNone(sorted, actual);
  }

  /**
   * Main result: `toVirtual` goes through the preferred mount when that shows the path, otherwise
   * through the one with the longest source (the earliest of several), and fails when none does.
   */
  lemma ToVirtualExactly(specs: seq<Mount>, actual: string, preferred: Option<Mount>)
    requires CanonicalMounts(specs) && Canonical(actual)
    requires preferred.Some? ==> Canonical(preferred.value.path) && Canonical(preferred.value.source)
    ensures preferred.Some? && ShowsReal(preferred.value, actual) ==>
      ToVirtual(specs, actual, preferred) == View(preferred.value, actual)
    ensures !(preferred.Some? && ShowsReal(preferred.value, actual)) ==>
      && (ToVirtual(specs, actual, preferred).None? <==> forall i | 0 <= i < |specs| :: !ShowsReal(specs[i], actual))
      && forall k: nat | IsNarrowest(specs, actual, k) :: ToVirtual(specs, actual, preferred) == View(specs[k], actual)
  {
    var sorted := ByLength(specs);
    if preferred.Some? {
      assert ([preferred.value] + sorted)[1..] == sorted;
      ViewExactly(preferred.value, actual);
    } else {
      assert [] + sorted == sorted;
    }
    SortedViewExactly(specs, actual);
  }

  /** "Longest" is "narrowest": the source used lies under every other source that shows the path. */
  lemma NarrowestIsDeepest(specs: seq<Mount>, actual: string, k: nat, j: nat)
    requires CanonicalMounts(specs) && Canonical(actual) && IsNarrowest(specs, actual, k)
    requires j < |specs| && ShowsReal(specs[j], actual)
    ensures Segments(specs[j].source) <= Segments(specs[k].source)
  {
    var a, b := Segments(specs[j].source), Segments(specs[k].source);
    if |a| > |b| {
      RenderLonger(b, a);
    }
  }

  lemma RenderLonger(b: seq<string>, a: seq<string>)
    requires AreSegments(a) && b <= a && |b| < |a|
    ensures |Render(b)| < |Render(a)|
  {
    assert a == b + a[|b|..];
    TailConcat(b, a[|b|..]);
    TailShape(a[|b|..]);
    if b == [] {
      assert IsSegment(a[0]);
    }
  }

  /** Main result: a path is writable exactly when the source of a read-write mount lies above it. */
  lemma WritableExactly(specs: seq<Mount>, actual: string)
    requires CanonicalMounts(specs) && Canonical(actual)
    ensures IsWritable(specs, actual) <==> exists i | 0 <= i < |specs| :: specs[i].writable && ShowsReal(specs[i], actual)
  {
    forall i | 0 <= i < |specs|
      ensures SuffixUnder(specs[i].source, actual).Some? <==> ShowsReal(specs[i], actual)
    {
      Move(specs[i].source, specs[i].path, actual);
    }
  }

  // ---- round trips ----

  /** Main result: coming back through the mount that `toReal` went through undoes it. */
  lemma VirtualRoundTrip(specs: seq<Mount>, virtual: string)
    requires CanonicalMounts(specs) && Canonical(virtual) && ToReal(specs, virtual).Some?
    ensures var r := ToReal(specs, virtual).value; ToVirtual(specs, r.actual, Some(r.mount)) == Some(virtual)
  {
    ToRealExactly(specs, virtual);
    var n :| 0 <= n < |specs| && ShowsVirtual(specs[n], virtual);
    var k := FirstShown(specs, virtual, n);
    BackThrough(specs, specs[k], ToReal(specs, virtual).value.actual, virtual);
  }

  lemma FrontOfBehind(m: Mount, p: seq<string>)
    requires Canonical(m.path) && Canonical(m.source) && Segments(m.path) <= p
    ensures Segments(m.source) <= Behind(m, p) && InFront(m, Behind(m, p)) == p
  {
  }

  lemma BackThrough(specs: seq<Mount>, m: Mount, actual: string, virtual: string)
    requires CanonicalMounts(specs) && Canonical(m.path) && Canonical(m.source) && Canonical(actual) && Canonical(virtual)
    requires ShowsVirtual(m, virtual) && Segments(actual) == Behind(m, Segments(virtual))
    ensures ToVirtual(specs, actual, Some(m)) == Some(virtual)
  {
    ToVirtualExactly(specs, actual, Some(m));
    ViewExactly(m, actual);
    FrontOfBehind(m, Segments(virtual));
  }

  /** Mount k, used on the way out, is undone on the way back for every path it shows. */
  ghost predicate Returns(specs: seq<Mount>, k: nat)
    requires k < |specs| && CanonicalMounts(specs)
  {
    forall actual | Canonical(actual) && ShowsReal(specs[k], actual) :: ReturnsFrom(specs, k, actual)
  }

  ghost predicate ReturnsFrom(specs: seq<Mount>, k: nat, actual: string)
    requires k < |specs|
  {
    var v := ToVirtual(specs, actual, Some(specs[k]));
    v.Some? && ToReal(specs, v.value).Some? && ToReal(specs, v.value).value.actual == actual
  }

  function Longer(a: seq<string>, b: seq<string>): seq<string> {
    if |a| >= |b| then a else b
  }

  /** Two mounts, one path under (or equal to) the other, lead to the same place where both apply. */
  ghost predicate Agree(a: Mount, b: Mount)
    requires Canonical(a.path) && Canonical(a.source) && Canonical(b.path) && Canonical(b.source)
  {
    var p, q := Segments(a.path), Segments(b.path);
    p <= q || q <= p ==> Behind(a, Longer(p, q)) == Behind(b, Longer(p, q))
  }

  ghost predicate Coherent(specs: seq<Mount>)
    requires CanonicalMounts(specs)
  {
    forall i, k | 0 <= i < k < |specs| :: Agree(specs[i], specs[k])
  }

  lemma AgreeBelow(a: Mount, b: Mount, p: seq<string>)
    requires Canonical(a.path) && Canonical(a.source) && Canonical(b.path) && Canonical(b.source)
    requires Segments(a.path) <= p && Segments(b.path) <= p && Agree(a, b)
    ensures Behind(a, p) == Behind(b, p)
  {
    var l := Longer(Segments(a.path), Segments(b.path));
    assert Behind(a, p) == Behind(a, l) + p[|l|..];
    assert Behind(b, p) == Behind(b, l) + p[|l|..];
  }

  /** What a round trip through mount k compares: the first mount above the virtual path, and k. */
  lemma ReturnsFromExactly(specs: seq<Mount>, k: nat, p: seq<string>) returns (f: nat)
    requires CanonicalMounts(specs) && k < |specs| && AreSegments(p) && Segments(specs[k].path) <= p
    ensures f <= k && Segments(specs[f].path) <= p
    ensures f == FirstAbove(specs, p)
    ensures var actual := Render(Behind(specs[k], p));
      && Canonical(actual) && ShowsReal(specs[k], actual)
      && (ReturnsFrom(specs, k, actual) <==> Behind(specs[f], p) == Behind(specs[k], p))
  {
    var b := Behind(specs[k], p);
    SegmentsOf(b);
    SegmentsOf(p);
    var actual, virtual := Render(b), Render(p);
    ToVirtualExactly(specs, actual, Some(specs[k]));
    ViewExactly(specs[k], actual);
    assert InFront(specs[k], b) == p;
    ToRealExactly(specs, virtual);
    f := FirstShown(specs, virtual, k);
    FirstAboveIs(specs, p, f);
    SegmentsOf(Behind(specs[f], p));
  }

  /** The index of the first mount above p, |specs| when there is none. */
  ghost function FirstAbove(specs: seq<Mount>, p: seq<string>): nat
    requires CanonicalMounts(specs)
  {
    if specs == [] || Segments(specs[0].path) <= p then 0 else 1 + FirstAbove(specs[1..], p)
  }

  lemma {:induction false} FirstAboveIs(specs: seq<Mount>, p: seq<string>, f: nat)
    requires CanonicalMounts(specs) && f < |specs| && Segments(specs[f].path) <= p
    requires forall i | 0 <= i < f :: !(Segments(specs[i].path) <= p)
    ensures FirstAbove(specs, p) == f
  {
    if f == 0 {
    } else {
      assert specs[1..][f - 1] == specs[f];
      assert forall i | 0 <= i < f - 1 :: specs[1..][i] == specs[i + 1];
      FirstAboveIs(specs[1..], p, f - 1);
    }
  }

  /** Main result: every way out can be undone exactly when nested mounts agree. */
  lemma RealRoundTripExactly(specs: seq<Mount>)
    requires CanonicalMounts(specs)
    ensures (forall k | 0 <= k < |specs| :: Returns(specs, k)) <==> Coherent(specs)
  {
    if Coherent(specs) {
      forall k | 0 <= k < |specs| ensures Returns(specs, k) {
        CoherentReturns(specs, k);
      }
    }
    if forall k | 0 <= k < |specs| :: Returns(specs, k) {
      forall i, k | 0 <= i < k < |specs| ensures Agree(specs[i], specs[k]) {
        ReturnsAgree(specs, i, k);
      }
    }
  }

  lemma BehindFront(m: Mount, p: seq<string>)
    requires Canonical(m.path) && Canonical(m.source) && Segments(m.source) <= p
    ensures Segments(m.path) <= InFront(m, p) && Behind(m, InFront(m, p)) == p
  {
  }

  lemma CoherentReturns(specs: seq<Mount>, k: nat)
    requires CanonicalMounts(specs) && Coherent(specs) && k < |specs|
    ensures Returns(specs, k)
  {
    forall actual | Canonical(actual) && ShowsReal(specs[k], actual) ensures ReturnsFrom(specs, k, actual) {
      var p := InFront(specs[k], Segments(actual));
      BehindFront(specs[k], Segments(actual));
      var f := ReturnsFromExactly(specs, k, p);
      if f < k {
        assert Agree(specs[f], specs[k]);
        AgreeBelow(specs[f], specs[k], p);
      }
    }
  }

  lemma ReturnsAgree(specs: seq<Mount>, i: nat, k: nat)
    requires CanonicalMounts(specs) && i < |specs| && k < |specs| && Returns(specs, i) && Returns(specs, k)
    ensures Agree(specs[i], specs[k])
  {
    var p, q := Segments(specs[i].path), Segments(specs[k].path);
    if p <= q || q <= p {
      var l := Longer(p, q);
      var f := ReturnsFromExactly(specs, i, l);
      var g := ReturnsFromExactly(specs, k, l);
    }
  }

  /** When no mount path lies under another, whichever mount `toVirtual` picks, `toReal` undoes it. */
  lemma {:induction false} RealRoundTrip(specs: seq<Mount>, actual: string, preferred: Option<Mount>)
    requires CanonicalMounts(specs) && Canonical(actual) && (preferred.Some? ==> preferred.value in specs)
    requires forall i, j | 0 <= i < |specs| && 0 <= j < |specs| && i != j :: !(Segments(specs[i].path) <= Segments(specs[j].path))
    requires ToVirtual(specs, actual, preferred).Some?
    ensures var v := ToVirtual(specs, actual, preferred).value; ToReal(specs, v).Some? && ToReal(specs, v).value.actual == actual
  {
    assert Coherent(specs);
    ToVirtualExactly(specs, actual, preferred);
    var k: nat;
    if preferred.Some? && ShowsReal(preferred.value, actual) {
      k :| k < |specs| && specs[k] == preferred.value;
    } else {
      var n: nat :| n < |specs| && ShowsReal(specs[n], actual);
      k := NarrowestExists(specs, actual, n);
    }
    CoherentReturns(specs, k);
    ToVirtualExactly(specs, actual, Some(specs[k]));
    assert ReturnsFrom(specs, k, actual);
  }

  /**
   * Main result: without a preference a path comes back exactly when the first mount above its
   * virtual path, the one through the narrowest source, leads there too.
   */
  lemma DefaultReturnsExactly(specs: seq<Mount>, actual: string, k: nat)
    requires CanonicalMounts(specs) && Canonical(actual) && IsNarrowest(specs, actual, k)
    ensures var v, p := ToVirtual(specs, actual, None), InFront(specs[k], Segments(actual));
      && v == Some(Render(p)) && ToReal(specs, v.value).Some?
      && FirstAbove(specs, p) < |specs| && Segments(specs[FirstAbove(specs, p)].path) <= p
      && (ToReal(specs, v.value).value.actual == actual <==> Behind(specs[FirstAbove(specs, p)], p) == Segments(actual))
  {
    var p := InFront(specs[k], Segments(actual));
    ToVirtualExactly(specs, actual, None);
    ToVirtualExactly(specs, actual, Some(specs[k]));
    ViewExactly(specs[k], actual);
    BehindFront(specs[k], Segments(actual));
    var f := ReturnsFromExactly(specs, k, p);
    ToRealExactly(specs, Render(p));
    SegmentsOf(p);
    assert IsFirstAbove(specs, Render(p), f) by {
      FirstAboveFirst(specs, p);
    }
  }

  lemma {:induction false} FirstAboveFirst(specs: seq<Mount>, p: seq<string>)
    requires CanonicalMounts(specs)
    ensures forall i: nat | i < FirstAbove(specs, p) && i < |specs| :: !(Segments(specs[i].path) <= p)
  {
    if specs == [] || Segments(specs[0].path) <= p {
    } else {
      FirstAboveFirst(specs[1..], p);
      assert forall i | 0 <= i < |specs[1..]| :: specs[1..][i] == specs[i + 1];
    }
  }

  /** A mount inside another that leads elsewhere is not undone when the outer one comes first. */
  lemma NestedMountLosesItsWay()
    ensures
      var specs := [Mount("/a", "/x", true), Mount("/a/b", "/y", true)];
      ToVirtual(specs, "/y", None) == Some("/a/b") && ToReal(specs, "/a/b") == Some(MountedPath(specs[0], "/x/b"))
  {
    var outer, inner := Mount("/a", "/x", true), Mount("/a/b", "/y", true);
    var specs := [outer, inner];
    assert specs[1..] == [inner];
    assert ByLength([inner]) == [inner];
    assert ByLength(specs) == specs;
    assert [] + specs == specs;
    assert "/a/" <= "/a/b" && "/a/b"[2..] == "/b";
    assert SuffixUnder("/x", "/y") == None;
    assert SuffixUnder("/y", "/y") == Some("");
    assert ToVirtual(specs, "/y", None) == FirstView(specs, "/y") == Some("/a/b");
    assert SuffixUnder("/a", "/a/b") == Some("/b");
    assert JoinSuffix("/x", "/b") == "/x/b";
  }
}
