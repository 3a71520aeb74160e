/** Searching a run of lines for those that satisfy a test, and cutting it there. A line that
    satisfies the test is a hit. There are the first hit, the last one and the numbers of all;
    the lines in front of the first hit, and for every hit the group of lines from it to the
    next. Everything the configuration editor knows about projects, platforms and sections is
    said with these few functions: a header is a hit, and what belongs to it is its group.
    The test is a parameter, so that the proofs here do not depend on what a header is. */
module Search {

  /** The first hit, or the length. */
  function First(seg: seq<string>, p: string -> bool): (i: nat)
    ensures i <= |seg|
  {
    if seg == [] || p(seg[0]) then 0 else 1 + First(seg[1..], p)
  }

  /** The last hit, or -1. */
  function Last(seg: seq<string>, p: string -> bool): (i: int)
    ensures -1 <= i < |seg|
  {
    if seg == [] then -1
    else if p(seg[|seg| - 1]) then |seg| - 1
    else Last(seg[..|seg| - 1], p)
  }

  /** The numbers of all hits, when the first line has number `off`. */
  function Hits(seg: seq<string>, p: string -> bool, off: nat): seq<nat> {
    if seg == [] then [] else (if p(seg[0]) then [off] else []) + Hits(seg[1..], p, off + 1)
  }

  /** No line from `lo` up to `hi` is a hit. */
  ghost predicate NoHit(seg: seq<string>, p: string -> bool, lo: nat, hi: nat) {
    forall k :: lo <= k < hi && k < |seg| ==> !p(seg[k])
  }

  lemma {:induction false} FirstIs(seg: seq<string>, p: string -> bool)
    ensures First(seg, p) <= |seg| && NoHit(seg, p, 0, First(seg, p))
    ensures First(seg, p) < |seg| ==> p(seg[First(seg, p)])
  {
    if seg != [] && !p(seg[0]) {
      FirstIs(seg[1..], p);
      forall k | 0 <= k < First(seg, p)
        ensures !p(seg[k])
      {
        if k > 0 { assert seg[k] == seg[1..][k - 1]; }
      }
    }
  }

  lemma FirstUnique(seg: seq<string>, p: string -> bool, i: nat)
    requires i <= |seg| && NoHit(seg, p, 0, i) && (i < |seg| ==> p(seg[i]))
    ensures First(seg, p) == i
  {
    FirstIs(seg, p);
  }

  lemma FirstSnoc(seg: seq<string>, line: string, p: string -> bool)
    ensures First(seg + [line], p) == if First(seg, p) < |seg| || p(line) then First(seg, p) else |seg| + 1
  {
    FirstIs(seg, p);
    FirstUnique(seg + [line], p, if First(seg, p) < |seg| || p(line) then First(seg, p) else |seg| + 1);
  }

  /** Replacing a line that is no hit by another that is none moves no hit. */
  lemma FirstUpdate(seg: seq<string>, i: nat, line: string, p: string -> bool)
    requires i < |seg| && !p(seg[i]) && !p(line)
    ensures First(seg[i := line], p) == First(seg, p)
  {
    FirstIs(seg, p);
    FirstUnique(seg[i := line], p, First(seg, p));
  }

  lemma {:induction false} LastIs(seg: seq<string>, p: string -> bool)
    ensures -1 <= Last(seg, p) < |seg| && NoHit(seg, p, Last(seg, p) + 1, |seg|)
    ensures Last(seg, p) >= 0 ==> p(seg[Last(seg, p)])
  {
    if seg != [] && !p(seg[|seg| - 1]) {
      var init := seg[..|seg| - 1];
      LastIs(init, p);
      forall k | Last(seg, p) + 1 <= k < |seg|
        ensures !p(seg[k])
      {
        if k < |init| { assert seg[k] == init[k]; }
      }
    }
  }

  lemma LastUnique(seg: seq<string>, p: string -> bool, i: int)
    requires -1 <= i < |seg| && NoHit(seg, p, i + 1, |seg|) && (i >= 0 ==> p(seg[i]))
    ensures Last(seg, p) == i
  {
    LastIs(seg, p);
  }

  lemma LastSnoc(seg: seq<string>, line: string, p: string -> bool)
    ensures Last(seg + [line], p) == if p(line) then |seg| else Last(seg, p)
  {
    assert (seg + [line])[..|seg|] == seg;
  }

  // ----- runs of lines put together

  ghost predicate Free(seg: seq<string>, p: string -> bool) {
    NoHit(seg, p, 0, |seg|)
  }

  lemma FreeConcat(a: seq<string>, b: seq<string>, p: string -> bool)
    ensures Free(a + b, p) <==> Free(a, p) && Free(b, p)
  {
    if Free(a + b, p) {
      assert forall k :: 0 <= k < |a| ==> a[k] == (a + b)[k];
      assert forall k :: 0 <= k < |b| ==> b[k] == (a + b)[|a| + k];
    }
  }

  lemma LastOf(a: seq<string>, line: string, c: seq<string>, p: string -> bool)
    requires p(line) && Free(c, p)
    ensures Last(a + [line] + c, p) == |a|
  {
    var seg := a + [line] + c;
    assert seg[|a|] == line;
    LastUnique(seg, p, |a|);
  }

  lemma FirstOf(a: seq<string>, line: string, c: seq<string>, p: string -> bool)
    requires p(line) && Free(a, p)
    ensures First(a + [line] + c, p) == |a|
  {
    var seg := a + [line] + c;
    assert seg[|a|] == line;
    FirstUnique(seg, p, |a|);
  }

  lemma LastNone(seg: seq<string>, p: string -> bool)
    ensures Last(seg, p) < 0 <==> Free(seg, p)
  {
    LastIs(seg, p);
  }

  lemma {:induction false} LastCons(line: string, seg: seq<string>, p: string -> bool)
    requires !p(line)
    ensures Last([line] + seg, p) == if Last(seg, p) < 0 then -1 else 1 + Last(seg, p)
  {
    LastIs(seg, p);
    var all := [line] + seg;
    assert forall k :: 0 < k < |all| ==> all[k] == seg[k - 1];
    LastUnique(all, p, if Last(seg, p) < 0 then -1 else 1 + Last(seg, p));
  }

  lemma FirstNone(seg: seq<string>, p: string -> bool)
    ensures First(seg, p) == |seg| <==> Free(seg, p)
  {
    FirstIs(seg, p);
  }

  function Head(seg: seq<string>, p: string -> bool, off: nat): seq<nat>
    requires seg != []
  {
    if p(seg[0]) then [off] else []
  }

  lemma HitsCons(seg: seq<string>, p: string -> bool, off: nat)
    requires seg != []
    ensures Hits(seg, p, off) == Head(seg, p, off) + Hits(seg[1..], p, off + 1)
  {
  }

  lemma Assoc(x: seq<nat>, y: seq<nat>, z: seq<nat>)
    ensures x + (y + z) == x + y + z
  {
  }

  lemma {:induction false} HitsAppend(a: seq<string>, b: seq<string>, p: string -> bool, off: nat)
    ensures Hits(a + b, p, off) == Hits(a, p, off) + Hits(b, p, off + |a|)
  {
    if a == [] {
      assert a + b == b;
      assert Hits(a, p, off) == [];
    } else {
      HitsCons(a + b, p, off);
      HitsCons(a, p, off);
      hide Hits;
      assert (a + b)[1..] == a[1..] + b && Head(a + b, p, off) == Head(a, p, off);
      HitsAppend(a[1..], b, p, off + 1);
      Assoc(Head(a, p, off), Hits(a[1..], p, off + 1), Hits(b, p, off + |a|));
    }
  }

  ghost predicate InOrder(h: seq<nat>) {
    forall i, j :: 0 <= i < j < |h| ==> h[i] < h[j]
  }

  ghost predicate AllHits(h: seq<nat>, seg: seq<string>, p: string -> bool, off: nat) {
    forall i :: 0 <= i < |h| ==> off <= h[i] < off + |seg| && p(seg[h[i] - off])
  }

  lemma HeadOk(head: seq<nat>, h: seq<nat>, seg: seq<string>, p: string -> bool, off: nat)
    requires seg != [] && head == Head(seg, p, off)
    requires AllHits(h, seg[1..], p, off + 1) && InOrder(h)
    ensures AllHits(head + h, seg, p, off) && InOrder(head + h)
  {
    var r := head + h;
    forall i | 0 <= i < |r|
      ensures off <= r[i] < off + |seg| && p(seg[r[i] - off])
    {
      if i >= |head| {
        var x := h[i - |head|];
        assert seg[x - off] == seg[1..][x - (off + 1)];
      }
    }
    assert forall i :: |head| <= i < |r| ==> r[i] == h[i - |head|];
  }

  /** Hits are listed in order. */
  lemma {:induction false} HitsAre(seg: seq<string>, p: string -> bool, off: nat)
    ensures AllHits(Hits(seg, p, off), seg, p, off) && InOrder(Hits(seg, p, off))
  {
    if seg != [] {
      HitsCons(seg, p, off);
      hide Hits, AllHits, InOrder;
      HitsAre(seg[1..], p, off + 1);
      HeadOk(Head(seg, p, off), Hits(seg[1..], p, off + 1), seg, p, off);
    }
  }

  /** Every hit is listed. */
  lemma {:induction false} HitsAll(seg: seq<string>, p: string -> bool, off: nat, k: nat)
    requires k < |seg| && p(seg[k])
    ensures off + k in Hits(seg, p, off)
  {
    if k > 0 {
      HitsAll(seg[1..], p, off + 1, k - 1);
    }
  }

  // ----- cutting a run of lines at its hits

  /** The lines before the first hit, and for each hit the lines from it to the next. */
  function Groups(lines: seq<string>, p: string -> bool): (seq<string>, seq<seq<string>>) {
    if lines == [] then ([], [])
    else
      var (pre, gs) := Groups(lines[1..], p);
      if p(lines[0]) then ([], [[lines[0]] + pre] + gs) else ([lines[0]] + pre, gs)
  }

  /** The end of the i-th group: the next hit, or `hi`. */
  function NextOf(starts: seq<nat>, i: nat, hi: nat): nat {
    if i + 1 < |starts| then starts[i + 1] else hi
  }

  /** The lines numbered lo up to hi, if the first line has number `off`. */
  function Part(lines: seq<string>, off: nat, lo: nat, hi: nat): seq<string> {
    if off <= lo <= hi <= off + |lines| then lines[lo - off..hi - off] else []
  }

  /** Each group holds the lines from its hit to the next. */
  ghost predicate PartsOk(gs: seq<seq<string>>, lines: seq<string>, off: nat, h: seq<nat>) {
    |gs| == |h| && forall i :: 0 <= i < |h| ==> gs[i] == Part(lines, off, h[i], NextOf(h, i, off + |lines|))
  }

  /** Where the first hit is, or the end. */
  function FirstStart(h: seq<nat>, hi: nat): nat {
    if h == [] then hi else h[0]
  }

  /** Groups are the lines between consecutive hits. */
  lemma {:induction false} GroupsAreParts(lines: seq<string>, p: string -> bool, off: nat)
    ensures PartsOk(Groups(lines, p).1, lines, off, Hits(lines, p, off))
    ensures Groups(lines, p).0 == Part(lines, off, off, FirstStart(Hits(lines, p, off), off + |lines|))
  {
    if lines != [] {
      var rest := lines[1..];
      GroupsAreParts(rest, p, off + 1);
      HitsCons(lines, p, off);
      GroupsCons(lines, p);
      assert Head(lines, p, off) == if p(lines[0]) then [off] else [];
      HitsBeyond(rest, p, off + 1);
      hide *;
      ConsParts(lines, off, p(lines[0]), Hits(rest, p, off + 1), Groups(rest, p).0, Groups(rest, p).1,
                Hits(lines, p, off), Groups(lines, p));
    }
  }

  lemma HitsBeyond(seg: seq<string>, p: string -> bool, off: nat)
    ensures var h := Hits(seg, p, off); forall i :: 0 <= i < |h| ==> off <= h[i] < off + |seg|
  {
    HitsAre(seg, p, off);
    hide Hits;
  }

  lemma ConsParts(lines: seq<string>, off: nat, hit: bool, h: seq<nat>, pre: seq<string>, gs: seq<seq<string>>,
                  all: seq<nat>, groups: (seq<string>, seq<seq<string>>))
    requires lines != [] && forall i :: 0 <= i < |h| ==> off + 1 <= h[i] < off + |lines|
    requires PartsOk(gs, lines[1..], off + 1, h)
    requires pre == Part(lines[1..], off + 1, off + 1, FirstStart(h, off + |lines|))
    requires all == (if hit then [off] else []) + h
    requires groups == if hit then ([], [[lines[0]] + pre] + gs) else ([lines[0]] + pre, gs)
    ensures PartsOk(groups.1, lines, off, all) && groups.0 == Part(lines, off, off, FirstStart(all, off + |lines|))
  {
    hide Part, PartsOk;
    FirstParts(lines, off, h, pre);
    if hit {
      HitParts(lines, off, h, pre, gs);
    } else {
      assert all == h;
      TailParts(lines, off, h, gs);
    }
  }

  /** One more line in front that is no hit leaves the groups alone. */
  lemma TailParts(lines: seq<string>, off: nat, h: seq<nat>, gs: seq<seq<string>>)
    requires lines != [] && PartsOk(gs, lines[1..], off + 1, h) && forall i :: 0 <= i < |h| ==> off + 1 <= h[i]
    ensures PartsOk(gs, lines, off, h)
  {
    hide Part;
    forall i | 0 <= i < |h|
      ensures gs[i] == Part(lines, off, h[i], NextOf(h, i, off + |lines|))
    {
      PartTail(lines, off, h[i], NextOf(h, i, off + |lines|));
    }
  }

  /** One more line in front that is a hit opens a group with the lines before the next. */
  lemma HitParts(lines: seq<string>, off: nat, h: seq<nat>, pre: seq<string>, gs: seq<seq<string>>)
    requires lines != [] && PartsOk(gs, lines[1..], off + 1, h) && forall i :: 0 <= i < |h| ==> off + 1 <= h[i]
    requires [lines[0]] + pre == Part(lines, off, off, FirstStart(h, off + |lines|))
    ensures PartsOk([[lines[0]] + pre] + gs, lines, off, [off] + h)
  {
    hide Part;
    TailParts(lines, off, h, gs);
    var all, k, hi := [[lines[0]] + pre] + gs, [off] + h, off + |lines|;
    forall i | 0 <= i < |k|
      ensures all[i] == Part(lines, off, k[i], NextOf(k, i, hi))
    {
      if i > 0 {
        assert all[i] == gs[i - 1] && k[i] == h[i - 1] && NextOf(k, i, hi) == NextOf(h, i - 1, hi);
      }
    }
  }

  lemma GroupsCons(lines: seq<string>, p: string -> bool)
    requires lines != []
    ensures var (pre, gs) := Groups(lines[1..], p);
      Groups(lines, p) == if p(lines[0]) then ([], [[lines[0]] + pre] + gs) else ([lines[0]] + pre, gs)
  {
  }

  /** One more line in front belongs to the lines before the first hit. */
  lemma FirstParts(lines: seq<string>, off: nat, h: seq<nat>, pre: seq<string>)
    requires lines != [] && (h == [] || off < h[0] <= off + |lines|)
    requires pre == Part(lines[1..], off + 1, off + 1, FirstStart(h, off + |lines|))
    ensures [lines[0]] + pre == Part(lines, off, off, FirstStart(h, off + |lines|))
    ensures Part(lines, off, off, off) == []
  {
    var hi := FirstStart(h, off + |lines|);
    assert lines[..hi - off] == [lines[0]] + lines[1..][..hi - off - 1];
  }

  lemma PartTail(lines: seq<string>, off: nat, lo: nat, hi: nat)
    requires lines != [] && off < lo
    ensures Part(lines, off, lo, hi) == Part(lines[1..], off + 1, lo, hi)
  {
    if lo <= hi <= off + |lines| {
      assert lines[lo - off..hi - off] == lines[1..][lo - off - 1..hi - off - 1];
    }
  }

  /** Appending lines that begin with a hit appends their groups. */
  lemma {:induction false} GroupsAppend(a: seq<string>, b: seq<string>, p: string -> bool)
    requires b == [] || p(b[0])
    ensures Groups(a + b, p).0 == Groups(a, p).0
    ensures Groups(a + b, p).1 == Groups(a, p).1 + Groups(b, p).1
  {
    if a == [] {
      assert a + b == b;
    } else {
      assert (a + b)[1..] == a[1..] + b;
      GroupsAppend(a[1..], b, p);
    }
  }

  lemma {:induction false} GroupsNone(a: seq<string>, p: string -> bool)
    requires NoHit(a, p, 0, |a|)
    ensures Groups(a, p) == (a, [])
  {
    if a != [] {
      assert forall k :: 0 <= k < |a| - 1 ==> a[1..][k] == a[k + 1];
      GroupsNone(a[1..], p);
      assert [a[0]] + a[1..] == a;
    }
  }

  /** A run whose first line is its only hit is one group. */
  lemma GroupsOne(g: seq<string>, p: string -> bool)
    requires g != [] && p(g[0]) && NoHit(g, p, 1, |g|)
    ensures Groups(g, p) == ([], [g])
  {
    assert forall k :: 0 <= k < |g| - 1 ==> g[1..][k] == g[k + 1];
    GroupsNone(g[1..], p);
    assert [g[0]] + g[1..] == g;
    assert [g] + Groups(g[1..], p).1 == [g];
  }

  /** A run of lines that is one group stays one between others. */
  lemma GroupsAround(a: seq<string>, g: seq<string>, c: seq<string>, p: string -> bool)
    requires g != [] && p(g[0]) && NoHit(g, p, 1, |g|) && (c == [] || p(c[0]))
    ensures Groups(a + g + c, p).1 == Groups(a, p).1 + [g] + Groups(c, p).1
  {
    GroupsOne(g, p);
    hide Groups;
    GroupsAppend(g, c, p);
    assert (g + c)[0] == g[0];
    GroupsAppend(a, g + c, p);
    assert a + g + c == a + (g + c);
    var x, z := Groups(a, p).1, Groups(c, p).1;
    assert x + ([g] + z) == x + [g] + z;
  }

  // ----- replacing one group

  /** A first line that is a hit, and no other. */
  ghost predicate IsGroup(g: seq<string>, p: string -> bool) {
    g != [] && p(g[0]) && NoHit(g, p, 1, |g|)
  }

  lemma NotBetween(h: seq<nat>, i: nat, j: nat, hi: nat)
    requires InOrder(h) && i < |h| && j < |h|
    ensures !(h[i] < h[j] < NextOf(h, i, hi))
  {
    if j < i { assert h[j] < h[i]; } else if i + 1 < j { assert h[i + 1] < h[j]; }
  }

  lemma IsGroupParts(x: seq<string>, y: seq<string>, p: string -> bool)
    requires x != []
    ensures IsGroup(x + y, p) <==> IsGroup(x, p) && Free(y, p)
  {
    var g := x + y;
    if IsGroup(g, p) {
      assert forall k :: 0 <= k < |x| ==> x[k] == g[k];
      assert forall k :: 0 <= k < |y| ==> y[k] == g[|x| + k];
    }
  }

  /** Between a hit and the next one listed there is none. */
  lemma NoHitBetween(lines: seq<string>, p: string -> bool, i: nat)
    requires var h := Hits(lines, p, 0); i < |h|
    ensures var h := Hits(lines, p, 0); NoHit(lines, p, h[i] + 1, NextOf(h, i, |lines|))
  {
    var h := Hits(lines, p, 0);
    HitsAre(lines, p, 0);
    forall k | h[i] + 1 <= k < NextOf(h, i, |lines|)
      ensures !p(lines[k])
    {
      if p(lines[k]) {
        HitsAll(lines, p, 0, k);
        hide Hits;
        var j :| 0 <= j < |h| && h[j] == k;
        NotBetween(h, i, j, |lines|);
      }
    }
  }

  /** The lines between one hit and the next are a group. */
  lemma SliceIsGroup(lines: seq<string>, p: string -> bool, at: nat, next: nat)
    requires at < next <= |lines| && p(lines[at]) && NoHit(lines, p, at + 1, next)
    ensures IsGroup(lines[at..next], p)
  {
    var g := lines[at..next];
    assert forall k :: 0 <= k < |g| ==> g[k] == lines[at + k];
  }

  lemma HitBounds(lines: seq<string>, p: string -> bool, i: nat)
    requires i < |Hits(lines, p, 0)|
    ensures var h := Hits(lines, p, 0);
      && h[i] < NextOf(h, i, |lines|) <= |lines| && p(lines[h[i]])
      && (NextOf(h, i, |lines|) < |lines| ==> p(lines[NextOf(h, i, |lines|)]))
  {
    HitsAre(lines, p, 0);
    hide Hits;
  }

  /** As many hits come before the i-th as its number says. */
  lemma HitsBefore(lines: seq<string>, p: string -> bool, i: nat)
    requires i < |Hits(lines, p, 0)| && Hits(lines, p, 0)[i] < |lines|
    ensures |Hits(lines[..Hits(lines, p, 0)[i]], p, 0)| == i
  {
    var h := Hits(lines, p, 0);
    var at := h[i];
    HitsAre(lines, p, 0);
    assert lines == lines[..at] + lines[at..];
    HitsAppend(lines[..at], lines[at..], p, 0);
    HitsCons(lines[at..], p, at);
    assert Head(lines[at..], p, at) == [at];
    hide Hits;
    var n := |Hits(lines[..at], p, 0)|;
    assert h[n] == at;
  }

  lemma GroupCount(lines: seq<string>, p: string -> bool)
    ensures |Groups(lines, p).1| == |Hits(lines, p, 0)|
  {
    GroupsAreParts(lines, p, 0);
  }

  lemma GroupInside(a: seq<string>, g: seq<string>, c: seq<string>, p: string -> bool)
    requires IsGroup(g, p) && (c == [] || p(c[0]))
    ensures |Groups(a, p).1| < |Groups(a + g + c, p).1| && Groups(a + g + c, p).1[|Groups(a, p).1|] == g
  {
    GroupsAround(a, g, c, p);
    hide Groups;
  }

  /** The i-th group with the lines before and after it. */
  lemma GroupAt(lines: seq<string>, p: string -> bool, i: nat) returns (a: seq<string>, g: seq<string>, c: seq<string>)
    requires i < |Hits(lines, p, 0)|
    ensures var h := Hits(lines, p, 0);
      && h[i] < NextOf(h, i, |lines|) <= |lines|
      && a == lines[..h[i]] && g == lines[h[i]..NextOf(h, i, |lines|)] && c == lines[NextOf(h, i, |lines|)..]
    ensures lines == a + g + c && IsGroup(g, p) && (c == [] || p(c[0]))
    ensures |Groups(a, p).1| == i < |Groups(lines, p).1| && Groups(lines, p).1[i] == g
  {
    var h := Hits(lines, p, 0);
    HitBounds(lines, p, i);
    NoHitBetween(lines, p, i);
    HitsBefore(lines, p, i);
    hide *;
    var at, next := h[i], NextOf(h, i, |lines|);
    a, g, c := lines[..at], lines[at..next], lines[next..];
    SliceIsGroup(lines, p, at, next);
    assert next < |lines| ==> c[0] == lines[next];
    assert lines == a + g + c;
    GroupCount(a, p);
    GroupInside(a, g, c, p);
  }

  /** Where a group between others begins and ends among the hits. */
  lemma HitsAround(a: seq<string>, g: seq<string>, c: seq<string>, p: string -> bool, off: nat)
    requires IsGroup(g, p) && (c == [] || p(c[0]))
    ensures var h, i := Hits(a + g + c, p, off), |Hits(a, p, off)|;
      i < |h| && h[i] == off + |a| && NextOf(h, i, off + |a + g + c|) == off + |a| + |g|
  {
    HitsAppend(a + g, c, p, off);
    HitsAppend(a, g, p, off);
    HitsOne(g, p, off + |a|);
    if c != [] { HitsCons(c, p, off + |a| + |g|); }
    hide Hits;
  }

  /** As many hits as groups, whatever the numbering. */
  lemma {:induction false} HitsCount(seg: seq<string>, p: string -> bool, off: nat)
    ensures |Hits(seg, p, off)| == |Groups(seg, p).1|
  {
    GroupsAreParts(seg, p, off);
  }

  lemma HitsOne(g: seq<string>, p: string -> bool, off: nat)
    requires IsGroup(g, p)
    ensures Hits(g, p, off) == [off]
  {
    assert forall k :: 0 <= k < |g| - 1 ==> g[1..][k] == g[k + 1];
    HitsNone(g[1..], p, off + 1);
  }

  lemma {:induction false} HitsNone(seg: seq<string>, p: string -> bool, off: nat)
    requires Free(seg, p)
    ensures Hits(seg, p, off) == []
  {
    if seg != [] {
      assert forall k :: 0 <= k < |seg| - 1 ==> seg[1..][k] == seg[k + 1];
      HitsNone(seg[1..], p, off + 1);
    }
  }

  /** Putting another group in the place of one changes that group and nothing else. */
  lemma GroupReplaced(a: seq<string>, g: seq<string>, c: seq<string>, p: string -> bool, g': seq<string>)
    requires IsGroup(g, p) && IsGroup(g', p) && (c == [] || p(c[0]))
    ensures |Groups(a, p).1| < |Groups(a + g + c, p).1|
    ensures Groups(a + g' + c, p) == (Groups(a + g + c, p).0, Groups(a + g + c, p).1[|Groups(a, p).1| := g'])
  {
    GroupsAround(a, g, c, p);
    GroupsAround(a, g', c, p);
    GroupsAppend(a, g + c, p);
    GroupsAppend(a, g' + c, p);
    hide Groups;
    assert a + g + c == a + (g + c) && a + g' + c == a + (g' + c);
    assert Groups(a, p).1 + [g'] + Groups(c, p).1 == (Groups(a, p).1 + [g] + Groups(c, p).1)[|Groups(a, p).1| := g'];
  }
}
