/** A predicate on code points as a table of maximal ranges, and the search of
    the table. */
module Ranges {

  const CODE_POINTS := 0x11_0000

  /** The first and the last code point. */
  datatype Range = Range(lo: nat, hi: nat)

  predicate In(r: Range, cp: int) {
    r.lo <= cp <= r.hi
  }

  ghost predicate Covers(rs: seq<Range>, cp: int) {
    exists i :: 0 <= i < |rs| && In(rs[i], cp)
  }

  /** Ascending, with at least one code point between neighbours. */
  ghost predicate Separated(rs: seq<Range>) {
    && (forall i :: 0 <= i < |rs| ==> rs[i].lo <= rs[i].hi)
    && (forall i, j :: 0 <= i < j < |rs| ==> rs[i].hi + 1 < rs[j].lo)
  }

  /** The table of `p` below `n`. */
  ghost predicate IsTable(rs: seq<Range>, p: int -> bool, n: nat) {
    && Separated(rs)
    && (forall i :: 0 <= i < |rs| ==> rs[i].hi < n)
    && (forall cp: int :: 0 <= cp < n ==> (Covers(rs, cp) <==> p(cp)))
  }

  /** No range of a table could be longer. */
  lemma Maximal(rs: seq<Range>, p: int -> bool, n: nat, i: nat)
    requires IsTable(rs, p, n) && i < |rs|
    ensures forall cp: int :: In(rs[i], cp) ==> p(cp)
    ensures rs[i].lo > 0 ==> !p(rs[i].lo - 1)
    ensures rs[i].hi + 1 < n ==> !p(rs[i].hi + 1)
  {
    forall cp: int | In(rs[i], cp) ensures p(cp) {
      assert Covers(rs, cp);
    }
    Outside(rs, i, rs[i].lo - 1);
    Outside(rs, i, rs[i].hi + 1);
  }

  /** The code points next to a range are in none. */
  lemma Outside(rs: seq<Range>, i: nat, cp: int)
    requires Separated(rs) && i < |rs| && (cp == rs[i].lo - 1 || cp == rs[i].hi + 1)
    ensures !Covers(rs, cp)
  {
    forall j | 0 <= j < |rs| ensures !In(rs[j], cp) {
      if j < i {
        assert rs[j].hi + 1 < rs[i].lo;
      } else if i < j {
        assert rs[i].hi + 1 < rs[j].lo;
      }
    }
  }

  lemma TableGrows(rs: seq<Range>, r: Range, p: int -> bool, n: nat, m: nat)
    requires IsTable(rs, p, n) && r.lo <= r.hi < m && n <= r.lo && (n < r.lo || |rs| == 0 || rs[|rs| - 1].hi + 1 < r.lo)
    requires forall cp: int :: n <= cp < m ==> (In(r, cp) <==> p(cp))
    ensures IsTable(rs + [r], p, m)
  {
    var all := rs + [r];
    forall cp: int | 0 <= cp < m ensures Covers(all, cp) <==> p(cp) {
      if cp < n {
        if Covers(rs, cp) {
          var i :| 0 <= i < |rs| && In(rs[i], cp);
          assert In(all[i], cp);
        }
        if Covers(all, cp) {
          var i :| 0 <= i < |all| && In(all[i], cp);
          assert i < |rs|;
        }
      } else {
        assert all[|rs|] == r;
        if Covers(all, cp) {
          var i :| 0 <= i < |all| && In(all[i], cp);
          assert i == |rs|;
        }
      }
    }
  }

  /** `ranges_of`. */
  method RangesOf(p: int -> bool) returns (out: seq<Range>)
    ensures IsTable(out, p, CODE_POINTS)
  {
    out := [];
    var start, prev := -1, -1;
    var cp := 0;
    ghost var done := 0;
    while cp < CODE_POINTS
      invariant 0 <= cp <= CODE_POINTS && 0 <= done <= cp
      invariant start == -1 ==> done == cp
      invariant start != -1 ==> done <= start <= prev == cp - 1
      invariant IsTable(out, p, done)
      invariant forall k: int :: done <= k < cp ==> (start <= k <= prev <==> p(k))
      invariant start != -1 && done == start ==> |out| == 0 || out[|out| - 1].hi + 1 < start
      invariant start == -1 && |out| > 0 ==> out[|out| - 1].hi + 1 < cp
    {
      if p(cp) {
        if start == -1 {
          start, prev := cp, cp;
        } else if cp == prev + 1 {
          prev := cp;
        } else {
          assert false;
        }
      } else if start != -1 {
        TableGrows(out, Range(start, prev), p, done, cp + 1);
        out := out + [Range(start, prev)];
        start, prev, done := -1, -1, cp + 1;
      } else {
        TableStays(out, p, cp);
        done := cp + 1;
      }
      cp := cp + 1;
    }
    if start != -1 {
      TableGrows(out, Range(start, prev), p, done, CODE_POINTS);
      out := out + [Range(start, prev)];
    }
  }

  lemma TableStays(rs: seq<Range>, p: int -> bool, n: nat)
    requires IsTable(rs, p, n) && !p(n)
    ensures IsTable(rs, p, n + 1)
  {
  }

  /** A predicate has one table. */
  lemma {:induction false} TableUnique(a: seq<Range>, b: seq<Range>, p: int -> bool, n: nat)
    requires IsTable(a, p, n) && IsTable(b, p, n)
    ensures a == b
  {
    if |a| <= |b| {
      TablePrefix(a, b, p, n, |a|);
      TablePrefixAll(a, b, p, n);
    } else {
      TablePrefix(b, a, p, n, |b|);
      TablePrefixAll(b, a, p, n);
    }
  }

  lemma {:induction false} TablePrefix(a: seq<Range>, b: seq<Range>, p: int -> bool, n: nat, k: nat)
    requires IsTable(a, p, n) && IsTable(b, p, n) && k <= |a| <= |b|
    ensures forall i :: 0 <= i < k ==> a[i] == b[i]
  {
    if k > 0 {
      TablePrefix(a, b, p, n, k - 1);
      StartsWithin(a, b, p, n, k - 1);
      StartsWithin(b, a, p, n, k - 1);
      EndsWithin(a, b, p, n, k - 1);
      EndsWithin(b, a, p, n, k - 1);
    }
  }

  /** Where the first `k` ranges agree, the next of `a` starts no earlier than
      that of `b`. */
  lemma StartsWithin(a: seq<Range>, b: seq<Range>, p: int -> bool, n: nat, k: nat)
    requires IsTable(a, p, n) && IsTable(b, p, n) && k < |a| && k < |b|
    requires forall i :: 0 <= i < k ==> a[i] == b[i]
    ensures b[k].lo <= a[k].lo
  {
    assert In(a[k], a[k].lo);
    assert Covers(a, a[k].lo) && Covers(b, a[k].lo);
    forall j | 0 <= j < k ensures !In(b[j], a[k].lo) {
      assert a[j].hi + 1 < a[k].lo;
    }
    var j :| 0 <= j < |b| && In(b[j], a[k].lo);
    if j > k {
      assert b[k].hi + 1 < b[j].lo;
    }
  }

  lemma EndsWithin(a: seq<Range>, b: seq<Range>, p: int -> bool, n: nat, k: nat)
    requires IsTable(a, p, n) && IsTable(b, p, n) && k < |a| && k < |b| && a[k].lo == b[k].lo
    ensures a[k].hi <= b[k].hi
  {
    if a[k].hi > b[k].hi {
      assert In(a[k], b[k].hi + 1);
      assert Covers(a, b[k].hi + 1);
      Outside(b, k, b[k].hi + 1);
    }
  }

  lemma TablePrefixAll(a: seq<Range>, b: seq<Range>, p: int -> bool, n: nat)
    requires IsTable(a, p, n) && IsTable(b, p, n) && |a| <= |b| && forall i :: 0 <= i < |a| ==> a[i] == b[i]
    ensures a == b
  {
    if |a| < |b| {
      OnlyInLonger(a, b);
    }
  }

  lemma OnlyInLonger(a: seq<Range>, b: seq<Range>)
    requires Separated(b) && |a| < |b| && forall i :: 0 <= i < |a| ==> a[i] == b[i]
    ensures Covers(b, b[|a|].lo) && !Covers(a, b[|a|].lo)
  {
    var cp := b[|a|].lo;
    forall j | 0 <= j < |a| ensures !In(a[j], cp) {
      assert b[j].hi + 1 < b[|a|].lo;
    }
    assert In(b[|a|], cp);
  }

  /** The binary search: a range below the code point sends it right, one
      above it left. */
  function Search(rs: seq<Range>, cp: nat, first: int, end: int): (found: bool)
    requires Separated(rs) && 0 <= first <= end <= |rs|
    ensures found <==> (exists i :: first <= i < end && In(rs[i], cp))
    decreases end - first
  {
    if first == end then false
    else
      var mid := (first + end) / 2;
      if rs[mid].hi < cp then
        assert forall i :: first <= i < mid ==> rs[i].hi + 1 < rs[mid].lo;
        Search(rs, cp, mid + 1, end)
      else if rs[mid].lo > cp then
        assert forall i :: mid < i < end ==> rs[mid].hi + 1 < rs[i].lo;
        Search(rs, cp, first, mid)
      else
        assert In(rs[mid], cp);
        true
  }

  function Contains(rs: seq<Range>, cp: nat): bool
    requires Separated(rs)
  {
    Search(rs, cp, 0, |rs|)
  }

  /** Searching the generated table decides the predicate. */
  lemma ContainsDecides(rs: seq<Range>, p: int -> bool, cp: nat)
    requires IsTable(rs, p, CODE_POINTS) && cp < CODE_POINTS
    ensures Contains(rs, cp) <==> p(cp)
  {
    assert Contains(rs, cp) <==> Covers(rs, cp);
  }
}
