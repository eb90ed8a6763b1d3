/** The indicators the dashboard shows over the case history (`kpis` in
    bono-pad/src/store/cases.js). Timestamps are milliseconds; 0 stands for a missing one,
    which JavaScript treats as false. */
module Cases {
  import opened Evaluate

  /** One evaluated case, as the intake form records it. */
  datatype CaseRecord = CaseRecord(
    id: string,
    tsInicio: int,
    tsCierre: int,
    cirugia: string,
    admin: AdminData,
    clinico: ClinicalData,
    resultado: Decision)

  datatype Kpis = Kpis(
    total: nat,
    pctAuto: int,
    pctCumple: int,
    pctNoCumple: int,
    pctRevision: int,
    medianaValidacionMs: int)

  // ---------------------------------------------------------------------------------------
  // Counting
  // ---------------------------------------------------------------------------------------

  /** `s.filter(p).length`. */
  function Count<T>(s: seq<T>, p: T -> bool): (n: nat)
    ensures n <= |s|
  {
    if s == [] then 0 else Count(s[..|s| - 1], p) + (if p(s[|s| - 1]) then 1 else 0)
  }

  lemma {:induction false} CountAppend<T>(a: seq<T>, b: seq<T>, p: T -> bool)
    ensures Count(a + b, p) == Count(a, p) + Count(b, p)
    decreases |b|
  {
    if b == [] {
      assert a + b == a;
    } else {
      var b' := b[..|b| - 1];
      assert (a + b)[..|a + b| - 1] == a + b';
      CountAppend(a, b', p);
    }
  }

  /** Counting does not depend on the order of the elements. */
  lemma {:induction false} CountPermutation<T>(a: seq<T>, b: seq<T>, p: T -> bool)
    requires multiset(a) == multiset(b)
    ensures Count(a, p) == Count(b, p)
    decreases |a|
  {
    if a != [] {
      var x := a[|a| - 1];
      var a' := a[..|a| - 1];
      assert a == a' + [x];
      assert x in multiset(b);
      var j :| 0 <= j < |b| && b[j] == x;
      var b' := b[..j] + b[j + 1..];
      assert b == b[..j] + [x] + b[j + 1..];
      assert multiset(b') == multiset(b) - multiset{x};
      CountPermutation(a', b', p);
      CountAppend(b[..j], [x], p);
      CountAppend(b[..j] + [x], b[j + 1..], p);
      CountAppend(b[..j], b[j + 1..], p);
    }
  }

  /** Two tests that agree on every element count the same elements. */
  lemma {:induction false} CountAgreeing<T>(s: seq<T>, p: T -> bool, q: T -> bool)
    requires forall i :: 0 <= i < |s| ==> (p(s[i]) <==> q(s[i]))
    ensures Count(s, p) == Count(s, q)
  {
    if s != [] {
      CountAgreeing(s[..|s| - 1], p, q);
    }
  }

  /** A test no element passes counts nothing; one every element passes counts all. */
  lemma {:induction false} CountExtremes<T>(s: seq<T>, p: T -> bool)
    ensures (forall i :: 0 <= i < |s| ==> !p(s[i])) ==> Count(s, p) == 0
    ensures (forall i :: 0 <= i < |s| ==> p(s[i])) ==> Count(s, p) == |s|
  {
    if s != [] {
      CountExtremes(s[..|s| - 1], p);
    }
  }

  /** `Math.round((x / n) * 100)` when there are n cases, 0 when there are none: the
      nearest integer to 100x/n, halves rounded up. */
  function Pct(x: nat, n: nat): (r: int)
    ensures n == 0 ==> r == 0
    ensures n > 0 ==> 2 * n * r - n <= 200 * x < 2 * n * r + n
    ensures x <= n ==> 0 <= r <= 100
  {
    if n == 0 then 0
    else
      var r := (200 * x + n) / (2 * n);
      RoundingBounds(200 * x + n, 2 * n, r, x <= n);
      r
  }

  lemma RoundingBounds(a: nat, d: nat, r: int, small: bool)
    requires d > 0 && r == a / d
    requires small ==> 2 * a <= 201 * d
    ensures d * r <= a < d * r + d
    ensures 0 <= r
    ensures small ==> r <= 100
  {
    assert a == d * r + a % d;
    if small {
      assert 2 * d * r <= 201 * d;
    }
  }

  // ---------------------------------------------------------------------------------------
  // Validation times
  // ---------------------------------------------------------------------------------------

  predicate HasTimes(c: CaseRecord) {
    c.tsCierre != 0 && c.tsInicio != 0
  }

  /** `tsCierre - tsInicio` of every case with both timestamps, in history order. */
  function Durations(cs: seq<CaseRecord>): (ts: seq<int>)
    ensures |ts| == Count(cs, HasTimes)
  {
    if cs == [] then []
    else
      var c := cs[|cs| - 1];
      Durations(cs[..|cs| - 1]) + (if HasTimes(c) then [c.tsCierre - c.tsInicio] else [])
  }

  lemma {:induction false} DurationsAppend(a: seq<CaseRecord>, b: seq<CaseRecord>)
    ensures Durations(a + b) == Durations(a) + Durations(b)
    decreases |b|
  {
    if b == [] {
      assert a + b == a;
    } else {
      var b' := b[..|b| - 1];
      assert (a + b)[..|a + b| - 1] == a + b';
      DurationsAppend(a, b');
    }
  }

  lemma {:induction false} DurationsPermutation(a: seq<CaseRecord>, b: seq<CaseRecord>)
    requires multiset(a) == multiset(b)
    ensures multiset(Durations(a)) == multiset(Durations(b))
    decreases |a|
  {
    if a != [] {
      var x := a[|a| - 1];
      var a' := a[..|a| - 1];
      assert a == a' + [x];
      assert x in multiset(b);
      var j :| 0 <= j < |b| && b[j] == x;
      var b' := b[..j] + b[j + 1..];
      assert b == b[..j] + [x] + b[j + 1..];
      assert multiset(b') == multiset(b) - multiset{x};
      DurationsPermutation(a', b');
      DurationsAppend(a', [x]);
      DurationsAppend(b[..j], [x]);
      DurationsAppend(b[..j] + [x], b[j + 1..]);
      DurationsAppend(b[..j], b[j + 1..]);
    }
  }

  predicate Sorted(s: seq<int>) {
    forall i, j :: 0 <= i < j < |s| ==> s[i] <= s[j]
  }

  /** Places x into the ascending sequence s. */
  function Insert(x: int, s: seq<int>): (r: seq<int>)
    requires Sorted(s)
    ensures Sorted(r)
    ensures multiset(r) == multiset(s) + multiset{x}
    ensures |r| == |s| + 1
    ensures r[0] == (if s == [] || x <= s[0] then x else s[0])
  {
    if s == [] || x <= s[0] then [x] + s
    else
      var t := Insert(x, s[1..]);
      assert s == [s[0]] + s[1..];
      [s[0]] + t
  }

  /** `tiempos.sort((a, b) => a - b)`: the durations in ascending order. */
  function SortAsc(s: seq<int>): (r: seq<int>)
    ensures Sorted(r)
    ensures multiset(r) == multiset(s)
    ensures |r| == |s|
  {
    if s == [] then []
    else
      assert s == [s[0]] + s[1..];
      Insert(s[0], SortAsc(s[1..]))
  }

  lemma SortedHeadIsLeast(a: seq<int>, x: int)
    requires Sorted(a) && x in multiset(a)
    ensures a[0] <= x
  {
    var i :| 0 <= i < |a| && a[i] == x;
  }

  lemma SortedTail(a: seq<int>)
    requires Sorted(a) && a != []
    ensures Sorted(a[1..])
    ensures multiset(a[1..]) == multiset(a) - multiset{a[0]}
  {
    assert a == [a[0]] + a[1..];
  }

  /** Two ascending sequences with the same elements are equal. */
  lemma {:induction false} SortedUnique(a: seq<int>, b: seq<int>)
    requires Sorted(a) && Sorted(b) && multiset(a) == multiset(b)
    ensures a == b
    decreases |a|
  {
    assert |a| == |multiset(a)| == |b|;
    if a != [] {
      assert a[0] == b[0] by {
        assert a[0] in multiset(b) && b[0] in multiset(a);
        SortedHeadIsLeast(a, b[0]);
        SortedHeadIsLeast(b, a[0]);
      }
      assert Sorted(a[1..]) && Sorted(b[1..]) && multiset(a[1..]) == multiset(b[1..]) by {
        SortedTail(a);
        SortedTail(b);
      }
      SortedUnique(a[1..], b[1..]);
      assert a == [a[0]] + a[1..] && b == [b[0]] + b[1..];
    }
  }

  /** The element at position `floor(m / 2)` of the m ascending durations, or 0 when no
      case has both timestamps. */
  function Median(ts: seq<int>): (m: int)
    ensures ts == [] ==> m == 0
    ensures ts != [] ==> m in multiset(ts)
  {
    if ts == [] then 0 else SortAsc(ts)[|ts| / 2]
  }

  function Below(m: int): int -> bool {
    (x: int) => x < m
  }

  function AtMost(m: int): int -> bool {
    (x: int) => x <= m
  }

  /** The median is one of the durations; at most half of them lie below it, and more than
      half lie at or below it: the upper median. */
  lemma MedianIsUpperMedian(ts: seq<int>)
    requires ts != []
    ensures Median(ts) in ts
    ensures Count(ts, Below(Median(ts))) <= |ts| / 2
    ensures Count(ts, AtMost(Median(ts))) > |ts| / 2
  {
    var r := SortAsc(ts);
    var m := r[|ts| / 2];
    assert m in multiset(r);
    CountPermutation(ts, r, Below(m));
    CountPermutation(ts, r, AtMost(m));
    SortedBelow(r, |ts| / 2);
    SortedAtMost(r, |ts| / 2);
  }

  /** In an ascending sequence, fewer than k+1 elements lie below the k-th. */
  lemma SortedBelow(r: seq<int>, k: nat)
    requires Sorted(r) && k < |r|
    ensures Count(r, Below(r[k])) <= k
  {
    assert r == r[..k] + r[k..];
    CountAppend(r[..k], r[k..], Below(r[k]));
    CountExtremes(r[k..], Below(r[k]));
  }

  /** In an ascending sequence, at least k+1 elements lie at or below the k-th. */
  lemma SortedAtMost(r: seq<int>, k: nat)
    requires Sorted(r) && k < |r|
    ensures Count(r, AtMost(r[k])) >= k + 1
  {
    assert r == r[..k + 1] + r[k + 1..];
    CountAppend(r[..k + 1], r[k + 1..], AtMost(r[k]));
    CountExtremes(r[..k + 1], AtMost(r[k]));
  }

  lemma MedianPermutation(a: seq<int>, b: seq<int>)
    requires multiset(a) == multiset(b)
    ensures Median(a) == Median(b)
  {
    assert |a| == |multiset(a)| == |b|;
    SortedUnique(SortAsc(a), SortAsc(b));
  }

  // ---------------------------------------------------------------------------------------
  // The indicators
  // ---------------------------------------------------------------------------------------

  /** Decided without review: the reasons are the sentinel alone. */
  predicate IsAutomatic(c: CaseRecord) {
    |c.resultado.reasons| == 1 && c.resultado.reasons[0] == Sentinel
  }

  function HasStatus(s: Status): CaseRecord -> bool {
    (c: CaseRecord) => c.resultado.status == s
  }

  /** `kpis(cases)`. */
  function ComputeKpis(cs: seq<CaseRecord>): (k: Kpis)
    ensures k.total == |cs|
    ensures 0 <= k.pctAuto <= 100 && 0 <= k.pctCumple <= 100
    ensures 0 <= k.pctNoCumple <= 100 && 0 <= k.pctRevision <= 100
  {
    var n := |cs|;
    Kpis(
      n,
      Pct(Count(cs, IsAutomatic), n),
      Pct(Count(cs, HasStatus(Cumple)), n),
      Pct(Count(cs, HasStatus(NoCumple)), n),
      Pct(Count(cs, HasStatus(Revision)), n),
      Median(Durations(cs)))
  }

  /** No history: every indicator is 0. */
  lemma EmptyHistory()
    ensures ComputeKpis([]) == Kpis(0, 0, 0, 0, 0, 0)
  {
  }

  /** The indicators do not depend on the order of the history. */
  lemma KpisPermutationInvariant(a: seq<CaseRecord>, b: seq<CaseRecord>)
    requires multiset(a) == multiset(b)
    ensures ComputeKpis(a) == ComputeKpis(b)
  {
    assert |a| == |multiset(a)| == |b|;
    CountPermutation(a, b, IsAutomatic);
    CountPermutation(a, b, HasStatus(Cumple));
    CountPermutation(a, b, HasStatus(NoCumple));
    CountPermutation(a, b, HasStatus(Revision));
    DurationsPermutation(a, b);
    MedianPermutation(Durations(a), Durations(b));
  }

  /** When every recorded decision keeps CUMPLE and the sentinel reason together, as the
      evaluator's do, the share of automatic decisions is the share of CUMPLE. */
  lemma AutomaticIsCumple(cs: seq<CaseRecord>)
    requires forall i :: 0 <= i < |cs| ==>
      (cs[i].resultado.status == Cumple <==> cs[i].resultado.reasons == [Sentinel])
    ensures ComputeKpis(cs).pctAuto == ComputeKpis(cs).pctCumple
  {
    forall i | 0 <= i < |cs|
      ensures IsAutomatic(cs[i]) <==> HasStatus(Cumple)(cs[i])
    {
      var rs := cs[i].resultado.reasons;
      if |rs| == 1 && rs[0] == Sentinel {
        assert rs == [Sentinel];
      }
    }
    CountAgreeing(cs, IsAutomatic, HasStatus(Cumple));
  }

  /** Two automatic CUMPLE cases, one NO_CUMPLE and one REVISION: half automatic, a
      quarter rejected, a quarter under review. */
  lemma FourCaseHistory(a: CaseRecord, b: CaseRecord, c: CaseRecord, d: CaseRecord)
    requires a.resultado == Decision(Cumple, [Sentinel]) && b.resultado == Decision(Cumple, [Sentinel])
    requires c.resultado.status == NoCumple && c.resultado.reasons != [Sentinel]
    requires d.resultado.status == Revision && d.resultado.reasons != [Sentinel]
    ensures ComputeKpis([a, b, c, d]).total == 4
    ensures ComputeKpis([a, b, c, d]).pctAuto == 50
    ensures ComputeKpis([a, b, c, d]).pctCumple == 50
    ensures ComputeKpis([a, b, c, d]).pctNoCumple == 25
    ensures ComputeKpis([a, b, c, d]).pctRevision == 25
  {
    var cs := [a, b, c, d];
    assert cs[..3] == [a, b, c] && cs[..3][..2] == [a, b] && cs[..3][..2][..1] == [a];
    assert Count([a], IsAutomatic) == 1 && Count([a, b], IsAutomatic) == 2;
    assert Count([a, b, c], IsAutomatic) == 2 && Count(cs, IsAutomatic) == 2;
    var cumple := HasStatus(Cumple);
    assert Count([a], cumple) == 1 && Count([a, b], cumple) == 2;
    assert Count([a, b, c], cumple) == 2 && Count(cs, cumple) == 2;
    var noCumple := HasStatus(NoCumple);
    assert Count([a], noCumple) == 0 && Count([a, b], noCumple) == 0;
    assert Count([a, b, c], noCumple) == 1 && Count(cs, noCumple) == 1;
    var revision := HasStatus(Revision);
    assert Count([a], revision) == 0 && Count([a, b], revision) == 0;
    assert Count([a, b, c], revision) == 0 && Count(cs, revision) == 1;
  }
}
