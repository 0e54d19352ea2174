/** updateAnalytics' counting: how many warnings there are of each
    warningType and of each severity. */
module Analytics {
  import opened Records

  /** The property key a warning contributes: its value, or "undefined"
      when the record has no such property (JavaScript turns the undefined
      key into that string). */
  function KeyOf(w: Warning, f: Field): string {
    if f in w.fields then w.fields[f] else "undefined"
  }

  /** The keys that the forEach loop visits, one per warning, in order. */
  function KeysOf(ws: seq<Warning>, f: Field): (ks: seq<string>)
    ensures |ks| == |ws|
    ensures forall i :: 0 <= i < |ws| ==> ks[i] == KeyOf(ws[i], f)
  {
    seq(|ws|, i requires 0 <= i < |ws| => KeyOf(ws[i], f))
  }

  /** One step of the tally: counts[k] = (counts[k] || 0) + 1. */
  function Bump(counts: map<string, nat>, k: string): map<string, nat> {
    counts[k := (if k in counts then counts[k] else 0) + 1]
  }

  /** The dictionary the loop has built after visiting keys ks. */
  function Tally(ks: seq<string>): map<string, nat> {
    if |ks| == 0 then map[] else Bump(Tally(ks[..|ks| - 1]), ks[|ks| - 1])
  }

  /** Visiting one more warning bumps its key in the tally. */
  lemma TallyStep(ws: seq<Warning>, i: int, f: Field)
    requires 0 <= i < |ws|
    ensures Tally(KeysOf(ws[..i + 1], f)) == Bump(Tally(KeysOf(ws[..i], f)), KeyOf(ws[i], f))
  {
    var ks := KeysOf(ws[..i + 1], f);
    assert ks[..i] == KeysOf(ws[..i], f);
  }

  /** Each key of the tally is a visited key, each visited key is in it, and
      its count is the number of times it was visited. */
  lemma {:induction false} TallyCounts(ks: seq<string>)
    ensures forall k :: k in Tally(ks) <==> k in ks
    ensures forall k :: k in Tally(ks) ==> Tally(ks)[k] == multiset(ks)[k]
  {
    if |ks| > 0 {
      var init := ks[..|ks| - 1];
      TallyCounts(init);
      assert ks == init + [ks[|ks| - 1]];
    }
  }

  /** The sum of a dictionary's counts. */
  ghost function SumCounts(m: map<string, nat>): nat
    decreases |m|
  {
    if m == map[] then 0
    else
      var k :| k in m;
      m[k] + SumCounts(m - {k})
  }

  /** The sum may be taken with any key first. */
  lemma {:induction false} SumCountsRemove(m: map<string, nat>, k: string)
    requires k in m
    ensures SumCounts(m) == m[k] + SumCounts(m - {k})
    decreases |m|
  {
    var j :| j in m && SumCounts(m) == m[j] + SumCounts(m - {j});
    if j != k {
      SumCountsRemove(m - {j}, k);
      SumCountsRemove(m - {k}, j);
      assert m - {j} - {k} == m - {k} - {j};
    }
  }

  /** A bump adds one to the sum. */
  lemma SumCountsBump(m: map<string, nat>, k: string)
    ensures SumCounts(Bump(m, k)) == SumCounts(m) + 1
  {
    var b := Bump(m, k);
    SumCountsRemove(b, k);
    if k in m {
      SumCountsRemove(m, k);
      assert b - {k} == m - {k};
    } else {
      assert b - {k} == m;
    }
  }

  /** The counts of a tally add up to the number of keys visited. */
  lemma {:induction false} TallySum(ks: seq<string>)
    ensures SumCounts(Tally(ks)) == |ks|
  {
    if |ks| > 0 {
      TallySum(ks[..|ks| - 1]);
      SumCountsBump(Tally(ks[..|ks| - 1]), ks[|ks| - 1]);
    }
  }

  /** What updateAnalytics shows, stated per dictionary: byType[t] is the
      number of warnings whose warningType is t, only occurring types are
      keys, and the counts sum to the number of warnings. */
  lemma AnalyticsSpec(ws: seq<Warning>, f: Field)
    ensures var counts := Tally(KeysOf(ws, f));
            && (forall k :: k in counts <==> exists i :: 0 <= i < |ws| && KeyOf(ws[i], f) == k)
            && (forall k :: k in counts ==> counts[k] == multiset(KeysOf(ws, f))[k])
            && SumCounts(counts) == |ws|
  {
    var ks := KeysOf(ws, f);
    TallyCounts(ks);
    TallySum(ks);
    forall k | k in ks ensures exists i :: 0 <= i < |ws| && KeyOf(ws[i], f) == k {
      var i :| 0 <= i < |ks| && ks[i] == k;
    }
  }
}
