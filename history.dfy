/** The history view: the sorted copy of the warnings, the shortened detail
    text shown for each, and the two filters applied to the rendered
    entries. */
module History {
  import opened Text
  import opened Records

  /** Newest first: createdAt never increases along the sequence. */
  ghost predicate NewestFirst(s: seq<Warning>) {
    forall i, j :: 0 <= i < j < |s| ==> s[i].createdAt >= s[j].createdAt
  }

  /** Places w before the first entry that is not newer than it. */
  function Insert(w: Warning, s: seq<Warning>): (r: seq<Warning>)
    ensures multiset(r) == multiset(s) + multiset{w}
    ensures |r| == |s| + 1
  {
    if |s| == 0 || s[0].createdAt <= w.createdAt then [w] + s
    else
      assert s == [s[0]] + s[1..];
      [s[0]] + Insert(w, s[1..])
  }

  /** The copy that loadHistory sorts with the comparator
      createdAt(b) - createdAt(a). Array.prototype.sort is stable, and so is
      this insertion sort. */
  function SortByNewest(ws: seq<Warning>): (r: seq<Warning>)
    ensures multiset(r) == multiset(ws)
    ensures |r| == |ws|
  {
    if |ws| == 0 then []
    else
      assert ws == [ws[0]] + ws[1..];
      Insert(ws[0], SortByNewest(ws[1..]))
  }

  lemma {:induction false} InsertKeepsOrder(w: Warning, s: seq<Warning>)
    requires NewestFirst(s)
    ensures NewestFirst(Insert(w, s))
  {
    if |s| > 0 && s[0].createdAt > w.createdAt {
      InsertKeepsOrder(w, s[1..]);
      var r := Insert(w, s);
      assert r[1..] == Insert(w, s[1..]);
      forall j | 1 <= j < |r| ensures r[0].createdAt >= r[j].createdAt {
        assert r[j] in multiset(Insert(w, s[1..]));
        assert r[j] in multiset(s[1..]) + multiset{w};
        if r[j] in multiset(s[1..]) {
          var k :| 0 <= k < |s[1..]| && s[1..][k] == r[j];
          assert s[k + 1] == r[j];
        }
      }
    }
  }

  /** The sorted history is newest first. */
  lemma {:induction false} SortByNewestOrdered(ws: seq<Warning>)
    ensures NewestFirst(SortByNewest(ws))
  {
    if |ws| > 0 {
      SortByNewestOrdered(ws[1..]);
      InsertKeepsOrder(ws[0], SortByNewest(ws[1..]));
    }
  }

  /** The entries stamped with time t, in order. */
  function StampedAt(s: seq<Warning>, t: int): seq<Warning> {
    Filter(s, SameStamp(t))
  }

  function SameStamp(t: int): Warning -> bool {
    (w: Warning) => w.createdAt == t
  }

  lemma {:induction false} InsertStable(w: Warning, s: seq<Warning>, t: int)
    requires NewestFirst(s)
    ensures StampedAt(Insert(w, s), t) == (if w.createdAt == t then [w] else []) + StampedAt(s, t)
  {
    var keep := SameStamp(t);
    if |s| > 0 && s[0].createdAt > w.createdAt {
      var rest := s[1..];
      assert NewestFirst(rest);
      assert Insert(w, s) == [s[0]] + Insert(w, rest);
      InsertStable(w, rest, t);
      FilterCons(s[0], Insert(w, rest), keep);
      assert [s[0]] + rest == s;
      FilterCons(s[0], rest, keep);
    } else {
      FilterCons(w, s, keep);
    }
  }

  /** The sort is stable: entries with the same timestamp keep the order they
      have in the stored list. */
  lemma {:induction false} SortByNewestStable(ws: seq<Warning>, t: int)
    ensures StampedAt(SortByNewest(ws), t) == StampedAt(ws, t)
  {
    if |ws| > 0 {
      SortByNewestStable(ws[1..], t);
      SortByNewestOrdered(ws[1..]);
      InsertStable(ws[0], SortByNewest(ws[1..]), t);
    }
  }

  const PreviewLength: nat := 150

  /** The detail text of a history entry: the first 150 characters, followed
      by "..." when the text is longer. */
  function DetailsPreview(details: string): (r: string)
    ensures |details| <= PreviewLength ==> r == details
    ensures |details| > PreviewLength ==> r == details[..PreviewLength] + "..."
  {
    Clamp(details, PreviewLength) + (if |details| > PreviewLength then "..." else "")
  }

  /** One entry of the history list. */
  datatype HistoryItem = HistoryItem(warning: Warning, preview: string)

  /** loadHistory's entries: the sorted warnings, each with its detail
      preview. Reading warningDetails of a record without it throws in the
      source, so every record must carry it. */
  function HistoryView(ws: seq<Warning>): (items: seq<HistoryItem>)
    requires forall i :: 0 <= i < |ws| ==> WarningDetails in ws[i].fields
    ensures forall i :: 0 <= i < |items| ==> WarningDetails in items[i].warning.fields
  {
    var sorted := SortByNewest(ws);
    assert forall i :: 0 <= i < |sorted| ==> WarningDetails in sorted[i].fields by {
      forall i | 0 <= i < |sorted| ensures WarningDetails in sorted[i].fields {
        assert sorted[i] in multiset(ws);
      }
    }
    seq(|sorted|, i requires 0 <= i < |sorted| =>
      HistoryItem(sorted[i], DetailsPreview(sorted[i].fields[WarningDetails])))
  }

  /** The history lists each stored warning once, newest first, with the
      ties in stored order, and shows each one's clamped details. */
  lemma HistoryViewSpec(ws: seq<Warning>)
    requires forall i :: 0 <= i < |ws| ==> WarningDetails in ws[i].fields
    ensures var items := HistoryView(ws);
            && |items| == |ws|
            && multiset(seq(|items|, i requires 0 <= i < |items| => items[i].warning)) == multiset(ws)
            && (forall i, j :: 0 <= i < j < |items| ==> items[i].warning.createdAt >= items[j].warning.createdAt)
            && (forall i :: 0 <= i < |items| ==> items[i].preview == DetailsPreview(items[i].warning.fields[WarningDetails]))
  {
    var items := HistoryView(ws);
    assert seq(|items|, i requires 0 <= i < |items| => items[i].warning) == SortByNewest(ws);
    SortByNewestOrdered(ws);
  }

  /** filterHistory's test on one entry's rendered text: a case-insensitive
      includes. */
  function SearchVisible(text: string, term: string): bool {
    Includes(ToLower(text), ToLower(term))
  }

  /** filterHistoryByType's test on one entry's rendered text: everything is
      shown for an empty type, otherwise an exact includes. */
  function TypeVisible(text: string, kind: string): bool {
    kind == "" || Includes(text, kind)
  }

  /** filterHistory: which entries stay shown. */
  function FilterHistory(texts: seq<string>, term: string): (shown: seq<bool>)
    ensures |shown| == |texts|
  {
    seq(|texts|, i requires 0 <= i < |texts| => SearchVisible(texts[i], term))
  }

  /** filterHistoryByType: which entries stay shown. */
  function FilterHistoryByType(texts: seq<string>, kind: string): (shown: seq<bool>)
    ensures |shown| == |texts|
  {
    seq(|texts|, i requires 0 <= i < |texts| => TypeVisible(texts[i], kind))
  }

  /** An entry is shown by the search exactly when the lower-cased term
      occurs in its lower-cased text; the empty term shows every entry. */
  lemma SearchVisibleIff(text: string, term: string)
    ensures SearchVisible(text, term) <==> exists i :: OccursAt(ToLower(text), ToLower(term), i)
    ensures term == "" ==> SearchVisible(text, term)
  {
    IncludesIff(ToLower(text), ToLower(term));
    if term == "" {
      assert OccursAt(ToLower(text), ToLower(term), 0);
    }
  }

  /** The search ignores ASCII case: a literal occurrence is found, and
      lower-casing the term or the text changes nothing. */
  lemma SearchCaseInsensitive(text: string, term: string)
    ensures Includes(text, term) ==> SearchVisible(text, term)
    ensures SearchVisible(text, ToLower(term)) == SearchVisible(text, term)
    ensures SearchVisible(ToLower(text), term) == SearchVisible(text, term)
  {
    ToLowerIdempotent(term);
    ToLowerIdempotent(text);
    if Includes(text, term) {
      IncludesIff(text, term);
      var i :| OccursAt(text, term, i);
      ToLowerSlice(text, i, i + |term|);
      assert OccursAt(ToLower(text), ToLower(term), i);
      IncludesIff(ToLower(text), ToLower(term));
    }
  }

  /** The type filter shows everything for the empty type and otherwise
      exactly the entries in whose text the type occurs verbatim. */
  lemma TypeVisibleIff(text: string, kind: string)
    ensures kind == "" ==> TypeVisible(text, kind)
    ensures kind != "" ==> (TypeVisible(text, kind) <==> exists i :: OccursAt(text, kind, i))
  {
    IncludesIff(text, kind);
  }

  /** filterHistory over the whole list: entry i stays shown exactly when
      the lower-cased term occurs in its lower-cased text, so an empty
      search shows every entry. */
  lemma FilterHistoryShows(texts: seq<string>, term: string)
    ensures var shown := FilterHistory(texts, term);
            forall i :: 0 <= i < |texts| ==>
              (shown[i] <==> exists k :: OccursAt(ToLower(texts[i]), ToLower(term), k))
    ensures term == "" ==> forall i :: 0 <= i < |texts| ==> FilterHistory(texts, term)[i]
  {
    forall i | 0 <= i < |texts|
      ensures FilterHistory(texts, term)[i] <==> exists k :: OccursAt(ToLower(texts[i]), ToLower(term), k)
      ensures term == "" ==> FilterHistory(texts, term)[i]
    {
      SearchVisibleIff(texts[i], term);
    }
  }

  /** filterHistoryByType over the whole list: the empty type shows every
      entry, any other type exactly the entries whose text contains it. */
  lemma FilterHistoryByTypeShows(texts: seq<string>, kind: string)
    ensures kind == "" ==> forall i :: 0 <= i < |texts| ==> FilterHistoryByType(texts, kind)[i]
    ensures kind != "" ==> forall i :: 0 <= i < |texts| ==>
              (FilterHistoryByType(texts, kind)[i] <==> exists k :: OccursAt(texts[i], kind, k))
  {
    forall i | 0 <= i < |texts|
      ensures kind != "" ==> (FilterHistoryByType(texts, kind)[i] <==> exists k :: OccursAt(texts[i], kind, k))
    {
      TypeVisibleIff(texts[i], kind);
    }
  }
}
