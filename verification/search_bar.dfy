/** The search box of the home page (src/components/SearchBar.tsx): every drawing of
    the index is scored against the lower-cased query, the matching ones are ranked
    by score and the best ten suggested; picked drawing numbers go into a
    most-recently-used history of ten entries. Local storage and the callbacks to
    the page are left out: the history is part of the state, and what the page is
    told is returned. */
module SearchBar {
  import opened Strings
  import opened Seqs
  import opened Catalog

  const MaxResults: nat := 10
  const MaxHistory: nat := 10

  // ---------------------------------------------------------------------------
  // Scoring
  // ---------------------------------------------------------------------------

  function KeywordHit(q: string): string -> bool {
    (k: string) => Contains(Lower(k), q)
  }

  /** `calculateMatchScore` against the lower-cased query `q`: 100 for the exact
      drawing number or else 50 when the number contains the query, 30 for the
      title, 20 for each keyword, 10 each for the company and the product name. */
  function MatchScore(d: DrawingItem, q: string): (score: nat)
    ensures Lower(d.drawingNumber) == q ==> score >= 100
  {
    var number := Lower(d.drawingNumber);
    var keywordHits := CountIf(KeywordHit(q), d.keywords);
    (if number == q then 100 else if Contains(number, q) then 50 else 0)
    + (if Contains(Lower(d.title), q) then 30 else 0)
    + 20 * keywordHits
    + (if Contains(Lower(d.companyName), q) then 10 else 0)
    + (if Contains(Lower(d.productName), q) then 10 else 0)
  }

  /** Some searched field of the drawing contains the query, ignoring case. */
  predicate MatchesSomeField(d: DrawingItem, q: string) {
    Contains(Lower(d.drawingNumber), q) || Contains(Lower(d.title), q)
    || (exists i :: 0 <= i < |d.keywords| && Contains(Lower(d.keywords[i]), q))
    || Contains(Lower(d.companyName), q) || Contains(Lower(d.productName), q)
  }

  /** A drawing scores at all exactly when some field contains the query. */
  lemma ScorePositiveIff(d: DrawingItem, q: string)
    ensures MatchScore(d, q) > 0 <==> MatchesSomeField(d, q)
  {
    CountIfPositive(KeywordHit(q), d.keywords);
    if Lower(d.drawingNumber) == q {
      ContainsSelf(q);
    }
  }

  /** Of two drawings that differ only in their number, the one whose number is the
      query outranks the one whose number merely contains it, by 50 points. */
  lemma ExactNumberOutranks(d: DrawingItem, e: DrawingItem, q: string)
    requires d.(drawingNumber := e.drawingNumber) == e
    requires Lower(d.drawingNumber) == q && Lower(e.drawingNumber) != q && Contains(Lower(e.drawingNumber), q)
    ensures MatchScore(d, q) == MatchScore(e, q) + 50
  {
  }

  // ---------------------------------------------------------------------------
  // Ranking
  // ---------------------------------------------------------------------------

  /** A drawing with the score it was given (`{ ...drawing, matchScore }`). */
  datatype Scored = Scored(item: DrawingItem, score: nat)

  predicate SortedByScore(s: seq<Scored>) {
    forall i, j :: 0 <= i < j < |s| ==> s[i].score >= s[j].score
  }

  /** Places `x` after every entry scoring at least as much, so that equal scores
      keep their order as `Array.prototype.sort` does. */
  function InsertByScore(s: seq<Scored>, x: Scored): (r: seq<Scored>)
    ensures multiset(r) == multiset(s) + multiset{x}
    ensures |r| == |s| + 1
    decreases |s|
  {
    if |s| == 0 then [x]
    else if s[0].score < x.score then [x] + s
    else
      assert s == [s[0]] + s[1..];
      [s[0]] + InsertByScore(s[1..], x)
  }

  lemma {:induction false} InsertKeepsSorted(s: seq<Scored>, x: Scored)
    requires SortedByScore(s)
    ensures SortedByScore(InsertByScore(s, x))
    decreases |s|
  {
    if |s| > 0 && s[0].score >= x.score {
      var rest := InsertByScore(s[1..], x);
      InsertKeepsSorted(s[1..], x);
      forall k | 0 <= k < |rest| ensures s[0].score >= rest[k].score {
        assert rest[k] in multiset(rest);
        if rest[k] != x {
          assert rest[k] in multiset(s[1..]);
          var m :| 0 <= m < |s[1..]| && s[1..][m] == rest[k];
          assert s[m + 1] == rest[k];
        }
      }
    }
  }

  /** The sort of `performSearch`, by non-increasing score. */
  function SortByScore(s: seq<Scored>): (r: seq<Scored>)
    ensures multiset(r) == multiset(s)
    ensures |r| == |s|
    decreases |s|
  {
    if |s| == 0 then []
    else
      assert s == s[..|s| - 1] + [s[|s| - 1]];
      InsertByScore(SortByScore(s[..|s| - 1]), s[|s| - 1])
  }

  lemma {:induction false} SortByScoreSorted(s: seq<Scored>)
    ensures SortedByScore(SortByScore(s))
    decreases |s|
  {
    if |s| > 0 {
      SortByScoreSorted(s[..|s| - 1]);
      InsertKeepsSorted(SortByScore(s[..|s| - 1]), s[|s| - 1]);
    }
  }

  /** The score of every drawing against one lower-cased query. */
  function ScoreFor(q: string): DrawingItem -> nat {
    (d: DrawingItem) => MatchScore(d, q)
  }

  /** Every drawing of the index with its score (the `map` of `performSearch`). */
  function ScoreAll(drawings: seq<DrawingItem>, score: DrawingItem -> nat): (r: seq<Scored>)
    ensures |r| == |drawings|
    ensures forall i :: 0 <= i < |r| ==> r[i] == Scored(drawings[i], score(drawings[i]))
  {
    seq(|drawings|, i requires 0 <= i < |drawings| => Scored(drawings[i], score(drawings[i])))
  }

  function Positive(x: Scored): bool {
    x.score > 0
  }

  /** The drawings that score, best first (`filter` then `sort`). */
  function Ranked(drawings: seq<DrawingItem>, score: DrawingItem -> nat): seq<Scored> {
    SortByScore(Filter(Positive, ScoreAll(drawings, score)))
  }

  /** `slice(0, 10)`. */
  function Top(s: seq<Scored>): (r: seq<Scored>)
    ensures |r| <= MaxResults
    ensures |r| == if |s| <= MaxResults then |s| else MaxResults
  {
    if |s| <= MaxResults then s else s[..MaxResults]
  }

  /** `performSearch`: nothing for a blank query, otherwise the ten best-scoring
      drawings against the lower-cased query. */
  function PerformSearch(drawings: seq<DrawingItem>, query: string): (r: seq<Scored>)
    ensures IsBlank(query) ==> r == []
    ensures |r| <= MaxResults
  {
    if IsBlank(query) then [] else Top(Ranked(drawings, ScoreFor(Lower(query))))
  }

  /** The ranked entries are the drawings of the index with their own positive
      score, best first. */
  lemma RankedSound(drawings: seq<DrawingItem>, score: DrawingItem -> nat)
    ensures SortedByScore(Top(Ranked(drawings, score)))
    ensures forall i :: 0 <= i < |Top(Ranked(drawings, score))| ==>
              var x := Top(Ranked(drawings, score))[i];
              x.item in drawings && x.score == score(x.item) && x.score > 0
  {
    var all := ScoreAll(drawings, score);
    var matches := Filter(Positive, all);
    var ranked := Ranked(drawings, score);
    SortByScoreSorted(matches);
    var r := Top(ranked);
    forall i | 0 <= i < |r|
      ensures r[i].item in drawings && r[i].score == score(r[i].item) && r[i].score > 0
    {
      assert r[i] == ranked[i];
      assert ranked[i] in multiset(ranked);
      assert r[i] in matches;
      var k :| 0 <= k < |all| && all[k] == r[i];
      assert r[i].item == drawings[k];
    }
  }

  /** A scoring drawing that is left out of the ten loses to ten entries that score
      at least as much. */
  lemma RankedComplete(drawings: seq<DrawingItem>, score: DrawingItem -> nat, i: nat)
    requires i < |drawings| && score(drawings[i]) > 0
    ensures var x := Scored(drawings[i], score(drawings[i]));
            var r := Top(Ranked(drawings, score));
            x !in r ==> |r| == MaxResults && forall j :: 0 <= j < |r| ==> r[j].score >= x.score
  {
    var x := Scored(drawings[i], score(drawings[i]));
    var all := ScoreAll(drawings, score);
    var matches := Filter(Positive, all);
    var ranked := Ranked(drawings, score);
    var r := Top(ranked);
    SortByScoreSorted(matches);
    assert all[i] == x;
    assert x in matches;
    assert x in multiset(ranked);
    var k :| 0 <= k < |ranked| && ranked[k] == x;
    if x !in r && |ranked| > MaxResults {
      assert k >= MaxResults;
    }
  }

  /** The suggestions are drawings of the index, each with its own positive score,
      best first. */
  lemma PerformSearchSound(drawings: seq<DrawingItem>, query: string)
    ensures SortedByScore(PerformSearch(drawings, query))
    ensures forall i :: 0 <= i < |PerformSearch(drawings, query)| ==>
              var x := PerformSearch(drawings, query)[i];
              x.item in drawings && x.score == MatchScore(x.item, Lower(query)) && x.score > 0
  {
    if !IsBlank(query) {
      RankedSound(drawings, ScoreFor(Lower(query)));
    }
  }

  /** No match is lost except to a full list of ten at least as good; with ten
      matches or fewer, every match is suggested. */
  lemma PerformSearchComplete(drawings: seq<DrawingItem>, query: string, i: nat)
    requires !IsBlank(query) && i < |drawings|
    requires MatchScore(drawings[i], Lower(query)) > 0
    ensures var x := Scored(drawings[i], MatchScore(drawings[i], Lower(query)));
            var r := PerformSearch(drawings, query);
            x !in r ==> |r| == MaxResults && forall j :: 0 <= j < |r| ==> r[j].score >= x.score
  {
    var score := ScoreFor(Lower(query));
    assert score(drawings[i]) == MatchScore(drawings[i], Lower(query));
    assert PerformSearch(drawings, query) == Top(Ranked(drawings, score));
    RankedComplete(drawings, score, i);
  }

  // ---------------------------------------------------------------------------
  // History
  // ---------------------------------------------------------------------------

  function Differs(term: string): string -> bool {
    (x: string) => x != term
  }

  /** `addToHistory`: a blank term is ignored; otherwise the term goes first, its
      earlier copies are dropped, and ten entries are kept. */
  function AddToHistory(history: seq<string>, term: string): (r: seq<string>)
    ensures IsBlank(term) ==> r == history
    ensures !IsBlank(term) ==> 0 < |r| <= MaxHistory && r[0] == term
    ensures !IsBlank(term) ==> forall i :: 1 <= i < |r| ==> r[i] != term && r[i] in history
    ensures !IsBlank(term) ==> IsSubseq(r[1..], history)
    ensures !IsBlank(term) ==>
              |r| == (if 1 + CountIf(Differs(term), history) <= MaxHistory then 1 + CountIf(Differs(term), history) else MaxHistory)
    ensures !IsBlank(term) ==>
              |r| - 1 <= |Filter(Differs(term), history)| && r[1..] == Filter(Differs(term), history)[..|r| - 1]
  {
    FilterLength(Differs(term), history);
    AddToHistoryTail(history, term);
    if IsBlank(term) then history
    else
      var all := [term] + Filter(Differs(term), history);
      if |all| <= MaxHistory then all else all[..MaxHistory]
  }

  /** The entries after the term are the first entries of the filtered history, so
      they keep the history's most-recent-first order. */
  lemma AddToHistoryTail(history: seq<string>, term: string)
    ensures var all := [term] + Filter(Differs(term), history);
            var r := if |all| <= MaxHistory then all else all[..MaxHistory];
            r[1..] == Filter(Differs(term), history)[..|r| - 1] &&
            IsSubseq(r[1..], history)
  {
    var f := Filter(Differs(term), history);
    var all := [term] + f;
    var r := if |all| <= MaxHistory then all else all[..MaxHistory];
    assert r[1..] == f[..|r| - 1];
    FilterIsSubseq(Differs(term), history);
    SubseqTake(f, history, |r| - 1);
  }

  /** While the history has room, nothing is lost: every earlier entry is still in
      the history after the term is added. */
  lemma AddToHistoryKeepsAll(history: seq<string>, term: string)
    requires !IsBlank(term) && |history| < MaxHistory
    ensures forall x :: x in history ==> x in AddToHistory(history, term)
  {
    var rest := Filter(Differs(term), history);
    var r := AddToHistory(history, term);
    assert r[1..] == rest;
    forall x | x in history ensures x in r {
      if x != term {
        var k :| 0 <= k < |history| && history[k] == x;
        assert x in rest;
      }
    }
  }

  /** A history without duplicates stays without duplicates. */
  lemma AddToHistoryNoDup(history: seq<string>, term: string)
    requires NoDup(history)
    ensures NoDup(AddToHistory(history, term))
  {
    if !IsBlank(term) {
      FilterNoDup(Differs(term), history);
    }
  }

  /** Picking the same term twice in a row records it once. */
  lemma AddToHistoryIdempotent(history: seq<string>, term: string)
    ensures AddToHistory(AddToHistory(history, term), term) == AddToHistory(history, term)
  {
    if !IsBlank(term) {
      var r := AddToHistory(history, term);
      var tail := r[1..];
      assert r == [term] + tail;
      FilterAppend(Differs(term), [term], tail);
      FilterNone(Differs(term), [term]);
      FilterAll(Differs(term), tail);
      assert Filter(Differs(term), r) == tail;
      assert [term] + Filter(Differs(term), r) == r;
    }
  }

  // ---------------------------------------------------------------------------
  // The box
  // ---------------------------------------------------------------------------

  datatype BarState = BarState(
    query: string,
    suggestions: seq<Scored>,
    showSuggestions: bool,
    history: seq<string>,
    showHistory: bool)

  /** `clearHistory`: the history is emptied and nothing else changes. */
  function ClearHistory(st: BarState): (r: BarState)
    ensures r.history == []
    ensures r.query == st.query && r.suggestions == st.suggestions
    ensures r.showSuggestions == st.showSuggestions && r.showHistory == st.showHistory
  {
    st.(history := [])
  }

  /** After clearing, the next picked drawing is the whole history. */
  lemma ClearThenAdd(st: BarState, term: string)
    requires !IsBlank(term)
    ensures AddToHistory(ClearHistory(st).history, term) == [term]
  {
    FilterNone(Differs(term), []);
  }

  /** `handleDrawingSelect`: the number goes into the history and to the page, the
      query is cleared and both drop-downs close. */
  function SelectDrawing(st: BarState, drawingNumber: string): (r: (BarState, string))
    ensures r.1 == drawingNumber
    ensures r.0.query == "" && !r.0.showSuggestions && !r.0.showHistory
    ensures r.0.suggestions == st.suggestions
    ensures !IsBlank(drawingNumber) ==> 0 < |r.0.history| && r.0.history[0] == drawingNumber && |r.0.history| <= MaxHistory
    ensures IsBlank(drawingNumber) ==> r.0.history == st.history
  {
    (st.(history := AddToHistory(st.history, drawingNumber), query := "",
         showSuggestions := false, showHistory := false),
     drawingNumber)
  }

  /** `handleInputChange`: a non-empty value is searched and its results suggested
      and reported; an empty one closes the suggestions and reports nothing. */
  function InputChange(st: BarState, drawings: seq<DrawingItem>, value: string): (r: (BarState, seq<Scored>))
    ensures r.0.query == value && !r.0.showHistory && r.0.history == st.history
    ensures |value| > 0 ==> r.0.showSuggestions && r.0.suggestions == r.1
    ensures |value| == 0 ==> !r.0.showSuggestions && r.1 == [] && r.0.suggestions == st.suggestions
    ensures IsBlank(value) ==> r.1 == []
    ensures |r.1| <= MaxResults
  {
    if |value| > 0 then
      var results := PerformSearch(drawings, value);
      (st.(query := value, showHistory := false, suggestions := results, showSuggestions := true), results)
    else
      (st.(query := value, showHistory := false, showSuggestions := false), [])
  }

  /** `handleFocus`: the history opens on an empty query when there is one. */
  function Focus(st: BarState): (r: BarState)
    ensures r.showHistory <==> st.showHistory || (st.query == "" && |st.history| > 0)
    ensures r.(showHistory := st.showHistory) == st
  {
    if |st.query| == 0 && |st.history| > 0 then st.(showHistory := true) else st
  }
}
