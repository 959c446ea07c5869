/**
 * The local food explorer of app/food_search_local.py: the fuzzy score of
 * a normalised name against a normalised query, and the search route that
 * filters the food database by score and by two flags, falls back to a
 * plain containment test, orders the hits and truncates them.
 */
module FoodSearch {
  import opened Wrappers
  import opened PyText
  import opened Sorting

  // ---------------------------------------------------------------------
  // The fuzzy score
  // ---------------------------------------------------------------------

  function MinReal(a: real, b: real): real {
    if a <= b then a else b
  }

  /** The set of whitespace-separated words of `s`. */
  function Words(s: string): set<string> {
    set w | w in Split(s)
  }

  /** The score of a candidate that contains the query: 0.8 plus up to 0.19 for length proximity. */
  function SubstringScore(candidate: string, query: string): (r: real)
    requires candidate != [] && |query| <= |candidate|
    ensures 0.8 <= r <= 0.99
    ensures r == 0.99 <==> |query| == |candidate|
  {
    var ratio := |query| as real / |candidate| as real;
    assert ratio <= 1.0;
    0.8 + MinReal(0.19, ratio * 0.19)
  }

  /**
   * The Jaccard ratio of the query's words and the candidate's words: 0 when
   * the query has none, otherwise shared words over all words.
   */
  function Jaccard(candidate: string, query: string): (r: real)
    ensures 0.0 <= r <= 1.0
  {
    var cq, cc := Words(query), Words(candidate);
    if cq == {} then 0.0
    else
      var inter, uni := cq * cc, cq + cc;
      SharedAtMostAll(cq, cc);
      Ratio(|inter|, |uni|);
      if |uni| == 0 then 0.0 else |inter| as real / |uni| as real
  }

  /** The ratio is 1 exactly when both word sets agree and are non-empty, and 0 exactly when no word is shared. */
  lemma JaccardExtremes(candidate: string, query: string)
    ensures Jaccard(candidate, query) == 1.0 <==> Words(query) != {} && Words(query) == Words(candidate)
    ensures Jaccard(candidate, query) == 0.0 <==> Words(query) * Words(candidate) == {}
  {
    var cq, cc := Words(query), Words(candidate);
    if cq != {} {
      SharedAtMostAll(cq, cc);
      Ratio(|cq * cc|, |cq + cc|);
    }
  }

  lemma Ratio(x: nat, y: nat)
    requires 0 < y && x <= y
    ensures 0.0 <= x as real / y as real <= 1.0
    ensures x as real / y as real == 1.0 <==> x == y
    ensures x as real / y as real == 0.0 <==> x == 0
  {
    var q := x as real / y as real;
    assert q * y as real == x as real;
  }

  /** A subset is no larger, and a proper subset is smaller. */
  lemma {:induction false} SubsetSize<T>(a: set<T>, b: set<T>)
    requires a <= b
    ensures |a| <= |b|
    ensures a != b ==> |a| < |b|
    decreases |a|
  {
    if a == {} {
      if a != b {
        var y :| y in b;
        assert |b| == |b - {y}| + 1 by { assert b == (b - {y}) + {y}; }
      }
    } else {
      var x :| x in a;
      SubsetSize(a - {x}, b - {x});
      assert a == (a - {x}) + {x};
      assert b == (b - {x}) + {x};
      if a != b {
        var y :| y in b && y !in a;
        assert y in b - {x} && y !in a - {x};
      }
    }
  }

  /** The shared words are never more than all words, and as many only when both sets agree. */
  lemma SharedAtMostAll(a: set<string>, b: set<string>)
    requires a != {}
    ensures 0 < |a + b| && |a * b| <= |a + b|
    ensures |a * b| == |a + b| <==> a == b
  {
    var x :| x in a;
    SubsetSize({x}, a + b);
    SubsetSize(a * b, a + b);
    if a == b {
      assert a * b == a + b;
    }
  }

  /**
   * `_score`: 0 when either side is empty; a containment score in
   * [0.8, 0.99] when the query occurs in the candidate; the Jaccard ratio
   * of their words otherwise.
   */
  function Score(candidate: string, query: string): (r: real)
    ensures 0.0 <= r <= 1.0
    ensures candidate == [] || query == [] ==> r == 0.0
    ensures candidate != [] && query != [] && Contains(candidate, query) ==> 0.8 <= r <= 0.99
    ensures candidate != [] && query != [] && !Contains(candidate, query) ==> r == Jaccard(candidate, query)
  {
    if candidate == [] || query == [] then 0.0
    else if Contains(candidate, query) then SubstringScore(candidate, query)
    else Jaccard(candidate, query)
  }

  /** An exact match scores 0.99. */
  lemma ExactMatchScore(s: string)
    requires s != []
    ensures Score(s, s) == 0.99
  {
    assert OccursAt(s, s, 0) by { assert s[0..|s|] == s; }
  }

  /** The containment score favours the candidate closer in length to the query. */
  lemma SubstringScoreMonotone(c1: string, c2: string, query: string)
    requires c1 != [] && |query| <= |c1| <= |c2|
    ensures SubstringScore(c1, query) >= SubstringScore(c2, query)
  {
    var r1, r2 := |query| as real / |c1| as real, |query| as real / |c2| as real;
    assert |c1| as real * r1 == |query| as real == |c2| as real * r2;
    assert r1 >= r2;
  }

  /** Among candidates containing the query, the shorter never scores lower. */
  lemma ShorterContainerScoresHigher(c1: string, c2: string, query: string)
    requires query != [] && Contains(c1, query) && Contains(c2, query) && |c1| <= |c2|
    ensures Score(c1, query) >= Score(c2, query)
  {
    SubstringScoreMonotone(c1, c2, query);
  }

  /**
   * A query made of the candidate's words in another order, which does
   * not occur in it, scores 1: above the 0.99 of an exact match.
   */
  lemma ReorderedWordsOutrankExactMatch(candidate: string, query: string)
    requires candidate != [] && query != [] && !Contains(candidate, query)
    requires Words(query) != {} && Words(query) == Words(candidate)
    ensures Score(candidate, query) == 1.0 > Score(candidate, candidate)
  {
    JaccardExtremes(candidate, query);
    ExactMatchScore(candidate);
  }

  // ---------------------------------------------------------------------
  // The search route
  // ---------------------------------------------------------------------

  /** The Ayurvedic properties of a food; `diabetesSafe` and `weightLossFriendly` are the truth values of the two flags. */
  datatype Props = Props(diabetesSafe: bool, weightLossFriendly: bool, details: map<string, string>)

  /** `{}`: both flags read as false. */
  const NoProps := Props(false, false, map[])

  /** A database entry: the name, its normalised form, and its properties (None when null). */
  datatype DbEntry = DbEntry(name: string, norm: string, props: Option<Props>)

  /** A scored hit, before the score is dropped. */
  datatype Hit = Hit(name: string, ayurveda: Props, score: real)

  /** An entry of the response. */
  datatype Found = Found(name: string, ayurveda: Props)

  datatype SearchResponse = SearchResponse(query: string, count: nat, results: seq<Found>)

  /** `_norm` on ASCII text: stripped and lower-cased, so no capital and no white space at either end. */
  function Norm(s: string): (r: string)
    ensures |r| <= |s|
    ensures r != [] ==> !IsSpace(r[0]) && !IsSpace(r[|r| - 1])
    ensures forall i :: 0 <= i < |r| ==> !IsUpper(r[i])
  {
    Lower(Strip(s))
  }

  /** A normalised string is its own normal form. */
  lemma NormIdempotent(s: string)
    ensures Norm(Norm(s)) == Norm(s)
  {
    StripUnchanged(Lower(Strip(s)));
    LowerIdempotent(Strip(s));
  }

  function PropsOf(e: DbEntry): Props {
    e.props.GetOr(NoProps)
  }

  /** The two optional flag filters. */
  predicate Passes(ay: Props, diabetesOnly: bool, weightOnly: bool) {
    (!diabetesOnly || ay.diabetesSafe) && (!weightOnly || ay.weightLossFriendly)
  }

  /** A hit carries the name and properties of some entry among `entries`. */
  predicate FromDb(h: Hit, entries: seq<DbEntry>) {
    exists e :: e in entries && h.name == e.name && h.ayurveda == PropsOf(e)
  }

  /** A hit is some entry among `entries`, with that entry's own score against `nq`. */
  predicate ScoredEntry(h: Hit, entries: seq<DbEntry>, nq: string) {
    exists e :: e in entries && h == Hit(e.name, PropsOf(e), Score(e.norm, nq))
  }

  /** The score of an entry's normalised name against the query `nq`. */
  function NameScore(nq: string): DbEntry -> real {
    (e: DbEntry) => Score(e.norm, nq)
  }

  /**
   * A scoring pass over the first `n` entries under the score `score`: an
   * entry becomes a hit, with its score, when that score is positive and it
   * passes both filters; hits come in database order.
   */
  function ScoredHits(db: seq<DbEntry>, score: DbEntry -> real, diabetesOnly: bool, weightOnly: bool, n: nat): (hits: seq<Hit>)
    requires n <= |db|
    ensures forall h :: h in hits ==> h.score > 0.0 && Passes(h.ayurveda, diabetesOnly, weightOnly)
  {
    if n == 0 then []
    else
      var prev := ScoredHits(db, score, diabetesOnly, weightOnly, n - 1);
      var e := db[n - 1];
      if score(e) > 0.0 && Passes(PropsOf(e), diabetesOnly, weightOnly) then prev + [Hit(e.name, PropsOf(e), score(e))]
      else prev
  }

  /** Each hit of a scoring pass is one of the first `n` entries, with its own score. */
  lemma {:induction false} ScoredHitsSound(db: seq<DbEntry>, score: DbEntry -> real, diabetesOnly: bool, weightOnly: bool, n: nat)
    requires n <= |db|
    ensures forall h :: h in ScoredHits(db, score, diabetesOnly, weightOnly, n) ==>
      exists k :: 0 <= k < n && h == Hit(db[k].name, PropsOf(db[k]), score(db[k]))
  {
    if n > 0 {
      ScoredHitsSound(db, score, diabetesOnly, weightOnly, n - 1);
    }
  }

  /** Each of the first `n` entries with a positive score that passes both filters is a hit, with its own score. */
  lemma {:induction false} ScoredHitsComplete(db: seq<DbEntry>, score: DbEntry -> real, diabetesOnly: bool, weightOnly: bool, n: nat)
    requires n <= |db|
    ensures forall i :: 0 <= i < n && score(db[i]) > 0.0 && Passes(PropsOf(db[i]), diabetesOnly, weightOnly) ==>
      Hit(db[i].name, PropsOf(db[i]), score(db[i])) in ScoredHits(db, score, diabetesOnly, weightOnly, n)
  {
    if n > 0 {
      ScoredHitsComplete(db, score, diabetesOnly, weightOnly, n - 1);
    }
  }

  /** The fuzzy pass over the first `n` entries: the scoring pass under `_score` against the normalised query. */
  function FuzzyHits(db: seq<DbEntry>, nq: string, diabetesOnly: bool, weightOnly: bool, n: nat): (hits: seq<Hit>)
    requires n <= |db|
    ensures forall h :: h in hits ==> h.score > 0.0 && Passes(h.ayurveda, diabetesOnly, weightOnly)
  {
    ScoredHits(db, NameScore(nq), diabetesOnly, weightOnly, n)
  }

  /** Each fuzzy hit is an entry among the first `n` carrying that entry's own score. */
  lemma FuzzyHitsScored(db: seq<DbEntry>, nq: string, diabetesOnly: bool, weightOnly: bool, n: nat)
    requires n <= |db|
    ensures forall h :: h in FuzzyHits(db, nq, diabetesOnly, weightOnly, n) ==> ScoredEntry(h, db[..n], nq)
  {
    ScoredHitsSound(db, NameScore(nq), diabetesOnly, weightOnly, n);
    forall h | h in FuzzyHits(db, nq, diabetesOnly, weightOnly, n) ensures ScoredEntry(h, db[..n], nq) {
      var k :| 0 <= k < n && h == Hit(db[k].name, PropsOf(db[k]), NameScore(nq)(db[k]));
      assert db[k] in db[..n];
    }
  }

  /** Every entry among the first `n` that scores above 0 and passes both filters is a hit of the fuzzy pass. */
  lemma FuzzyHitsComplete(db: seq<DbEntry>, nq: string, diabetesOnly: bool, weightOnly: bool, n: nat)
    requires n <= |db|
    ensures forall i :: 0 <= i < n && Score(db[i].norm, nq) > 0.0 && Passes(PropsOf(db[i]), diabetesOnly, weightOnly) ==>
      Hit(db[i].name, PropsOf(db[i]), Score(db[i].norm, nq)) in FuzzyHits(db, nq, diabetesOnly, weightOnly, n)
  {
    ScoredHitsComplete(db, NameScore(nq), diabetesOnly, weightOnly, n);
    forall i | 0 <= i < n
      ensures NameScore(nq)(db[i]) == Score(db[i].norm, nq)
    {
    }
  }

  /** The fallback pass over the first `n` entries: the query occurs in the name, both filters passed, score 0.4. */
  function FallbackHits(db: seq<DbEntry>, nq: string, diabetesOnly: bool, weightOnly: bool, n: nat): (hits: seq<Hit>)
    requires n <= |db|
    ensures forall h :: h in hits ==> h.score == 0.4 && Passes(h.ayurveda, diabetesOnly, weightOnly) && FromDb(h, db[..n])
  {
    if n == 0 then []
    else
      var prev := FallbackHits(db, nq, diabetesOnly, weightOnly, n - 1);
      var e := db[n - 1];
      assert forall h :: FromDb(h, db[..n - 1]) ==> FromDb(h, db[..n]) by {
        assert forall x :: x in db[..n - 1] ==> x in db[..n];
      }
      if Contains(e.norm, nq) && Passes(PropsOf(e), diabetesOnly, weightOnly) then
        assert e in db[..n];
        prev + [Hit(e.name, PropsOf(e), 0.4)]
      else prev
  }

  /** The hits of a search: the fuzzy pass, or the fallback pass when the fuzzy pass found nothing. */
  function Hits(db: seq<DbEntry>, nq: string, diabetesOnly: bool, weightOnly: bool): seq<Hit> {
    var fuzzy := FuzzyHits(db, nq, diabetesOnly, weightOnly, |db|);
    if fuzzy != [] then fuzzy else FallbackHits(db, nq, diabetesOnly, weightOnly, |db|)
  }

  /** Every entry among the first `n` whose name contains the query and that passes both filters is a fallback hit. */
  lemma {:induction false} FallbackHitsComplete(db: seq<DbEntry>, nq: string, diabetesOnly: bool, weightOnly: bool, n: nat)
    requires n <= |db|
    ensures forall i :: 0 <= i < n && Contains(db[i].norm, nq) && Passes(PropsOf(db[i]), diabetesOnly, weightOnly) ==>
      Hit(db[i].name, PropsOf(db[i]), 0.4) in FallbackHits(db, nq, diabetesOnly, weightOnly, n)
  {
    if n > 0 {
      FallbackHitsComplete(db, nq, diabetesOnly, weightOnly, n - 1);
    }
  }

  /** Every fallback hit is one of the first `n` entries whose normalised name contains the query, at score 0.4. */
  lemma {:induction false} FallbackHitsSound(db: seq<DbEntry>, nq: string, diabetesOnly: bool, weightOnly: bool, n: nat)
    requires n <= |db|
    ensures forall h :: h in FallbackHits(db, nq, diabetesOnly, weightOnly, n) ==>
      exists i :: 0 <= i < n && Contains(db[i].norm, nq) && Passes(PropsOf(db[i]), diabetesOnly, weightOnly) &&
        h == Hit(db[i].name, PropsOf(db[i]), 0.4)
  {
    if n > 0 {
      FallbackHitsSound(db, nq, diabetesOnly, weightOnly, n - 1);
    }
  }

  /** Every hit has a positive score, passes both filters and comes from the database. */
  lemma HitsAreValid(db: seq<DbEntry>, nq: string, diabetesOnly: bool, weightOnly: bool)
    ensures forall h :: h in Hits(db, nq, diabetesOnly, weightOnly) ==>
      h.score > 0.0 && Passes(h.ayurveda, diabetesOnly, weightOnly) && FromDb(h, db)
  {
    assert db[..|db|] == db;
    FuzzyHitsScored(db, nq, diabetesOnly, weightOnly, |db|);
    forall h | h in FuzzyHits(db, nq, diabetesOnly, weightOnly, |db|) ensures FromDb(h, db) {
      var e :| e in db[..|db|] && h == Hit(e.name, PropsOf(e), Score(e.norm, nq));
    }
  }

  /**
   * With a non-empty query the fallback never finds anything: a name that
   * contains the query already scores at least 0.8 in the fuzzy pass.
   */
  lemma FallbackNeedsBlankQuery(db: seq<DbEntry>, nq: string, diabetesOnly: bool, weightOnly: bool, n: nat)
    requires n <= |db| && nq != []
    requires FuzzyHits(db, nq, diabetesOnly, weightOnly, n) == []
    ensures FallbackHits(db, nq, diabetesOnly, weightOnly, n) == []
  {
    FuzzyHitsComplete(db, nq, diabetesOnly, weightOnly, n);
    forall i | 0 <= i < n
      ensures !(Contains(db[i].norm, nq) && Passes(PropsOf(db[i]), diabetesOnly, weightOnly))
    {
      ContainedScoresHigh(db[i].norm, nq);
    }
    FallbackHitsNone(db, nq, diabetesOnly, weightOnly, n);
  }

  /** The fallback pass finds nothing when no entry's name contains the query while passing the filters. */
  lemma {:induction false} FallbackHitsNone(db: seq<DbEntry>, nq: string, diabetesOnly: bool, weightOnly: bool, n: nat)
    requires n <= |db|
    requires forall i :: 0 <= i < n ==> !(Contains(db[i].norm, nq) && Passes(PropsOf(db[i]), diabetesOnly, weightOnly))
    ensures FallbackHits(db, nq, diabetesOnly, weightOnly, n) == []
  {
    if n > 0 {
      FallbackHitsNone(db, nq, diabetesOnly, weightOnly, n - 1);
    }
  }

  /** A name that contains a non-empty query scores at least 0.8. */
  lemma ContainedScoresHigh(candidate: string, nq: string)
    requires nq != []
    ensures Contains(candidate, nq) ==> Score(candidate, nq) >= 0.8
  {
    if Contains(candidate, nq) {
      assert candidate != [];
    }
  }

  /** So with a non-empty query the hits are those of the fuzzy pass. */
  lemma HitsOfNonBlankQuery(db: seq<DbEntry>, nq: string, diabetesOnly: bool, weightOnly: bool)
    requires nq != []
    ensures Hits(db, nq, diabetesOnly, weightOnly) == FuzzyHits(db, nq, diabetesOnly, weightOnly, |db|)
  {
    if FuzzyHits(db, nq, diabetesOnly, weightOnly, |db|) == [] {
      FallbackNeedsBlankQuery(db, nq, diabetesOnly, weightOnly, |db|);
    }
  }

  /** A blank query scores nothing, so the fuzzy pass finds no hit. */
  lemma {:induction false} BlankQueryScoresNothing(db: seq<DbEntry>, diabetesOnly: bool, weightOnly: bool, n: nat)
    requires n <= |db|
    ensures FuzzyHits(db, "", diabetesOnly, weightOnly, n) == []
  {
    if n > 0 {
      BlankQueryScoresNothing(db, diabetesOnly, weightOnly, n - 1);
    }
  }

  /** With a blank query every entry that passes the filters comes back from the fallback pass, at 0.4. */
  lemma {:induction false} BlankQueryListsAll(db: seq<DbEntry>, diabetesOnly: bool, weightOnly: bool, n: nat)
    requires n <= |db|
    ensures forall i :: 0 <= i < n && Passes(PropsOf(db[i]), diabetesOnly, weightOnly) ==>
      Hit(db[i].name, PropsOf(db[i]), 0.4) in FallbackHits(db, "", diabetesOnly, weightOnly, n)
  {
    FallbackHitsComplete(db, "", diabetesOnly, weightOnly, n);
  }

  /** Score descending, then name length ascending. */
  predicate HitBefore(a: Hit, b: Hit) {
    a.score > b.score || (a.score == b.score && |a.name| <= |b.name|)
  }

  lemma HitBeforeIsOrder()
    ensures Total(HitBefore) && Transitive(HitBefore)
  {
  }

  /** The hits in response order. */
  function RankedHits(db: seq<DbEntry>, nq: string, diabetesOnly: bool, weightOnly: bool): (r: seq<Hit>)
    ensures Sorted(r, HitBefore)
    ensures multiset(r) == multiset(Hits(db, nq, diabetesOnly, weightOnly))
  {
    HitBeforeIsOrder();
    InsertionSortSorted(Hits(db, nq, diabetesOnly, weightOnly), HitBefore);
    InsertionSort(Hits(db, nq, diabetesOnly, weightOnly), HitBefore)
  }

  /** Every ranked hit passes the filters, so any head of the ranking does too. */
  lemma RankedHitsPass(db: seq<DbEntry>, nq: string, diabetesOnly: bool, weightOnly: bool, k: nat)
    requires k <= |RankedHits(db, nq, diabetesOnly, weightOnly)|
    ensures forall r :: r in Map(RankedHits(db, nq, diabetesOnly, weightOnly)[..k], DropScore) ==>
      Passes(r.ayurveda, diabetesOnly, weightOnly)
  {
    var ranked := RankedHits(db, nq, diabetesOnly, weightOnly);
    var results := Map(ranked[..k], DropScore);
    HitsAreValid(db, nq, diabetesOnly, weightOnly);
    forall r | r in results ensures Passes(r.ayurveda, diabetesOnly, weightOnly) {
      var j :| 0 <= j < |results| && results[j] == r;
      assert ranked[j] in multiset(Hits(db, nq, diabetesOnly, weightOnly));
    }
  }

  function DropScore(h: Hit): Found {
    Found(h.name, h.ayurveda)
  }

  /** One more entry extends the fuzzy pass by its hit, if it scores and passes. */
  lemma FuzzyHitsStep(db: seq<DbEntry>, nq: string, diabetesOnly: bool, weightOnly: bool, i: nat)
    requires i < |db|
    ensures var e := db[i];
      FuzzyHits(db, nq, diabetesOnly, weightOnly, i + 1) ==
        if Score(e.norm, nq) > 0.0 && Passes(PropsOf(e), diabetesOnly, weightOnly)
        then FuzzyHits(db, nq, diabetesOnly, weightOnly, i) + [Hit(e.name, PropsOf(e), Score(e.norm, nq))]
        else FuzzyHits(db, nq, diabetesOnly, weightOnly, i)
  {
  }

  /** The fuzzy pass: every entry scored against the query, kept when positive and passing the filters. */
  method FuzzyPass(db: seq<DbEntry>, nq: string, diabetesOnly: bool, weightOnly: bool) returns (scored: seq<Hit>)
    ensures scored == FuzzyHits(db, nq, diabetesOnly, weightOnly, |db|)
  {
    scored := [];
    for i := 0 to |db|
      invariant scored == FuzzyHits(db, nq, diabetesOnly, weightOnly, i)
    {
      var row := db[i];
      var s := Score(row.norm, nq);
      FuzzyHitsStep(db, nq, diabetesOnly, weightOnly, i);
      if s <= 0.0 {
        continue;
      }
      var ay := row.props.GetOr(NoProps);
      if diabetesOnly && !ay.diabetesSafe {
        continue;
      }
      if weightOnly && !ay.weightLossFriendly {
        continue;
      }
      scored := scored + [Hit(row.name, ay, s)];
    }
  }

  /** The fallback pass: every entry whose normalised name contains the query and passes the filters, at 0.4. */
  method FallbackPass(db: seq<DbEntry>, nq: string, diabetesOnly: bool, weightOnly: bool) returns (scored: seq<Hit>)
    ensures scored == FallbackHits(db, nq, diabetesOnly, weightOnly, |db|)
  {
    scored := [];
    for i := 0 to |db|
      invariant scored == FallbackHits(db, nq, diabetesOnly, weightOnly, i)
    {
      var row := db[i];
      if Contains(row.norm, nq) {
        var ay := row.props.GetOr(NoProps);
        if diabetesOnly && !ay.diabetesSafe {
          continue;
        }
        if weightOnly && !ay.weightLossFriendly {
          continue;
        }
        scored := scored + [Hit(row.name, ay, 0.4)];
      }
    }
  }

  /**
   * GET /ayur/search. `db` is the loaded database with each name's
   * normalised form; `limit` has passed the route's 1..100 validation.
   */
  method SearchAyurFoods(db: seq<DbEntry>, q: string, limit: int, diabetesOnly: bool, weightOnly: bool)
    returns (resp: SearchResponse)
    requires |q| >= 1 && 1 <= limit <= 100
    ensures resp.query == q && resp.count == |resp.results| <= limit
    ensures var ranked := RankedHits(db, Norm(q), diabetesOnly, weightOnly);
      resp.count == if |ranked| < limit then |ranked| else limit
    ensures var ranked := RankedHits(db, Norm(q), diabetesOnly, weightOnly);
      forall i :: 0 <= i < resp.count ==> resp.results[i] == DropScore(ranked[i])
    ensures forall r :: r in resp.results ==> Passes(r.ayurveda, diabetesOnly, weightOnly)
  {
    var nq := Norm(q);
    var scored := FuzzyPass(db, nq, diabetesOnly, weightOnly);
    if scored == [] {
      scored := FallbackPass(db, nq, diabetesOnly, weightOnly);
    }
    assert scored == Hits(db, nq, diabetesOnly, weightOnly);
    scored := InsertionSort(scored, HitBefore);
    assert scored == RankedHits(db, nq, diabetesOnly, weightOnly);
    var kept := if |scored| < limit then |scored| else limit;
    var results := Map(scored[..kept], DropScore);
    RankedHitsPass(db, nq, diabetesOnly, weightOnly, kept);
    resp := SearchResponse(q, |results|, results);
  }
}
