/** Retrieval: top-k search, augmentation with hits from graph documents, and a stable sort. */
module Retrieval {
  import opened Wrappers

  datatype Chunk = Chunk(id: string, documentId: string, documentName: string, source: string,
                         ref: Option<string>, text: string, score: real)

  const AUGMENT_LIMIT: nat := 5

  // ---------------------------------------------------------------- search

  /** The payload filters; an empty list filters nothing. */
  predicate Matches(c: Chunk, threshold: real, sources: seq<string>, documents: seq<string>) {
    c.score >= threshold && (sources == [] || c.source in sources) && (documents == [] || c.documentId in documents)
  }

  function Matching(cs: seq<Chunk>, threshold: real, sources: seq<string>, documents: seq<string>): seq<Chunk> {
    if cs == [] then []
    else Matching(cs[..|cs| - 1], threshold, sources, documents) +
         if Matches(cs[|cs| - 1], threshold, sources, documents) then [cs[|cs| - 1]] else []
  }

  function Take(cs: seq<Chunk>, k: nat): seq<Chunk> {
    if |cs| <= k then cs else cs[..k]
  }

  /** Exact search: the first `k` matches of the one total order the corpus is listed in. */
  function Search(ranked: seq<Chunk>, k: nat, threshold: real, sources: seq<string>,
                  documents: seq<string>): seq<Chunk>
  {
    Take(Matching(ranked, threshold, sources, documents), k)
  }

  predicate Sorted(cs: seq<Chunk>) {
    forall i, j | 0 <= i < j < |cs| :: cs[i].score >= cs[j].score
  }

  predicate Distinct(cs: seq<Chunk>) {
    forall i, j | 0 <= i < j < |cs| :: cs[i].id != cs[j].id
  }

  /** A corpus listed from best to worst, every point once. */
  predicate Ranked(cs: seq<Chunk>) {
    Sorted(cs) && Distinct(cs)
  }

  /** What may be relied on when the search is approximate. */
  predicate Approximate(hits: seq<Chunk>, k: nat, threshold: real) {
    |hits| <= k && Distinct(hits) && AllAbove(hits, threshold)
  }

  // ---------------------------------------------------------------- stable sort

  /** `c` behind everything at least as good. */
  function InsertAfter(cs: seq<Chunk>, c: Chunk): seq<Chunk> {
    if cs == [] || cs[|cs| - 1].score >= c.score then cs + [c]
    else InsertAfter(cs[..|cs| - 1], c) + [cs[|cs| - 1]]
  }

  /** `cs.sort(key=score, reverse=True)`. */
  function SortedDesc(cs: seq<Chunk>): seq<Chunk> {
    if cs == [] then [] else InsertAfter(SortedDesc(cs[..|cs| - 1]), cs[|cs| - 1])
  }

  /** The chunks of one score, in order. */
  function Level(cs: seq<Chunk>, score: real): seq<Chunk> {
    if cs == [] then []
    else Level(cs[..|cs| - 1], score) + if cs[|cs| - 1].score == score then [cs[|cs| - 1]] else []
  }

  lemma {:induction false} InsertMultiset(cs: seq<Chunk>, c: Chunk)
    ensures multiset(InsertAfter(cs, c)) == multiset(cs) + multiset{c}
    decreases |cs|
  {
    if cs != [] && cs[|cs| - 1].score < c.score {
      InsertMultiset(cs[..|cs| - 1], c);
      assert cs == cs[..|cs| - 1] + [cs[|cs| - 1]];
    }
  }

  lemma InsertMembers(cs: seq<Chunk>, c: Chunk, i: nat)
    requires i < |InsertAfter(cs, c)|
    ensures InsertAfter(cs, c)[i] == c || InsertAfter(cs, c)[i] in cs
  {
    InsertMultiset(cs, c);
    assert InsertAfter(cs, c)[i] in multiset(InsertAfter(cs, c));
  }

  lemma SortedSnoc(cs: seq<Chunk>, c: Chunk)
    requires Sorted(cs) && forall i | 0 <= i < |cs| :: cs[i].score >= c.score
    ensures Sorted(cs + [c])
  {
  }

  lemma {:induction false} InsertKeepsSorted(cs: seq<Chunk>, c: Chunk)
    requires Sorted(cs)
    ensures Sorted(InsertAfter(cs, c))
    decreases |cs|
  {
    if cs != [] && cs[|cs| - 1].score < c.score {
      var front, last := cs[..|cs| - 1], cs[|cs| - 1];
      InsertKeepsSorted(front, c);
      var r := InsertAfter(front, c);
      forall i | 0 <= i < |r| ensures r[i].score >= last.score { InsertMembers(front, c, i); }
      SortedSnoc(r, last);
    } else {
      SortedSnoc(cs, c);
    }
  }

  lemma {:induction false} LevelSnoc(cs: seq<Chunk>, c: Chunk, score: real)
    ensures Level(cs + [c], score) == Level(cs, score) + if c.score == score then [c] else []
  {
    assert (cs + [c])[..|cs|] == cs;
  }

  lemma {:induction false} LevelAbove(cs: seq<Chunk>, score: real)
    requires forall i | 0 <= i < |cs| :: cs[i].score != score
    ensures Level(cs, score) == []
    decreases |cs|
  {
    if cs != [] { LevelAbove(cs[..|cs| - 1], score); }
  }

  lemma {:induction false} InsertIsStable(cs: seq<Chunk>, c: Chunk, score: real)
    requires Sorted(cs)
    ensures Level(InsertAfter(cs, c), score) == Level(cs, score) + if c.score == score then [c] else []
    decreases |cs|
  {
    if cs == [] || cs[|cs| - 1].score >= c.score {
      LevelSnoc(cs, c, score);
    } else {
      InsertIsStable(cs[..|cs| - 1], c, score);
      InsertBefore(cs, c, score);
    }
  }

  /** Inserting before the last chunk, which scores lower, does not touch its level. */
  lemma InsertBefore(cs: seq<Chunk>, c: Chunk, score: real)
    requires Sorted(cs) && cs != [] && cs[|cs| - 1].score < c.score
    requires Level(InsertAfter(cs[..|cs| - 1], c), score) ==
             Level(cs[..|cs| - 1], score) + if c.score == score then [c] else []
    ensures Level(InsertAfter(cs, c), score) == Level(cs, score) + if c.score == score then [c] else []
  {
    var front, last := cs[..|cs| - 1], cs[|cs| - 1];
    assert InsertAfter(cs, c) == InsertAfter(front, c) + [last];
    LevelSnoc(InsertAfter(front, c), last, score);
    if c.score == score { LevelAboveLast(cs, score); } else { assert Level(front, score) + [] == Level(front, score); }
    assert cs == front + [last];
    LevelSnoc(front, last, score);
  }

  lemma LevelAboveLast(cs: seq<Chunk>, score: real)
    requires cs != [] && cs[|cs| - 1].score < score
    ensures Level(cs, score) == Level(cs[..|cs| - 1], score)
  {
    assert Level(cs[..|cs| - 1], score) + [] == Level(cs[..|cs| - 1], score);
  }

  lemma {:induction false} SortIsSorted(cs: seq<Chunk>)
    ensures Sorted(SortedDesc(cs))
    decreases |cs|
  {
    if cs != [] {
      SortIsSorted(cs[..|cs| - 1]);
      InsertKeepsSorted(SortedDesc(cs[..|cs| - 1]), cs[|cs| - 1]);
    }
  }

  lemma {:induction false} SortKeepsAll(cs: seq<Chunk>)
    ensures multiset(SortedDesc(cs)) == multiset(cs)
    decreases |cs|
  {
    if cs != [] {
      var front, last := cs[..|cs| - 1], cs[|cs| - 1];
      SortKeepsAll(front);
      InsertMultiset(SortedDesc(front), last);
      assert cs == front + [last];
    }
  }

  /** One more chunk to sort. */
  lemma SortSnoc(cs: seq<Chunk>) returns (front: seq<Chunk>, last: Chunk, sorted: seq<Chunk>)
    requires cs != []
    ensures cs == front + [last] && |front| < |cs| && sorted == SortedDesc(front)
    ensures SortedDesc(cs) == InsertAfter(sorted, last)
  {
    front, last := cs[..|cs| - 1], cs[|cs| - 1];
    sorted := SortedDesc(front);
  }

  lemma {:induction false} SortKeepsLevels(cs: seq<Chunk>, score: real)
    ensures Level(SortedDesc(cs), score) == Level(cs, score)
    decreases |cs|
  {
    if cs != [] {
      var front, last, sorted := SortSnoc(cs);
      SortKeepsLevels(front, score);
      SortIsSorted(front);
      InsertIsStable(sorted, last, score);
      LevelSnoc(front, last, score);
    }
  }

  /** The sort orders by falling score, keeps every chunk, and keeps ties in their order. */
  lemma SortIsStable(cs: seq<Chunk>, score: real)
    ensures Sorted(SortedDesc(cs)) && multiset(SortedDesc(cs)) == multiset(cs)
    ensures Level(SortedDesc(cs), score) == Level(cs, score)
  {
    SortIsSorted(cs);
    SortKeepsAll(cs);
    SortKeepsLevels(cs, score);
  }

  lemma {:induction false} SortOfSorted(cs: seq<Chunk>)
    requires Sorted(cs)
    ensures SortedDesc(cs) == cs
    decreases |cs|
  {
    if cs != [] {
      var front, last, sorted := SortSnoc(cs);
      assert Sorted(front);
      SortOfSorted(front);
      InsertedLast(front, last);
    }
  }

  lemma InsertedLast(cs: seq<Chunk>, c: Chunk)
    requires Sorted(cs + [c])
    ensures InsertAfter(cs, c) == cs + [c]
  {
    if cs != [] { assert (cs + [c])[|cs| - 1].score >= (cs + [c])[|cs|].score; }
  }

  // ---------------------------------------------------------------- retrieve

  function Ids(cs: seq<Chunk>): set<string> {
    set i | 0 <= i < |cs| :: cs[i].id
  }

  /** The hits whose id was not seen. */
  function Unseen(hits: seq<Chunk>, seen: set<string>): seq<Chunk> {
    if hits == [] then []
    else Unseen(hits[..|hits| - 1], seen) + if hits[|hits| - 1].id !in seen then [hits[|hits| - 1]] else []
  }

  /** The graph's contribution: no documents named, a second search, or a failure. */
  datatype Augmentation = NoDocuments | Extra(hits: seq<Chunk>) | GraphFails

  function Merged(base: seq<Chunk>, a: Augmentation): seq<Chunk> {
    SortedDesc(base + if a.Extra? then Unseen(a.hits, Ids(base)) else [])
  }

  function OrDefault(value: nat, default: nat): nat {
    if value != 0 then value else default
  }

  /** `retrieve`, after the two searches. */
  method Merge(base: seq<Chunk>, a: Augmentation) returns (chunks: seq<Chunk>)
    ensures chunks == Merged(base, a)
  {
    chunks := base;
    assert base + [] == base;
    if a.Extra? {
      var seen := set i | 0 <= i < |chunks| :: chunks[i].id;
      var i := 0;
      while i < |a.hits|
        invariant 0 <= i <= |a.hits|
        invariant chunks == base + Unseen(a.hits[..i], Ids(base))
      {
        assert a.hits[..i + 1][..i] == a.hits[..i];
        if a.hits[i].id !in seen { chunks := chunks + [a.hits[i]]; }
        i := i + 1;
      }
      assert a.hits[..i] == a.hits;
    }
    chunks := SortedDesc(chunks);
  }

  // ---------------------------------------------------------------- exact search

  lemma {:induction false} MatchingMember(cs: seq<Chunk>, threshold: real, sources: seq<string>,
                                          documents: seq<string>, c: Chunk)
    ensures c in Matching(cs, threshold, sources, documents) <==> c in cs && Matches(c, threshold, sources, documents)
    decreases |cs|
  {
    if cs != [] {
      MatchingMember(cs[..|cs| - 1], threshold, sources, documents, c);
      assert cs == cs[..|cs| - 1] + [cs[|cs| - 1]];
    }
  }

  /** One more chunk at the end of a ranking. */
  lemma RankedSnoc(m: seq<Chunk>, c: Chunk)
    requires Ranked(m) && forall i | 0 <= i < |m| :: m[i].score >= c.score && m[i].id != c.id
    ensures Ranked(m + [c])
  {
  }

  lemma {:induction false} MatchingRanked(cs: seq<Chunk>, threshold: real, sources: seq<string>, documents: seq<string>)
    requires Ranked(cs)
    ensures Ranked(Matching(cs, threshold, sources, documents))
    decreases |cs|
  {
    if cs != [] {
      var n := |cs| - 1;
      MatchingRanked(cs[..n], threshold, sources, documents);
      var m := Matching(cs[..n], threshold, sources, documents);
      forall i | 0 <= i < |m| ensures m[i].score >= cs[n].score && m[i].id != cs[n].id {
        MatchingMember(cs[..n], threshold, sources, documents, m[i]);
        assert m[i] in m;
        var j :| 0 <= j < n && cs[..n][j] == m[i];
        assert cs[j].score >= cs[n].score && cs[j].id != cs[n].id;
      }
      RankedSnoc(m, cs[n]);
    }
  }

  lemma {:induction false} UnseenMember(hits: seq<Chunk>, seen: set<string>, c: Chunk)
    ensures c in Unseen(hits, seen) <==> c in hits && c.id !in seen
    decreases |hits|
  {
    if hits != [] {
      UnseenMember(hits[..|hits| - 1], seen, c);
      assert hits == hits[..|hits| - 1] + [hits[|hits| - 1]];
    }
  }

  lemma {:induction false} UnseenIs(hits: seq<Chunk>, seen: set<string>)
    requires Distinct(hits)
    ensures var u := Unseen(hits, seen); |u| <= |hits| && Distinct(u) && (Sorted(hits) ==> Sorted(u))
    decreases |hits|
  {
    if hits != [] {
      var n := |hits| - 1;
      UnseenIs(hits[..n], seen);
      var u := Unseen(hits[..n], seen);
      forall i | 0 <= i < |u| ensures u[i].id != hits[n].id && (Sorted(hits) ==> u[i].score >= hits[n].score) {
        UnseenMember(hits[..n], seen, u[i]);
        assert u[i] in u;
        var j :| 0 <= j < n && hits[..n][j] == u[i];
        assert hits[j].id != hits[n].id;
      }
    }
  }

  lemma SortedConcat(a: seq<Chunk>, b: seq<Chunk>)
    requires Sorted(a) && Sorted(b) && forall i, j | 0 <= i < |a| && 0 <= j < |b| :: a[i].score >= b[j].score
    ensures Sorted(a + b)
  {
  }

  /** Ids tell the chunks of a ranking apart. */
  lemma SameIdSameChunk(cs: seq<Chunk>, a: Chunk, b: Chunk)
    requires Distinct(cs) && a in cs && b in cs && a.id == b.id
    ensures a == b
  {
    var i :| 0 <= i < |cs| && cs[i] == a;
    var j :| 0 <= j < |cs| && cs[j] == b;
  }

  /** An extra is a match that the base left out, so the base is full and ends above it. */
  lemma ExtraIsBelow(ranked: seq<Chunk>, k: nat, threshold: real, documents: seq<string>, c: Chunk)
    requires Ranked(ranked)
    requires c in Unseen(Search(ranked, AUGMENT_LIMIT, threshold, [], documents),
                         Ids(Search(ranked, k, threshold, [], [])))
    ensures var base := Search(ranked, k, threshold, [], []);
            |base| == k && forall i | 0 <= i < |base| :: base[i].score >= c.score
  {
    var m := Matching(ranked, threshold, [], []);
    var base := Search(ranked, k, threshold, [], []);
    UnseenMember(Search(ranked, AUGMENT_LIMIT, threshold, [], documents), Ids(base), c);
    assert c in Matching(ranked, threshold, [], documents);
    MatchingMember(ranked, threshold, [], documents, c);
    MatchingMember(ranked, threshold, [], [], c);
    MatchingRanked(ranked, threshold, [], []);
    var at :| 0 <= at < |m| && m[at] == c;
    assert forall i | 0 <= i < |base| :: base[i].id in Ids(base);
    assert at >= |base|;
    forall i | 0 <= i < |base| ensures base[i].score >= c.score { assert m[i].score >= m[at].score; }
  }

  /** Both searches of an unfiltered query, and what the second adds to the first. */
  function Base(ranked: seq<Chunk>, k: nat, threshold: real): seq<Chunk> {
    Search(ranked, k, threshold, [], [])
  }

  function Extras(ranked: seq<Chunk>, k: nat, threshold: real, documents: seq<string>): seq<Chunk> {
    Unseen(Search(ranked, AUGMENT_LIMIT, threshold, [], documents), Ids(Base(ranked, k, threshold)))
  }

  lemma PartsSorted(ranked: seq<Chunk>, k: nat, threshold: real, documents: seq<string>)
    requires Ranked(ranked)
    ensures Sorted(Base(ranked, k, threshold)) && Sorted(Extras(ranked, k, threshold, documents))
  {
    MatchingRanked(ranked, threshold, [], []);
    MatchingRanked(ranked, threshold, [], documents);
    UnseenIs(Search(ranked, AUGMENT_LIMIT, threshold, [], documents), Ids(Base(ranked, k, threshold)));
  }

  /** Augmentation never displaces a base hit: the result is the base followed by the extras, the
      final sort changes nothing, and extras appear only behind a full base. */
  lemma AugmentationAppends(ranked: seq<Chunk>, k: nat, threshold: real, documents: seq<string>)
    requires Ranked(ranked)
    ensures var base, extras := Base(ranked, k, threshold), Extras(ranked, k, threshold, documents);
            && Merged(base, Extra(Search(ranked, 5, threshold, [], documents))) == base + extras
            && (extras != [] ==> |base| == k)
  {
    var base, extras := Base(ranked, k, threshold), Extras(ranked, k, threshold, documents);
    PartsSorted(ranked, k, threshold, documents);
    forall j | 0 <= j < |extras| ensures |base| == k && forall i | 0 <= i < |base| :: base[i].score >= extras[j].score {
      ExtraIsBelow(ranked, k, threshold, documents, extras[j]);
    }
    if extras != [] { ExtraIsBelow(ranked, k, threshold, documents, extras[0]); }
    SortedConcat(base, extras);
    SortOfSorted(base + extras);
  }

  function Sum(cs: seq<Chunk>): real {
    if cs == [] then 0.0 else Sum(cs[..|cs| - 1]) + cs[|cs| - 1].score
  }

  /** Mean score of the first three, before rounding. */
  function Confidence(cs: seq<Chunk>): real {
    var top := Take(cs, 3);
    if top == [] then 0.0 else Sum(top) / |top| as real
  }

  /** Asking for three hits or more, the mean of the first three retrieved chunks does not depend on
      the graph. What an answer reports is the mean over the chunks that fit its context. */
  lemma ConfidenceUnchanged(ranked: seq<Chunk>, k: nat, threshold: real, documents: seq<string>)
    requires Ranked(ranked) && k >= 3
    ensures var base := Base(ranked, k, threshold);
            Confidence(Merged(base, Extra(Search(ranked, AUGMENT_LIMIT, threshold, [], documents)))) == Confidence(base)
  {
    AugmentationAppends(ranked, k, threshold, documents);
    var base, extras := Base(ranked, k, threshold), Extras(ranked, k, threshold, documents);
    assert Take(base + extras, 3) == Take(base, 3);
  }

  /** With a source filter the second search still runs without it: every extra hit whose id the
      base did not have is in the answer, whatever its source. */
  lemma ExtrasIgnoreSources(ranked: seq<Chunk>, k: nat, threshold: real, sources: seq<string>, documents: seq<string>,
                            c: Chunk)
    requires Ranked(ranked) && sources != [] && c.source !in sources
    ensures var base := Search(ranked, k, threshold, sources, []);
            var extra := Search(ranked, AUGMENT_LIMIT, threshold, [], documents);
            c in Merged(base, Extra(extra)) <==> c in extra
  {
    var base := Search(ranked, k, threshold, sources, []);
    var extra := Search(ranked, AUGMENT_LIMIT, threshold, [], documents);
    MatchingMember(ranked, threshold, sources, [], c);
    assert c !in base;
    UnseenMember(extra, Ids(base), c);
    SortMembers(base + Unseen(extra, Ids(base)), c);
    if c in extra { ForeignIsUnseen(ranked, k, threshold, sources, documents, c); }
  }

  /** Two chunks, a filter for the source of the first, and a graph that knows the document of the second:
      the answer has the second one too. */
  lemma FilterIsPassed(c: Chunk, d: Chunk, k: nat)
    requires c.id != d.id && c.source != d.source && c.score == 0.9 && d.score == 0.8 && k >= 1
    ensures var extra := Search([c, d], AUGMENT_LIMIT, 0.65, [], [d.documentId]);
            d in Merged(Search([c, d], k, 0.65, [c.source], []), Extra(extra))
  {
    var ranked := [c, d];
    assert ranked[..1] == [c] && ranked[..1][..0] == [];
    assert d in Search(ranked, AUGMENT_LIMIT, 0.65, [], [d.documentId]) by {
      assert Matching(ranked, 0.65, [], [d.documentId]) == Matching([c], 0.65, [], [d.documentId]) + [d];
      assert |Matching([c], 0.65, [], [d.documentId])| <= 1;
    }
    ExtrasIgnoreSources(ranked, k, 0.65, [c.source], [d.documentId], d);
  }

  /** A chunk of a source that was filtered out shares its id with no base hit. */
  lemma ForeignIsUnseen(ranked: seq<Chunk>, k: nat, threshold: real, sources: seq<string>, documents: seq<string>,
                        c: Chunk)
    requires Ranked(ranked) && sources != [] && c.source !in sources
    requires c in Search(ranked, AUGMENT_LIMIT, threshold, [], documents)
    ensures c.id !in Ids(Search(ranked, k, threshold, sources, []))
  {
    var base := Search(ranked, k, threshold, sources, []);
    assert c in Matching(ranked, threshold, [], documents);
    MatchingMember(ranked, threshold, [], documents, c);
    forall i | 0 <= i < |base| ensures base[i].id != c.id {
      assert base[i] in Matching(ranked, threshold, sources, []);
      MatchingMember(ranked, threshold, sources, [], base[i]);
      if base[i].id == c.id { SameIdSameChunk(ranked, base[i], c); }
    }
  }

  lemma SortMembers(cs: seq<Chunk>, c: Chunk)
    ensures c in SortedDesc(cs) <==> c in cs
  {
    SortKeepsAll(cs);
    assert c in multiset(SortedDesc(cs)) <==> c in multiset(cs);
  }

  // ---------------------------------------------------------------- approximate search

  lemma DistinctConcat(a: seq<Chunk>, b: seq<Chunk>)
    requires Distinct(a) && Distinct(b) && forall j | 0 <= j < |b| :: b[j].id !in Ids(a)
    ensures Distinct(a + b)
  {
    forall i, j | 0 <= i < j < |a + b| ensures (a + b)[i].id != (a + b)[j].id {
      if i < |a| <= j { assert b[j - |a|].id !in Ids(a); assert a[i].id in Ids(a); }
    }
  }

  lemma {:induction false} InsertKeepsDistinct(cs: seq<Chunk>, c: Chunk)
    requires Distinct(cs) && forall i | 0 <= i < |cs| :: cs[i].id != c.id
    ensures Distinct(InsertAfter(cs, c)) && |InsertAfter(cs, c)| == |cs| + 1
    decreases |cs|
  {
    if cs != [] && cs[|cs| - 1].score < c.score {
      var front, last := cs[..|cs| - 1], cs[|cs| - 1];
      InsertKeepsDistinct(front, c);
      var r := InsertAfter(front, c);
      forall i | 0 <= i < |r| ensures r[i].id != last.id {
        InsertMembers(front, c, i);
        if r[i] in front {
          var j :| 0 <= j < |front| && front[j] == r[i];
          assert cs[j].id != cs[|cs| - 1].id;
        }
      }
    }
  }

  lemma {:induction false} SortKeepsDistinct(cs: seq<Chunk>)
    requires Distinct(cs)
    ensures Distinct(SortedDesc(cs)) && |SortedDesc(cs)| == |cs|
    decreases |cs|
  {
    if cs != [] {
      var front, last := cs[..|cs| - 1], cs[|cs| - 1];
      SortKeepsDistinct(front);
      var s := SortedDesc(front);
      forall i | 0 <= i < |s| ensures s[i].id != last.id {
        SortMembers(front, s[i]);
        assert s[i] in s;
        var j :| 0 <= j < |front| && front[j] == s[i];
        assert cs[j].id != cs[|cs| - 1].id;
      }
      InsertKeepsDistinct(s, last);
    }
  }

  predicate AllAbove(cs: seq<Chunk>, threshold: real) {
    forall c | c in cs :: c.score >= threshold
  }

  lemma UnionAbove(base: seq<Chunk>, extra: seq<Chunk>, seen: set<string>, threshold: real)
    requires AllAbove(base, threshold) && AllAbove(extra, threshold)
    ensures AllAbove(SortedDesc(base + Unseen(extra, seen)), threshold)
  {
    forall c | c in SortedDesc(base + Unseen(extra, seen)) ensures c.score >= threshold {
      SortMembers(base + Unseen(extra, seen), c);
      UnseenMember(extra, seen, c);
    }
  }

  /** Whatever an approximate search returns, the answer is sorted, free of duplicates, above the
      threshold, at most five longer than asked for, and keeps every base hit. */
  lemma ApproximateStillSound(base: seq<Chunk>, extra: seq<Chunk>, k: nat, threshold: real)
    requires Approximate(base, k, threshold) && Approximate(extra, 5, threshold)
    ensures var r := Merged(base, Extra(extra));
            && Sorted(r) && Distinct(r) && |r| <= k + 5 && AllAbove(r, threshold)
            && (forall c | c in base :: c in r)
  {
    var extras := Unseen(extra, Ids(base));
    UnseenIs(extra, Ids(base));
    forall j | 0 <= j < |extras| ensures extras[j].id !in Ids(base) {
      assert extras[j] in extras;
      UnseenMember(extra, Ids(base), extras[j]);
    }
    DistinctConcat(base, extras);
    SortKeepsDistinct(base + extras);
    SortIsSorted(base + extras);
    SortKeepsAll(base + extras);
    UnionAbove(base, extra, Ids(base), threshold);
    forall c | c in base ensures c in Merged(base, Extra(extra)) { SortMembers(base + extras, c); }
  }
}
