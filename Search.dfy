/** The tutor search of the main screen (handleSearch): a local substring filter over the
    catalog, merged with an ordered id list from an external ranking service. The ranking
    service is a parameter; it either returns ids or throws. */
module Search {
  import opened Types
  import opened Text
  import opened Seqs

  /** What the ranking call produced. */
  datatype RankResult = Ranked(ids: seq<string>) | Threw

  /** The signature of the ranking service: query and catalog in, ranked ids (or a throw) out. */
  type Ranker = (string, seq<Tutor>) -> RankResult

  /** The query as the search uses it: lower-cased, then trimmed. */
  function NormalizeQuery(raw: string): (r: string)
    ensures |r| <= |raw|
    ensures r == [] || (!IsWhitespace(r[0]) && !IsWhitespace(r[|r| - 1]))
    ensures TrimmedFrom(ToLower(raw), r)
  {
    Trim(ToLower(raw))
  }

  predicate SomeSubjectContains(subjects: seq<string>, q: string) {
    exists i :: 0 <= i < |subjects| && Contains(ToLower(subjects[i]), q)
  }

  predicate SomeTranscriptContains(transcript: seq<Grade>, q: string) {
    exists i :: 0 <= i < |transcript| && Contains(ToLower(transcript[i].subject), q)
  }

  /** The local criterion: the query occurs in the name, a subject, the school or a transcript subject. */
  predicate LocalMatch(q: string, t: Tutor) {
    Contains(ToLower(t.name), q) || SomeSubjectContains(t.subjects, q) ||
    Contains(ToLower(t.school), q) || SomeTranscriptContains(t.transcript, q)
  }

  /** The narrower criterion of the error path: name or subjects only. */
  predicate FallbackMatch(q: string, t: Tutor) {
    Contains(ToLower(t.name), q) || SomeSubjectContains(t.subjects, q)
  }

  function LocalMatches(catalog: seq<Tutor>, q: string): (r: seq<Tutor>)
    ensures forall i :: 0 <= i < |r| ==> r[i] in catalog && LocalMatch(q, r[i])
  {
    Filter(catalog, t => LocalMatch(q, t))
  }

  function FallbackMatches(catalog: seq<Tutor>, q: string): (r: seq<Tutor>)
    ensures forall i :: 0 <= i < |r| ==> r[i] in catalog && FallbackMatch(q, r[i])
  {
    Filter(catalog, t => FallbackMatch(q, t))
  }

  /** Array.prototype.indexOf: the first position of `id`, or -1 when it does not occur. */
  function IndexOf(ids: seq<string>, id: string): (r: int)
    ensures r == -1 <==> id !in ids
    ensures r != -1 ==> 0 <= r < |ids| && ids[r] == id
    ensures forall k :: 0 <= k < r ==> ids[k] != id
  {
    if ids == [] then -1
    else if ids[0] == id then 0
    else
      var k := IndexOf(ids[1..], id);
      if k == -1 then -1 else k + 1
  }

  /** The catalog entries the ranker named, ordered by the position of their id in its list. */
  function RankedMatches(catalog: seq<Tutor>, ranked: seq<string>): (r: seq<Tutor>)
    ensures forall i :: 0 <= i < |r| ==> r[i] in catalog && r[i].id in ranked
  {
    var inRanked := (t: Tutor) => t.id in ranked;
    var named := Filter(catalog, inRanked);
    var sorted := SortBy(named, (t: Tutor) => IndexOf(ranked, t.id));
    FilterMembers(catalog, inRanked);
    SortByMembers(named, (t: Tutor) => IndexOf(ranked, t.id));
    sorted
  }

  function IdSet(s: seq<Tutor>): set<string> {
    set i | 0 <= i < |s| :: s[i].id
  }

  /** Ranked entries first; then the local matches whose id is not among them. */
  function Merge(catalog: seq<Tutor>, local: seq<Tutor>, ranked: seq<string>): (r: seq<Tutor>)
    ensures forall i :: 0 <= i < |r| ==> r[i] in catalog || r[i] in local
  {
    if |ranked| > 0 then
      var ai := RankedMatches(catalog, ranked);
      ai + Filter(local, (t: Tutor) => t.id !in IdSet(ai))
    else local
  }

  /** The list of tutors shown after a search for `raw`. */
  function Search(catalog: seq<Tutor>, raw: string, ranker: Ranker): (r: seq<Tutor>)
    ensures forall i :: 0 <= i < |r| ==> r[i] in catalog
  {
    var q := NormalizeQuery(raw);
    if q == [] then catalog
    else match ranker(q, catalog)
      case Threw => FallbackMatches(catalog, ToLower(raw))
      case Ranked(ids) => Merge(catalog, LocalMatches(catalog, q), ids)
  }

  // ---------------------------------------------------------------- the ranking service

  /** The ranking service's own rules: a blank query ranks the whole list in its order; a reply
      that failed (call or parse error, or no id list in it) ranks nothing. `reply` stands for
      what the remote language model answered, None on failure. */
  function MatchTutors(query: string, tutors: seq<Tutor>, reply: Option<seq<string>>): (r: seq<string>)
    ensures Trim(query) == [] ==> |r| == |tutors| && forall i :: 0 <= i < |r| ==> r[i] == tutors[i].id
    ensures Trim(query) != [] && reply.None? ==> r == []
    ensures Trim(query) != [] && reply.Some? ==> r == reply.value
  {
    if Trim(query) == [] then seq(|tutors|, i requires 0 <= i < |tutors| => tutors[i].id)
    else if reply.None? then []
    else reply.value
  }

  /** The service as the search calls it; it catches its own errors, so it never throws. */
  function ServiceRanker(model: (string, seq<Tutor>) -> Option<seq<string>>): (r: Ranker)
    ensures forall q: string, ts: seq<Tutor> :: r(q, ts).Ranked?
  {
    (q: string, ts: seq<Tutor>) => Ranked(MatchTutors(q, ts, model(q, ts)))
  }

  // ---------------------------------------------------------------- properties

  /** A blank query shows the whole catalog in catalog order, whatever the ranker would say. */
  lemma BlankQueryShowsCatalog(catalog: seq<Tutor>, raw: string, ranker: Ranker, other: Ranker)
    requires AllWhitespace(ToLower(raw)) || NormalizeQuery(raw) == []
    ensures Search(catalog, raw, ranker) == catalog
    ensures Search(catalog, raw, ranker) == Search(catalog, raw, other)
  {
    TrimEmptyIff(ToLower(raw));
  }

  /** Local matches are exactly the catalog entries meeting the local criterion, and they
      come in catalog order (matching distributes over splitting the catalog). */
  lemma LocalMatchesSpec(catalog: seq<Tutor>, q: string, t: Tutor, rest: seq<Tutor>)
    ensures t in LocalMatches(catalog, q) <==> t in catalog && LocalMatch(q, t)
    ensures LocalMatches(catalog + rest, q) == LocalMatches(catalog, q) + LocalMatches(rest, q)
  {
    FilterAppend(catalog, rest, t => LocalMatch(q, t));
  }

  /** The ranked part holds exactly the catalog entries whose id the ranker returned (unknown
      ids are ignored), ascending by the first position of the id in the ranker's list; with
      unique catalog ids that order is strict and no tutor repeats. */
  lemma RankedMatchesSpec(catalog: seq<Tutor>, ranked: seq<string>)
    ensures forall i :: 0 <= i < |RankedMatches(catalog, ranked)| ==>
      RankedMatches(catalog, ranked)[i] in catalog && RankedMatches(catalog, ranked)[i].id in ranked
    ensures forall i :: 0 <= i < |catalog| && catalog[i].id in ranked ==> catalog[i] in RankedMatches(catalog, ranked)
    ensures UniqueKeys(catalog, TutorId) ==>
      UniqueKeys(RankedMatches(catalog, ranked), TutorId) &&
      forall i, j :: 0 <= i < j < |RankedMatches(catalog, ranked)| ==>
        IndexOf(ranked, RankedMatches(catalog, ranked)[i].id) < IndexOf(ranked, RankedMatches(catalog, ranked)[j].id)
  {
    var inRanked := (t: Tutor) => t.id in ranked;
    var rank := (t: Tutor) => IndexOf(ranked, t.id);
    var named := Filter(catalog, inRanked);
    var ai := SortBy(named, rank);
    assert ai == RankedMatches(catalog, ranked);
    SortByMembers(named, rank);
    if UniqueKeys(catalog, TutorId) {
      FilterUniqueKeys(catalog, inRanked, TutorId);
      SortByUniqueKeys(named, rank, TutorId);
      forall i, j | 0 <= i < j < |ai| ensures rank(ai[i]) < rank(ai[j]) {
        assert ai[i] in multiset(named) && ai[j] in multiset(named);
        assert rank(ai[i]) <= rank(ai[j]);
        assert TutorId(ai[i]) != TutorId(ai[j]);
      }
    }
  }

  /** For a local list drawn from the catalog, "not among the ranked entries" is the same as
      "not named by the ranker": the tail of a merge is the local matches the ranker missed. */
  lemma MergeTail(catalog: seq<Tutor>, local: seq<Tutor>, ranked: seq<string>)
    requires forall i :: 0 <= i < |local| ==> local[i] in catalog
    requires |ranked| > 0
    ensures Merge(catalog, local, ranked) ==
      RankedMatches(catalog, ranked) + Filter(local, (t: Tutor) => t.id !in ranked)
  {
    var ai := RankedMatches(catalog, ranked);
    RankedMatchesSpec(catalog, ranked);
    forall i | 0 <= i < |local| ensures (local[i].id !in IdSet(ai)) == (local[i].id !in ranked) {
      var k :| 0 <= k < |catalog| && catalog[k] == local[i];
      if local[i].id in ranked {
        var j :| 0 <= j < |ai| && ai[j] == local[i];
        assert local[i].id == ai[j].id;
      }
    }
    FilterCongruent(local, (t: Tutor) => t.id !in IdSet(ai), (t: Tutor) => t.id !in ranked);
  }

  /** With a non-empty ranking, a tutor is shown exactly when it is a catalog entry that the
      ranker named or that matches locally. */
  lemma RankedSearchMembers(catalog: seq<Tutor>, raw: string, ranker: Ranker, ids: seq<string>, t: Tutor)
    requires NormalizeQuery(raw) != []
    requires ranker(NormalizeQuery(raw), catalog) == Ranked(ids) && |ids| > 0
    ensures t in Search(catalog, raw, ranker) <==>
      t in catalog && (t.id in ids || LocalMatch(NormalizeQuery(raw), t))
  {
    var q := NormalizeQuery(raw);
    var local := LocalMatches(catalog, q);
    var ai := RankedMatches(catalog, ids);
    var tail := Filter(local, (u: Tutor) => u.id !in ids);
    MergeTail(catalog, local, ids);
    RankedMatchesSpec(catalog, ids);
    assert Search(catalog, raw, ranker) == ai + tail;
    if t in catalog && LocalMatch(q, t) && t.id !in ids {
      var k :| 0 <= k < |catalog| && catalog[k] == t;
      var m :| 0 <= m < |local| && local[m] == t;
    }
    if t in catalog && t.id in ids {
      var k :| 0 <= k < |catalog| && catalog[k] == t;
    }
    if t in tail {
      var k :| 0 <= k < |tail| && tail[k] == t;
    }
  }

  /** An empty ranking leaves exactly the local matches. */
  lemma EmptyRankingGivesLocalMatches(catalog: seq<Tutor>, raw: string, ranker: Ranker)
    requires NormalizeQuery(raw) != []
    requires ranker(NormalizeQuery(raw), catalog) == Ranked([])
    ensures Search(catalog, raw, ranker) == LocalMatches(catalog, NormalizeQuery(raw))
  {
  }

  /** When the ranker throws, the result is the name-or-subject filter with the lower-cased but
      untrimmed query; the school and the transcript are not consulted. */
  lemma ThrowGivesFallback(catalog: seq<Tutor>, raw: string, ranker: Ranker, t: Tutor)
    requires NormalizeQuery(raw) != []
    requires ranker(NormalizeQuery(raw), catalog) == Threw
    ensures Search(catalog, raw, ranker) == FallbackMatches(catalog, ToLower(raw))
    ensures t in Search(catalog, raw, ranker) <==>
      t in catalog && (Contains(ToLower(t.name), ToLower(raw)) || SomeSubjectContains(t.subjects, ToLower(raw)))
  {
    if t in catalog && FallbackMatch(ToLower(raw), t) {
      var k :| 0 <= k < |catalog| && catalog[k] == t;
    }
  }

  /** A query that begins one of a tutor's lower-cased subjects meets both the local and the
      error-path criterion. */
  lemma SubjectPrefixMatches(q: string, t: Tutor, k: nat)
    requires k < |t.subjects| && q <= ToLower(t.subjects[k])
    ensures LocalMatch(q, t) && FallbackMatch(q, t)
  {
    assert Contains(ToLower(t.subjects[k]), q);
  }

  /** A tutor meeting both the local and the error-path criterion is shown whatever the
      ranker does. */
  lemma MatchingTutorShown(catalog: seq<Tutor>, raw: string, ranker: Ranker, t: Tutor)
    requires t in catalog && NormalizeQuery(raw) != []
    requires LocalMatch(NormalizeQuery(raw), t) && FallbackMatch(ToLower(raw), t)
    ensures t in Search(catalog, raw, ranker)
  {
    match ranker(NormalizeQuery(raw), catalog)
    case Threw =>
      ThrowGivesFallback(catalog, raw, ranker, t);
    case Ranked(ids) =>
      if |ids| > 0 {
        RankedSearchMembers(catalog, raw, ranker, ids, t);
      } else {
        var k :| 0 <= k < |catalog| && catalog[k] == t;
      }
  }

  /** A catalog entry one of whose subjects begins with the query is shown whatever the
      ranker does, provided the query has no surrounding white space. */
  lemma SubjectPrefixShown(catalog: seq<Tutor>, raw: string, ranker: Ranker, t: Tutor, k: nat)
    requires t in catalog && NormalizeQuery(raw) != [] && NormalizeQuery(raw) == ToLower(raw)
    requires k < |t.subjects| && ToLower(raw) <= ToLower(t.subjects[k])
    ensures t in Search(catalog, raw, ranker)
  {
    SubjectPrefixMatches(ToLower(raw), t, k);
    MatchingTutorShown(catalog, raw, ranker, t);
  }

  /** With unique catalog ids, no search ever shows a tutor twice. */
  lemma SearchUniqueIds(catalog: seq<Tutor>, raw: string, ranker: Ranker)
    requires UniqueKeys(catalog, TutorId)
    ensures UniqueKeys(Search(catalog, raw, ranker), TutorId)
  {
    var q := NormalizeQuery(raw);
    if q != [] {
      match ranker(q, catalog)
      case Threw =>
        FilterUniqueKeys(catalog, t => FallbackMatch(ToLower(raw), t), TutorId);
      case Ranked(ids) =>
        var local := LocalMatches(catalog, q);
        FilterUniqueKeys(catalog, t => LocalMatch(q, t), TutorId);
        if |ids| > 0 {
          var ai := RankedMatches(catalog, ids);
          var tail := Filter(local, (t: Tutor) => t.id !in IdSet(ai));
          RankedMatchesSpec(catalog, ids);
          FilterUniqueKeys(local, (t: Tutor) => t.id !in IdSet(ai), TutorId);
          forall i, j | 0 <= i < |ai| && 0 <= j < |tail| ensures TutorId(ai[i]) != TutorId(tail[j]) {
            assert ai[i].id in IdSet(ai);
          }
          UniqueKeysAppend(ai, tail, TutorId);
        }
    }
  }

  /** With the real service, a failed model call leaves exactly the local matches. */
  lemma ServiceFailureGivesLocalMatches(
    catalog: seq<Tutor>, raw: string, model: (string, seq<Tutor>) -> Option<seq<string>>)
    requires NormalizeQuery(raw) != [] && model(NormalizeQuery(raw), catalog).None?
    ensures Search(catalog, raw, ServiceRanker(model)) == LocalMatches(catalog, NormalizeQuery(raw))
  {
    NormalizedNotBlank(raw);
  }

  /** With the real service every local match is shown, whatever the model answers. */
  lemma ServiceShowsLocalMatches(
    catalog: seq<Tutor>, raw: string, model: (string, seq<Tutor>) -> Option<seq<string>>, t: Tutor)
    requires NormalizeQuery(raw) != [] && t in catalog && LocalMatch(NormalizeQuery(raw), t)
    ensures t in Search(catalog, raw, ServiceRanker(model))
  {
    var q := NormalizeQuery(raw);
    var ids := MatchTutors(q, catalog, model(q, catalog));
    if |ids| > 0 {
      RankedSearchMembers(catalog, raw, ServiceRanker(model), ids, t);
    } else {
      var k :| 0 <= k < |catalog| && catalog[k] == t;
    }
  }

  /** A normalized query that is not empty is not blank either. */
  lemma NormalizedNotBlank(raw: string)
    requires NormalizeQuery(raw) != []
    ensures Trim(NormalizeQuery(raw)) != []
  {
    TrimKeepsNonBlank(NormalizeQuery(raw));
  }
}
