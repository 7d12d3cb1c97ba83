/** Session-grouped search (hapi-search/src/search.rs): the index is asked for more hits
    than requested, the hits are grouped into one best hit per session, the sessions are
    ranked and a page of them is returned.

    The query embedding and the index search happen over the network; the model takes the
    index's answer for a given fetch limit as a function parameter. Scores are exact reals.
    Unicode lower-casing is a library routine and is a parameter too. */
module Search {
  import opened Base
  import opened Strings
  import opened Json
  import opened Models

  /** One hit as the index returns it: the stored document, the highlighted text and the
      ranking score. */
  datatype MeiliHit = MeiliHit(result: Value, highlightedText: string, rankingScore: real)

  datatype MeiliSearchResult = MeiliSearchResult(
    hits: seq<MeiliHit>, estimatedTotalHits: nat, processingTimeMs: nat)

  /** How many hits to fetch for `limit` sessions: five per session, at least 50, at most 200. */
  function FetchLimit(limit: nat): (r: nat)
    ensures 50 <= r <= 200
    ensures limit <= 10 ==> r == 50
    ensures 10 <= limit <= 40 ==> r == 5 * limit
    ensures 40 <= limit ==> r == 200
  {
    Min(Max(limit * 5, 50), 200)
  }

  // ------------------------------------------------------------ name boost

  /** The characters the query is split on: whitespace, ',' and the ideographic comma. */
  predicate IsTokenSeparator(c: char) {
    IsWhitespace(c) || c == ',' || c == '\U{3001}'
  }

  /** `str::split` on `IsTokenSeparator`: the pieces between separators, empty ones included. */
  function SplitQuery(s: string): (r: seq<string>)
    ensures |r| > 0
    ensures forall k | 0 <= k < |r| :: forall i | 0 <= i < |r[k]| :: !IsTokenSeparator(r[k][i])
    decreases |s|
  {
    if |s| == 0 then [""]
    else
      var rest := SplitQuery(s[1..]);
      if IsTokenSeparator(s[0]) then [""] + rest
      else [[s[0]] + rest[0]] + rest[1..]
  }

  /** `s` with every separator replaced by a space. */
  function SeparatorsToSpaces(s: string): (r: string)
    ensures |r| == |s|
  {
    seq(|s|, i requires 0 <= i < |s| => if IsTokenSeparator(s[i]) then ' ' else s[i])
  }

  lemma JoinConsFirst(c: char, parts: seq<string>, sep: string)
    requires |parts| > 0
    ensures Join([[c] + parts[0]] + parts[1..], sep) == [c] + Join(parts, sep)
  {
    var head := [[c] + parts[0]] + parts[1..];
    assert head[1..] == parts[1..];
  }

  /** Splitting loses only the separators: joining the pieces with spaces gives the query
      with each separator turned into a space. */
  lemma {:induction false} SplitQueryJoin(s: string)
    ensures Join(SplitQuery(s), " ") == SeparatorsToSpaces(s)
    decreases |s|
  {
    if |s| > 0 {
      var rest := SplitQuery(s[1..]);
      SplitQueryJoin(s[1..]);
      assert SeparatorsToSpaces(s) == SeparatorsToSpaces(s[..1]) + SeparatorsToSpaces(s[1..]);
      if IsTokenSeparator(s[0]) {
        assert ([""] + rest)[1..] == rest;
      } else {
        JoinConsFirst(s[0], rest, " ");
      }
    }
  }

  /** The number of bytes of `c` in UTF-8. */
  function Utf8Width(c: char): nat {
    if c < '\U{80}' then 1 else if c < '\U{800}' then 2 else if c < '\U{10000}' then 3 else 4
  }

  /** `str::len`: the UTF-8 byte length. */
  function Utf8Len(s: string): (r: nat)
    ensures |s| <= r <= 4 * |s|
  {
    if |s| == 0 then 0 else Utf8Len(s[..|s| - 1]) + Utf8Width(s[|s| - 1])
  }

  /** A query token is kept when it is longer than two bytes. */
  predicate IsToken(t: string) {
    t != [] && Utf8Len(t) > 2
  }

  function QueryTokens(queryLower: string): (r: seq<string>)
    ensures forall k | 0 <= k < |r| :: Utf8Len(r[k]) > 2
  {
    Filter(IsToken, SplitQuery(queryLower))
  }

  /** The tokens that occur in the lower-cased name. */
  function MatchedTokens(nameLower: string, tokens: seq<string>): (r: seq<string>)
    ensures |r| <= |tokens|
  {
    Filter((t: string) => Contains(nameLower, t), tokens)
  }

  /** `compute_name_boost`: 0.02 times the share of query tokens that occur in the
      lower-cased session name; 0 for an empty name or when the query has no token. */
  function NameBoost(sessionName: string, queryLower: string, toLower: string -> string): (r: real)
    ensures 0.0 <= r <= 0.02
    ensures sessionName == [] || QueryTokens(queryLower) == [] ==> r == 0.0
  {
    if sessionName == [] then 0.0
    else
      var tokens := QueryTokens(queryLower);
      if tokens == [] then 0.0
      else
        var matched := |MatchedTokens(toLower(sessionName), tokens)|;
        RatioBound(matched, |tokens|);
        (matched as real / |tokens| as real) * 0.02
  }

  lemma RatioBound(m: nat, t: nat)
    requires 0 < t && m <= t
    ensures 0.0 <= (m as real / t as real) * 0.02 <= 0.02
  {
    assert m as real / t as real <= 1.0;
  }

  /** A name containing every query token gets the full boost. */
  lemma NameBoostFull(sessionName: string, queryLower: string, toLower: string -> string)
    requires sessionName != [] && QueryTokens(queryLower) != []
    requires forall t | t in QueryTokens(queryLower) :: Contains(toLower(sessionName), t)
    ensures NameBoost(sessionName, queryLower, toLower) == 0.02
  {
    var tokens := QueryTokens(queryLower);
    var nameLower := toLower(sessionName);
    var p := (t: string) => Contains(nameLower, t);
    assert forall i | 0 <= i < |tokens| :: p(tokens[i]);
    FilterAll(p, tokens);
    FullRatio(|tokens|);
  }

  lemma FullRatio(t: nat)
    requires t > 0
    ensures (t as real / t as real) * 0.02 == 0.02
  {
  }

  /** A name containing no query token gets no boost. */
  lemma NameBoostNone(sessionName: string, queryLower: string, toLower: string -> string)
    requires forall t | t in QueryTokens(queryLower) :: !Contains(toLower(sessionName), t)
    ensures NameBoost(sessionName, queryLower, toLower) == 0.0
  {
    var tokens := QueryTokens(queryLower);
    var nameLower := toLower(sessionName);
    FilterEmptyIff((t: string) => Contains(nameLower, t), tokens);
  }

  // ------------------------------------------------------------ hits

  /** The service's base URL, with trailing slashes trimmed once at construction. */
  function ServiceUrl(hapiUrl: string): string {
    TrimEndMatches(hapiUrl, '/')
  }

  function SessionUrl(base: string, sessionId: string): string {
    base + "/sessions/" + sessionId
  }

  /** A string field of the stored document, "" when absent or not a string. */
  function DocString(hit: MeiliHit, key: string): string {
    StrField(hit.result, key).GetOr("")
  }

  /** An integer field of the stored document, 0 when absent or not an `i64`. */
  function DocInt(hit: MeiliHit, key: string): int {
    var v := hit.result.Get(key);
    if v.Some? then v.value.AsI64().GetOr(0) else 0
  }

  /** The result hit built from an index hit: its score is the ranking score plus the name
      boost. */
  function MakeHit(hit: MeiliHit, base: string, queryLower: string, toLower: string -> string): SearchHit {
    var sessionId := DocString(hit, "sessionId");
    var sessionName := DocString(hit, "sessionName");
    SearchHit(
      hit.highlightedText, DocString(hit, "role"), DocString(hit, "messageId"),
      DocInt(hit, "seq"), DocInt(hit, "createdAt"),
      SearchHitSession(sessionId, sessionName, DocString(hit, "sessionPath"),
                       DocString(hit, "sessionFlavor"), SessionUrl(base, sessionId)),
      hit.rankingScore + NameBoost(sessionName, queryLower, toLower), None, None)
  }

  /** A hit's score exceeds its ranking score by at most 0.02; its URL is the trimmed base
      URL, "/sessions/" and the session id, and a missing session id counts as "". */
  lemma HitShape(hit: MeiliHit, hapiUrl: string, queryLower: string, toLower: string -> string)
    ensures var h := MakeHit(hit, ServiceUrl(hapiUrl), queryLower, toLower);
      && hit.rankingScore <= h.score <= hit.rankingScore + 0.02
      && h.session.url == ServiceUrl(hapiUrl) + "/sessions/" + h.session.id
      && (ServiceUrl(hapiUrl) == [] || ServiceUrl(hapiUrl)[|ServiceUrl(hapiUrl)| - 1] != '/')
      && (StrField(hit.result, "sessionId").None? ==> h.session.id == [])
  {
  }

  function Hits(raw: seq<MeiliHit>, base: string, queryLower: string, toLower: string -> string): (r: seq<SearchHit>)
    ensures |r| == |raw|
  {
    seq(|raw|, i requires 0 <= i < |raw| => MakeHit(raw[i], base, queryLower, toLower))
  }

  // ------------------------------------------------------------ grouping

  /** One session's entry: its best hit and the number of hits it had. */
  datatype SessionGroup = SessionGroup(bestHit: SearchHit, chunkCount: nat)

  /** How many hits belong to session `sid`. */
  function Count(hits: seq<SearchHit>, sid: string): nat {
    if |hits| == 0 then 0
    else Count(hits[..|hits| - 1], sid) + (if hits[|hits| - 1].session.id == sid then 1 else 0)
  }

  /** The best hit of session `sid`: a later hit replaces it only with a strictly greater score. */
  function Best(hits: seq<SearchHit>, sid: string): (r: Option<SearchHit>)
    ensures r.Some? ==> r.value.session.id == sid
  {
    if |hits| == 0 then None
    else
      var prev := Best(hits[..|hits| - 1], sid);
      var h := hits[|hits| - 1];
      if h.session.id != sid then prev
      else if prev.None? || h.score > prev.value.score then Some(h)
      else prev
  }

  /** A session has a best hit exactly when it has hits. */
  lemma {:induction false} BestExists(hits: seq<SearchHit>, sid: string)
    ensures Best(hits, sid).Some? <==> Count(hits, sid) > 0
  {
    if |hits| > 0 {
      BestExists(hits[..|hits| - 1], sid);
    }
  }

  /** No hit of the session scores more than its best hit. */
  lemma {:induction false} BestIsMaximal(hits: seq<SearchHit>, sid: string, j: nat)
    requires Best(hits, sid).Some? && j < |hits| && hits[j].session.id == sid
    ensures hits[j].score <= Best(hits, sid).value.score
  {
    var n := |hits|;
    var init := hits[..n - 1];
    if j < n - 1 {
      assert init[j] == hits[j];
      BestExists(init, sid);
      BestExists(hits, sid);
      assert Count(init, sid) > 0 by {
        CountsHit(init, sid, j);
      }
      BestIsMaximal(init, sid, j);
    }
  }

  lemma {:induction false} CountsHit(hits: seq<SearchHit>, sid: string, j: nat)
    requires j < |hits| && hits[j].session.id == sid
    ensures Count(hits, sid) > 0
  {
    var n := |hits|;
    if j < n - 1 {
      assert hits[..n - 1][j] == hits[j];
      CountsHit(hits[..n - 1], sid, j);
    }
  }

  /** The best hit is the first hit of the session to reach the greatest score: it occurs
      in the hits, and every earlier hit of the session scores strictly less. */
  lemma {:induction false} BestIsFirstMaximum(hits: seq<SearchHit>, sid: string)
    requires Best(hits, sid).Some?
    ensures exists i | 0 <= i < |hits| :: hits[i] == Best(hits, sid).value && EarlierScoreLess(hits, sid, i)
  {
    var n := |hits|;
    var init := hits[..n - 1];
    var prev := Best(init, sid);
    var best := Best(hits, sid).value;
    if prev.Some? && best == prev.value {
      BestIsFirstMaximum(init, sid);
      var i :| 0 <= i < |init| && init[i] == prev.value && EarlierScoreLess(init, sid, i);
      EarlierScoreLessPrefix(hits, sid, i);
      assert hits[i] == best;
    } else {
      assert hits[n - 1] == best;
      forall j | 0 <= j < n - 1 && hits[j].session.id == sid
        ensures hits[j].score < best.score
      {
        assert init[j] == hits[j];
        CountsHit(init, sid, j);
        BestExists(init, sid);
        BestIsMaximal(init, sid, j);
      }
      assert EarlierScoreLess(hits, sid, n - 1);
    }
  }

  /** Every hit of session `sid` before position `i` scores strictly less than hit `i`. */
  ghost predicate EarlierScoreLess(hits: seq<SearchHit>, sid: string, i: nat)
    requires i < |hits|
  {
    forall j | 0 <= j < i && hits[j].session.id == sid :: hits[j].score < hits[i].score
  }

  lemma EarlierScoreLessPrefix(hits: seq<SearchHit>, sid: string, i: nat)
    requires i < |hits| - 1 && EarlierScoreLess(hits[..|hits| - 1], sid, i)
    ensures EarlierScoreLess(hits, sid, i)
  {
    assert forall j | 0 <= j <= i :: hits[..|hits| - 1][j] == hits[j];
  }

  lemma {:induction false} NoHitsOfSession(hits: seq<SearchHit>, sid: string)
    requires Count(hits, sid) == 0
    ensures forall j | 0 <= j < |hits| :: hits[j].session.id != sid
  {
    if |hits| > 0 {
      NoHitsOfSession(hits[..|hits| - 1], sid);
      assert forall j | 0 <= j < |hits| - 1 :: hits[..|hits| - 1][j] == hits[j];
    }
  }

  /** The groups hold exactly the sessions with hits, each with its best hit and its count. */
  ghost predicate GroupsOf(groups: map<string, SessionGroup>, hits: seq<SearchHit>) {
    forall sid ::
      && (sid in groups <==> Count(hits, sid) > 0)
      && (sid in groups ==> Best(hits, sid) == Some(groups[sid].bestHit) && groups[sid].chunkCount == Count(hits, sid))
  }

  /** One step of the grouping loop: create the group with this hit and count 0 if new,
      count the hit, and make it the best if its score is strictly greater. */
  function Record(groups: map<string, SessionGroup>, h: SearchHit): map<string, SessionGroup> {
    var sid := h.session.id;
    var g := if sid in groups then groups[sid] else SessionGroup(h, 0);
    var counted := g.(chunkCount := g.chunkCount + 1);
    groups[sid := if h.score > counted.bestHit.score then counted.(bestHit := h) else counted]
  }

  lemma RecordStep(groups: map<string, SessionGroup>, hits: seq<SearchHit>, h: SearchHit)
    requires GroupsOf(groups, hits)
    ensures GroupsOf(Record(groups, h), hits + [h])
  {
    PrefixOfSnoc(hits, h);
    BestExists(hits, h.session.id);
  }

  /** The grouping loop of `search`. */
  method GroupHits(raw: seq<MeiliHit>, base: string, queryLower: string, toLower: string -> string)
    returns (groups: map<string, SessionGroup>)
    ensures GroupsOf(groups, Hits(raw, base, queryLower, toLower))
  {
    groups := map[];
    ghost var hits := Hits(raw, base, queryLower, toLower);
    for i := 0 to |raw|
      invariant GroupsOf(groups, hits[..i])
    {
      var hit := MakeHit(raw[i], base, queryLower, toLower);
      TakeSnoc(hits, i);
      RecordStep(groups, hits[..i], hit);
      var sid := hit.session.id;
      var group := if sid in groups then groups[sid] else SessionGroup(hit, 0);
      group := group.(chunkCount := group.chunkCount + 1);
      if hit.score > group.bestHit.score {
        group := group.(bestHit := hit);
      }
      groups := groups[sid := group];
    }
    WholePrefix(hits);
  }

  /** `groups.into_values()`: every group once, in an order the map does not specify. */
  method GroupValues(groups: map<string, SessionGroup>) returns (order: seq<string>, values: seq<SessionGroup>)
    ensures Distinct(order) && |values| == |order|
    ensures forall sid :: sid in groups <==> sid in order
    ensures forall k | 0 <= k < |order| :: order[k] in groups && values[k] == groups[order[k]]
  {
    var keys := groups.Keys;
    order := [];
    values := [];
    while keys != {}
      invariant Distinct(order) && |values| == |order|
      invariant forall sid :: sid in groups <==> sid in keys || sid in order
      invariant forall sid | sid in order :: sid !in keys
      invariant forall k | 0 <= k < |order| :: order[k] in groups && values[k] == groups[order[k]]
      decreases keys
    {
      var sid :| sid in keys;
      order := order + [sid];
      values := values + [groups[sid]];
      keys := keys - {sid};
    }
  }

  // ------------------------------------------------------------ ranking

  /** `a` ranks strictly before `b`: a greater best score, or an equal one and more hits. */
  predicate Ahead(a: SessionGroup, b: SessionGroup) {
    a.bestHit.score > b.bestHit.score || (a.bestHit.score == b.bestHit.score && a.chunkCount > b.chunkCount)
  }

  /** No group ranks strictly before one listed earlier. */
  predicate Ranked(s: seq<SessionGroup>) {
    forall i, j | 0 <= i < j < |s| :: !Ahead(s[j], s[i])
  }

  /** Not ranking before is transitive: the ranking key (score, count) is totally ordered. */
  lemma BehindTransitive(a: SessionGroup, b: SessionGroup, c: SessionGroup)
    requires !Ahead(a, b) && !Ahead(b, c)
    ensures !Ahead(a, c)
  {
  }

  /** Stable insertion of `g` into a ranked list: it goes after every group it does not
      rank strictly before. */
  function InsertRanked(s: seq<SessionGroup>, g: SessionGroup): (r: seq<SessionGroup>)
    ensures |r| == |s| + 1
  {
    if |s| == 0 then [g]
    else if Ahead(g, s[|s| - 1]) then InsertRanked(s[..|s| - 1], g) + [s[|s| - 1]]
    else s + [g]
  }

  /** Inserting adds exactly `g`. */
  lemma {:induction false} InsertRankedAdds(s: seq<SessionGroup>, g: SessionGroup)
    ensures multiset(InsertRanked(s, g)) == multiset(s) + multiset{g}
  {
    if |s| > 0 && Ahead(g, s[|s| - 1]) {
      SplitLast(s);
      InsertRankedAdds(s[..|s| - 1], g);
    }
  }

  /** Appending a group that ranks before none of a ranked list keeps it ranked. */
  lemma RankedSnoc(s: seq<SessionGroup>, x: SessionGroup)
    requires Ranked(s) && forall i | 0 <= i < |s| :: !Ahead(x, s[i])
    ensures Ranked(s + [x])
  {
    assert forall i | 0 <= i < |s| :: (s + [x])[i] == s[i];
  }

  /** Every group of a ranked list with `last` appended ranks no lower than `last`. */
  lemma NotAheadOfLast(s: seq<SessionGroup>, g: SessionGroup)
    requires |s| > 0 && Ranked(s) && !Ahead(g, s[|s| - 1])
    ensures forall i | 0 <= i < |s| :: !Ahead(g, s[i])
  {
    forall i | 0 <= i < |s| - 1
      ensures !Ahead(g, s[i])
    {
      BehindTransitive(g, s[|s| - 1], s[i]);
    }
  }

  /** The last group of a ranked list ranks before nothing that inserting `g` into the
      groups before it gives, when `g` ranks before it. */
  lemma LastBehindInserted(s: seq<SessionGroup>, g: SessionGroup, r0: seq<SessionGroup>)
    requires |s| > 0 && Ranked(s) && Ahead(g, s[|s| - 1]) && r0 == InsertRanked(s[..|s| - 1], g)
    ensures forall i | 0 <= i < |r0| :: !Ahead(s[|s| - 1], r0[i])
  {
    var init := s[..|s| - 1];
    var last := s[|s| - 1];
    InsertRankedAdds(init, g);
    forall i | 0 <= i < |r0|
      ensures !Ahead(last, r0[i])
    {
      assert r0[i] in multiset(r0);
      if r0[i] != g {
        assert r0[i] in multiset(init);
        var k :| 0 <= k < |init| && init[k] == r0[i];
        assert s[k] == r0[i];
      }
    }
  }

  /** Inserting into a ranked list keeps it ranked. */
  lemma {:induction false} InsertRankedRanked(s: seq<SessionGroup>, g: SessionGroup)
    requires Ranked(s)
    ensures Ranked(InsertRanked(s, g))
  {
    if |s| > 0 {
      var init := s[..|s| - 1];
      var last := s[|s| - 1];
      if Ahead(g, last) {
        InsertRankedRanked(init, g);
        LastBehindInserted(s, g, InsertRanked(init, g));
        RankedSnoc(InsertRanked(init, g), last);
      } else {
        NotAheadOfLast(s, g);
        RankedSnoc(s, g);
      }
    }
  }

  /** `sort_by` with the ranking comparator. */
  method SortGroups(groups: seq<SessionGroup>) returns (sorted: seq<SessionGroup>)
    ensures Ranked(sorted) && multiset(sorted) == multiset(groups)
  {
    sorted := [];
    for i := 0 to |groups|
      invariant Ranked(sorted) && multiset(sorted) == multiset(groups[..i])
    {
      TakeSnoc(groups, i);
      InsertRankedAdds(sorted, groups[i]);
      InsertRankedRanked(sorted, groups[i]);
      sorted := InsertRanked(sorted, groups[i]);
    }
    WholePrefix(groups);
  }

  // ------------------------------------------------------------ paging

  /** `skip(offset).take(limit)`, keeping each group's best hit. */
  function Page(groups: seq<SessionGroup>, offset: nat, limit: nat): (r: seq<SearchHit>)
    ensures |r| == Min(limit, Max(0, |groups| - offset))
    ensures forall j | 0 <= j < |r| :: r[j] == groups[offset + j].bestHit
  {
    var start := Min(offset, |groups|);
    seq(Min(limit, |groups| - start), j requires 0 <= j < Min(limit, |groups| - start) => groups[start + j].bestHit)
  }

  /** Consecutive pages fit together: a page of `a` then a page of `b` from where it ended
      is the page of `a + b`. */
  lemma PagesConcatenate(groups: seq<SessionGroup>, offset: nat, a: nat, b: nat)
    ensures Page(groups, offset, a) + Page(groups, offset + a, b) == Page(groups, offset, a + b)
  {
  }

  // ------------------------------------------------------------ search

  /** Each group is its session's entry. */
  ghost predicate Faithful(s: seq<SessionGroup>, hits: seq<SearchHit>) {
    forall k | 0 <= k < |s| ::
      Best(hits, s[k].bestHit.session.id) == Some(s[k].bestHit) && s[k].chunkCount == Count(hits, s[k].bestHit.session.id)
  }

  /** No session has two groups in `s`. */
  predicate DistinctSessions(s: seq<SessionGroup>) {
    forall i, j | 0 <= i < j < |s| :: s[i].bestHit.session.id != s[j].bestHit.session.id
  }

  /** The sessions that have a group in `s`. */
  function GroupSessions(s: seq<SessionGroup>): set<string> {
    set k | 0 <= k < |s| :: s[k].bestHit.session.id
  }

  /** The session ids of `s`. */
  function SessionIds(s: seq<SearchHit>): (r: seq<string>)
    ensures |r| == |s|
  {
    MapSeq((h: SearchHit) => h.session.id, s)
  }

  /** The distinct session ids among `hits`. */
  ghost function SessionsOf(hits: seq<SearchHit>): set<string> {
    set i | 0 <= i < |hits| :: hits[i].session.id
  }

  lemma {:induction false} SessionsOfCount(hits: seq<SearchHit>, sid: string)
    ensures sid in SessionsOf(hits) <==> Count(hits, sid) > 0
  {
    if |hits| > 0 {
      var init := hits[..|hits| - 1];
      SessionsOfCount(init, sid);
      assert SessionsOf(hits) == SessionsOf(init) + {hits[|hits| - 1].session.id} by {
        assert forall i | 0 <= i < |init| :: init[i] == hits[i];
      }
    }
  }

  lemma GroupCount(groups: map<string, SessionGroup>, hits: seq<SearchHit>, order: seq<string>)
    requires GroupsOf(groups, hits) && Distinct(order)
    requires forall sid :: sid in groups <==> sid in order
    ensures |order| == |SessionsOf(hits)|
    ensures SessionsOf(hits) == set sid | sid in order
  {
    DistinctCard(order);
    forall sid
      ensures sid in SessionsOf(hits) <==> sid in order
    {
      SessionsOfCount(hits, sid);
    }
    assert SessionsOf(hits) == set x | x in order;
  }

  /** `SearchService::search`: embed the query, fetch, group, rank and page. `embedded`
      says whether the query embedding succeeded; `index` answers the index query for a
      fetch limit, or fails. Either failure is the error result. */
  method SearchSessions(query: string, limit: nat, offset: nat, base: string, embedded: bool,
                        toLower: string -> string, index: nat -> Option<MeiliSearchResult>)
    returns (response: Option<SearchResponse>, ghost ranked: seq<SessionGroup>)
    ensures response.Some? <==> embedded && index(FetchLimit(limit)).Some?
    ensures response.Some? ==>
      var result := index(FetchLimit(limit)).value;
      var hits := Hits(result.hits, base, toLower(query), toLower);
      var r := response.value;
      && r.query == query && r.processingTimeMs == result.processingTimeMs
      && Ranked(ranked) && Faithful(ranked, hits) && |ranked| == r.totalHits
      && Distinct(ranked) && DistinctSessions(ranked) && GroupSessions(ranked) == SessionsOf(hits)
      && r.hits == Page(ranked, offset, limit)
      && r.totalHits == |SessionsOf(hits)|
      && |r.hits| == Min(limit, Max(0, r.totalHits - offset))
      && Distinct(SessionIds(r.hits))
      && (forall j | 0 <= j < |r.hits| :: Best(hits, r.hits[j].session.id) == Some(r.hits[j]))
      && (forall i, j | 0 <= i < j < |r.hits| :: r.hits[i].score >= r.hits[j].score)
  {
    ranked := [];
    if !embedded {
      return None, ranked;
    }
    var fetched := index(FetchLimit(limit));
    if fetched.None? {
      return None, ranked;
    }
    var result := fetched.value;
    var queryLower := toLower(query);
    ghost var hits := Hits(result.hits, base, queryLower, toLower);
    var groups := GroupHits(result.hits, base, queryLower, toLower);
    var order, values := GroupValues(groups);
    var sorted := SortGroups(values);
    var total := |sorted|;
    var page := Page(sorted, offset, limit);
    response := Some(SearchResponse(query, page, total, result.processingTimeMs));
    ranked := sorted;
    SearchResult(groups, hits, order, values, sorted, offset, limit);
  }

  lemma SearchResult(groups: map<string, SessionGroup>, hits: seq<SearchHit>, order: seq<string>,
                     values: seq<SessionGroup>, sorted: seq<SessionGroup>, offset: nat, limit: nat)
    requires GroupsOf(groups, hits)
    requires Distinct(order) && |values| == |order|
    requires forall sid :: sid in groups <==> sid in order
    requires forall k | 0 <= k < |order| :: order[k] in groups && values[k] == groups[order[k]]
    requires Ranked(sorted) && multiset(sorted) == multiset(values)
    ensures |sorted| == |SessionsOf(hits)| && Faithful(sorted, hits)
    ensures Distinct(sorted) && DistinctSessions(sorted) && GroupSessions(sorted) == SessionsOf(hits)
    ensures var page := Page(sorted, offset, limit);
      && Distinct(SessionIds(page))
      && (forall j | 0 <= j < |page| :: Best(hits, page[j].session.id) == Some(page[j]))
      && (forall i, j | 0 <= i < j < |page| :: page[i].score >= page[j].score)
  {
    GroupCount(groups, hits, order);
    assert |sorted| == |multiset(values)| == |values|;
    assert Faithful(values, hits);
    assert Distinct(values) by {
      forall i, j | 0 <= i < j < |values|
        ensures values[i] != values[j]
      {
        assert values[i].bestHit.session.id == order[i];
      }
    }
    DistinctPermutation(values, sorted);
    assert Faithful(sorted, hits) by {
      forall k | 0 <= k < |sorted|
        ensures Best(hits, sorted[k].bestHit.session.id) == Some(sorted[k].bestHit)
        ensures sorted[k].chunkCount == Count(hits, sorted[k].bestHit.session.id)
      {
        assert sorted[k] in multiset(values);
      }
    }
    SortedSessions(hits, order, values, sorted);
    var page := Page(sorted, offset, limit);
    forall i, j | 0 <= i < j < |page|
      ensures page[i].session.id != page[j].session.id
    {
      assert sorted[offset + i] != sorted[offset + j];
    }
  }

  /** A faithful permutation of one group per listed session has each session once, and
      exactly the listed sessions. */
  lemma SortedSessions(hits: seq<SearchHit>, order: seq<string>, values: seq<SessionGroup>,
                       sorted: seq<SessionGroup>)
    requires |values| == |order| && Distinct(sorted) && Faithful(sorted, hits)
    requires forall k | 0 <= k < |order| :: values[k].bestHit.session.id == order[k]
    requires multiset(sorted) == multiset(values)
    ensures DistinctSessions(sorted)
    ensures GroupSessions(sorted) == set sid | sid in order
  {
    forall i, j | 0 <= i < j < |sorted|
      ensures sorted[i].bestHit.session.id != sorted[j].bestHit.session.id
    {
      var a, b := sorted[i], sorted[j];
      assert Best(hits, a.bestHit.session.id) == Some(a.bestHit) && a.chunkCount == Count(hits, a.bestHit.session.id);
      assert Best(hits, b.bestHit.session.id) == Some(b.bestHit) && b.chunkCount == Count(hits, b.bestHit.session.id);
      assert a != b;
    }
    forall sid | sid in GroupSessions(sorted)
      ensures sid in order
    {
      var k :| 0 <= k < |sorted| && sorted[k].bestHit.session.id == sid;
      assert sorted[k] in multiset(values);
      var m :| 0 <= m < |values| && values[m] == sorted[k];
    }
    forall sid | sid in order
      ensures sid in GroupSessions(sorted)
    {
      var m :| 0 <= m < |order| && order[m] == sid;
      assert values[m] in multiset(sorted);
      var k :| 0 <= k < |sorted| && sorted[k] == values[m];
    }
  }
}
