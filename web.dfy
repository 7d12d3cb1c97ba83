/** The HTTP search endpoint of the indexer (hapi-search/src/web.rs): the query parameters,
    the limit clamp, the choice between the JSON body and the compact plain-text listing,
    and the rendering of that listing.

    Serialising the response to JSON and formatting a score with three decimals (`{:.3}`)
    are library routines and are parameters. */
module Web {
  import opened Base
  import opened Strings
  import Json
  import opened Models

  const DEFAULT_LIMIT: nat := 20
  const MAX_LIMIT: nat := 100

  /** The query string of `/api/search`; absent parameters are `None`. */
  datatype SearchParams = SearchParams(
    q: string, limit: Option<nat>, offset: Option<nat>, format: Option<string>)

  /** The result of the search service: a response or an error message. */
  datatype SearchOutcome = Found(response: SearchResponse) | Failed(message: string)

  /** The three responses of the endpoint: the compact listing as `text/plain`, the
      response serialised as JSON, and a 500 error with the error's message. */
  datatype HttpResponse = PlainText(body: string) | JsonBody(value: Json.Value) | ServerError(message: string)

  /** The number of sessions asked for: the requested limit, 20 by default, at most 100. */
  function EffectiveLimit(requested: Option<nat>): (r: nat)
    ensures r <= MAX_LIMIT
    ensures requested.None? ==> r == DEFAULT_LIMIT
    ensures requested.Some? && requested.value <= MAX_LIMIT ==> r == requested.value
    ensures requested.Some? && requested.value > MAX_LIMIT ==> r == MAX_LIMIT
  {
    Min(requested.GetOr(DEFAULT_LIMIT), MAX_LIMIT)
  }

  predicate IsCompact(format: Option<string>) {
    format == Some("compact")
  }

  /** `handle_search`: run the search with the clamped limit and the offset (0 by default),
      then answer with the compact listing exactly when `format=compact`, with JSON otherwise,
      and with a server error when the search failed. */
  function HandleSearch(params: SearchParams, search: (string, nat, nat) -> SearchOutcome,
                        fmt3: real -> string, toJson: SearchResponse -> Json.Value): (r: HttpResponse)
    ensures var outcome := search(params.q, EffectiveLimit(params.limit), params.offset.GetOr(0));
      && (r.ServerError? <==> outcome.Failed?)
      && (r.ServerError? ==> r.message == outcome.message)
      && (r.PlainText? <==> outcome.Found? && IsCompact(params.format))
      && (r.PlainText? ==> r.body == CompactText(outcome.response.hits, fmt3))
      && (r.JsonBody? ==> r.value == toJson(outcome.response))
  {
    match search(params.q, EffectiveLimit(params.limit), params.offset.GetOr(0))
    case Found(response) =>
      if IsCompact(params.format) then PlainText(CompactText(response.hits, fmt3))
      else JsonBody(toJson(response))
    case Failed(message) => ServerError(message)
  }

  // ------------------------------------------------------------ compact listing

  predicate IsLineBreak(c: char) {
    c == '\n' || c == '\r'
  }

  predicate NotLineBreak(c: char) {
    !IsLineBreak(c)
  }

  predicate IsNewline(c: char) {
    c == '\n'
  }

  /** The hit text with `<mark>` removed, then `</mark>` removed. */
  function StripMarks(text: string): (r: string)
    ensures |r| <= |text|
  {
    RemoveAll(RemoveAll(text, "<mark>"), "</mark>")
  }

  /** A highlighted word loses its marks and the text around it is kept. */
  lemma StripMarksHighlight(before: string, word: string, after: string)
    requires forall i | 0 <= i < |before| :: before[i] != '<'
    requires forall i | 0 <= i < |word| :: word[i] != '<'
    requires forall i | 0 <= i < |after| :: after[i] != '<'
    ensures StripMarks(before + "<mark>" + word + "</mark>" + after) == before + word + after
  {
    DropOpenMark(before, word, after);
    DropCloseMark(before + word, after);
  }

  /** The opening mark after `before` goes; the closing mark stays. */
  lemma DropOpenMark(before: string, word: string, after: string)
    requires forall i | 0 <= i < |before| :: before[i] != '<'
    requires forall i | 0 <= i < |word| :: word[i] != '<'
    requires forall i | 0 <= i < |after| :: after[i] != '<'
    ensures RemoveAll(before + "<mark>" + word + "</mark>" + after, "<mark>")
      == before + word + "</mark>" + after
  {
    var open, close := "<mark>", "</mark>";
    var head := before + open;
    MarkShapes();
    calc {
      RemoveAll(before + open + word + close + after, open);
      { AppendAssoc(head, word, close); AppendAssoc(head, word + close, after); }
      RemoveAll(before + open + (word + close + after), open);
      { DropFirst(before, word + close + after, open); }
      before + RemoveAll(word + close + after, open);
      { NoOpenInRest(word, after); }
      before + (word + close + after);
      { AppendAssoc(before, word + close, after); AppendAssoc(before, word, close); }
      before + word + close + after;
    }
  }

  /** Past the opening mark, only the closing mark holds a '<', and it is no opening mark. */
  lemma NoOpenInRest(word: string, after: string)
    requires forall i | 0 <= i < |word| :: word[i] != '<'
    requires forall i | 0 <= i < |after| :: after[i] != '<'
    ensures RemoveAll(word + "</mark>" + after, "<mark>") == word + "</mark>" + after
  {
    MarkShapes();
    NoMarkBut(word, "</mark>", after, "<mark>");
  }

  /** Both marks start with their only '<', and they differ in the next character. */
  lemma MarkShapes()
    ensures forall i | 1 <= i < |"<mark>"| :: "<mark>"[i] != '<'
    ensures forall i | 1 <= i < |"</mark>"| :: "</mark>"[i] != '<'
    ensures "</mark>"[1] != "<mark>"[1]
  {
  }

  /** The closing mark after `text` goes. */
  lemma DropCloseMark(text: string, after: string)
    requires forall i | 0 <= i < |text| :: text[i] != '<'
    requires forall i | 0 <= i < |after| :: after[i] != '<'
    ensures RemoveAll(text + "</mark>" + after, "</mark>") == text + after
  {
    var close := "</mark>";
    DropFirst(text, after, close);
    NoMarkBut([], [], after, close);
    assert [] + [] + after == after;
  }

  /** The first occurrence of a mark after text without '<' is removed. */
  lemma DropFirst(before: string, rest: string, mark: string)
    requires |mark| > 1 && mark[0] == '<' && forall i | 1 <= i < |mark| :: mark[i] != '<'
    requires forall i | 0 <= i < |before| :: before[i] != '<'
    ensures RemoveAll(before + mark + rest, mark) == before + RemoveAll(rest, mark)
  {
    NoMarkInPrefix(before, mark);
    RemoveAllFirst(before, mark, rest);
  }

  /** No occurrence of `mark` can start at index `i` of `s`: it would not fit, or one of its
      first two characters differs. */
  predicate NoMarkAt(s: string, mark: string, i: nat)
    requires |mark| > 1 && i < |s|
  {
    i + |mark| > |s| || s[i] != mark[0] || s[i + 1] != mark[1]
  }

  /** A text where no position can start the mark does not contain it. */
  lemma {:induction false} NoMarkAnywhere(s: string, mark: string)
    requires |mark| > 1 && forall i | 0 <= i < |s| :: NoMarkAt(s, mark, i)
    ensures !Contains(s, mark)
    decreases |s|
  {
    if |s| > 0 {
      if |mark| <= |s| {
        assert NoMarkAt(s, mark, 0);
        assert s[..|mark|][0] == s[0] && s[..|mark|][1] == s[1];
      }
      forall i | 0 <= i < |s| - 1
        ensures NoMarkAt(s[1..], mark, i)
      {
        assert NoMarkAt(s, mark, i + 1);
      }
      NoMarkAnywhere(s[1..], mark);
    }
  }

  /** Text without '<' around a piece whose only '<' is its first character, followed by
      something other than the mark's second character, holds no mark. */
  lemma NoMarkBut(a: string, b: string, c: string, mark: string)
    requires |mark| > 1 && mark[0] == '<'
    requires forall i | 0 <= i < |a| :: a[i] != '<'
    requires forall i | 0 <= i < |c| :: c[i] != '<'
    requires forall i | 1 <= i < |b| :: b[i] != '<'
    requires |b| > 0 ==> |b| > 1 && b[1] != mark[1]
    ensures RemoveAll(a + b + c, mark) == a + b + c
  {
    var s := a + b + c;
    forall i | 0 <= i < |s|
      ensures NoMarkAt(s, mark, i)
    {
      if i < |a| {
        assert s[i] == a[i];
      } else if i == |a| {
        if |b| > 0 {
          assert s[i + 1] == b[1];
        } else if i < |s| {
          assert s[i] == c[0];
        }
      } else if i < |a| + |b| {
        assert s[i] == b[i - |a|];
      } else {
        assert s[i] == c[i - |a| - |b|];
      }
    }
    NoMarkAnywhere(s, mark);
  }

  /** Text without '<', followed by all but the last character of a mark whose only '<'
      comes first, holds no mark. */
  lemma NoMarkInPrefix(x: string, mark: string)
    requires |mark| > 1 && mark[0] == '<' && forall i | 1 <= i < |mark| :: mark[i] != '<'
    requires forall i | 0 <= i < |x| :: x[i] != '<'
    ensures !Contains((x + mark)[..|x| + |mark| - 1], mark)
  {
    var t := (x + mark)[..|x| + |mark| - 1];
    forall i | 0 <= i < |t|
      ensures NoMarkAt(t, mark, i)
    {
      if i < |x| {
        assert t[i] == x[i];
      } else if i > |x| {
        assert t[i] == mark[i - |x|];
      }
    }
    NoMarkAnywhere(t, mark);
  }
  /** The hit text as listed: marks stripped, line breaks dropped, at most 80 characters. */
  function CleanText(text: string): (r: string)
    ensures |r| <= 80
    ensures forall i | 0 <= i < |r| :: !IsLineBreak(r[i])
    ensures var kept := Filter(NotLineBreak, StripMarks(text));
      |r| == Min(80, |kept|) && r == kept[..|r|]
  {
    var kept := Filter(NotLineBreak, StripMarks(text));
    kept[..Min(80, |kept|)]
  }

  /** A short text without marks or line breaks is listed as it is. */
  lemma CleanTextKeepsPlain(text: string)
    requires !Contains(text, "<mark>") && !Contains(text, "</mark>")
    requires |text| <= 80 && forall i | 0 <= i < |text| :: !IsLineBreak(text[i])
    ensures CleanText(text) == text
  {
    assert StripMarks(text) == text;
    FilterAll(NotLineBreak, text);
  }

  /** A score with three decimals, or "-" when the hit has none. */
  function ScoreText(score: Option<real>, fmt3: real -> string): (r: string)
    ensures score.None? ==> r == "-"
    ensures score.Some? ==> r == fmt3(score.value)
  {
    if score.Some? then fmt3(score.value) else "-"
  }

  /** The first line of hit number `i + 1`: its number, session name, scores and text. */
  function HeaderLine(i: nat, hit: SearchHit, fmt3: real -> string): string {
    NatToString(i + 1) + ". [" + hit.session.name + "] (sem=" + ScoreText(hit.semanticScore, fmt3)
    + " kw=" + ScoreText(hit.keywordScore, fmt3) + ") " + CleanText(hit.text)
  }

  /** The second line of a hit: its session URL, indented by three spaces. */
  function UrlLine(hit: SearchHit): string {
    "   " + hit.session.url
  }

  /** The two lines of hit number `i + 1`. */
  function HitBlock(i: nat, hit: SearchHit, fmt3: real -> string): string {
    HeaderLine(i, hit, fmt3) + "\n" + UrlLine(hit) + "\n"
  }

  /** The lines of the first `n` hits. */
  function Blocks(hits: seq<SearchHit>, n: nat, fmt3: real -> string): string
    requires n <= |hits|
  {
    if n == 0 then [] else Blocks(hits, n - 1, fmt3) + HitBlock(n - 1, hits[n - 1], fmt3)
  }

  const NO_RESULTS: string := "No results found.\n"

  /** What `format_compact` writes. */
  function CompactText(hits: seq<SearchHit>, fmt3: real -> string): (r: string)
    ensures hits == [] ==> r == NO_RESULTS
  {
    Blocks(hits, |hits|, fmt3) + (if hits == [] then NO_RESULTS else [])
  }

  /** `format_compact`: writes each hit's two lines to `out`, then the no-results line when
      there were no hits. */
  method FormatCompact(hits: seq<SearchHit>, fmt3: real -> string) returns (out: string)
    ensures out == CompactText(hits, fmt3)
  {
    out := [];
    for i := 0 to |hits|
      invariant out == Blocks(hits, i, fmt3)
    {
      ghost var before := out;
      out := out + HeaderLine(i, hits[i], fmt3) + "\n";
      out := out + UrlLine(hits[i]) + "\n";
      AppendAssoc5(before, HeaderLine(i, hits[i], fmt3), "\n", UrlLine(hits[i]), "\n");
    }
    if |hits| == 0 {
      out := out + NO_RESULTS;
    }
  }

  /** The listing of the first `k` hits is where the listing of the first `n` starts: hits
      are listed in order, numbered from 1. */
  lemma {:induction false} BlocksPrefix(hits: seq<SearchHit>, k: nat, n: nat, fmt3: real -> string)
    requires k <= n <= |hits|
    ensures IsPrefix(Blocks(hits, k, fmt3), Blocks(hits, n, fmt3))
    decreases n - k
  {
    if k < n {
      BlocksPrefix(hits, k, n - 1, fmt3);
      PrefixExtends(Blocks(hits, k, fmt3), Blocks(hits, n - 1, fmt3), HitBlock(n - 1, hits[n - 1], fmt3));
    }
  }

  function Newlines(s: string): nat {
    |Filter(IsNewline, s)|
  }

  lemma NewlinesAppend(a: string, b: string)
    ensures Newlines(a + b) == Newlines(a) + Newlines(b)
  {
    FilterAppend(IsNewline, a, b);
  }

  lemma NoNewlines(s: string)
    requires forall i | 0 <= i < |s| :: s[i] != '\n'
    ensures Newlines(s) == 0
  {
    FilterEmptyIff(IsNewline, s);
  }

  /** The text a hit contributes to its lines, apart from its number and the cleaned text. */
  predicate SingleLineFields(hit: SearchHit, fmt3: real -> string) {
    && (forall i | 0 <= i < |hit.session.name| :: hit.session.name[i] != '\n')
    && (forall i | 0 <= i < |hit.session.url| :: hit.session.url[i] != '\n')
    && (forall i | 0 <= i < |ScoreText(hit.semanticScore, fmt3)| :: ScoreText(hit.semanticScore, fmt3)[i] != '\n')
    && (forall i | 0 <= i < |ScoreText(hit.keywordScore, fmt3)| :: ScoreText(hit.keywordScore, fmt3)[i] != '\n')
  }

  /** A hit whose name, URL and scores hold no newline is listed on exactly two lines. */
  lemma HitBlockTwoLines(i: nat, hit: SearchHit, fmt3: real -> string)
    requires SingleLineFields(hit, fmt3)
    ensures Newlines(HitBlock(i, hit, fmt3)) == 2
  {
    var head := HeaderLine(i, hit, fmt3);
    var tail := UrlLine(hit);
    var num := NatToString(i + 1);
    assert forall k | 0 <= k < |num| :: IsAsciiDigit(num[k]);
    NoNewlines(head);
    NoNewlines(tail);
    NewlinesAppend(head, "\n");
    NewlinesAppend(head + "\n", tail);
    NewlinesAppend(head + "\n" + tail, "\n");
    OneNewline();
  }

  lemma OneNewline()
    ensures Newlines("\n") == 1
  {
    FilterSingle(IsNewline, '\n');
  }

  /** With single-line fields, the listing has two lines per hit, or the single no-results
      line when there are none. */
  lemma {:induction false} CompactLineCount(hits: seq<SearchHit>, fmt3: real -> string)
    requires forall k | 0 <= k < |hits| :: SingleLineFields(hits[k], fmt3)
    ensures Newlines(CompactText(hits, fmt3)) == if hits == [] then 1 else 2 * |hits|
  {
    if hits == [] {
      var body := "No results found.";
      NoNewlines(body);
      assert NO_RESULTS == body + "\n";
      NewlinesAppend(body, "\n");
      OneNewline();
    } else {
      BlocksLineCount(hits, |hits|, fmt3);
      AppendEmpty(Blocks(hits, |hits|, fmt3));
    }
  }

  lemma {:induction false} BlocksLineCount(hits: seq<SearchHit>, n: nat, fmt3: real -> string)
    requires n <= |hits|
    requires forall k | 0 <= k < |hits| :: SingleLineFields(hits[k], fmt3)
    ensures Newlines(Blocks(hits, n, fmt3)) == 2 * n
  {
    if n > 0 {
      BlocksLineCount(hits, n - 1, fmt3);
      HitBlockTwoLines(n - 1, hits[n - 1], fmt3);
      NewlinesAppend(Blocks(hits, n - 1, fmt3), HitBlock(n - 1, hits[n - 1], fmt3));
    }
  }
}
