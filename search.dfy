/** A work search: the query string assembled from the search parameters in
    a fixed order, the request, and the results read back from the listing. */
module Searching {
  import opened Prelude
  import opened Strings
  import opened Numbers
  import opened Js
  import opened Fetch
  import opened QueryString
  import opened Banners

  /** The constructor's parameters with their defaults; `session` says
      whether a Session object was given (the default is null). */
  datatype SearchParams = SearchParams(
    anyField: Prim := Str(""),
    title: Prim := Str(""),
    author: Prim := Str(""),
    singleChapter: Prim := Bool(false),
    wordCount: Prim := Null,
    language: Prim := Str(""),
    fandoms: Prim := Str(""),
    rating: Prim := Null,
    hits: Prim := Null,
    kudos: Prim := Null,
    crossovers: Prim := Null,
    bookmarks: Prim := Null,
    comments: Prim := Null,
    completionStatus: Prim := Null,
    page: Prim := Number(Int(1)),
    sortColumn: Prim := Str(""),
    sortDirection: Prim := Str(""),
    revisedAt: Prim := Str(""),
    characters: Prim := Str(""),
    relationships: Prim := Str(""),
    tags: Prim := Str(""),
    session: bool := false)

  /** When an optional filter is added, and what it renders: its value when
      truthy, a fixed text when truthy, or "T"/"F" whenever it is not null. */
  datatype Rule = IfTruthy | IfTruthyFixed(text: string) | IfNotNull

  datatype Filter = Filter(key: string, value: Prim, rule: Rule)

  /** The optional filters, in the order `search` tests them. */
  function Filters(p: SearchParams): seq<Filter>
  {
    [Filter("title", p.title, IfTruthy),
     Filter("creators", p.author, IfTruthy),
     Filter("single_chapter", p.singleChapter, IfTruthyFixed("1")),
     Filter("word_count", p.wordCount, IfTruthy),
     Filter("language_id", p.language, IfTruthy),
     Filter("fandom_names", p.fandoms, IfTruthy),
     Filter("character_names", p.characters, IfTruthy),
     Filter("relationship_names", p.relationships, IfTruthy),
     Filter("freeform_names", p.tags, IfTruthy),
     Filter("rating_ids", p.rating, IfTruthy),
     Filter("hits", p.hits, IfTruthy),
     Filter("kudos_count", p.kudos, IfTruthy),
     Filter("crossover", p.crossovers, IfNotNull),
     Filter("bookmarks_count", p.bookmarks, IfTruthy),
     Filter("comments_count", p.comments, IfTruthy),
     Filter("complete", p.completionStatus, IfNotNull),
     Filter("sort_column", p.sortColumn, IfTruthy),
     Filter("sort_direction", p.sortDirection, IfTruthy),
     Filter("revised_at", p.revisedAt, IfTruthy)]
  }

  predicate Included(f: Filter)
  {
    match f.rule
    case IfTruthy => Truthy(f.value)
    case IfTruthyFixed(_) => Truthy(f.value)
    case IfNotNull => f.value != Null
  }

  function Rendered(f: Filter): string
  {
    "work_search[" + f.key + "]=" +
      match f.rule
      case IfTruthy => ToStr(f.value)
      case IfTruthyFixed(text) => text
      case IfNotNull => if Truthy(f.value) then "T" else "F"
  }

  /** The fields the included filters add, in order. */
  function Kept(filters: seq<Filter>): seq<string>
  {
    if |filters| == 0 then []
    else
      var f := filters[|filters| - 1];
      Kept(filters[..|filters| - 1]) + (if Included(f) then [Rendered(f)] else [])
  }

  /** The texts `search` passes to `addField`, in call order. */
  function SearchFields(p: SearchParams): seq<string>
  {
    ["work_search[query]=" + (if Truthy(p.anyField) then ToStr(p.anyField) else "")]
      + (if !StrictEq(p.page, Number(Int(1))) then ["page=" + ToStr(p.page)] else [])
      + Kept(Filters(p))
  }

  const SearchBase := "https://archiveofourown.org/works/search?"

  /** The URL `search` requests. */
  function SearchUrl(p: SearchParams): string
  {
    SearchBase + Join(EncodeAll(SearchFields(p)), "&")
  }

  /** The field calls of `search`, made on a fresh Query. */
  method BuildQuery(texts: seq<string>) returns (q: Query)
    ensures fresh(q)
    ensures q.fields == EncodeAll(texts)
  {
    q := new Query();
    for i := 0 to |texts|
      invariant q.fields == EncodeAll(texts[..i])
    {
      EncodeAllAppend(texts[..i], texts[i]);
      assert texts[..i + 1] == texts[..i] + [texts[i]];
      q.AddField(texts[i]);
    }
    assert texts[..|texts|] == texts;
  }

  /** A listing page of search results. */
  datatype SearchPage = SearchPage(
    articles: seq<Article>,   // ol.work.index.group li[role="article"]
    heading: string)          // div.works-search.region#main h3.heading

  /** `parseInt(heading.trim().split(' ')[0], 10)`. */
  function TotalOf(heading: string): Num
  {
    ParseIntDecimal(Split(Trim(heading), " ")[0])
  }

  /** `Math.ceil(total / 20)`; with Euclidean division, (n + 19) / 20 is the
      ceiling of n / 20 for negative n too. */
  function PageCount(total: Num): Num
  {
    match total
    case Int(n) => Int((n + 19) / 20)
    case NaN => NaN
  }

  /** The response: through a Session when one is given, whose `get`
      accepts only 200, and otherwise through the search's own `get`. */
  function Fetched(p: SearchParams, net: string -> Response<SearchPage>): Result<SearchPage>
  {
    var response := net(SearchUrl(p));
    if p.session then AcceptOnly200(response) else Accept(response)
  }

  /** What `update` produces: the stubs, the total and the page count. */
  function Updated(fetched: Result<SearchPage>): Result<(seq<WorkStub>, Num, Num)>
  {
    match fetched
    case Err(e) => Err(e)
    case Ok(page) =>
      var harvest := Harvest(page.articles);
      if harvest.1.Some? then Err(harvest.1.value)
      else
        var total := TotalOf(page.heading);
        Ok((harvest.0, total, PageCount(total)))
  }

  class Search {
    var params: SearchParams
    var results: Option<seq<WorkStub>>
    var pages: Num
    var totalResults: Num

    constructor(params: SearchParams)
      ensures this.params == params
      ensures results == None && pages == Int(0) && totalResults == Int(0)
    {
      this.params := params;
      results := None;
      pages := Int(0);
      totalResults := Int(0);
    }

    /** `update`: fetch the listing, turn every article with an `h4` into a
        stub, then record the results, the total and the page count.  A
        failed request or banner leaves the search as it was.  (The "No
        results" branch tests the selection against null, which it never
        is, so it is never taken.) */
    method Update(net: string -> Response<SearchPage>) returns (o: Outcome)
      modifies this`results, this`pages, this`totalResults
      ensures o == OutcomeOf(Updated(Fetched(params, net)))
      ensures o.Pass? ==> var u := Updated(Fetched(params, net)).value;
        results == Some(u.0) && totalResults == u.1 && pages == u.2
      ensures o.Fail? ==> results == old(results) && pages == old(pages) && totalResults == old(totalResults)
    {
      var fetched := Fetched(params, net);
      o := Receive(fetched);
    }

    /** What `update` does with the response of its search. */
    method Receive(fetched: Result<SearchPage>) returns (o: Outcome)
      modifies this`results, this`pages, this`totalResults
      ensures o == OutcomeOf(Updated(fetched))
      ensures o.Pass? ==> var u := Updated(fetched).value;
        results == Some(u.0) && totalResults == u.1 && pages == u.2
      ensures o.Fail? ==> results == old(results) && pages == old(pages) && totalResults == old(totalResults)
    {
      if fetched.Err? {
        return Fail(fetched.error);
      }
      var page := fetched.value;
      var works, err := CollectArticles(page.articles);
      if err.Some? {
        return Fail(err.value);
      }
      results := Some(works);
      totalResults := TotalOf(page.heading);
      pages := PageCount(totalResults);
      o := Pass;
    }
  }

  // ---------------------------------------------------------------------
  // Properties

  lemma {:induction false} EncodeAllAppend(texts: seq<string>, text: string)
    ensures EncodeAll(texts + [text]) == EncodeAll(texts) + [EncodeURI(text)]
  {
  }

  /** The query string of a built Query is what the URL carries. */
  lemma QueryStringIsUrlTail(p: SearchParams, q: Query)
    requires q.fields == EncodeAll(SearchFields(p))
    ensures SearchUrl(p) == SearchBase + q.String()
  {
  }

  /** The first field is always the query, with "" for a falsy `any_field`. */
  lemma QueryFieldFirst(p: SearchParams)
    ensures SearchFields(p)[0] ==
      "work_search[query]=" + (if Truthy(p.anyField) then ToStr(p.anyField) else "")
  {
  }

  /** Every filter field starts "work_search[", so it is never a page field. */
  lemma {:induction false} KeptAreFilters(filters: seq<Filter>)
    ensures forall i :: 0 <= i < |Kept(filters)| ==> IsPrefix("work_search[", Kept(filters)[i])
    decreases |filters|
  {
    if |filters| > 0 {
      KeptAreFilters(filters[..|filters| - 1]);
    }
  }

  /** A field starting "page=" is present exactly when `page !== 1`, and then
      it comes right after the query field. */
  lemma PageFieldIff(p: SearchParams)
    ensures (exists i :: 0 <= i < |SearchFields(p)| && IsPrefix("page=", SearchFields(p)[i]))
      <==> !StrictEq(p.page, Number(Int(1)))
    ensures !StrictEq(p.page, Number(Int(1))) ==> SearchFields(p)[1] == "page=" + ToStr(p.page)
  {
    var fields := SearchFields(p);
    var kept := Kept(Filters(p));
    KeptAreFilters(Filters(p));
    var head := if !StrictEq(p.page, Number(Int(1))) then ["page=" + ToStr(p.page)] else [];
    var first := "work_search[query]=" + (if Truthy(p.anyField) then ToStr(p.anyField) else "");
    assert fields == [first] + head + kept;
    if StrictEq(p.page, Number(Int(1))) {
      forall i | 0 <= i < |fields| ensures !IsPrefix("page=", fields[i]) {
        if i == 0 {
          assert fields[0][0] == 'w';
        } else {
          assert fields[i] == kept[i - 1];
          assert fields[i][0] == 'w';
        }
      }
    } else {
      assert IsPrefix("page=", fields[1]);
    }
  }

  lemma {:induction false} KeptAppend(a: seq<Filter>, b: seq<Filter>)
    ensures Kept(a + b) == Kept(a) + Kept(b)
    decreases |b|
  {
    if |b| == 0 {
      assert a + b == a;
    } else {
      assert (a + b)[..|a + b| - 1] == a + b[..|b| - 1];
      KeptAppend(a, b[..|b| - 1]);
    }
  }

  /** Each filter is added exactly when its rule lets it through, in its
      fixed place: the fields are those of the filters before it, then its
      own field or nothing, then those of the filters after it. */
  lemma FilterPlace(p: SearchParams, j: nat)
    requires j < |Filters(p)|
    ensures var fs := Filters(p);
      Kept(fs) == Kept(fs[..j]) + (if Included(fs[j]) then [Rendered(fs[j])] else []) + Kept(fs[j + 1..])
  {
    var fs := Filters(p);
    assert fs == fs[..j] + [fs[j]] + fs[j + 1..];
    KeptAppend(fs[..j] + [fs[j]], fs[j + 1..]);
    KeptAppend(fs[..j], [fs[j]]);
    assert [fs[j]][..0] == [];
  }

  /** The number of fields: the query, the page when not 1, and one per
      included filter. */
  lemma {:induction false} KeptCount(filters: seq<Filter>)
    ensures |Kept(filters)| == |set i | 0 <= i < |filters| && Included(filters[i])|
    decreases |filters|
  {
    if |filters| > 0 {
      var n := |filters| - 1;
      KeptCount(filters[..n]);
      var before := set i | 0 <= i < n && Included(filters[..n][i]);
      var all := set i | 0 <= i < |filters| && Included(filters[i]);
      assert before == set i | 0 <= i < n && Included(filters[i]);
      if Included(filters[n]) {
        assert all == before + {n};
      } else {
        assert all == before;
      }
    }
  }

  /** `crossover` and `complete` test `!== null`, so an undefined value still
      adds the field, as "F". */
  lemma UndefinedCrossoverAddsF(p: SearchParams)
    requires p.crossovers == Undefined
    ensures "work_search[crossover]=F" in SearchFields(p)
  {
    var fs := Filters(p);
    FilterPlace(p, 12);
    assert Rendered(fs[12]) == "work_search[crossover]=F";
    assert Kept(fs)[|Kept(fs[..12])|] == "work_search[crossover]=F";
    assert SearchFields(p)[|SearchFields(p)| - |Kept(fs)| + |Kept(fs[..12])|] == "work_search[crossover]=F";
  }

  /** With every default, the only field is the empty query. */
  lemma DefaultFields()
    ensures SearchFields(SearchParams()) == ["work_search[query]="]
  {
    var fs := Filters(SearchParams());
    forall j | 0 <= j < |fs| ensures !Included(fs[j]) {
    }
    KeptNone(fs);
    assert "work_search[query]=" + "" == "work_search[query]=";
  }

  lemma {:induction false} KeptNone(filters: seq<Filter>)
    requires forall j :: 0 <= j < |filters| ==> !Included(filters[j])
    ensures Kept(filters) == []
    decreases |filters|
  {
    if |filters| > 0 {
      KeptNone(filters[..|filters| - 1]);
    }
  }

  /** The page count is the smallest number of twenty-result pages that
      holds the total: 20 * (pages - 1) < total <= 20 * pages. */
  lemma PageCountBounds(n: int)
    ensures PageCount(Int(n)).Int?
    ensures var c := PageCount(Int(n)).v; 20 * (c - 1) < n <= 20 * c
    ensures n >= 0 ==> PageCount(Int(n)).v >= 0
    ensures n == 0 ==> PageCount(Int(n)) == Int(0)
  {
  }

  /** The total is read from the first word of the heading, and only up to
      its first non-digit: a heading "1,234 Found" counts 1, because the
      comma ends the digits. */
  lemma TotalReadsLeadingDigits(digits: string, tail: string, words: string)
    requires IsDigits(digits)
    requires |tail| == 0 || !IsDecimalDigit(tail[0])
    requires ' ' !in tail
    requires |words| > 0 && !IsJsSpace(words[|words| - 1])
    ensures TotalOf(digits + tail + " " + words) == Int(ValueOf(digits, false))
  {
    var h := digits + tail + " " + words;
    assert h[0] == digits[0];
    assert h[|h| - 1] == words[|words| - 1];
    assert TrimStart(h) == h;
    assert Trim(h) == h;
    assert ' ' !in digits + tail by {
      forall i | 0 <= i < |digits + tail| ensures (digits + tail)[i] != ' ' {
        if i < |digits| {
          assert IsDecimalDigit(digits[i]);
        }
      }
    }
    assert h == (digits + tail) + (" " + words);
    SplitHead(digits + tail, ' ', " " + words);
    assert " " == [' '];
    ParseIntIgnoresTail(digits, tail, false);
  }
}
