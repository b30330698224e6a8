/** Building a work stub from a work's blurb ("banner") on a listing page:
    the author links, the heading link, the tag list, the series links and
    the stats, normalised as the client does, then handed to the inverted
    `setIfNotNull` helper. */
module Banners {
  import opened Prelude
  import opened Strings
  import opened Numbers
  import opened Js

  /** An `a` element: its text and its `rel` and `href` attributes. */
  datatype Link = Link(text: string, rel: Option<string>, href: Option<string>)

  /** An `li` of the tag list: its `class` attribute and its text. */
  datatype TagItem = TagItem(cls: Option<string>, text: string)

  /** What the selectors find in one banner. */
  datatype Banner = Banner(
    heading: seq<Link>,                 // h4 a
    fandoms: seq<string>,               // h5.fandoms a
    tags: seq<TagItem>,                 // ul.tags li
    rating: string,                     // ul.required-tags li.rating
    category: string,                   // ul.required-tags li.category
    summary: string,                    // blockquote.userstuff.summary
    seriesHrefs: seq<Option<string>>,   // ul.series a, their href
    language: string,                   // ul.stats li.language, and so on
    words: string,
    bookmarks: string,
    chapters: string,
    hits: string,
    kudos: string,
    comments: string,
    restricted: bool,                   // some img[title="Restricted"]
    datetime: string)                   // p.datetime

  datatype TagGroups = TagGroups(
    warnings: seq<string>, relationships: seq<string>,
    characters: seq<string>, freeforms: seq<string>)

  /** Everything the banner walk computes before it builds the stub. */
  datatype Scraped = Scraped(
    authors: seq<string>, workId: string, title: string, fandoms: seq<string>,
    tags: TagGroups, rating: string, categories: seq<string>, summary: string,
    language: string, words: Prim, bookmarks: Prim, chapters: Prim,
    expectedChapters: Prim, hits: Prim, kudos: Prim, comments: Prim,
    restricted: bool, complete: bool, updated: DateSpec)

  /** An unloaded Work with the given id and the properties assigned to it. */
  datatype WorkStub = WorkStub(id: string, props: map<string, Value>)

  // ---------------------------------------------------------------------
  // The pieces of the walk

  /** A heading link counts as an author when its `rel` is present and
      includes "author" (an empty `rel` is falsy, and includes nothing). */
  predicate IsAuthorLink(link: Link)
  {
    link.rel.Some? && Contains(link.rel.value, "author")
  }

  /** The names of the author links, in document order: the text of every
      author link, and nothing else. */
  function AuthorNames(links: seq<Link>): (names: seq<string>)
    ensures |names| <= |links|
    ensures forall i :: 0 <= i < |links| && IsAuthorLink(links[i]) ==> links[i].text in names
    ensures forall name :: name in names ==> exists i :: 0 <= i < |links| && IsAuthorLink(links[i]) && links[i].text == name
  {
    if |links| == 0 then []
    else
      var link := links[|links| - 1];
      AuthorNames(links[..|links| - 1]) + (if IsAuthorLink(link) then [link.text] else [])
  }

  /** `.text()` of a selection: the texts of its elements, concatenated. */
  function HeadingText(links: seq<Link>): string
  {
    if |links| == 0 then "" else HeadingText(links[..|links| - 1]) + links[|links| - 1].text
  }

  /** Which group a tag with this class goes to: the first of "warnings",
      "relationships", "characters" and "freeforms" the class includes, as
      0 to 3, or -1 when it includes none. */
  function Slot(cls: string): (k: int)
    ensures -1 <= k <= 3
  {
    if Contains(cls, "warnings") then 0
    else if Contains(cls, "relationships") then 1
    else if Contains(cls, "characters") then 2
    else if Contains(cls, "freeforms") then 3
    else -1
  }

  /** One step of the tag walk; a tag without a class attribute fails on
      `undefined.includes`. */
  function Route(groups: TagGroups, tag: TagItem): Result<TagGroups>
  {
    if tag.cls.None? then Err(TypeError)
    else
      var k := Slot(tag.cls.value);
      if k == 0 then Ok(groups.(warnings := groups.warnings + [tag.text]))
      else if k == 1 then Ok(groups.(relationships := groups.relationships + [tag.text]))
      else if k == 2 then Ok(groups.(characters := groups.characters + [tag.text]))
      else if k == 3 then Ok(groups.(freeforms := groups.freeforms + [tag.text]))
      else Ok(groups)
  }

  /** The whole tag walk; the first failing tag ends it. */
  function RouteAll(tags: seq<TagItem>): Result<TagGroups>
  {
    if |tags| == 0 then Ok(TagGroups([], [], [], []))
    else
      match RouteAll(tags[..|tags| - 1])
      case Err(e) => Err(e)
      case Ok(groups) => Route(groups, tags[|tags| - 1])
  }

  /** A stat as the banner normalises it: the first comma removed, then a
      number when only digits remain (`/^\d+$/`) and the text otherwise. */
  function Coerce(text: string): (p: Prim)
    ensures p.Number? || p.Str?
    ensures p != Number(NaN)
  {
    var s := RemoveFirst(text, ',');
    if IsDigits(s) then ParseIntOfDigits(s, true); Number(ParseInt(s)) else Str(s)
  }

  /** The first series link fails: on `undefined.split` without an `href`,
      otherwise on `Series`, which is not declared. */
  function SeriesError(href: Option<string>): Error
  {
    if href.None? then TypeError else ReferenceError("Series")
  }

  /** The walk, up to the stub: it fails without a heading `href`, on a
      tag without a class, on any series link, and when the chapters stat
      has no "/" (the second piece is undefined). */
  function Scrape(b: Banner): Result<Scraped>
  {
    if |b.heading| == 0 || b.heading[0].href.None? then Err(TypeError)
    else
      match RouteAll(b.tags)
      case Err(e) => Err(e)
      case Ok(groups) =>
        if |b.seriesHrefs| > 0 then Err(SeriesError(b.seriesHrefs[0]))
        else
          var parts := Split(b.chapters, "/");
          if |parts| < 2 then Err(TypeError)
          else
            var chapters := Coerce(parts[0]);
            var expected := Coerce(parts[1]);
            Ok(Scraped(
              AuthorNames(b.heading), Last(Split(b.heading[0].href.value, "/")),
              HeadingText(b.heading), b.fandoms, groups, b.rating,
              Split(b.category, ", "), b.summary, b.language, Coerce(b.words),
              Coerce(b.bookmarks), chapters, expected, Coerce(b.hits),
              Coerce(b.kudos), Coerce(b.comments), b.restricted,
              StrictEq(chapters, expected), FromText(b.datetime)))
  }

  predicate IsNullish(v: Value)
  {
    v == P(Null) || v == P(Undefined)
  }

  /** `setIfNotNull` as written: it assigns only null and undefined. */
  function SetIfNotNull(props: map<string, Value>, key: string, value: Value): map<string, Value>
  {
    if IsNullish(value) then props[key := value] else props
  }

  /** The `setIfNotNull` calls, in order. */
  function Assignments(s: Scraped): seq<(string, Value)>
  {
    [("authors", Authors(s.authors)), ("bookmarks", P(s.bookmarks)),
     ("categories", Texts(s.categories)), ("nchapters", P(s.chapters)),
     ("characters", Texts(s.tags.characters)), ("complete", P(Bool(s.complete))),
     ("updated", Date(s.updated)), ("expected_chapters", P(s.expectedChapters)),
     ("fandoms", Texts(s.fandoms)), ("hits", P(s.hits)), ("comments", P(s.comments)),
     ("kudos", P(s.kudos)), ("language", P(Str(s.language))), ("rating", P(Str(s.rating))),
     ("relationships", Texts(s.tags.relationships)), ("restricted", P(Bool(s.restricted))),
     ("series", SeriesList([])), ("summary", P(Str(s.summary))),
     ("tags", Texts(s.tags.freeforms)), ("title", P(Str(s.title))),
     ("warnings", Texts(s.tags.warnings)), ("words", P(s.words))]
  }

  function AssignAll(props: map<string, Value>, pairs: seq<(string, Value)>): map<string, Value>
  {
    if |pairs| == 0 then props
    else
      var last := pairs[|pairs| - 1];
      SetIfNotNull(AssignAll(props, pairs[..|pairs| - 1]), last.0, last.1)
  }

  /** What `WorkFromBanner` returns or throws. */
  function BannerWork(b: Banner): Result<WorkStub>
  {
    match Scrape(b)
    case Err(e) => Err(e)
    case Ok(s) => Ok(WorkStub(s.workId, AssignAll(map[], Assignments(s))))
  }

  /** `WorkFromBanner`, walking the selections in loops as the source does. */
  method WorkFromBanner(b: Banner) returns (r: Result<WorkStub>)
    ensures r == BannerWork(b)
  {
    var authors := CollectAuthors(b.heading);
    if |b.heading| == 0 || b.heading[0].href.None? {
      return Err(TypeError);
    }
    var workName := HeadingText(b.heading);
    var id := Last(Split(b.heading[0].href.value, "/"));

    var routed := RouteTags(b.tags);
    if routed.Err? {
      return Err(routed.error);
    }
    var groups := routed.value;

    // The first series link always throws, so the walk ends there.
    if |b.seriesHrefs| > 0 {
      return Err(SeriesError(b.seriesHrefs[0]));
    }

    var parts := Split(b.chapters, "/");
    if |parts| < 2 {
      return Err(TypeError);
    }
    var chapters := Coerce(parts[0]);
    var expected := Coerce(parts[1]);
    var s := Scraped(
      authors, id, workName, b.fandoms, groups, b.rating, Split(b.category, ", "),
      b.summary, b.language, Coerce(b.words), Coerce(b.bookmarks), chapters, expected,
      Coerce(b.hits), Coerce(b.kudos), Coerce(b.comments), b.restricted,
      StrictEq(chapters, expected), FromText(b.datetime));
    var props := AssignPairs(Assignments(s));
    r := Ok(WorkStub(id, props));
  }

  /** The loop over the heading's links that keeps the author names. */
  method CollectAuthors(heading: seq<Link>) returns (authors: seq<string>)
    ensures authors == AuthorNames(heading)
  {
    authors := [];
    for i := 0 to |heading|
      invariant authors == AuthorNames(heading[..i])
    {
      assert heading[..i + 1][..i] == heading[..i];
      if IsAuthorLink(heading[i]) {
        authors := authors + [heading[i].text];
      }
    }
    assert heading[..|heading|] == heading;
  }

  /** The loop over the tag list that files each tag under its class; a tag
      without a class throws. */
  method RouteTags(tags: seq<TagItem>) returns (r: Result<TagGroups>)
    ensures r == RouteAll(tags)
  {
    var groups := TagGroups([], [], [], []);
    for i := 0 to |tags|
      invariant RouteAll(tags[..i]) == Ok(groups)
    {
      assert tags[..i + 1][..i] == tags[..i];
      var tag := tags[i];
      if tag.cls.None? {
        RouteAllFails(tags, i + 1);
        return Err(TypeError);
      }
      var cls := tag.cls.value;
      if Contains(cls, "warnings") {
        groups := groups.(warnings := groups.warnings + [tag.text]);
      } else if Contains(cls, "relationships") {
        groups := groups.(relationships := groups.relationships + [tag.text]);
      } else if Contains(cls, "characters") {
        groups := groups.(characters := groups.characters + [tag.text]);
      } else if Contains(cls, "freeforms") {
        groups := groups.(freeforms := groups.freeforms + [tag.text]);
      }
    }
    assert tags[..|tags|] == tags;
    r := Ok(groups);
  }

  /** The closing loop that copies every non-null property onto the stub. */
  method AssignPairs(pairs: seq<(string, Value)>) returns (props: map<string, Value>)
    ensures props == AssignAll(map[], pairs)
  {
    props := map[];
    for i := 0 to |pairs|
      invariant props == AssignAll(map[], pairs[..i])
    {
      assert pairs[..i + 1][..i] == pairs[..i];
      props := SetIfNotNull(props, pairs[i].0, pairs[i].1);
    }
    assert pairs[..|pairs|] == pairs;
  }

  /** A `li[role="article"]` of a listing: whether it has an `h4`, and its
      banner. */
  datatype Article = Article(hasHeading: bool, banner: Banner)

  /** What one article contributes: nothing without an `h4`, otherwise
      what `WorkFromBanner` returns or throws for it. */
  function Entry(article: Article): Option<Result<WorkStub>>
  {
    if article.hasHeading then Some(BannerWork(article.banner)) else None
  }

  function Entries(articles: seq<Article>): (entries: seq<Option<Result<WorkStub>>>)
    ensures |entries| == |articles|
    ensures forall i :: 0 <= i < |articles| ==> entries[i] == Entry(articles[i])
  {
    seq(|articles|, i requires 0 <= i < |articles| => Entry(articles[i]))
  }

  /** Walking contributions in order: the values collected, and the error
      that ended the walk early, if any; the values before the failing
      entry have been collected by then. */
  function Gather<T>(entries: seq<Option<Result<T>>>): (seq<T>, Option<Error>)
  {
    if |entries| == 0 then ([], None)
    else
      var before := Gather(entries[..|entries| - 1]);
      var entry := entries[|entries| - 1];
      if before.1.Some? || entry.None? then before
      else
        match entry.value
        case Err(e) => (before.0, Some(e))
        case Ok(w) => (before.0 + [w], None)
  }

  /** The stubs a listing yields, in document order, and the error that
      ended it early, if any. */
  function Harvest(articles: seq<Article>): (seq<WorkStub>, Option<Error>)
  {
    Gather(Entries(articles))
  }

  /** The article loop of `Search.update` and of `User._loadWorks` /
      `_loadBookmarks`. */
  method CollectArticles(articles: seq<Article>) returns (works: seq<WorkStub>, err: Option<Error>)
    ensures (works, err) == Harvest(articles)
  {
    ghost var entries := Entries(articles);
    works := [];
    err := None;
    for i := 0 to |articles|
      invariant (works, err) == Gather(entries[..i])
      invariant err.None?
    {
      GatherLast(entries[..i + 1]);
      assert entries[..i + 1][..i] == entries[..i];
      var article := articles[i];
      if !article.hasHeading {
        continue;
      }
      var w := WorkFromBanner(article.banner);
      if w.Err? {
        err := Some(w.error);
        GatherStops(entries, i + 1);
        return;
      }
      works := works + [w.value];
    }
    assert entries[..|articles|] == entries;
  }

  /** One more entry: skipped when absent or after an error, else collected
      or recorded as the error. */
  lemma GatherLast<T>(entries: seq<Option<Result<T>>>)
    requires |entries| > 0
    ensures var before := Gather(entries[..|entries| - 1]);
      var entry := entries[|entries| - 1];
      Gather(entries) ==
        if before.1.Some? || entry.None? then before
        else if entry.value.Err? then (before.0, Some(entry.value.error))
        else (before.0 + [entry.value.value], None)
  {
    assert entries != [];
  }

  // ---------------------------------------------------------------------
  // Properties

  /** Once a tag fails the walk, the walk fails with that error. */
  lemma {:induction false} RouteAllFails(tags: seq<TagItem>, n: nat)
    requires 0 < n <= |tags| && tags[n - 1].cls.None?
    requires RouteAll(tags[..n - 1]).Ok?
    ensures RouteAll(tags) == Err(TypeError)
    decreases |tags|
  {
    if n < |tags| {
      assert tags[..|tags| - 1][..n - 1] == tags[..n - 1];
      RouteAllFails(tags[..|tags| - 1], n);
    } else {
      assert tags[..|tags| - 1] == tags[..n - 1];
    }
  }

  /** `setIfNotNull` is inverted: it writes exactly the null and undefined
      values and leaves the object alone for every other value. */
  lemma SetIfNotNullInverted(props: map<string, Value>, key: string, value: Value)
    ensures SetIfNotNull(props, key, value) == props <==> !IsNullish(value) || (key in props && props[key] == value)
    ensures IsNullish(value) ==> key in SetIfNotNull(props, key, value) && SetIfNotNull(props, key, value)[key] == value
  {
    if IsNullish(value) && SetIfNotNull(props, key, value) == props {
      assert key in props;
    }
  }

  lemma {:induction false} AssignAllNonNull(props: map<string, Value>, pairs: seq<(string, Value)>)
    requires forall i :: 0 <= i < |pairs| ==> !IsNullish(pairs[i].1)
    ensures AssignAll(props, pairs) == props
    decreases |pairs|
  {
    if |pairs| > 0 {
      AssignAllNonNull(props, pairs[..|pairs| - 1]);
    }
  }

  /** Every value the walk computes is neither null nor undefined, so the
      stub comes back with no property at all; only its id is set, to the
      last "/"-segment of the heading link. */
  lemma StubGetsNoProperties(b: Banner)
    requires BannerWork(b).Ok?
    ensures BannerWork(b).value.props == map[]
    ensures b.heading[0].href.Some?
    ensures BannerWork(b).value.id == Last(Split(b.heading[0].href.value, "/"))
  {
    var s := Scrape(b).value;
    assert NumbersOrTexts(s);
    AssignmentsNonNull(s);
    AssignAllNonNull(map[], Assignments(s));
  }

  /** The stats of a walk that got through are numbers or texts. */
  predicate NumbersOrTexts(s: Scraped)
  {
    && (s.words.Number? || s.words.Str?)
    && (s.bookmarks.Number? || s.bookmarks.Str?)
    && (s.chapters.Number? || s.chapters.Str?)
    && (s.expectedChapters.Number? || s.expectedChapters.Str?)
    && (s.hits.Number? || s.hits.Str?)
    && (s.kudos.Number? || s.kudos.Str?)
    && (s.comments.Number? || s.comments.Str?)
  }

  lemma AssignmentsNonNull(s: Scraped)
    requires NumbersOrTexts(s)
    ensures forall i :: 0 <= i < |Assignments(s)| ==> !IsNullish(Assignments(s)[i].1)
  {
    var a := Assignments(s);
    forall i | 0 <= i < |a|
      ensures !IsNullish(a[i].1)
    {
    }
  }

  /** The id is the text after the last "/" of the heading link. */
  lemma StubIdOfLink(b: Banner, prefix: string, id: string)
    requires BannerWork(b).Ok?
    requires '/' !in id
    requires b.heading[0].href == Some(prefix + "/" + id)
    ensures BannerWork(b).value.id == id
  {
    StubId(b);
    SplitLast(prefix, '/', id);
    assert prefix + "/" + id == prefix + ['/'] + id;
  }

  /** The stub's id is the last "/"-separated piece of the heading link. */
  lemma StubId(b: Banner)
    requires BannerWork(b).Ok?
    ensures |b.heading| > 0 && b.heading[0].href.Some?
    ensures BannerWork(b).value.id == Last(Split(b.heading[0].href.value, "/"))
  {
    assert Scrape(b).Ok?;
  }

  /** The walk fails exactly when the heading has no link `href`, a tag has
      no class, there is a series link, or the chapters stat has no "/". */
  lemma ScrapeFailsWhen(b: Banner)
    ensures Scrape(b).Err? <==>
      |b.heading| == 0 || b.heading[0].href.None? ||
      (exists i :: 0 <= i < |b.tags| && b.tags[i].cls.None?) ||
      |b.seriesHrefs| > 0 || '/' !in b.chapters
  {
    RouteAllErrIff(b.tags);
    SplitCount(b.chapters, '/');
    CountZero(b.chapters, '/');
    assert "/" == ['/'];
  }

  lemma {:induction false} RouteAllErrIff(tags: seq<TagItem>)
    ensures RouteAll(tags).Err? <==> exists i :: 0 <= i < |tags| && tags[i].cls.None?
    ensures RouteAll(tags).Err? ==> RouteAll(tags).error == TypeError
    decreases |tags|
  {
    if |tags| > 0 {
      var front := tags[..|tags| - 1];
      RouteAllErrIff(front);
      if exists i :: 0 <= i < |front| && front[i].cls.None? {
        var i :| 0 <= i < |front| && front[i].cls.None?;
        assert tags[i] == front[i];
      }
      if exists i :: 0 <= i < |tags| && tags[i].cls.None? {
        var i :| 0 <= i < |tags| && tags[i].cls.None?;
        if i < |tags| - 1 {
          assert front[i] == tags[i];
        }
      }
    }
  }

  /** The texts, in order, of the tags that a class test sends to group `k`. */
  function TextsIn(tags: seq<TagItem>, k: int): seq<string>
  {
    if |tags| == 0 then []
    else
      var tag := tags[|tags| - 1];
      TextsIn(tags[..|tags| - 1], k) +
        (if tag.cls.Some? && Slot(tag.cls.value) == k then [tag.text] else [])
  }

  /** The single pass of the walk agrees with filtering the tags once per
      group: each group holds, in document order, exactly the tags whose
      first matching class word is that group's, so every tag lands in at
      most one group and tags matching none are dropped. */
  lemma {:induction false} RouteAllIsFilter(tags: seq<TagItem>)
    requires RouteAll(tags).Ok?
    ensures RouteAll(tags).value ==
      TagGroups(TextsIn(tags, 0), TextsIn(tags, 1), TextsIn(tags, 2), TextsIn(tags, 3))
    decreases |tags|
  {
    if |tags| > 0 {
      RouteAllIsFilter(tags[..|tags| - 1]);
    }
  }

  /** Authors: only heading links whose `rel` includes "author", in document
      order, one name per link. */
  lemma {:induction false} AuthorNamesAppend(a: seq<Link>, b: seq<Link>)
    ensures AuthorNames(a + b) == AuthorNames(a) + AuthorNames(b)
    decreases |b|
  {
    if |b| == 0 {
      assert a + b == a;
    } else {
      assert (a + b)[..|a + b| - 1] == a + b[..|b| - 1];
      AuthorNamesAppend(a, b[..|b| - 1]);
    }
  }

  lemma AuthorNamesSingle(link: Link)
    ensures AuthorNames([link]) == if IsAuthorLink(link) then [link.text] else []
  {
    assert [link][..0] == [];
  }

  /** Every scraped stat is a number or a string, never NaN, null or
      undefined: digits after the first comma is removed give their value,
      anything else stays text. */
  lemma CoerceCases(text: string)
    ensures IsDigits(RemoveFirst(text, ',')) ==>
      Coerce(text) == Number(Int(ValueOf(RemoveFirst(text, ','), false)))
    ensures !IsDigits(RemoveFirst(text, ',')) ==> Coerce(text) == Str(RemoveFirst(text, ','))
  {
    if IsDigits(RemoveFirst(text, ',')) {
      ParseIntOfDigits(RemoveFirst(text, ','), true);
    }
  }

  /** Only the first comma goes: a stat with two commas is left as text. */
  lemma CoerceKeepsSecondComma()
    ensures Coerce("1,234,567") == Str("1234,567")
  {
    var s := "1,234,567";
    assert s[0] == '1' && s[1] == ',';
    assert RemoveFirst(s, ',') == "1" + s[2..];
    assert s[2..] == "234,567";
    assert "1" + "234,567" == "1234,567";
    assert !IsDigits("1234,567") by {
      assert "1234,567"[4] == ',';
    }
  }

  /** A banner is complete exactly when both halves of the chapters stat
      normalise to the same value: the same count, or the same text. */
  lemma CompleteIff(b: Banner)
    requires Scrape(b).Ok?
    ensures var s := Scrape(b).value;
      s.complete <==> s.chapters == s.expectedChapters
  {
  }

  /** "a/b" with plain counts is complete exactly when a == b, and an
      unknown total "?" is never complete against a count. */
  lemma CompleteOfCounts(b: Banner, written: nat, total: nat)
    requires Scrape(b).Ok?
    requires b.chapters == NatToString(written) + "/" + NatToString(total)
    ensures Scrape(b).value.complete <==> written == total
  {
    var w := NatToString(written);
    var t := NatToString(total);
    CountsOfHalves(b.chapters, w, t);
    ValueOfNatToString(written);
    ValueOfNatToString(total);
  }

  lemma CountsOfHalves(chapters: string, w: string, t: string)
    requires IsDigits(w) && IsDigits(t)
    requires chapters == w + "/" + t
    ensures |Split(chapters, "/")| == 2
    ensures Coerce(Split(chapters, "/")[0]) == Number(Int(ValueOf(w, false)))
    ensures Coerce(Split(chapters, "/")[1]) == Number(Int(ValueOf(t, false)))
  {
    assert '/' !in w by {
      forall i | 0 <= i < |w| ensures w[i] != '/' {
        assert IsDecimalDigit(w[i]);
      }
    }
    assert '/' !in t by {
      forall i | 0 <= i < |t| ensures t[i] != '/' {
        assert IsDecimalDigit(t[i]);
      }
    }
    assert Join([w, t], "/") == chapters;
    SplitJoin([w, t], '/');
    assert "/" == ['/'];
    assert ',' !in w by {
      forall i | 0 <= i < |w| ensures w[i] != ',' {
        assert IsDecimalDigit(w[i]);
      }
    }
    assert ',' !in t by {
      forall i | 0 <= i < |t| ensures t[i] != ',' {
        assert IsDecimalDigit(t[i]);
      }
    }
    RemoveFirstAbsent(w, ',');
    RemoveFirstAbsent(t, ',');
    CoerceCases(w);
    CoerceCases(t);
  }

  lemma UnknownTotalIncomplete(b: Banner, written: nat)
    requires Scrape(b).Ok?
    requires b.chapters == NatToString(written) + "/?"
    ensures !Scrape(b).value.complete
    ensures Scrape(b).value.expectedChapters == Str("?")
  {
    var w := NatToString(written);
    assert '/' !in w by {
      forall i | 0 <= i < |w| ensures w[i] != '/' {
        assert IsDecimalDigit(w[i]);
      }
    }
    assert Join([w, "?"], "/") == b.chapters;
    SplitJoin([w, "?"], '/');
    assert "/" == ['/'];
    assert RemoveFirst("?", ',') == "?";
    assert !IsDigits("?") by {
      assert !IsDecimalDigit("?"[0]);
    }
  }

  /** The categories are the category text split on ", ", so joining them
      back gives the text. */
  lemma CategoriesRejoin(b: Banner)
    requires Scrape(b).Ok?
    ensures Join(Scrape(b).value.categories, ", ") == b.category
  {
    JoinSplit(b.category, ", ");
  }

  /** Once the walk has failed, later entries change nothing. */
  lemma {:induction false} GatherStops<T>(entries: seq<Option<Result<T>>>, n: nat)
    requires 0 < n <= |entries|
    requires Gather(entries[..n]).1.Some?
    ensures Gather(entries) == Gather(entries[..n])
    decreases |entries|
  {
    if n < |entries| {
      assert entries[..|entries| - 1][..n] == entries[..n];
      GatherStops(entries[..|entries| - 1], n);
    } else {
      assert entries[..n] == entries;
    }
  }

  /** A walk goes piece by piece: when the first part goes through, the
      values of the whole are those of the first part followed by those of
      the rest. */
  lemma {:induction false} GatherAppend<T>(a: seq<Option<Result<T>>>, b: seq<Option<Result<T>>>)
    requires Gather(a).1.None?
    ensures Gather(a + b) == (Gather(a).0 + Gather(b).0, Gather(b).1)
    decreases |b|
  {
    if |b| == 0 {
      assert a + b == a;
      assert Gather(a).0 + [] == Gather(a).0;
    } else {
      var front := b[..|b| - 1];
      assert (a + b)[..|a + b| - 1] == a + front;
      assert (a + b)[|a + b| - 1] == b[|b| - 1];
      GatherAppend(a, front);
      var last := b[|b| - 1];
      if last.Some? && last.value.Ok? {
        assert Gather(a).0 + Gather(front).0 + [last.value.value] ==
          Gather(a).0 + (Gather(front).0 + [last.value.value]);
      }
    }
  }

  /** So a listing keeps document order: when its first part goes through,
      its stubs are those of the first part followed by those of the rest. */
  lemma HarvestAppend(a: seq<Article>, b: seq<Article>)
    requires Harvest(a).1.None?
    ensures Harvest(a + b) == (Harvest(a).0 + Harvest(b).0, Harvest(b).1)
  {
    EntriesAppend(a, b);
    GatherAppend(Entries(a), Entries(b));
  }

  lemma EntriesAppend(a: seq<Article>, b: seq<Article>)
    ensures Entries(a + b) == Entries(a) + Entries(b)
  {
    var ab, ea, eb := Entries(a + b), Entries(a), Entries(b);
    forall i | 0 <= i < |ab|
      ensures ab[i] == (ea + eb)[i]
    {
      if i < |a| {
        assert (a + b)[i] == a[i];
      } else {
        assert (a + b)[i] == b[i - |a|];
      }
    }
  }

  /** An article without an `h4` contributes nothing; one with an `h4`
      contributes its stub, or ends the walk with its error. */
  lemma HarvestSingle(article: Article)
    ensures !article.hasHeading ==> Harvest([article]) == ([], None)
    ensures article.hasHeading && BannerWork(article.banner).Ok? ==>
      Harvest([article]) == ([BannerWork(article.banner).value], None)
    ensures article.hasHeading && BannerWork(article.banner).Err? ==>
      Harvest([article]) == ([], Some(BannerWork(article.banner).error))
  {
    var entries := [Entry(article)];
    assert Entries([article]) == entries;
    assert entries[..|entries| - 1] == [];
    assert Gather(entries[..|entries| - 1]) == ([], None);
    assert Harvest([article]) == Gather(entries);
    if article.hasHeading && BannerWork(article.banner).Ok? {
      assert [] + [BannerWork(article.banner).value] == [BannerWork(article.banner).value];
    }
  }
}
