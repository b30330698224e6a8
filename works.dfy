/** A work and its chapters: lazily parsed, cached fields over the fetched
    work page, the load that recognises the archive's 404 page, the chapter
    list read from the navigation page, and each chapter's own page. */
module Works {
  import opened Prelude
  import opened Strings
  import opened Numbers
  import opened Js
  import opened Fetch
  import opened WorkIds
  import opened Memo

  // ---------------------------------------------------------------------
  // Pages, as the selectors the client queries see them

  /** The download menu of a work page: absent (no `li.download` holding a
      `ul`), or present with the `href` of its first `ul a`, if any. */
  datatype Download = NoDownloadMenu | DownloadLink(href: Option<string>)

  /** What the work getters read from a work page. */
  datatype WorkPage = WorkPage(
    headings: string,              // text of every h2.heading
    kudos: string,                 // dd.kudos
    chapters: string,              // dd.chapters, "written/expected"
    hits: string,                  // dd.hits
    comments: string,              // dd.comments
    words: string,                 // dd.words
    bookmarks: string,             // dd.bookmarks
    language: string,              // dd.language
    published: string,             // dd.published, "y-m-d"
    status: string,                // dd.status, "y-m-d"
    restricted: bool,              // some img[title="Restricted"]
    title: string,                 // div.preface.group h2.heading
    summary: string,               // div.preface.group blockquote.userstuff
    download: Download,
    freeforms: seq<string>,        // dd.freeform.tags li a
    characters: seq<string>,       // dd.character.tags li a
    relationships: seq<string>,    // dd.relationship.tags li a
    fandoms: seq<string>,          // dd.fandom.tags li a
    categories: seq<string>,       // dd.category.tags li a
    warnings: seq<string>,         // dd.warning.tags li a
    ratings: seq<string>,          // dd.rating.tags li a
    collections: seq<string>,      // dd.collections a
    startNotes: seq<string>,       // div.notes.module p
    endNotes: seq<string>)         // div#work_endnotes p

  /** The navigation page: the `li` children of `ol.chapter.index.group`,
      each with the `href` of its link, or no such list at all. */
  datatype NavPage = NavPage(chapterList: Option<seq<Option<string>>>)

  /** An element child: its tag name and its text. */
  datatype Node = Node(tag: string, text: string)

  /** The chapter heading: no `div.chapter.preface.group`, no `h3.title` in
      it, or the text of the last content of that title. */
  datatype Heading = NoPreface | NoTitle | TitleText(last: string)

  /** What the chapter getters read from a chapter page. */
  datatype ChapterPage = ChapterPage(
    entireWorkHref: Option<string>,        // li.chapter.entire a
    articleChildren: seq<Node>,            // children of div[role="article"]
    heading: Heading,
    chapterDivId: Option<string>,          // id attribute of div.chapter
    blocks: map<string, seq<string>>)      // the p texts of each div, by id

  /** The archive as the entities see it: what each URL answers. */
  datatype Site = Site(
    works: string -> Response<WorkPage>,
    navigation: string -> Response<NavPage>,
    chapters: string -> Response<ChapterPage>)

  // ---------------------------------------------------------------------
  // Work fields

  datatype Field =
    | Kudos | NChapters | ExpectedChapters | Status | Hits | Comments | WordCount
    | Restricted | Language | Bookmarks | Title | Published | Edited | Updated
    | Tags | Characters | Relationships | Fandoms | Categories | Warnings | Ratings
    | Summary | StartNotes | EndNotes | Complete | Collections

  /** The property each getter caches under. */
  function Key(f: Field): string
  {
    match f
    case Kudos => "kudos"
    case NChapters => "nChapters"
    case ExpectedChapters => "expectedChapters"
    case Status => "status"
    case Hits => "hits"
    case Comments => "comments"
    case WordCount => "wordCount"
    case Restricted => "restricted"
    case Language => "language"
    case Bookmarks => "bookmarks"
    case Title => "title"
    case Published => "published"
    case Edited => "edited"
    case Updated => "updated"
    case Tags => "tags"
    case Characters => "characters"
    case Relationships => "relationships"
    case Fandoms => "fandoms"
    case Categories => "categories"
    case Warnings => "warnings"
    case Ratings => "ratings"
    case Summary => "summary"
    case StartNotes => "startNotes"
    case EndNotes => "endNotes"
    case Complete => "complete"
    case Collections => "collections"
  }

  /** A count: `parseInt` of the text with every comma removed. */
  function CountOf(text: string): Prim
  {
    Number(ParseInt(RemoveAll(text, ',')))
  }

  /** The parse rule of each field on a loaded page.  For `Edited` without
      a download menu the getter reads the `published` getter instead, see
      `WorkLookup`. */
  function Compute(f: Field, page: WorkPage): Result<Value>
  {
    match f
    case Kudos => Ok(P(CountOf(page.kudos)))
    case NChapters => Ok(P(CountOf(Split(page.chapters, "/")[0])))
    case ExpectedChapters =>
      var parts := Split(page.chapters, "/");
      if |parts| < 2 then Err(TypeError)
      else if ParseInt(RemoveFirst(RemoveAll(parts[1], ','), '?')).NaN? then Ok(P(Null))
      else Ok(P(Number(ParseInt(RemoveFirst(RemoveAll(parts[1], ','), '?')))))
    // the comparison reads two properties Work never defines
    case Status => Ok(P(Str("Completed")))
    case Hits => Ok(P(CountOf(page.hits)))
    case Comments => Ok(P(CountOf(page.comments)))
    case WordCount => Ok(P(CountOf(page.words)))
    case Restricted => Ok(P(Bool(page.restricted)))
    case Language => Ok(P(Str(Trim(page.language))))
    case Bookmarks => Ok(P(CountOf(page.bookmarks)))
    case Title => Ok(P(Str(Trim(page.title))))
    case Published => Ok(Date(FromParts(Split(page.published, "-"))))
    case Edited =>
      (match page.download
       case DownloadLink(Some(href)) =>
         var parts := Split(href, "=");
         Ok(Date(FromEpochSeconds(if |parts| >= 2 then ParseInt(parts[1]) else NaN)))
       case DownloadLink(None) => Err(TypeError)
       case NoDownloadMenu => Ok(Date(FromParts(Split(page.published, "-")))))
    case Updated => Ok(Date(FromParts(Split(page.status, "-"))))
    case Tags => Ok(Texts(page.freeforms))
    case Characters => Ok(Texts(page.characters))
    case Relationships => Ok(Texts(page.relationships))
    case Fandoms => Ok(Texts(page.fandoms))
    case Categories => Ok(Texts(page.categories))
    case Warnings => Ok(Texts(page.warnings))
    case Ratings => Ok(Texts(page.ratings))
    case Summary => Ok(P(Str(page.summary)))
    case StartNotes => Ok(P(Str(Join(page.startNotes, "\n"))))
    case EndNotes => Ok(P(Str(Join(page.endNotes, "\n"))))
    case Complete =>
      var parts := Split(page.chapters, "/");
      Ok(P(Bool(|parts| >= 2 && parts[0] == parts[1])))
    case Collections => Ok(Texts(page.collections))
  }

  const WorkNotLoaded := BaseAO3Error("Work not loaded yet")

  /** One call of a work getter on a work in the given state: the result and
      the cache afterwards.  Every field but `complete` is stored. */
  function WorkLookup(data: map<string, Value>, loaded: bool, doc: Option<WorkPage>, f: Field)
    : (Result<Value>, map<string, Value>)
    decreases if f == Edited then 1 else 0
  {
    var step :=
      if doc.None? then (Err(TypeError), data)
      else if f == Edited && doc.value.download == NoDownloadMenu then WorkLookup(data, loaded, doc, Published)
      else (Compute(f, doc.value), data);
    Memo.Memo(data, Key(f), false, loaded, WorkNotLoaded, step, f != Complete)
  }

  /** Every value the cache answered with before is still there, unchanged. */
  predicate Kept(before: map<string, Value>, after: map<string, Value>)
  {
    forall k :: k in before && before[k] != P(Undefined) ==> k in after && after[k] == before[k]
  }

  function WorkUrl(id: Prim): string
  {
    "https://archiveofourown.org/works/" + ToStr(id)
  }

  /** The id a chapter link names: `parseInt` of its last "/"-segment. */
  function HrefId(href: string): Prim
  {
    Number(ParseInt(Last(Split(href, "/"))))
  }

  /** The id each navigation item's link gives, `None` for an item
      without a link. */
  function LinkIds(items: seq<Option<string>>): (links: seq<Option<Prim>>)
    ensures |links| == |items|
    ensures forall i :: 0 <= i < |items| ==>
      links[i] == if items[i].Some? then Some(HrefId(items[i].value)) else None
  {
    seq(|items|, i requires 0 <= i < |items| => if items[i].Some? then Some(HrefId(items[i].value)) else None)
  }

  /** The chapter ids for positions 1..k of the navigation list, or the
      `TypeError` of the first position with no link. */
  function ChapterIds(links: seq<Option<Prim>>, k: nat): (r: Result<seq<Prim>>)
    ensures r.Ok? ==> |r.value| == k
  {
    if k == 0 then Ok([])
    else match ChapterIds(links, k - 1)
      case Err(e) => Err(e)
      case Ok(ids) =>
        if k - 1 < |links| && links[k - 1].Some? then Ok(ids + [links[k - 1].value])
        else Err(TypeError)
  }

  /** `nChapters > 1`; the chapters cache only ever holds numbers. */
  predicate ManyChapters(n: Value)
  {
    n.P? && n.prim.Number? && n.prim.n.Int? && n.prim.n.v > 1
  }

  /** The ids of the chapters `loadChapters` creates, in order, given the
      navigation fetch and the `nChapters` getter's answer. */
  function ChapterPlan(nav: Result<NavPage>, count: Result<Value>): Result<seq<Prim>>
  {
    match nav
    case Err(e) => Err(e)
    case Ok(page) =>
      match page.chapterList
      case None => Ok([])
      case Some(items) =>
        match count
        case Err(e) => Err(e)
        case Ok(n) => if ManyChapters(n) then ChapterIds(LinkIds(items), n.prim.n.v) else Ok([Null])
  }

  /** A new chapter's reload when the listing loads its chapters: the fetch
      of its page under the status rule of `get`. */
  function ChapterFetch(id: Prim, load: bool, fetch: string -> Response<ChapterPage>): Outcome
  {
    if load then OutcomeOf(Accept(fetch(ChapterPageUrl(id)))) else Pass
  }

  /** The outcome of the chapter loop over positions 1..k: the first failure
      in position order, where a position without a link fails after the
      chapters of the positions before it have been fetched. */
  function ChapterWalk(links: seq<Option<Prim>>, k: nat, load: bool, fetch: string -> Response<ChapterPage>): Outcome
  {
    if k == 0 then Pass
    else match ChapterWalk(links, k - 1, load, fetch)
      case Fail(e) => Fail(e)
      case Pass =>
        if k - 1 < |links| && links[k - 1].Some? then ChapterFetch(links[k - 1].value, load, fetch)
        else Fail(TypeError)
  }

  /** The outcome of `loadChapters`, step by step as `ChapterPlan` goes,
      with the fetch of each chapter made when loading. */
  function LoadOutcome(nav: Result<NavPage>, count: Result<Value>, load: bool,
                       fetch: string -> Response<ChapterPage>): Outcome
  {
    match nav
    case Err(e) => Fail(e)
    case Ok(page) =>
      match page.chapterList
      case None => Pass
      case Some(items) =>
        match count
        case Err(e) => Fail(e)
        case Ok(n) =>
          if ManyChapters(n) then ChapterWalk(LinkIds(items), n.prim.n.v, load, fetch)
          else ChapterFetch(Null, load, fetch)
  }

  /** The cache after `loadChapters`: `nChapters` is read, and may be
      stored, once the page has a chapter list. */
  function ListingData(nav: Result<NavPage>, data: map<string, Value>, loaded: bool, doc: Option<WorkPage>)
    : map<string, Value>
  {
    if nav.Ok? && nav.value.chapterList.Some? then WorkLookup(data, loaded, doc, NChapters).1 else data
  }

  function IdsOf(chapters: seq<Chapter>): (ids: seq<Prim>)
    ensures |ids| == |chapters|
    ensures forall i :: 0 <= i < |chapters| ==> ids[i] == chapters[i].id
  {
    if |chapters| == 0 then [] else IdsOf(chapters[..|chapters| - 1]) + [Last(chapters).id]
  }

  /** What a listing that stops early leaves: no chapters when it stops
      before the loop, else the first ones `ChapterPlan` would list. */
  predicate PlanPrefix(nav: Result<NavPage>, count: Result<Value>, ids: seq<Prim>)
  {
    match nav
    case Err(_) => ids == []
    case Ok(page) =>
      match page.chapterList
      case None => ids == []
      case Some(items) =>
        match count
        case Err(_) => ids == []
        case Ok(n) =>
          if ManyChapters(n) then |ids| <= n.prim.n.v && ChapterIds(LinkIds(items), |ids|) == Ok(ids)
          else ids == [] || ids == [Null]
  }

  /** The archive's 404 page carries "Error 404" in a heading. */
  predicate NotFound(page: WorkPage)
  {
    Contains(page.headings, "Error 404")
  }

  // ---------------------------------------------------------------------
  // Chapter fields

  const ChapterNotLoaded := BaseAO3Error("Chapter is not loaded.")

  /** Index of the first `p` child at or after `i`. */
  function FirstParagraph(children: seq<Node>, i: nat): (k: Option<nat>)
    requires i <= |children|
    ensures k.Some? ==> i <= k.value < |children| && children[k.value].tag == "p"
    ensures k.Some? ==> forall j :: i <= j < k.value ==> children[j].tag != "p"
    ensures k.None? ==> forall j :: i <= j < |children| ==> children[j].tag != "p"
    decreases |children| - i
  {
    if i == |children| then None
    else if children[i].tag == "p" then Some(i)
    else FirstParagraph(children, i + 1)
  }

  /** The texts of the run of `p` siblings starting at `i`. */
  function Run(children: seq<Node>, i: nat): seq<string>
    decreases |children| - i
  {
    if i < |children| && children[i].tag == "p" then [children[i].text] + Run(children, i + 1)
    else []
  }

  /** A chapter's text: the first `p` without its first newline, then each
      `p` that directly follows it, every one ending with a newline. */
  function ParagraphText(children: seq<Node>): string
  {
    match FirstParagraph(children, 0)
    case None => "\n"
    case Some(k) => RemoveFirst(children[k].text, '\n') + "\n" + Lines(Run(children, k + 1))
  }

  /** The chapter text, from the article's paragraphs.  The single chapter
      of a one-chapter work (null id) asks the document root itself for its
      `p` children, and the root has no such method: a TypeError. */
  function TextLookup(data: map<string, Value>, isLoaded: bool, id: Prim, doc: Option<ChapterPage>)
    : (Result<Value>, map<string, Value>)
  {
    var text :=
      if doc.None? || id == Null then Err(TypeError)
      else Ok(P(Str(ParagraphText(doc.value.articleChildren))));
    Memo.Memo(data, "text", false, isLoaded, ChapterNotLoaded, (text, data), true)
  }

  /** The chapter number: 1 (not cached) for the single chapter of a
      one-chapter work, else `parseInt` of the last "-"-segment of the
      `div.chapter` id. */
  function NumberLookup(data: map<string, Value>, isLoaded: bool, id: Prim, doc: Option<ChapterPage>)
    : (Result<Value>, map<string, Value>)
  {
    var number :=
      if id == Null then Ok(P(Number(Int(1))))
      else if doc.None? || doc.value.chapterDivId.None? then Err(TypeError)
      else Ok(P(Number(ParseInt(Last(Split(doc.value.chapterDivId.value, "-"))))));
    Memo.Memo(data, "number", false, isLoaded, ChapterNotLoaded, (number, data), id != Null)
  }

  /** The chapter title; `workTitle` is what the work's title getter
      answers, used for the single chapter of a one-chapter work. */
  function TitleLookup(data: map<string, Value>, isLoaded: bool, id: Prim, doc: Option<ChapterPage>,
                       workTitle: Result<Value>)
    : (Result<Value>, map<string, Value>)
  {
    var number := NumberLookup(data, isLoaded, id, doc);
    var (step, stores) :=
      if id == Null then ((workTitle, data), false)
      else if doc.None? then ((Err(TypeError), data), false)
      else match doc.value.heading
        case TitleText(t) => ((Ok(P(Str(Slice(Trim(t), 2)))), data), true)
        case _ =>
          ((if number.0.Ok? then Ok(P(Str(Templated(number.0.value)))) else number.0, number.1), false);
    Memo.Memo(data, "title", false, isLoaded, ChapterNotLoaded, step, stores)
  }

  /** The lines of the `p` elements of the div with id `block`, or "" (not
      cached) when the page has no such div. */
  function BlockStep(doc: Option<ChapterPage>, block: string, data: map<string, Value>)
    : ((Result<Value>, map<string, Value>), bool)
  {
    if doc.None? then ((Err(TypeError), data), false)
    else if block !in doc.value.blocks then ((Ok(P(Str(""))), data), false)
    else ((Ok(P(Str(Lines(doc.value.blocks[block])))), data), true)
  }

  function SummaryLookup(data: map<string, Value>, isLoaded: bool, doc: Option<ChapterPage>)
    : (Result<Value>, map<string, Value>)
  {
    var (step, stores) := BlockStep(doc, "summary", data);
    Memo.Memo(data, "summary", false, isLoaded, ChapterNotLoaded, step, stores)
  }

  function StartNotesLookup(data: map<string, Value>, isLoaded: bool, doc: Option<ChapterPage>)
    : (Result<Value>, map<string, Value>)
  {
    var (step, stores) := BlockStep(doc, "notes", data);
    Memo.Memo(data, "startNotes", false, isLoaded, ChapterNotLoaded, step, stores)
  }

  /** The end notes live in a div named after the chapter number, which is
      read through the number getter first. */
  function EndNotesLookup(data: map<string, Value>, isLoaded: bool, id: Prim, doc: Option<ChapterPage>)
    : (Result<Value>, map<string, Value>)
  {
    var number := NumberLookup(data, isLoaded, id, doc);
    var (step, stores) :=
      if number.0.Err? then (number, false)
      else BlockStep(doc, "chapter_" + Templated(number.0.value) + "_endnotes", number.1);
    Memo.Memo(data, "endNotes", false, isLoaded, ChapterNotLoaded, step, stores)
  }

  /** The chapter URL, cached in both cases; `workUrl` is the owning work's
      URL, `None` when the chapter has no work. */
  function UrlLookup(data: map<string, Value>, isLoaded: bool, id: Prim, workUrl: Option<string>)
    : (Result<Value>, map<string, Value>)
  {
    var url :=
      match workUrl
      case None => Err(TypeError)
      case Some(u) => Ok(P(Str(if id == Null then u else u + "/chapters/" + ToStr(id))));
    Memo.Memo(data, "url", false, isLoaded, ChapterNotLoaded, (url, data), true)
  }

  function ChapterPageUrl(id: Prim): string
  {
    "https://archiveofourown.org/chapters/" + ToStr(id) + "?view_adult=true"
  }

  /** What the chapters of a listing hold: an empty cache each and, when
      they were loaded, the page each one fetched, or adopted from a chapter
      listed before it with the same id. */
  predicate Pages(cs: seq<Chapter>, load: bool, fetch: string -> Response<ChapterPage>)
    reads cs
  {
    |cs| == 0 ||
    (Pages(cs[..|cs| - 1], load, fetch) && PageOf(cs[..|cs| - 1], Last(cs), load, fetch))
  }

  /** A listed chapter's cache is empty and, when loaded, it holds its page
      as `Chapter.reload` left it among the chapters listed before it. */
  predicate PageOf(before: seq<Chapter>, c: Chapter, load: bool, fetch: string -> Response<ChapterPage>)
    reads c, before
  {
    c.data == map[] && (load ==> c.doc == Adopt(before, c, Some(fetch(ChapterPageUrl(c.id)).doc)))
  }

  /** Another chapter whose id is strictly equal to this one's. */
  predicate SameChapter(c: Chapter, me: Chapter)
  {
    c != me && StrictEq(c.id, me.id)
  }

  predicate LastSame(siblings: seq<Chapter>, me: Chapter, j: nat)
  {
    forall i :: j < i < |siblings| ==> !SameChapter(siblings[i], me)
  }

  /** The page a reloaded chapter ends up with: the fetched one, replaced by
      the page of every other chapter of the work with a strictly equal id,
      the last one winning. */
  function Adopt(siblings: seq<Chapter>, me: Chapter, page: Option<ChapterPage>): Option<ChapterPage>
    reads set c | c in siblings && c != me
  {
    if |siblings| == 0 then page
    else
      var c := Last(siblings);
      if SameChapter(c, me) then c.doc
      else Adopt(siblings[..|siblings| - 1], me, page)
  }

  /** The id a work built from a `WorkIdFromUrl` result carries. */
  function IdOf(w: Option<int>): Prim
  {
    match w
    case Some(v) => Number(Int(v))
    case None => Undefined
  }

  // ---------------------------------------------------------------------
  // Loops

  /** Each piece followed by a newline, built one piece at a time. */
  method CollectLines(ps: seq<string>) returns (text: string)
    ensures text == Lines(ps)
  {
    text := "";
    for i := 0 to |ps|
      invariant text == Lines(ps[..i])
    {
      LinesAppend(ps[..i], ps[i]);
      assert ps[..i + 1] == ps[..i] + [ps[i]];
      text := text + ps[i] + "\n";
    }
    assert ps[..|ps|] == ps;
  }

  /** The text of a chapter body, walking the `p` siblings. */
  method Paragraphs(children: seq<Node>) returns (text: string)
    ensures text == ParagraphText(children)
  {
    var first := FirstParagraph(children, 0);
    if first.None? {
      return "\n";
    }
    var k := first.value;
    text := RemoveFirst(children[k].text, '\n') + "\n";
    while k + 1 < |children| && children[k + 1].tag == "p"
      invariant first.value <= k < |children|
      invariant text + Lines(Run(children, k + 1)) == ParagraphText(children)
      decreases |children| - k
    {
      var run := Run(children, k + 2);
      assert Run(children, k + 1) == [children[k + 1].text] + run;
      assert ([children[k + 1].text] + run)[1..] == run;
      text := text + children[k + 1].text + "\n";
      k := k + 1;
    }
    assert Run(children, k + 1) == [];
  }

  // ---------------------------------------------------------------------
  // Entities

  class Work {
    const id: Prim
    var data: map<string, Value>
    var loaded: bool
    var doc: Option<WorkPage>
    var chapters: seq<Chapter>

    /** A work that is not loaded yet. */
    constructor(id: Prim)
      ensures this.id == id && data == map[] && !loaded && doc.None? && chapters == []
    {
      this.id := id;
      data := map[];
      loaded := false;
      doc := None;
      chapters := [];
    }

    function Url(): string
    {
      WorkUrl(id)
    }

    /** Any of the field getters. */
    method Get(f: Field) returns (r: Result<Value>)
      modifies this`data
      ensures (r, data) == WorkLookup(old(data), loaded, doc, f)
      decreases if f == Edited then 1 else 0
    {
      var key := Key(f);
      if key in data && data[key] != P(Undefined) {
        return Ok(data[key]);
      }
      if !loaded {
        return Err(WorkNotLoaded);
      }
      if doc.None? {
        return Err(TypeError);
      }
      if f == Edited && doc.value.download == NoDownloadMenu {
        r := Get(Published);
      } else {
        r := Compute(f, doc.value);
      }
      if r.Ok? && f != Complete {
        data := data[key := r.value];
      }
    }

    /** Fetches the work page; on the 404 page the work stays as it was
        apart from the page, otherwise it is loaded and, when asked, its
        chapters are listed again.  The cache is never cleared. */
    method Reload(loadChapters: bool, site: Site) returns (o: Outcome)
      modifies this`doc, this`loaded, this`chapters, this`data
      ensures Accept(site.works(Url())).Err? ==>
        o == Fail(Accept(site.works(Url())).error) &&
        doc == old(doc) && loaded == old(loaded) && chapters == old(chapters) && data == old(data)
      ensures Accept(site.works(Url())).Ok? ==> doc == Some(site.works(Url()).doc)
      ensures Accept(site.works(Url())).Ok? && NotFound(site.works(Url()).doc) ==>
        o == Fail(PlainError("Work not found")) &&
        loaded == old(loaded) && chapters == old(chapters) && data == old(data)
      ensures Accept(site.works(Url())).Ok? && !NotFound(site.works(Url()).doc) ==> loaded
      ensures !loadChapters && Accept(site.works(Url())).Ok? && !NotFound(site.works(Url()).doc) ==>
        o == Pass && chapters == old(chapters) && data == old(data)
      ensures loadChapters && o.Pass? ==> Owned(chapters, true)
      ensures loadChapters && o.Pass? ==>
        ChapterPlan(Accept(site.navigation(Url() + "/navigate")),
                    WorkLookup(old(data), true, doc, NChapters).0) == Ok(IdsOf(chapters))
      ensures loadChapters && Accept(site.works(Url())).Ok? && !NotFound(site.works(Url()).doc) ==>
        var nav := Accept(site.navigation(Url() + "/navigate"));
        var count := WorkLookup(old(data), true, doc, NChapters).0;
        o == LoadOutcome(nav, count, true, site.chapters) &&
        PlanPrefix(nav, count, IdsOf(chapters)) &&
        data == ListingData(nav, old(data), true, doc) &&
        Pages(chapters, true, site.chapters)
      ensures Kept(old(data), data)
    {
      var fetched := Accept(site.works(Url()));
      if fetched.Err? {
        return Fail(fetched.error);
      }
      doc := Some(fetched.value);
      if NotFound(fetched.value) {
        return Fail(PlainError("Work not found"));
      }
      loaded := true;
      if loadChapters {
        o := LoadChapters(true, site);
      } else {
        o := Pass;
      }
    }

    /** Lists the chapters again from the navigation page: none when the
        page has no chapter list, one per position 1..nChapters when there
        is more than one chapter, else a single chapter with a null id. */
    method LoadChapters(load: bool, site: Site) returns (o: Outcome)
      modifies this`chapters, this`data
      ensures var plan := ChapterPlan(Accept(site.navigation(Url() + "/navigate")),
                                      WorkLookup(old(data), loaded, doc, NChapters).0);
        (!load ==> o == OutcomeOf(plan)) && (o.Pass? ==> plan == Ok(IdsOf(chapters)))
      ensures Accept(site.navigation(Url() + "/navigate")).Err? ==> chapters == []
      ensures PlanPrefix(Accept(site.navigation(Url() + "/navigate")),
                         WorkLookup(old(data), loaded, doc, NChapters).0, IdsOf(chapters))
      ensures o == LoadOutcome(Accept(site.navigation(Url() + "/navigate")),
                               WorkLookup(old(data), loaded, doc, NChapters).0, load, site.chapters)
      ensures data == ListingData(Accept(site.navigation(Url() + "/navigate")), old(data), loaded, doc)
      ensures forall c :: c in chapters ==> fresh(c)
      ensures Owned(chapters, load)
      ensures Pages(chapters, load, site.chapters)
      ensures Kept(old(data), data)
    {
      chapters := [];
      var nav := Accept(site.navigation(Url() + "/navigate"));
      if nav.Err? {
        return Fail(nav.error);
      }
      if nav.value.chapterList.None? {
        return Pass;
      }
      o := AddListed(nav.value, load, site);
    }

    /** The part of `loadChapters` after a chapter list was found: read
        `nChapters`, then make the chapters it calls for. */
    method AddListed(page: NavPage, load: bool, site: Site) returns (o: Outcome)
      requires page.chapterList.Some?
      modifies this`chapters, this`data
      ensures var count := WorkLookup(old(data), loaded, doc, NChapters).0;
        o == LoadOutcome(Ok(page), count, load, site.chapters) &&
        (!load ==> o == OutcomeOf(ChapterPlan(Ok(page), count))) &&
        (o.Pass? ==> ChapterPlan(Ok(page), count) == Ok(IdsOf(chapters))) &&
        PlanPrefix(Ok(page), count, IdsOf(chapters))
      ensures data == WorkLookup(old(data), loaded, doc, NChapters).1 && Kept(old(data), data)
      ensures forall c :: c in chapters ==> fresh(c)
      ensures Owned(chapters, load)
      ensures Pages(chapters, load, site.chapters)
    {
      chapters := [];
      var count := Get(NChapters);
      WorkLookupKeeps(old(data), loaded, doc, NChapters);
      LoadOutcomeUnloaded(Ok(page), count, site.chapters);
      if count.Err? {
        return Fail(count.error);
      }
      o := AddCounted(page, count.value, load, site);
    }

    /** The chapters a listing with a readable `nChapters` calls for: one
        per position when there are several, else a single one. */
    method AddCounted(page: NavPage, count: Value, load: bool, site: Site) returns (o: Outcome)
      requires page.chapterList.Some?
      modifies this`chapters
      ensures o == LoadOutcome(Ok(page), Ok(count), load, site.chapters)
      ensures !load ==> o == OutcomeOf(ChapterPlan(Ok(page), Ok(count)))
      ensures o.Pass? ==> ChapterPlan(Ok(page), Ok(count)) == Ok(IdsOf(chapters))
      ensures PlanPrefix(Ok(page), Ok(count), IdsOf(chapters))
      ensures forall c :: c in chapters ==> fresh(c)
      ensures Owned(chapters, load)
      ensures Pages(chapters, load, site.chapters)
    {
      if ManyChapters(count) {
        o := AddChapters(LinkIds(page.chapterList.value), count.prim.n.v, load, site);
      } else {
        o := AddSingle(load, site);
      }
    }

    /** The chapters belong to this work, and are loaded exactly when the
        listing asked for it. */
    predicate Owned(cs: seq<Chapter>, load: bool)
      reads cs
    {
      forall c :: c in cs ==> c.work == this && (load ==> c.isLoaded) && (!load ==> !c.isLoaded && c.doc.None?)
    }

    lemma OwnedAppend(cs: seq<Chapter>, c: Chapter, load: bool)
      requires Owned(cs, load)
      requires c.work == this && (load ==> c.isLoaded) && (!load ==> !c.isLoaded && c.doc.None?)
      ensures Owned(cs + [c], load)
    {
    }

    /** One chapter per position 1..k of the navigation list, each reloaded
        when asked, in order; `links` holds the id each item's link gives. */
    method AddChapters(links: seq<Option<Prim>>, k: nat, load: bool, site: Site) returns (o: Outcome)
      modifies this`chapters
      ensures o == ChapterWalk(links, k, load, site.chapters)
      ensures !load ==> o == OutcomeOf(ChapterIds(links, k))
      ensures o.Pass? ==> ChapterIds(links, k) == Ok(IdsOf(chapters))
      ensures |chapters| <= k && ChapterIds(links, |chapters|) == Ok(IdsOf(chapters))
      ensures forall c :: c in chapters ==> fresh(c)
      ensures Owned(chapters, load)
      ensures Pages(chapters, load, site.chapters)
    {
      chapters := [];
      ChapterWalkUnloaded(links, k, site.chapters);
      for n := 1 to k + 1
        invariant ChapterWalk(links, n - 1, load, site.chapters) == Pass
        invariant |chapters| == n - 1
        invariant ChapterIds(links, n - 1) == Ok(IdsOf(chapters))
        invariant forall c :: c in chapters ==> fresh(c)
        invariant Owned(chapters, load)
        invariant Pages(chapters, load, site.chapters)
      {
        var r := AddNth(links, n, load, site);
        if r.Fail? {
          ChapterWalkStaysFailed(links, n, k, load, site.chapters);
          return r;
        }
      }
      o := Pass;
    }

    /** One turn of the listing loop: the chapter at position `n`, or the
        failure that stops the listing there. */
    method AddNth(links: seq<Option<Prim>>, n: nat, load: bool, site: Site) returns (r: Outcome)
      modifies this`chapters
      requires 1 <= n && ChapterWalk(links, n - 1, load, site.chapters) == Pass
      requires |chapters| == n - 1 && ChapterIds(links, n - 1) == Ok(IdsOf(chapters))
      requires Owned(chapters, load) && Pages(chapters, load, site.chapters)
      ensures r == ChapterWalk(links, n, load, site.chapters)
      ensures r.Fail? ==> chapters == old(chapters)
      ensures r.Pass? ==> |chapters| == n && ChapterIds(links, n) == Ok(IdsOf(chapters))
      ensures forall c :: c in chapters ==> c in old(chapters) || fresh(c)
      ensures Owned(chapters, load) && Pages(chapters, load, site.chapters)
    {
      if n - 1 >= |links| || links[n - 1].None? {
        return Fail(TypeError);
      }
      var c;
      c, r := NewChapter(links[n - 1].value, load, site);
      if r.Fail? {
        return r;
      }
      ChapterIdsStep(links, n);
      Push(c, load, site.chapters);
    }

    /** `this.chapters.push(c)` for a chapter made as the listing makes them. */
    method Push(c: Chapter, load: bool, fetch: string -> Response<ChapterPage>)
      modifies this`chapters
      requires c.work == this && PageOf(chapters, c, load, fetch)
      requires load ==> c.isLoaded
      requires !load ==> !c.isLoaded && c.doc.None?
      requires Owned(chapters, load) && Pages(chapters, load, fetch)
      ensures chapters == old(chapters) + [c] && IdsOf(chapters) == IdsOf(old(chapters)) + [c.id]
      ensures Owned(chapters, load) && Pages(chapters, load, fetch)
    {
      IdsOfAppend(chapters, c);
      OwnedAppend(chapters, c, load);
      assert (chapters + [c])[..|chapters|] == chapters;
      chapters := chapters + [c];
    }

    /** A chapter of this work, reloaded when asked. */
    method NewChapter(id: Prim, load: bool, site: Site) returns (c: Chapter, o: Outcome)
      ensures fresh(c) && c.id == id && c.work == this && c.data == map[]
      ensures o == ChapterFetch(id, load, site.chapters)
      ensures !load ==> !c.isLoaded && c.doc.None?
      ensures o.Fail? ==> !c.isLoaded && c.doc.None?
      ensures load && o.Pass? ==>
        c.isLoaded && c.doc == Adopt(chapters, c, Some(site.chapters(ChapterPageUrl(id)).doc))
    {
      c := new Chapter(id, this);
      o := Pass;
      if load {
        o := c.Reload(site.chapters);
      }
    }

    /** The single chapter of a one-chapter work, with a null id. */
    method AddSingle(load: bool, site: Site) returns (o: Outcome)
      modifies this`chapters
      ensures o.Pass? ==> IdsOf(chapters) == [Null]
      ensures o.Fail? ==> chapters == []
      ensures o == ChapterFetch(Null, load, site.chapters)
      ensures forall c :: c in chapters ==> fresh(c)
      ensures Owned(chapters, load)
      ensures Pages(chapters, load, site.chapters)
    {
      chapters := [];
      var c, r := NewChapter(Null, load, site);
      if r.Fail? {
        return r;
      }
      assert [c][..0] == [];
      chapters := [c];
      o := Pass;
    }
  }

  class Chapter {
    const id: Prim
    var work: Work?
    var doc: Option<ChapterPage>
    var isLoaded: bool
    var data: map<string, Value>

    /** A chapter that is not loaded yet. */
    constructor(id: Prim, work: Work?)
      ensures this.id == id && this.work == work && doc.None? && !isLoaded && data == map[]
    {
      this.id := id;
      this.work := work;
      doc := None;
      isLoaded := false;
      data := map[];
    }

    /** Fetches the chapter page; the page is then replaced by that of any
        other chapter of the work with the same id.  A chapter without a work
        looks for the "entire work" link and then fails: the work cannot be
        built. */
    method Reload(net: string -> Response<ChapterPage>) returns (o: Outcome)
      modifies this`doc, this`isLoaded, this`work
      ensures Accept(net(ChapterPageUrl(id))).Err? ==>
        o == Fail(Accept(net(ChapterPageUrl(id))).error) &&
        doc == old(doc) && isLoaded == old(isLoaded) && work == old(work)
      ensures Accept(net(ChapterPageUrl(id))).Ok? && old(work) != null ==>
        o == Pass && work == old(work) && isLoaded &&
        doc == Adopt(work.chapters, this, Some(net(ChapterPageUrl(id)).doc))
      ensures Accept(net(ChapterPageUrl(id))).Ok? && old(work) == null ==>
        doc == Some(net(ChapterPageUrl(id)).doc)
      ensures Accept(net(ChapterPageUrl(id))).Ok? && old(work) == null &&
              net(ChapterPageUrl(id)).doc.entireWorkHref.None? ==>
        o == Fail(BaseAO3Error("Cannot find work")) && work == null && isLoaded == old(isLoaded)
      ensures Accept(net(ChapterPageUrl(id))).Ok? && old(work) == null &&
              net(ChapterPageUrl(id)).doc.entireWorkHref.Some? ==>
        var found := WorkIdFromUrl(net(ChapterPageUrl(id)).doc.entireWorkHref.value);
        o == Fail(if found.Err? then found.error else TypeError) && work == null && isLoaded == old(isLoaded)
    {
      var fetched := Accept(net(ChapterPageUrl(id)));
      if fetched.Err? {
        return Fail(fetched.error);
      }
      var page := fetched.value;
      doc := Some(page);
      if work == null {
        if page.entireWorkHref.None? {
          return Fail(BaseAO3Error("Cannot find work"));
        }
        var found := WorkIdFromUrl(page.entireWorkHref.value);
        if found.Err? {
          return Fail(found.error);
        }
        // Chapter.js and Work.js require each other, and Work.js is loaded
        // first, so `Work` inside Chapter.js is the still empty exports
        // object of Work.js: not a constructor.
        return Fail(TypeError);
      }
      var w := work;
      var siblings := w.chapters;
      ghost var wasLoaded := w.loaded;
      for i := 0 to |siblings|
        invariant work == w && w.chapters == siblings && w.loaded == wasLoaded
        invariant doc == Adopt(siblings[..i], this, Some(page))
      {
        assert siblings[..i + 1][..i] == siblings[..i];
        if StrictEq(siblings[i].id, id) {
          doc := siblings[i].doc;
        }
      }
      assert siblings[..|siblings|] == siblings;
      isLoaded := true;
      o := Pass;
    }

    method Text() returns (r: Result<Value>)
      modifies this`data
      ensures (r, data) == TextLookup(old(data), isLoaded, id, doc)
    {
      if "text" in data && data["text"] != P(Undefined) {
        return Ok(data["text"]);
      }
      if !isLoaded {
        return Err(ChapterNotLoaded);
      }
      if doc.None? || id == Null {
        return Err(TypeError);
      }
      var text := Paragraphs(doc.value.articleChildren);
      r := Ok(P(Str(text)));
      data := data["text" := r.value];
    }

    method Number() returns (r: Result<Value>)
      modifies this`data
      ensures (r, data) == NumberLookup(old(data), isLoaded, id, doc)
    {
      if "number" in data && data["number"] != P(Undefined) {
        return Ok(data["number"]);
      }
      if !isLoaded {
        return Err(ChapterNotLoaded);
      }
      if id == Null {
        return Ok(P(Js.Number(Int(1))));
      }
      if doc.None? || doc.value.chapterDivId.None? {
        return Err(TypeError);
      }
      r := Ok(P(Js.Number(ParseInt(Last(Split(doc.value.chapterDivId.value, "-"))))));
      data := data["number" := r.value];
    }

    /** The title getter; for the single chapter of a one-chapter work it
        asks the work, whose cache that may fill. */
    method Title() returns (r: Result<Value>)
      modifies this`data, work
      ensures work == old(work)
      ensures old(work) != null ==>
        work.loaded == old(work.loaded) && work.doc == old(work.doc) && work.chapters == old(work.chapters)
      ensures old(work) == null ==> (r, data) == TitleLookup(old(data), isLoaded, id, doc, Err(TypeError))
      ensures old(work) != null ==>
        (r, data) == TitleLookup(old(data), isLoaded, id, doc,
                                 WorkLookup(old(work.data), work.loaded, work.doc, Field.Title).0)
      ensures old(work) != null ==>
        work.data == (if !Hit(old(data), "title", false) && isLoaded && id == Null
                      then WorkLookup(old(work.data), work.loaded, work.doc, Field.Title).1
                      else old(work.data))
    {
      if "title" in data && data["title"] != P(Undefined) {
        return Ok(data["title"]);
      }
      if !isLoaded {
        return Err(ChapterNotLoaded);
      }
      if id == Null {
        if work == null {
          return Err(TypeError);
        }
        r := work.Get(Field.Title);
        return;
      }
      if doc.None? {
        return Err(TypeError);
      }
      match doc.value.heading {
        case TitleText(t) =>
          r := Ok(P(Str(Slice(Trim(t), 2))));
          data := data["title" := r.value];
        case _ =>
          var number := Number();
          if number.Err? {
            return number;
          }
          r := Ok(P(Str(Templated(number.value))));
      }
    }

    method Summary() returns (r: Result<Value>)
      modifies this`data
      ensures (r, data) == SummaryLookup(old(data), isLoaded, doc)
    {
      if "summary" in data && data["summary"] != P(Undefined) {
        return Ok(data["summary"]);
      }
      if !isLoaded {
        return Err(ChapterNotLoaded);
      }
      r := Block("summary");
      if r.Ok? && doc.Some? && "summary" in doc.value.blocks {
        data := data["summary" := r.value];
      }
    }

    method StartNotes() returns (r: Result<Value>)
      modifies this`data
      ensures (r, data) == StartNotesLookup(old(data), isLoaded, doc)
    {
      if "startNotes" in data && data["startNotes"] != P(Undefined) {
        return Ok(data["startNotes"]);
      }
      if !isLoaded {
        return Err(ChapterNotLoaded);
      }
      r := Block("notes");
      if r.Ok? && doc.Some? && "notes" in doc.value.blocks {
        data := data["startNotes" := r.value];
      }
    }

    method EndNotes() returns (r: Result<Value>)
      modifies this`data
      ensures (r, data) == EndNotesLookup(old(data), isLoaded, id, doc)
    {
      if "endNotes" in data && data["endNotes"] != P(Undefined) {
        return Ok(data["endNotes"]);
      }
      if !isLoaded {
        return Err(ChapterNotLoaded);
      }
      var number := Number();
      if number.Err? {
        return number;
      }
      var block := "chapter_" + Templated(number.value) + "_endnotes";
      r := Block(block);
      if r.Ok? && doc.Some? && block in doc.value.blocks {
        data := data["endNotes" := r.value];
      }
    }

    /** The text of one notes div, read with a loop over its paragraphs. */
    method Block(block: string) returns (r: Result<Value>)
      ensures r == BlockStep(doc, block, data).0.0
    {
      if doc.None? {
        return Err(TypeError);
      }
      if block !in doc.value.blocks {
        return Ok(P(Str("")));
      }
      var text := CollectLines(doc.value.blocks[block]);
      r := Ok(P(Str(text)));
    }

    method Url() returns (r: Result<Value>)
      modifies this`data
      ensures (r, data) == UrlLookup(old(data), isLoaded, id, if work == null then None else Some(work.Url()))
    {
      if "url" in data && data["url"] != P(Undefined) {
        return Ok(data["url"]);
      }
      if !isLoaded {
        return Err(ChapterNotLoaded);
      }
      if work == null {
        return Err(TypeError);
      }
      if id == Null {
        r := Ok(P(Str(work.Url())));
      } else {
        r := Ok(P(Str(work.Url() + "/chapters/" + ToStr(id))));
      }
      data := data["url" := r.value];
    }
  }

  // ---------------------------------------------------------------------
  // Properties

  /** A work getter never leaves out or changes what the cache held. */
  lemma WorkLookupKeeps(data: map<string, Value>, loaded: bool, doc: Option<WorkPage>, f: Field)
    ensures Kept(data, WorkLookup(data, loaded, doc, f).1)
    decreases if f == Edited then 1 else 0
  {
    if f == Edited && doc.Some? && doc.value.download == NoDownloadMenu {
      WorkLookupKeeps(data, loaded, doc, Published);
    }
  }

  lemma ChapterIdsStep(links: seq<Option<Prim>>, n: nat)
    requires 1 <= n <= |links| && links[n - 1].Some?
    requires ChapterIds(links, n - 1).Ok?
    ensures ChapterIds(links, n) == Ok(ChapterIds(links, n - 1).value + [links[n - 1].value])
  {
  }

  lemma IdsOfAppend(chapters: seq<Chapter>, c: Chapter)
    ensures IdsOf(chapters + [c]) == IdsOf(chapters) + [c.id]
  {
    assert (chapters + [c])[..|chapters|] == chapters;
  }

  /** Once a chapter position has no link, enumeration fails for good. */
  lemma {:induction false} ChapterIdsStayFailed(links: seq<Option<Prim>>, n: nat, k: nat)
    requires 1 <= n <= k
    requires ChapterIds(links, n - 1).Ok?
    requires n - 1 >= |links| || links[n - 1].None?
    ensures ChapterIds(links, k) == Err(TypeError)
    decreases k
  {
    if k > n {
      ChapterIdsStayFailed(links, n, k - 1);
    }
  }
  /** The text of an integer holds only digits and a sign. */
  lemma RenderingIsPlain(n: int)
    ensures '/' !in IntToString(n) && '?' !in IntToString(n) && '-' !in IntToString(n)[1..]
  {
    var d := NatToString(if n < 0 then -n else n);
    assert forall i :: 0 <= i < |d| ==> IsDecimalDigit(d[i]);
    if n < 0 {
      assert IntToString(n) == "-" + d && IntToString(n)[1..] == d;
    }
  }

  /** The segments of a work URL: the scheme, the empty authority
      separator, the host, "works", then those of the rest. */
  lemma WorkUrlParts(tail: string)
    ensures Split("https://archiveofourown.org/works/" + tail, "/") ==
      ["https:", "", "archiveofourown.org", "works"] + Split(tail, "/")
  {
    assert "https://archiveofourown.org/works/" + tail ==
      "https:" + "/" + "" + "/" + "archiveofourown.org" + "/" + "works" + "/" + tail;
    SplitSegments("https:", "", "archiveofourown.org", "works", tail);
  }

  lemma SplitSegments(a: string, b: string, c: string, d: string, tail: string)
    requires '/' !in a && '/' !in b && '/' !in c && '/' !in d
    ensures Split(a + "/" + b + "/" + c + "/" + d + "/" + tail, "/") == [a, b, c, d] + Split(tail, "/")
  {
    var s3 := d + ['/'] + tail;
    var s2 := c + ['/'] + s3;
    var s1 := b + ['/'] + s2;
    assert a + "/" + b + "/" + c + "/" + d + "/" + tail == a + ['/'] + s1;
    assert "/" == ['/'];
    SplitAfterPiece(a, '/', s1);
    SplitAfterPiece(b, '/', s2);
    SplitAfterPiece(c, '/', s3);
    SplitAfterPiece(d, '/', tail);
  }

  /** The id a work URL followed by `tail` yields is that of the first
      segment of `tail`. */
  lemma WorkIdOfWorkUrl(tail: string)
    ensures WorkIdFromUrl("https://archiveofourown.org/works/" + tail) == Ok(SegmentId(Split(tail, "/")[0]))
  {
    WorkUrlParts(tail);
    var parts := Split("https://archiveofourown.org/works/" + tail, "/");
    var index := IndexOf(parts, "works");
    assert parts[3] == "works";
    assert parts[..3] == ["https:", "", "archiveofourown.org"];
    assert index == 3;
  }

  /** A work URL names its own work: `WorkIdFromUrl` reads back the id. */
  lemma WorkUrlRoundTrip(n: int)
    ensures WorkIdFromUrl(WorkUrl(Number(Int(n)))) == Ok(Some(n))
  {
    var digits := IntToString(n);
    RenderingIsPlain(n);
    WorkIdOfWorkUrl(digits);
    assert "/" == ['/'] && "?" == ['?'];
    SplitWithout(digits, '/');
    SplitWithout(digits, '?');
    ParseIntOfRendering(n, "", true);
    assert digits + "" == digits;
  }

  /** A chapter URL of a numbered chapter names the work it belongs to. */
  lemma ChapterUrlRoundTrip(n: int, c: int)
    ensures WorkIdFromUrl(WorkUrl(Number(Int(n))) + "/chapters/" + IntToString(c)) == Ok(Some(n))
  {
    var digits := IntToString(n);
    var prefix := "https://archiveofourown.org/works/";
    var rest := "chapters/" + IntToString(c);
    assert WorkUrl(Number(Int(n))) == prefix + digits;
    assert "/chapters/" == "/" + "chapters/";
    ConcatAssoc(WorkUrl(Number(Int(n))), "/chapters/", IntToString(c));
    ConcatAssoc("/", "chapters/", IntToString(c));
    ConcatAssoc(prefix, digits, "/" + rest);
    ConcatAssoc(digits, "/", rest);
    WorkIdOfWorkUrl(digits + "/" + rest);
    SegmentOfRendering(n, rest);
  }

  /** The first segment of a tail starting with a rendered integer yields it. */
  lemma SegmentOfRendering(n: int, rest: string)
    ensures SegmentId(Split(IntToString(n) + "/" + rest, "/")[0]) == Some(n)
  {
    var digits := IntToString(n);
    RenderingIsPlain(n);
    FirstSegment(digits, rest);
    assert "?" == ['?'];
    SplitWithout(digits, '?');
    ParseIntOfRendering(n, "", true);
    assert digits + "" == digits;
  }

  lemma FirstSegment(d: string, rest: string)
    requires '/' !in d
    ensures Split(d + "/" + rest, "/")[0] == d
  {
    assert "/" == ['/'];
    assert d + "/" + rest == d + ['/'] + rest;
    SplitAfterPiece(d, '/', rest);
  }

  /** Whatever the chapter's id, its URL leads back to the work's id. */
  lemma ChapterUrlNamesWork(data: map<string, Value>, n: int, c: Prim)
    requires c == Null || (c.Number? && c.n.Int?)
    requires !Hit(data, "url", false)
    ensures var out := UrlLookup(data, true, c, Some(WorkUrl(Number(Int(n)))));
      out.0.Ok? && out.0.value.P? && out.0.value.prim.Str? &&
      WorkIdFromUrl(out.0.value.prim.s) == Ok(Some(n)) &&
      out.1 == data["url" := out.0.value]
  {
    if c == Null {
      WorkUrlRoundTrip(n);
    } else {
      ChapterUrlRoundTrip(n, c.n.v);
    }
  }

  /** Only two fields can fail on a loaded page: `expectedChapters` when the
      chapters stat has no "/", and `edited` when the download menu has no
      link.  No field yields undefined, so every stored field is a hit. */
  lemma ComputeFails(f: Field, page: WorkPage)
    ensures Compute(f, page).Err? <==>
      (f == ExpectedChapters && '/' !in page.chapters) || (f == Edited && page.download == DownloadLink(None))
    ensures Compute(f, page).Err? ==> Compute(f, page).error == TypeError
    ensures Compute(f, page).Ok? ==> Compute(f, page).value != P(Undefined)
  {
    if f == ExpectedChapters {
      assert "/" == ['/'];
      SplitCount(page.chapters, '/');
      CountZero(page.chapters, '/');
    }
  }

  /** A getter's answer is never undefined. */
  lemma {:induction false} LookupDefined(data: map<string, Value>, loaded: bool, doc: Option<WorkPage>, f: Field)
    ensures WorkLookup(data, loaded, doc, f).0.Ok? ==> WorkLookup(data, loaded, doc, f).0.value != P(Undefined)
    decreases if f == Edited then 1 else 0
  {
    if !Hit(data, Key(f), false) && loaded && doc.Some? {
      if f == Edited && doc.value.download == NoDownloadMenu {
        LookupDefined(data, loaded, doc, Published);
      } else {
        LookupComputes(data, loaded, doc, f);
        ComputeFails(f, doc.value);
      }
    }
  }

  /** A miss on a loaded page answers with what the page gives. */
  lemma LookupComputes(data: map<string, Value>, loaded: bool, doc: Option<WorkPage>, f: Field)
    requires !Hit(data, Key(f), false) && loaded && doc.Some?
    requires !(f == Edited && doc.value.download == NoDownloadMenu)
    ensures WorkLookup(data, loaded, doc, f).0 == Compute(f, doc.value)
  {
  }

  /** Once a stored field has been read, it answers the same forever: later
      calls on any page, loaded or not, return the cached value and change
      nothing. */
  lemma FieldSticks(data: map<string, Value>, loaded: bool, doc: Option<WorkPage>, f: Field,
                    loaded': bool, doc': Option<WorkPage>)
    requires f != Complete
    requires WorkLookup(data, loaded, doc, f).0.Ok?
    ensures var out := WorkLookup(data, loaded, doc, f);
      WorkLookup(out.1, loaded', doc', f) == out
  {
    LookupDefined(data, loaded, doc, f);
  }

  /** `complete` is never cached: asking changes nothing, and the answer
      follows the current page. */
  lemma CompleteNeverStored(data: map<string, Value>, loaded: bool, doc: Option<WorkPage>)
    requires !Hit(data, "complete", false)
    ensures WorkLookup(data, loaded, doc, Complete).1 == data
    ensures loaded && doc.Some? ==> WorkLookup(data, loaded, doc, Complete).0 == Compute(Complete, doc.value)
  {
  }

  /** As written, every loaded work reports "Completed". */
  lemma StatusAlwaysCompleted(data: map<string, Value>, page: WorkPage)
    requires !Hit(data, "status", false)
    ensures WorkLookup(data, true, Some(page), Status).0 == Ok(P(Str("Completed")))
  {
  }

  /** Counts drop every comma: digit groups read as one number. */
  lemma CountOfDigitGroups(text: string)
    requires IsDigits(RemoveAll(text, ','))
    ensures CountOf(text) == Number(Int(ValueOf(RemoveAll(text, ','), false)))
  {
    ParseIntOfDigits(RemoveAll(text, ','), true);
  }

  /** The two sides of a chapters stat "a/b" whose sides hold no "/". */
  lemma SplitStat(a: string, b: string)
    requires '/' !in a && '/' !in b
    ensures Split(a + "/" + b, "/") == [a, b]
  {
    assert "/" == ['/'];
    assert a + "/" + b == a + ['/'] + b;
    SplitAfterPiece(a, '/', b);
    SplitWithout(b, '/');
  }

  /** The expected chapter count of "a/b" where b is digits and commas. */
  lemma ExpectedOfDigits(page: WorkPage, a: string, b: string)
    requires page.chapters == a + "/" + b
    requires '/' !in a && '/' !in b
    requires IsDigits(RemoveAll(b, ','))
    ensures Compute(ExpectedChapters, page) == Ok(P(Number(Int(ValueOf(RemoveAll(b, ','), false)))))
  {
    SplitStat(a, b);
    var d := RemoveAll(b, ',');
    assert '?' !in d by {
      forall i | 0 <= i < |d| ensures d[i] != '?' {
        assert IsDecimalDigit(d[i]);
      }
    }
    RemoveFirstAbsent(d, '?');
    ParseIntOfDigits(d, true);
  }

  /** An unknown expected count "a/?" reads as null. */
  lemma UnknownExpectedIsNull(page: WorkPage, a: string)
    requires page.chapters == a + "/?"
    requires '/' !in a
    ensures Compute(ExpectedChapters, page) == Ok(P(Null))
  {
    assert a + "/?" == a + "/" + "?";
    SplitStat(a, "?");
    assert RemoveAll("?", ',') == "?";
    assert RemoveFirst("?", '?') == "";
    ParseIntNoDigits("", true);
  }

  /** `complete` compares the raw two sides of the stat as text. */
  lemma CompleteComparesText(page: WorkPage, a: string, b: string)
    requires page.chapters == a + "/" + b
    requires '/' !in a && '/' !in b
    ensures Compute(Complete, page) == Ok(P(Bool(a == b)))
  {
    SplitStat(a, b);
  }

  /** So a finished work whose written count has a thousands separator and
      whose expected count does not ("1,000/1000") has equal counts yet is
      not complete. */
  lemma CommaBreaksComplete(page: WorkPage, a: string)
    requires page.chapters == a + "/" + RemoveAll(a, ',')
    requires '/' !in a && '?' !in a && ',' in a
    requires ParseInt(RemoveAll(a, ',')).Int?
    ensures Compute(Complete, page) == Ok(P(Bool(false)))
    ensures Compute(NChapters, page) == Ok(P(Number(ParseInt(RemoveAll(a, ',')))))
    ensures Compute(ExpectedChapters, page) == Compute(NChapters, page)
  {
    var b := RemoveAll(a, ',');
    RemoveAllRemoves(a, ',');
    assert '/' !in b && '?' !in b by {
      if '/' in b { RemoveAllSubset(a, ',', '/'); }
      if '?' in b { RemoveAllSubset(a, ',', '?'); }
    }
    SplitStat(a, b);
    RemoveAllRemoves(b, ',');
    RemoveFirstAbsent(b, '?');
    CompleteComparesText(page, a, b);
  }

  /** Chapter enumeration succeeds exactly when positions 1..k all have a
      link. */
  lemma {:induction false} ChapterIdsOk(links: seq<Option<Prim>>, k: nat)
    ensures ChapterIds(links, k).Ok? <==> k <= |links| && forall i :: 0 <= i < k ==> links[i].Some?
  {
    if k > 0 {
      ChapterIdsOk(links, k - 1);
    }
  }

  /** When it succeeds it yields one id per position, in order. */
  lemma {:induction false} ChapterIdsValues(links: seq<Option<Prim>>, k: nat)
    requires ChapterIds(links, k).Ok?
    ensures |ChapterIds(links, k).value| == k
    ensures forall i :: 0 <= i < k ==> links[i].Some? && ChapterIds(links, k).value[i] == links[i].value
  {
    ChapterIdsOk(links, k);
    if k > 0 {
      ChapterIdsOk(links, k - 1);
      ChapterIdsValues(links, k - 1);
      ChapterIdsStep(links, k);
      var prev := ChapterIds(links, k - 1).value;
      var ids := ChapterIds(links, k).value;
      forall i | 0 <= i < k
        ensures ids[i] == links[i].value
      {
        if i < k - 1 {
          assert ids[i] == prev[i];
        }
      }
    }
  }

  /** Every chapter a listing made holds what `PageOf` says, among the
      chapters listed before it. */
  lemma {:induction false} PagesAt(cs: seq<Chapter>, load: bool, fetch: string -> Response<ChapterPage>, i: nat)
    requires Pages(cs, load, fetch) && i < |cs|
    ensures cs[i].data == map[]
    ensures load ==> cs[i].doc == Adopt(cs[..i], cs[i], Some(fetch(ChapterPageUrl(cs[i].id)).doc))
    decreases |cs|
  {
    if i < |cs| - 1 {
      var front := cs[..|cs| - 1];
      assert front[i] == cs[i] && front[..i] == cs[..i];
      PagesAt(front, load, fetch, i);
    }
  }

  /** Once the chapter loop has failed, it fails the same way for good. */
  lemma {:induction false} ChapterWalkStaysFailed(links: seq<Option<Prim>>, n: nat, k: nat, load: bool,
                                                  fetch: string -> Response<ChapterPage>)
    requires n <= k && ChapterWalk(links, n, load, fetch).Fail?
    ensures ChapterWalk(links, k, load, fetch) == ChapterWalk(links, n, load, fetch)
    decreases k
  {
    if k > n {
      ChapterWalkStaysFailed(links, n, k - 1, load, fetch);
    }
  }

  /** Without loading, the loop fails exactly where the enumeration of ids
      does. */
  lemma {:induction false} ChapterWalkUnloaded(links: seq<Option<Prim>>, k: nat, fetch: string -> Response<ChapterPage>)
    ensures ChapterWalk(links, k, false, fetch) == OutcomeOf(ChapterIds(links, k))
  {
    if k > 0 {
      ChapterWalkUnloaded(links, k - 1, fetch);
    }
  }

  /** The loop passes exactly when every position has a link and, when
      loading, every chapter page is accepted. */
  lemma {:induction false} ChapterWalkPasses(links: seq<Option<Prim>>, k: nat, load: bool,
                                             fetch: string -> Response<ChapterPage>)
    ensures ChapterWalk(links, k, load, fetch) == Pass <==>
      k <= |links| &&
      forall i :: 0 <= i < k ==> links[i].Some? && (load ==> Accept(fetch(ChapterPageUrl(links[i].value))).Ok?)
  {
    if k > 0 {
      ChapterWalkPasses(links, k - 1, load, fetch);
    }
  }

  /** Without loading, `loadChapters` fails exactly where its plan does. */
  lemma LoadOutcomeUnloaded(nav: Result<NavPage>, count: Result<Value>, fetch: string -> Response<ChapterPage>)
    ensures LoadOutcome(nav, count, false, fetch) == OutcomeOf(ChapterPlan(nav, count))
  {
    if nav.Ok? && nav.value.chapterList.Some? && count.Ok? && ManyChapters(count.value) {
      ChapterWalkUnloaded(LinkIds(nav.value.chapterList.value), count.value.prim.n.v, fetch);
    }
  }

  /** `loadChapters` passes exactly when its plan succeeds and, when
      loading, the page of every planned chapter is accepted. */
  lemma LoadOutcomePasses(nav: Result<NavPage>, count: Result<Value>, load: bool,
                          fetch: string -> Response<ChapterPage>)
    ensures LoadOutcome(nav, count, load, fetch) == Pass <==>
      ChapterPlan(nav, count).Ok? &&
      (load ==> forall i :: 0 <= i < |ChapterPlan(nav, count).value| ==>
                  Accept(fetch(ChapterPageUrl(ChapterPlan(nav, count).value[i]))).Ok?)
  {
    if nav.Ok? && nav.value.chapterList.Some? && count.Ok? && ManyChapters(count.value) {
      var links := LinkIds(nav.value.chapterList.value);
      var k := count.value.prim.n.v;
      ChapterWalkPasses(links, k, load, fetch);
      ChapterIdsOk(links, k);
      if ChapterIds(links, k).Ok? {
        ChapterIdsValues(links, k);
        var ids := ChapterIds(links, k).value;
        assert forall i :: 0 <= i < k ==> ChapterPageUrl(ids[i]) == ChapterPageUrl(links[i].value);
      }
    } else if nav.Ok? && nav.value.chapterList.Some? && count.Ok? {
      var ids := ChapterPlan(nav, count).value;
      assert ids == [Null] && ids[0] == Null;
      assert (forall i :: 0 <= i < |ids| ==> Accept(fetch(ChapterPageUrl(ids[i]))).Ok?) <==>
        Accept(fetch(ChapterPageUrl(Null))).Ok?;
    }
  }

  /** The ids listed for the first j positions are the first j of those
      listed for k positions. */
  lemma ChapterIdsPrefix(links: seq<Option<Prim>>, j: nat, k: nat)
    requires j <= k && ChapterIds(links, k).Ok?
    ensures ChapterIds(links, j) == Ok(ChapterIds(links, k).value[..j])
  {
    ChapterIdsOk(links, k);
    ChapterIdsOk(links, j);
    ChapterIdsValues(links, k);
    ChapterIdsValues(links, j);
    assert ChapterIds(links, j).value == ChapterIds(links, k).value[..j];
  }

  /** A listing that succeeds leaves its whole plan, and one that stops
      early leaves a prefix of the plan whenever there is one. */
  lemma PlanPrefixOfPlan(nav: Result<NavPage>, count: Result<Value>, ids: seq<Prim>)
    ensures ChapterPlan(nav, count) == Ok(ids) ==> PlanPrefix(nav, count, ids)
    ensures PlanPrefix(nav, count, ids) && ChapterPlan(nav, count).Ok? ==> ids <= ChapterPlan(nav, count).value
  {
    if nav.Ok? && nav.value.chapterList.Some? && count.Ok? && ManyChapters(count.value) {
      var links := LinkIds(nav.value.chapterList.value);
      var k := count.value.prim.n.v;
      if ChapterIds(links, k).Ok? {
        ChapterIdsValues(links, k);
        if PlanPrefix(nav, count, ids) {
          ChapterIdsPrefix(links, |ids|, k);
        }
      }
    }
  }

  /** A navigation link ".../chapters/123" gives chapter id 123. */
  lemma NavHrefId(prefix: string, digits: string)
    requires IsDigits(digits)
    ensures HrefId(prefix + "/chapters/" + digits) == Number(Int(ValueOf(digits, false)))
  {
    assert '/' !in digits by {
      forall i | 0 <= i < |digits| ensures digits[i] != '/' {
        assert IsDecimalDigit(digits[i]);
      }
    }
    assert prefix + "/chapters/" + digits == (prefix + "/chapters") + ['/'] + digits;
    SplitLast(prefix + "/chapters", '/', digits);
    assert "/" == ['/'];
    ParseIntOfDigits(digits, true);
  }

  /** The single chapter of a one-chapter work is number 1, not cached. */
  lemma SingleChapterIsOne(data: map<string, Value>, doc: Option<ChapterPage>)
    requires !Hit(data, "number", false)
    ensures NumberLookup(data, true, Null, doc) == (Ok(P(Number(Int(1)))), data)
  {
  }

  /** A chapter div "chapter-12" gives number 12, which is cached. */
  lemma NumberOfDivId(data: map<string, Value>, id: Prim, page: ChapterPage, prefix: string, digits: string)
    requires id != Null && !Hit(data, "number", false)
    requires page.chapterDivId == Some(prefix + "-" + digits)
    requires IsDigits(digits)
    ensures var out := NumberLookup(data, true, id, Some(page));
      out.0 == Ok(P(Number(Int(ValueOf(digits, false))))) && out.1 == data["number" := out.0.value]
  {
    assert '-' !in digits by {
      forall i | 0 <= i < |digits| ensures digits[i] != '-' {
        assert IsDecimalDigit(digits[i]);
      }
    }
    assert prefix + "-" + digits == prefix + ['-'] + digits;
    SplitLast(prefix, '-', digits);
    assert "-" == ['-'];
    ParseIntOfDigits(digits, true);
  }

  /** Without a chapter title the title is the chapter number as text, and
      only the number is cached. */
  lemma TitleFallsBackToNumber(data: map<string, Value>, id: Prim, page: ChapterPage, workTitle: Result<Value>)
    requires id != Null && !page.heading.TitleText?
    requires !Hit(data, "title", false)
    ensures var number := NumberLookup(data, true, id, Some(page));
      var out := TitleLookup(data, true, id, Some(page), workTitle);
      out.1 == number.1 &&
      (number.0.Ok? ==> out.0 == Ok(P(Str(Templated(number.0.value))))) &&
      (number.0.Err? ==> out.0 == number.0)
  {
  }

  /** The run of paragraphs from `i` is the same in any prefix that keeps
      the first non-paragraph after it. */
  lemma {:induction false} RunInPrefix(children: seq<Node>, m: nat, i: nat)
    requires i <= m < |children| && children[m].tag != "p"
    ensures Run(children, i) == Run(children[..m], i)
    decreases m - i
  {
    if i < m && children[i].tag == "p" {
      RunInPrefix(children, m, i + 1);
    }
  }

  /** The text stops at the first non-paragraph after the first paragraph:
      nothing after it matters. */
  lemma TextStopsAtNonParagraph(children: seq<Node>, m: nat)
    requires m < |children| && children[m].tag != "p"
    requires FirstParagraph(children, 0).Some? && FirstParagraph(children, 0).value < m
    ensures ParagraphText(children) == ParagraphText(children[..m])
  {
    var k := FirstParagraph(children, 0).value;
    var front := children[..m];
    FirstInPrefix(children, m, 0);
    RunInPrefix(children, m, k + 1);
    assert front[k] == children[k];
    assert ParagraphText(front) == RemoveFirst(children[k].text, '\n') + "\n" + Lines(Run(front, k + 1));
  }

  lemma {:induction false} FirstInPrefix(children: seq<Node>, m: nat, i: nat)
    requires i <= m < |children|
    requires FirstParagraph(children, i).Some? && FirstParagraph(children, i).value < m
    ensures FirstParagraph(children[..m], i) == FirstParagraph(children, i)
    decreases m - i
  {
    if children[i].tag != "p" {
      FirstInPrefix(children, m, i + 1);
    }
  }

  /** A reloaded chapter keeps the fetched page when no other chapter of the
      work has a strictly equal id ... */
  lemma {:induction false} AdoptNoMatch(siblings: seq<Chapter>, me: Chapter, page: Option<ChapterPage>)
    requires forall i :: 0 <= i < |siblings| ==> !SameChapter(siblings[i], me)
    ensures Adopt(siblings, me, page) == page
    decreases |siblings|
  {
    if |siblings| > 0 {
      var rest := siblings[..|siblings| - 1];
      assert !SameChapter(siblings[|siblings| - 1], me);
      forall i | 0 <= i < |rest| ensures !SameChapter(rest[i], me) {
        assert rest[i] == siblings[i];
      }
      AdoptNoMatch(rest, me, page);
    }
  }

  /** ... and otherwise takes the page of the last such chapter. */
  lemma {:induction false} AdoptLastMatch(siblings: seq<Chapter>, me: Chapter, page: Option<ChapterPage>, j: nat)
    requires j < |siblings| && SameChapter(siblings[j], me) && LastSame(siblings, me, j)
    ensures Adopt(siblings, me, page) == siblings[j].doc
    decreases |siblings|
  {
    if j < |siblings| - 1 {
      var rest := siblings[..|siblings| - 1];
      assert !SameChapter(siblings[|siblings| - 1], me);
      assert rest[j] == siblings[j];
      forall i | j < i < |rest| ensures !SameChapter(rest[i], me) {
        assert rest[i] == siblings[i];
      }
      AdoptLastMatch(rest, me, page, j);
    }
  }

  /** A notes div that is absent gives "" and is not cached; a present one
      gives its paragraphs, each on its own line, and is cached. */
  lemma SummaryOfBlock(data: map<string, Value>, page: ChapterPage)
    requires !Hit(data, "summary", false)
    ensures "summary" !in page.blocks ==> SummaryLookup(data, true, Some(page)) == (Ok(P(Str(""))), data)
    ensures "summary" in page.blocks ==>
      var text := Lines(page.blocks["summary"]);
      SummaryLookup(data, true, Some(page)) == (Ok(P(Str(text))), data["summary" := P(Str(text))])
  {
  }
}
