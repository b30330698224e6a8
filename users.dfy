/** An archive user: three facets (works, profile, bookmarks) fetched on
    demand, cached getters over them, and the paged listings of the user's
    works and bookmarks. */
module Users {
  import opened Prelude
  import opened Strings
  import opened Numbers
  import opened Js
  import opened Fetch
  import opened Memo
  import opened Banners

  /** A works or bookmarks listing page, as its selectors see it. */
  datatype ListingPage = ListingPage(
    headings: string,                  // text of every h2.heading
    current: string,                   // div#inner span.current, e.g. "Works (45)"
    pagination: Option<seq<string>>,   // the li texts of ol[title="pagination"]
    articles: seq<Article>)            // li[role="article"] of the listing

  /** A profile page: the bio module (absent, or the text of its
      blockquote) and the `src` of the icon image. */
  datatype ProfilePage = ProfilePage(
    headings: string,
    bio: Option<string>,
    avatarSrc: Option<string>)

  /** What each user URL answers. */
  datatype UserSite = UserSite(
    listings: string -> Response<ListingPage>,
    profiles: string -> Response<ProfilePage>)

  const WorksNotLoaded := BaseAO3Error("User works not loaded.")
  const ProfileNotLoaded := BaseAO3Error("User profile not loaded.")
  const BookmarksNotLoaded := BaseAO3Error("User bookmarks not loaded.")
  const UserNotFound := BaseAO3Error("User not found.")

  function UserUrl(username: string): string
  {
    "https://archiveofourown.org/users/" + username
  }

  function ListingUrl(username: string, facet: string, page: int): string
  {
    UserUrl(username) + "/" + facet + "?page=" + IntToString(page)
  }

  /** The count in a heading such as "Works (45)": the parentheses go (the
      first of each), then the second " "-separated word is read. */
  function CountInCurrent(current: string): Prim
  {
    var words := Split(RemoveFirst(RemoveFirst(current, '('), ')'), " ");
    Number(if |words| >= 2 then ParseInt(words[1]) else NaN)
  }

  /** Which pagination items count as page numbers: for works any text
      `parseInt` reads as an integer, for bookmarks only all-digit text. */
  predicate IsPageNumber(text: string, digitsOnly: bool)
  {
    if digitsOnly then IsDigits(text) else ParseInt(text).Int?
  }

  /** The page count a pagination list gives: the last page number in it,
      or 1 when there is none. */
  function LastPage(items: seq<string>, digitsOnly: bool): int
  {
    if |items| == 0 then 1
    else if IsPageNumber(Last(items), digitsOnly) then ParseInt(Last(items)).v
    else LastPage(items[..|items| - 1], digitsOnly)
  }

  /** The number of pages a `for (page = 1; page <= n; page++)` visits. */
  function Visits(n: Value): nat
  {
    if n.P? && n.prim.Number? && n.prim.n.Int? && n.prim.n.v >= 1 then n.prim.n.v else 0
  }

  function NWorksLookup(data: map<string, Value>, loaded: bool, doc: Option<ListingPage>)
    : (Result<Value>, map<string, Value>)
  {
    var count := if doc.None? then Err(TypeError) else Ok(P(CountInCurrent(doc.value.current)));
    Memo.Memo(data, "nWorks", true, loaded, WorksNotLoaded, (count, data), false)
  }

  function NBookmarksLookup(data: map<string, Value>, loaded: bool, doc: Option<ListingPage>)
    : (Result<Value>, map<string, Value>)
  {
    var count := if doc.None? then Err(TypeError) else Ok(P(CountInCurrent(doc.value.current)));
    Memo.Memo(data, "nBookmarks", true, loaded, BookmarksNotLoaded, (count, data), true)
  }

  /** `_worksPages`: 1 (not cached) without pagination, else the last page
      number, cached. */
  function WorksPagesLookup(data: map<string, Value>, loaded: bool, doc: Option<ListingPage>)
    : (Result<Value>, map<string, Value>)
  {
    var (pages, stores) :=
      if doc.None? then (Err(TypeError), false)
      else if doc.value.pagination.None? then (Ok(P(Number(Int(1)))), false)
      else (Ok(P(Number(Int(LastPage(doc.value.pagination.value, false))))), true);
    Memo.Memo(data, "_worksPages", true, loaded, WorksNotLoaded, (pages, data), stores)
  }

  /** `_bookmarksPages`, which has no cache. */
  function BookmarksPages(loaded: bool, doc: Option<ListingPage>): Result<Value>
  {
    if !loaded then Err(BookmarksNotLoaded)
    else if doc.None? then Err(TypeError)
    else if doc.value.pagination.None? then Ok(P(Number(Int(1))))
    else Ok(P(Number(Int(LastPage(doc.value.pagination.value, true)))))
  }

  /** The bio: "" (not cached) without a bio module, else its text. */
  function BioLookup(data: map<string, Value>, loaded: bool, doc: Option<ProfilePage>)
    : (Result<Value>, map<string, Value>)
  {
    var (bio, stores) :=
      if doc.None? then (Err(TypeError), false)
      else if doc.value.bio.None? then (Ok(P(Str(""))), false)
      else (Ok(P(Str(doc.value.bio.value))), true);
    Memo.Memo(data, "bio", true, loaded, ProfileNotLoaded, (bio, data), stores)
  }

  /** The avatar: the icon's `src`, or null when it is missing or empty. */
  function AvatarLookup(data: map<string, Value>, loaded: bool, doc: Option<ProfilePage>)
    : (Result<Value>, map<string, Value>)
  {
    var avatar :=
      if doc.None? then Err(TypeError)
      else if doc.value.avatarSrc.Some? && |doc.value.avatarSrc.value| > 0 then Ok(P(Str(doc.value.avatarSrc.value)))
      else Ok(P(Null));
    Memo.Memo(data, "avatar", true, loaded, ProfileNotLoaded, (avatar, data), true)
  }

  /** The listing pages 1..n of one facet, as `get` accepts or refuses
      them. */
  function Fetches(username: string, facet: string, listings: string -> Response<ListingPage>, n: nat)
    : (pages: seq<Result<ListingPage>>)
    ensures |pages| == n
    ensures forall i :: 0 <= i < n ==> pages[i] == Accept(listings(ListingUrl(username, facet, i + 1)))
  {
    seq(n, i => Accept(listings(ListingUrl(username, facet, i + 1))))
  }

  /** The works (or bookmarks) gathered from a run of listing pages, in
      order, and the error that stopped the walk, if any. */
  function Collected(pages: seq<Result<ListingPage>>): (seq<WorkStub>, Option<Error>)
  {
    if |pages| == 0 then ([], None)
    else
      var before := Collected(pages[..|pages| - 1]);
      if before.1.Some? then before
      else
        match pages[|pages| - 1]
        case Err(e) => (before.0, Some(e))
        case Ok(page) =>
          var found := Harvest(page.articles);
          (before.0 + found.0, found.1)
  }

  function OutcomeOfError(err: Option<Error>): Outcome
  {
    match err
    case None => Pass
    case Some(e) => Fail(e)
  }

  /** One facet fetch: the page, refused on the 404 page. */
  function Facet<D>(fetched: Result<D>, notFound: D -> bool): Outcome
  {
    match fetched
    case Err(e) => Fail(e)
    case Ok(page) => if notFound(page) then Fail(UserNotFound) else Pass
  }

  predicate ListingNotFound(page: ListingPage)
  {
    Contains(page.headings, "Error 404")
  }

  predicate ProfileNotFound(page: ProfilePage)
  {
    Contains(page.headings, "Error 404")
  }

  /** The page count scan of `_worksPages` and `_bookmarksPages`. */
  method ScanPages(items: seq<string>, digitsOnly: bool) returns (n: int)
    ensures n == LastPage(items, digitsOnly)
  {
    n := 1;
    for i := 0 to |items|
      invariant n == LastPage(items[..i], digitsOnly)
    {
      assert items[..i + 1][..i] == items[..i];
      if IsPageNumber(items[i], digitsOnly) {
        n := ParseInt(items[i]).v;
      }
    }
    assert items[..|items|] == items;
  }

  class User {
    const username: string
    var worksLoaded: bool
    var profileLoaded: bool
    var bookmarksLoaded: bool
    var data: map<string, Value>
    var worksDoc: Option<ListingPage>
    var profileDoc: Option<ProfilePage>
    var bookmarksDoc: Option<ListingPage>
    var works: Option<seq<WorkStub>>        // None is undefined
    var bookmarks: Option<seq<WorkStub>>

    /** Nothing loaded and nothing cached. */
    predicate Blank()
      reads this
    {
      !worksLoaded && !profileLoaded && !bookmarksLoaded &&
      data == map[] && worksDoc.None? && profileDoc.None? && bookmarksDoc.None? &&
      works.None? && bookmarks.None?
    }

    /** A user with nothing loaded. */
    constructor(username: string)
      ensures this.username == username && Blank()
    {
      this.username := username;
      worksLoaded := false;
      profileLoaded := false;
      bookmarksLoaded := false;
      data := map[];
      worksDoc := None;
      profileDoc := None;
      bookmarksDoc := None;
      works := None;
      bookmarks := None;
    }

    /** `new User(username, {load})`.  With `load` set the constructor calls
        `this.load()`, a method User does not have: a TypeError. */
    static method Create(username: string, load: bool) returns (r: Result<User>)
      ensures load <==> r.Err?
      ensures r.Err? ==> r.error == TypeError
      ensures r.Ok? ==> fresh(r.value) && r.value.username == username && r.value.Blank()
    {
      var u := new User(username);
      if load {
        return Err(TypeError);
      }
      return Ok(u);
    }

    function Url(): string
    {
      UserUrl(username)
    }

    /** Fetches the works facet; the page is kept even when it is the 404
        page. */
    method GetWorks(site: UserSite) returns (o: Outcome)
      modifies this`worksDoc
      ensures var fetched := Accept(site.listings(Url() + "/works"));
        o == Facet(fetched, ListingNotFound) &&
        worksDoc == (if fetched.Ok? then Some(fetched.value) else old(worksDoc))
    {
      var fetched := Accept(site.listings(Url() + "/works"));
      if fetched.Err? {
        return Fail(fetched.error);
      }
      worksDoc := Some(fetched.value);
      o := if ListingNotFound(fetched.value) then Fail(UserNotFound) else Pass;
    }

    method GetProfile(site: UserSite) returns (o: Outcome)
      modifies this`profileDoc
      ensures var fetched := Accept(site.profiles(Url() + "/profile"));
        o == Facet(fetched, ProfileNotFound) &&
        profileDoc == (if fetched.Ok? then Some(fetched.value) else old(profileDoc))
    {
      var fetched := Accept(site.profiles(Url() + "/profile"));
      if fetched.Err? {
        return Fail(fetched.error);
      }
      profileDoc := Some(fetched.value);
      o := if ProfileNotFound(fetched.value) then Fail(UserNotFound) else Pass;
    }

    method GetBookmarks(site: UserSite) returns (o: Outcome)
      modifies this`bookmarksDoc
      ensures var fetched := Accept(site.listings(Url() + "/bookmarks"));
        o == Facet(fetched, ListingNotFound) &&
        bookmarksDoc == (if fetched.Ok? then Some(fetched.value) else old(bookmarksDoc))
    {
      var fetched := Accept(site.listings(Url() + "/bookmarks"));
      if fetched.Err? {
        return Fail(fetched.error);
      }
      bookmarksDoc := Some(fetched.value);
      o := if ListingNotFound(fetched.value) then Fail(UserNotFound) else Pass;
    }

    /** Loads the asked facets in the order works, profile, bookmarks; each
        loaded facet sets its flag (and, for works and bookmarks, drops the
        listing, since the facet fetch returns nothing), and the first
        failure stops the rest. */
    method Reload(loadWorks: bool, loadProfile: bool, loadBookmarks: bool, site: UserSite) returns (o: Outcome)
      modifies this`worksDoc, this`profileDoc, this`bookmarksDoc, this`works, this`bookmarks,
               this`worksLoaded, this`profileLoaded, this`bookmarksLoaded
      ensures var w := if loadWorks then Facet(Accept(site.listings(Url() + "/works")), ListingNotFound) else Pass;
        var p := if loadProfile then Facet(Accept(site.profiles(Url() + "/profile")), ProfileNotFound) else Pass;
        var b := if loadBookmarks then Facet(Accept(site.listings(Url() + "/bookmarks")), ListingNotFound) else Pass;
        o == (if w.Fail? then w else if p.Fail? then p else b) &&
        worksLoaded == (old(worksLoaded) || (loadWorks && w.Pass?)) &&
        profileLoaded == (old(profileLoaded) || (loadProfile && w.Pass? && p.Pass?)) &&
        bookmarksLoaded == (old(bookmarksLoaded) || (loadBookmarks && w.Pass? && p.Pass? && b.Pass?)) &&
        works == (if loadWorks && w.Pass? then None else old(works)) &&
        bookmarks == (if loadBookmarks && w.Pass? && p.Pass? && b.Pass? then None else old(bookmarks))
      ensures var worksPage := Accept(site.listings(Url() + "/works"));
        var profilePage := Accept(site.profiles(Url() + "/profile"));
        var bookmarksPage := Accept(site.listings(Url() + "/bookmarks"));
        var w := if loadWorks then Facet(worksPage, ListingNotFound) else Pass;
        var p := if loadProfile then Facet(profilePage, ProfileNotFound) else Pass;
        worksDoc == (if loadWorks && worksPage.Ok? then Some(worksPage.value) else old(worksDoc)) &&
        profileDoc == (if loadProfile && w.Pass? && profilePage.Ok? then Some(profilePage.value) else old(profileDoc)) &&
        bookmarksDoc == (if loadBookmarks && w.Pass? && p.Pass? && bookmarksPage.Ok?
                         then Some(bookmarksPage.value) else old(bookmarksDoc))
    {
      if loadWorks {
        o := GetWorks(site);
        if o.Fail? {
          return;
        }
        works := None;
        worksLoaded := true;
      }
      if loadProfile {
        o := GetProfile(site);
        if o.Fail? {
          return;
        }
        profileLoaded := true;
      }
      if loadBookmarks {
        o := GetBookmarks(site);
        if o.Fail? {
          return;
        }
        bookmarks := None;
        bookmarksLoaded := true;
      }
      o := Pass;
    }

    method NWorks() returns (r: Result<Value>)
      ensures r == NWorksLookup(data, worksLoaded, worksDoc).0
    {
      if "nWorks" in data && TruthyValue(data["nWorks"]) {
        return Ok(data["nWorks"]);
      }
      if !worksLoaded {
        return Err(WorksNotLoaded);
      }
      if worksDoc.None? {
        return Err(TypeError);
      }
      r := Ok(P(CountInCurrent(worksDoc.value.current)));
    }

    method NBookmarks() returns (r: Result<Value>)
      modifies this`data
      ensures (r, data) == NBookmarksLookup(old(data), bookmarksLoaded, bookmarksDoc)
    {
      if "nBookmarks" in data && TruthyValue(data["nBookmarks"]) {
        return Ok(data["nBookmarks"]);
      }
      if !bookmarksLoaded {
        return Err(BookmarksNotLoaded);
      }
      if bookmarksDoc.None? {
        return Err(TypeError);
      }
      r := Ok(P(CountInCurrent(bookmarksDoc.value.current)));
      data := data["nBookmarks" := r.value];
    }

    method WorksPages() returns (r: Result<Value>)
      modifies this`data
      ensures (r, data) == WorksPagesLookup(old(data), worksLoaded, worksDoc)
    {
      if "_worksPages" in data && TruthyValue(data["_worksPages"]) {
        return Ok(data["_worksPages"]);
      }
      if !worksLoaded {
        return Err(WorksNotLoaded);
      }
      if worksDoc.None? {
        return Err(TypeError);
      }
      if worksDoc.value.pagination.None? {
        return Ok(P(Number(Int(1))));
      }
      var n := ScanPages(worksDoc.value.pagination.value, false);
      r := Ok(P(Number(Int(n))));
      data := data["_worksPages" := r.value];
    }

    method BookmarksPagesCount() returns (r: Result<Value>)
      ensures r == BookmarksPages(bookmarksLoaded, bookmarksDoc)
    {
      if !bookmarksLoaded {
        return Err(BookmarksNotLoaded);
      }
      if bookmarksDoc.None? {
        return Err(TypeError);
      }
      if bookmarksDoc.value.pagination.None? {
        return Ok(P(Number(Int(1))));
      }
      var n := ScanPages(bookmarksDoc.value.pagination.value, true);
      r := Ok(P(Number(Int(n))));
    }

    method Bio() returns (r: Result<Value>)
      modifies this`data
      ensures (r, data) == BioLookup(old(data), profileLoaded, profileDoc)
    {
      if "bio" in data && TruthyValue(data["bio"]) {
        return Ok(data["bio"]);
      }
      if !profileLoaded {
        return Err(ProfileNotLoaded);
      }
      if profileDoc.None? {
        return Err(TypeError);
      }
      if profileDoc.value.bio.None? {
        return Ok(P(Str("")));
      }
      r := Ok(P(Str(profileDoc.value.bio.value)));
      data := data["bio" := r.value];
    }

    method Avatar() returns (r: Result<Value>)
      modifies this`data
      ensures (r, data) == AvatarLookup(old(data), profileLoaded, profileDoc)
    {
      if "avatar" in data && TruthyValue(data["avatar"]) {
        return Ok(data["avatar"]);
      }
      if !profileLoaded {
        return Err(ProfileNotLoaded);
      }
      if profileDoc.None? {
        return Err(TypeError);
      }
      var src := profileDoc.value.avatarSrc;
      r := if src.Some? && |src.value| > 0 then Ok(P(Str(src.value))) else Ok(P(Null));
      data := data["avatar" := r.value];
    }

    /** Walks listing pages 1..n of one facet, appending what each page's
        articles yield; the first failure stops the walk and keeps what was
        gathered. */
    method Walk(facet: string, n: nat, listings: string -> Response<ListingPage>)
      returns (found: seq<WorkStub>, err: Option<Error>)
      ensures (found, err) == Collected(Fetches(username, facet, listings, n))
    {
      ghost var pages := Fetches(username, facet, listings, n);
      found := [];
      err := None;
      for page := 1 to n + 1
        invariant (found, err) == Collected(pages[..page - 1])
        invariant err.None?
      {
        assert pages[..page][..page - 1] == pages[..page - 1];
        var fetched := Accept(listings(ListingUrl(username, facet, page)));
        assert fetched == pages[page - 1];
        if fetched.Err? {
          CollectedStops(pages, page);
          return found, Some(fetched.error);
        }
        var more, failed := CollectArticles(fetched.value.articles);
        found := found + more;
        if failed.Some? {
          CollectedStops(pages, page);
          return found, failed;
        }
      }
      assert pages[..n] == pages;
    }

    /** Builds the work list once: only while `works` is undefined. */
    method GetWorkObjects(site: UserSite) returns (o: Outcome)
      modifies this`works, this`data
      ensures old(works).Some? ==> o == Pass && works == old(works) && data == old(data)
      ensures old(works).None? ==>
        var pages := WorksPagesLookup(old(data), worksLoaded, worksDoc);
        data == pages.1 &&
        (pages.0.Err? ==> o == Fail(pages.0.error) && works == Some([])) &&
        (pages.0.Ok? ==>
          var all := Collected(Fetches(username, "works", site.listings, Visits(pages.0.value)));
          o == OutcomeOfError(all.1) && works == Some(all.0))
    {
      if works.Some? {
        return Pass;
      }
      works := Some([]);
      var pages := WorksPages();
      if pages.Err? {
        return Fail(pages.error);
      }
      var found, err := Walk("works", Visits(pages.value), site.listings);
      works := Some(found);
      o := OutcomeOfError(err);
    }

    /** The same for bookmarks, whose page count is never cached. */
    method GetBookmarkObjects(site: UserSite) returns (o: Outcome)
      modifies this`bookmarks
      ensures old(bookmarks).Some? ==> o == Pass && bookmarks == old(bookmarks)
      ensures old(bookmarks).None? ==>
        var pages := BookmarksPages(bookmarksLoaded, bookmarksDoc);
        (pages.Err? ==> o == Fail(pages.error) && bookmarks == Some([])) &&
        (pages.Ok? ==>
          var all := Collected(Fetches(username, "bookmarks", site.listings, Visits(pages.value)));
          o == OutcomeOfError(all.1) && bookmarks == Some(all.0))
    {
      if bookmarks.Some? {
        return Pass;
      }
      bookmarks := Some([]);
      var pages := BookmarksPagesCount();
      if pages.Err? {
        return Fail(pages.error);
      }
      var found, err := Walk("bookmarks", Visits(pages.value), site.listings);
      bookmarks := Some(found);
      o := OutcomeOfError(err);
    }
  }

  // ---------------------------------------------------------------------
  // Properties

  /** Once a page fails, the walk over more pages fails the same way. */
  lemma {:induction false} CollectedStops(pages: seq<Result<ListingPage>>, k: nat)
    requires 1 <= k <= |pages|
    requires Collected(pages[..k]).1.Some?
    ensures Collected(pages) == Collected(pages[..k])
    decreases |pages|
  {
    if k < |pages| {
      var front := pages[..|pages| - 1];
      assert front[..k] == pages[..k];
      CollectedStops(front, k);
    } else {
      assert pages[..k] == pages;
    }
  }

  /** Walking more pages only adds to what fewer pages gathered: a failure
      part way keeps every work found before it. */
  lemma {:induction false} CollectedGrows(pages: seq<Result<ListingPage>>, k: nat)
    requires k <= |pages|
    ensures Collected(pages[..k]).0 <= Collected(pages).0
    decreases |pages|
  {
    if k < |pages| {
      var front := pages[..|pages| - 1];
      assert front[..k] == pages[..k];
      CollectedGrows(front, k);
    } else {
      assert pages[..k] == pages;
    }
  }

  /** The works of every accepted page, one page after the other. */
  function AllWorks(pages: seq<Result<ListingPage>>): seq<WorkStub>
  {
    if |pages| == 0 then []
    else (if pages[0].Ok? then Harvest(pages[0].value.articles).0 else []) + AllWorks(pages[1..])
  }

  lemma {:induction false} AllWorksSnoc(pages: seq<Result<ListingPage>>)
    requires |pages| > 0
    ensures AllWorks(pages) == AllWorks(pages[..|pages| - 1]) +
      (if Last(pages).Ok? then Harvest(Last(pages).value.articles).0 else [])
    decreases |pages|
  {
    if |pages| > 1 {
      AllWorksSnoc(pages[1..]);
      assert pages[1..][..|pages| - 2] == pages[..|pages| - 1][1..];
      assert Last(pages[1..]) == Last(pages);
    }
  }

  /** When every page is accepted and every listed work converts, the walk
      gathers each page's works in page order. */
  lemma {:induction false} CollectedAll(pages: seq<Result<ListingPage>>)
    requires forall i :: 0 <= i < |pages| ==> pages[i].Ok? && Harvest(pages[i].value.articles).1.None?
    ensures Collected(pages).1.None?
    ensures Collected(pages).0 == AllWorks(pages)
    ensures |pages| > 0 ==>
      Collected(pages).0 == Collected(pages[..|pages| - 1]).0 + Harvest(Last(pages).value.articles).0
    decreases |pages|
  {
    if |pages| > 0 {
      CollectedAll(pages[..|pages| - 1]);
      AllWorksSnoc(pages);
    }
  }

  /** The page count is the value of the last item that passes the page
      number test ... */
  lemma {:induction false} LastPageIsLastNumber(items: seq<string>, digitsOnly: bool, j: nat)
    requires j < |items| && IsPageNumber(items[j], digitsOnly)
    requires forall k :: j < k < |items| ==> !IsPageNumber(items[k], digitsOnly)
    ensures LastPage(items, digitsOnly) == ParseInt(items[j]).v
    decreases |items|
  {
    if j < |items| - 1 {
      assert !IsPageNumber(items[|items| - 1], digitsOnly);
      var front := items[..|items| - 1];
      assert front[j] == items[j];
      LastPageIsLastNumber(front, digitsOnly, j);
    }
  }

  /** ... and 1 when no item passes it. */
  lemma {:induction false} LastPageWithoutNumbers(items: seq<string>, digitsOnly: bool)
    requires forall k :: 0 <= k < |items| ==> !IsPageNumber(items[k], digitsOnly)
    ensures LastPage(items, digitsOnly) == 1
    decreases |items|
  {
    if |items| > 0 {
      assert !IsPageNumber(items[|items| - 1], digitsOnly);
      LastPageWithoutNumbers(items[..|items| - 1], digitsOnly);
    }
  }

  /** The bookmarks test (all digits) and the works test (`parseInt` gives an
      integer) pick the same page when every item `parseInt` reads is made
      of digits only, as page links are. */
  lemma {:induction false} PageTestsAgree(items: seq<string>)
    requires forall k :: 0 <= k < |items| && ParseInt(items[k]).Int? ==> IsDigits(items[k])
    ensures LastPage(items, true) == LastPage(items, false)
    decreases |items|
  {
    if |items| > 0 {
      var t := items[|items| - 1];
      if IsDigits(t) {
        ParseIntOfDigits(t, true);
      }
      PageTestsAgree(items[..|items| - 1]);
    }
  }

  /** The bookmarks page count is never negative. */
  lemma {:induction false} BookmarkPagesNatural(items: seq<string>)
    ensures LastPage(items, true) >= 0
    decreases |items|
  {
    if |items| > 0 {
      var t := items[|items| - 1];
      if IsDigits(t) {
        ParseIntOfDigits(t, true);
      } else {
        BookmarkPagesNatural(items[..|items| - 1]);
      }
    }
  }

  /** A heading "<caption> (<digits>)" gives the digits' value. */
  lemma CountInCurrentOf(caption: string, digits: string)
    requires '(' !in caption && ')' !in caption && ' ' !in caption
    requires IsDigits(digits)
    ensures CountInCurrent(caption + " (" + digits + ")") == Number(Int(ValueOf(digits, false)))
  {
    assert ')' !in digits && ' ' !in digits by {
      forall i | 0 <= i < |digits| ensures digits[i] != ')' && digits[i] != ' ' {
        assert IsDecimalDigit(digits[i]);
      }
    }
    var current := caption + " (" + digits + ")";
    assert current == (caption + " ") + ['('] + (digits + ")");
    RemoveFirstAt(caption + " ", '(', digits + ")");
    var once := caption + " " + digits + ")";
    assert (caption + " ") + (digits + ")") == once;
    assert once == (caption + " " + digits) + [')'] + "";
    RemoveFirstAt(caption + " " + digits, ')', "");
    var twice := caption + " " + digits;
    assert (caption + " " + digits) + "" == twice;
    assert twice == caption + [' '] + digits;
    SplitAfterPiece(caption, ' ', digits);
    SplitWithout(digits, ' ');
    assert " " == [' '];
    ParseIntOfDigits(digits, true);
  }

  /** A heading without a space-separated second word gives NaN. */
  lemma CountInCurrentOfOneWord(current: string)
    requires '(' !in current && ')' !in current && ' ' !in current
    ensures CountInCurrent(current) == Number(NaN)
  {
    RemoveFirstAbsent(current, '(');
    RemoveFirstAbsent(current, ')');
    SplitWithout(current, ' ');
    assert " " == [' '];
  }
}
