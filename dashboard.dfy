/** The content view model of `src/pages/Dashborad.tsx`: tag normalisation,
    the three-way filter over the local mirror, the filter state machine and
    the local delete patch. */
module Dashboard {

  import opened Wrappers
  import opened Seqs
  import opened Text
  import opened ContentHook
  import ContentCard

  const RecentWindowMs: int := 7 * 24 * 60 * 60 * 1000

  /** The filter names that select a type rather than a time window. */
  const TypeNames: seq<string> := ["youtube", "twitter", "article", "document"]

  // ---------------------------------------------------------------------------
  // Tag normalisation

  /** The title a wrapper object yields: the nested tag's title when the
      wrapper holds a `tag` with a `title`, else its own `title`, else the
      empty string. A bare string in an object-first array fails the search
      side's `typeof === "object"` test and yields "". */
  function EntryTitle(e: TagEntry): (r: string)
    ensures e.TagName? ==> r == ""
    ensures e.TagObject? && e.tag.NestedTag? ==> r == e.tag.title
    ensures e.TagObject? && !e.tag.NestedTag? && e.title.Some? ==> r == e.title.value
    ensures r != "" ==> e.TagObject? && (e.tag.NestedTag? || e.title == Some(r))
  {
    match e
    case TagName(_) => ""
    case TagObject(NestedTag(t), _) => t
    case TagObject(_, Some(t)) => t
    case TagObject(_, None) => ""
  }

  function NameOf(e: TagEntry): string {
    if e.TagName? then e.name else ""
  }

  /** The tags the search sees. Only the first element decides the shape: a
      string-first array is taken as the strings it holds; otherwise each
      element yields its title and exactly the empty titles are dropped, the
      others staying in order. */
  function SearchTags(tags: Option<seq<TagEntry>>): (r: seq<string>)
    ensures tags.None? || tags.value == [] ==> r == []
    ensures tags.Some? && tags.value != [] && tags.value[0].TagName? ==>
      |r| == |tags.value| && forall i :: 0 <= i < |r| ==> r[i] == NameOf(tags.value[i])
    ensures tags.Some? && tags.value != [] && tags.value[0].TagObject? ==>
      IsSubseq(r, Map(EntryTitle, tags.value))
      && (forall i :: 0 <= i < |r| ==> r[i] != "")
      && forall t :: multiset(r)[t] == if t != "" then multiset(Map(EntryTitle, tags.value))[t] else 0
  {
    if tags.None? || tags.value == [] then []
    else if tags.value[0].TagName? then Map(NameOf, tags.value)
    else
      FilterExact(NonEmpty, Map(EntryTitle, tags.value));
      Filter(NonEmpty, Map(EntryTitle, tags.value))
  }

  /** Whether the search side's `tags.some` finishes. On a string-first array
      it calls `toLowerCase` on each element in turn, which throws on an
      object, and it stops at the first match; so it finishes exactly when a
      matching string comes before every object. */
  predicate TagScanCompletes(tags: Option<seq<TagEntry>>, query: string) {
    tags.None? || tags.value == [] || tags.value[0].TagObject?
    || forall j :: 0 <= j < |tags.value| && tags.value[j].TagObject? ==>
         exists k :: 0 <= k < j && tags.value[k].TagName? && Contains(Lower(tags.value[k].name), Lower(query))
  }

  /** `matchesSearch` finishes: the title matches, so `||` skips the tags, or
      the tag scan finishes. */
  predicate SearchCompletes(item: ContentItem, query: string) {
    Contains(Lower(item.title), Lower(query)) || TagScanCompletes(item.tags, query)
  }

  /** The card side evaluates `"tag" in element` on every element of an
      object-first array, which throws on a string, and renders every element
      of a string-first array as a title, which fails on an object; so the
      array must be all strings or all objects. */
  predicate Renderable(tags: Option<seq<TagEntry>>) {
    tags.None? || tags.value == []
    || (forall i :: 0 <= i < |tags.value| ==> tags.value[i].TagName?)
    || (forall i :: 0 <= i < |tags.value| ==> tags.value[i].TagObject?)
  }

  datatype CardTag = CardTag(title: string)

  function CardTagOf(e: TagEntry): CardTag {
    if e.TagName? then CardTag(e.name) else CardTag(EntryTitle(e))
  }

  predicate HasTitle(t: CardTag) {
    t.title != ""
  }

  function TitleOf(t: CardTag): string {
    t.title
  }

  /** The tags a card shows: each string as a title, or each object's title
      with exactly the empty ones dropped, the others staying in order. */
  function CardTags(tags: Option<seq<TagEntry>>): (r: seq<CardTag>)
    requires Renderable(tags)
    ensures tags.None? || tags.value == [] ==> r == []
    ensures tags.Some? && tags.value != [] && tags.value[0].TagName? ==>
      |r| == |tags.value| && forall i :: 0 <= i < |r| ==> r[i] == CardTag(tags.value[i].name)
    ensures tags.Some? && tags.value != [] && tags.value[0].TagObject? ==>
      IsSubseq(r, Map(CardTagOf, tags.value))
      && forall c :: multiset(r)[c] == if c.title != "" then multiset(Map(CardTagOf, tags.value))[c] else 0
  {
    if tags.None? || tags.value == [] then []
    else if tags.value[0].TagName? then Map(CardTagOf, tags.value)
    else
      FilterExact(HasTitle, Map(CardTagOf, tags.value));
      Filter(HasTitle, Map(CardTagOf, tags.value))
  }

  lemma {:induction false} TitlesOfObjectTags(es: seq<TagEntry>)
    requires forall i :: 0 <= i < |es| ==> es[i].TagObject?
    ensures Map(TitleOf, Filter(HasTitle, Map(CardTagOf, es))) == Filter(NonEmpty, Map(EntryTitle, es))
  {
    if es != [] {
      TitlesOfObjectTags(es[1..]);
      assert Map(CardTagOf, es)[1..] == Map(CardTagOf, es[1..]);
      assert Map(EntryTitle, es)[1..] == Map(EntryTitle, es[1..]);
      var rest := Filter(HasTitle, Map(CardTagOf, es[1..]));
      if HasTitle(CardTagOf(es[0])) {
        assert Filter(HasTitle, Map(CardTagOf, es)) == [CardTagOf(es[0])] + rest;
        assert Map(TitleOf, [CardTagOf(es[0])] + rest) == [TitleOf(CardTagOf(es[0]))] + Map(TitleOf, rest);
      }
    }
  }

  /** The two normalisations agree: on every array a card can render, the
      search never throws and the card's titles are exactly the tags the
      search sees, in the same order. */
  lemma CardAndSearchAgree(tags: Option<seq<TagEntry>>, query: string)
    requires Renderable(tags)
    ensures TagScanCompletes(tags, query)
    ensures Map(TitleOf, CardTags(tags)) == SearchTags(tags)
  {
    if tags.Some? && tags.value != [] && tags.value[0].TagObject? {
      TitlesOfObjectTags(tags.value);
    }
  }

  /** Nothing in, nothing out; and the shapes the type declares come out as
      the source builds them. */
  lemma TagNormalisationExamples()
    ensures SearchTags(Some([])) == [] && SearchTags(None) == []
    ensures SearchTags(Some([TagName("go"), TagName("")])) == ["go", ""]
    ensures SearchTags(Some([TagObject(NestedTag("go"), Some("x")), TagObject(NestedWithoutTitle, Some("y")),
                             TagObject(NestedTag(""), Some("z")), TagObject(NoNestedTag, None)])) == ["go", "y"]
    ensures SearchTags(Some([TagObject(NoNestedTag, Some("a")), TagName("b")])) == ["a"]
  {
    var es := [TagObject(NestedTag("go"), Some("x")), TagObject(NestedWithoutTitle, Some("y")),
               TagObject(NestedTag(""), Some("z")), TagObject(NoNestedTag, None)];
    var titles := ["go", "y", "", ""];
    assert Map(EntryTitle, es) == titles;
    assert titles[1..] == ["y", "", ""] && titles[2..] == ["", ""] && titles[3..] == [""];
    assert Filter(NonEmpty, [""]) == [];
    assert Filter(NonEmpty, ["", ""]) == [];
    assert Filter(NonEmpty, ["y", "", ""]) == ["y"];
    assert Filter(NonEmpty, titles) == ["go", "y"];
    var mixed := [TagObject(NoNestedTag, Some("a")), TagName("b")];
    assert Map(EntryTitle, mixed) == ["a", ""];
    assert ["a", ""][1..] == [""];
    assert Filter(NonEmpty, ["a", ""]) == ["a"];
  }

  // ---------------------------------------------------------------------------
  // The filter

  /** `matchesSearch`: the query, up to case, is a piece of the title or of
      one of the search tags; the empty query matches everything. */
  function MatchesSearch(item: ContentItem, query: string): (b: bool)
    ensures b <==> (HasPieceIgnoringCase(item.title, query)
                    || exists i :: 0 <= i < |SearchTags(item.tags)| && HasPieceIgnoringCase(SearchTags(item.tags)[i], query))
    ensures query == "" ==> b
  {
    var q := Lower(query);
    var tags := SearchTags(item.tags);
    ContainsIgnoringCase(item.title, query);
    forall i | 0 <= i < |tags| ensures Contains(Lower(tags[i]), q) <==> HasPieceIgnoringCase(tags[i], query) {
      ContainsIgnoringCase(tags[i], query);
    }
    ContainsEmpty(Lower(item.title));
    Contains(Lower(item.title), q) || exists i | 0 <= i < |tags| :: Contains(Lower(tags[i]), q)
  }

  /** `matchesType`: "all" passes everything; otherwise the type and the
      filter must agree letter by letter up to case. */
  function MatchesType(item: ContentItem, typeFilter: string): (b: bool)
    ensures b <==> typeFilter == "all" || EqualIgnoringCase(item.contentType, typeFilter)
  {
    LowerEqual(item.contentType, typeFilter);
    typeFilter == "all" || Lower(item.contentType) == Lower(typeFilter)
  }

  /** `isRecent`: only under "recent", and only for an item that has a time,
      must the item be less than seven days old at `now`. */
  function IsRecent(item: ContentItem, currentFilter: string, now: int): (b: bool)
    ensures b <==> currentFilter != "recent" || item.createdAt.None? || now - item.createdAt.value < RecentWindowMs
  {
    if currentFilter == "recent" && item.createdAt.Some? then item.createdAt.value > now - RecentWindowMs
    else true
  }

  /** One item's verdict. The `currentFilter == "all"` escape adds nothing,
      since `isRecent` already passes every filter other than "recent"; under
      "recent" an item is kept iff it matches and has no time or is newer than
      seven days. */
  function Keep(item: ContentItem, searchQuery: string, typeFilter: string, currentFilter: string, now: int): (b: bool)
    ensures b <==> MatchesSearch(item, searchQuery) && MatchesType(item, typeFilter) && IsRecent(item, currentFilter, now)
    ensures currentFilter != "recent" ==> (b <==> MatchesSearch(item, searchQuery) && MatchesType(item, typeFilter))
    ensures currentFilter == "recent" ==>
      (b <==> MatchesSearch(item, searchQuery) && MatchesType(item, typeFilter)
              && (item.createdAt.None? || item.createdAt.value > now - RecentWindowMs))
  {
    MatchesSearch(item, searchQuery) && MatchesType(item, typeFilter)
    && (currentFilter == "all" || IsRecent(item, currentFilter, now))
  }

  function KeepFn(searchQuery: string, typeFilter: string, currentFilter: string, now: int): ContentItem -> bool {
    (item: ContentItem) => Keep(item, searchQuery, typeFilter, currentFilter, now)
  }

  predicate AllSearchCompletes(items: seq<ContentItem>, searchQuery: string) {
    forall i :: 0 <= i < |items| ==> SearchCompletes(items[i], searchQuery)
  }

  /** `filteredContent`: an order-preserving subsequence of the mirror whose
      every item passes search, type and recency, holding every copy of each
      passing item and no other item. */
  function FilteredContent(items: seq<ContentItem>, searchQuery: string, typeFilter: string,
                           currentFilter: string, now: int): (r: seq<ContentItem>)
    requires AllSearchCompletes(items, searchQuery)
    ensures IsSubseq(r, items)
    ensures forall i :: 0 <= i < |r| ==> Keep(r[i], searchQuery, typeFilter, currentFilter, now)
    ensures forall x :: multiset(r)[x] == if Keep(x, searchQuery, typeFilter, currentFilter, now) then multiset(items)[x] else 0
  {
    var p := KeepFn(searchQuery, typeFilter, currentFilter, now);
    FilterExact(p, items);
    Filter(p, items)
  }

  /** The empty query never throws and matches every item. */
  lemma EmptyQueryMatchesAll(items: seq<ContentItem>)
    ensures AllSearchCompletes(items, "")
    ensures forall i :: 0 <= i < |items| ==> MatchesSearch(items[i], "")
  {
    assert Lower("") == "";
    forall i | 0 <= i < |items| ensures SearchCompletes(items[i], "") {
      ContainsEmpty(Lower(items[i].title));
    }
  }

  /** With no search, no type and no time window, every item is shown, in order. */
  lemma NoFiltersShowsEverything(items: seq<ContentItem>, now: int)
    ensures AllSearchCompletes(items, "") && FilteredContent(items, "", "all", "all", now) == items
  {
    EmptyQueryMatchesAll(items);
    FilterAllPass(KeepFn("", "all", "all", now), items);
  }

  /** Searching "YOU" finds an item titled "youtube guide". */
  lemma UpperCaseQueryExample(item: ContentItem)
    requires item.title == "youtube guide"
    ensures MatchesSearch(item, "YOU")
  {
    assert item.title[0..3] == "you";
    assert Lower("you") == Lower("YOU");
    assert PieceIgnoringCaseAt(item.title, "YOU", 0);
  }

  /** The form stores "Youtube"; the dashboard's "youtube" filter shows it. */
  lemma FormTypesMatchFilters(item: ContentItem)
    requires item.contentType == "Youtube"
    ensures MatchesType(item, "youtube") && !MatchesType(item, "twitter")
  {
    assert LowerChar('Y') == 'y';
    assert LowerChar(item.contentType[1]) != LowerChar("twitter"[1]);
  }

  /** Eight days old is hidden under "recent"; six days old is shown. */
  lemma EightDaysHiddenSixDaysShown(old8: ContentItem, new6: ContentItem, now: int)
    requires old8.createdAt == Some(now - 8 * 24 * 60 * 60 * 1000)
    requires new6.createdAt == Some(now - 6 * 24 * 60 * 60 * 1000)
    ensures AllSearchCompletes([old8, new6], "") && FilteredContent([old8, new6], "", "all", "recent", now) == [new6]
  {
    EmptyQueryMatchesAll([old8, new6]);
    var p := KeepFn("", "all", "recent", now);
    assert !p(old8) && p(new6);
    assert [old8, new6][1..] == [new6];
    assert [new6][1..] == [];
    assert Filter(p, [new6]) == [new6];
    assert Filter(p, [old8, new6]) == Filter(p, [new6]);
  }

  // ---------------------------------------------------------------------------
  // The local delete patch and what a card is given

  function IdIsNot(id: int): ContentItem -> bool {
    (item: ContentItem) => item.id != id
  }

  /** The mirror `handleContentDeleted(id)` leaves behind. */
  function WithoutContent(items: seq<ContentItem>, id: int): (r: seq<ContentItem>)
    ensures forall i :: 0 <= i < |r| ==> r[i].id != id && r[i] in items
  {
    Filter(IdIsNot(id), items)
  }

  /** Deleting removes exactly the items with that id and keeps every other
      item, every copy of it, in order. */
  lemma DeleteRemovesExactly(items: seq<ContentItem>, id: int, x: ContentItem)
    ensures IsSubseq(WithoutContent(items, id), items)
    ensures multiset(WithoutContent(items, id))[x] == if x.id != id then multiset(items)[x] else 0
  {
    FilterIsSubseq(IdIsNot(id), items);
    FilterCount(IdIsNot(id), items, x);
  }

  /** Deleting an id no item has changes nothing. */
  lemma DeleteAbsentIsNoop(items: seq<ContentItem>, id: int)
    requires forall i :: 0 <= i < |items| ==> items[i].id != id
    ensures WithoutContent(items, id) == items
  {
    FilterAllPass(IdIsNot(id), items);
  }

  /** `createdAt || now`: a card gets the item's own time, and an item
      without one gets the rendering time, so it reads "0 hours ago". */
  function CardCreatedAt(item: ContentItem, now: int): (t: int)
    ensures item.createdAt.Some? ==> t == item.createdAt.value
    ensures item.createdAt.None? ==> t == now
    ensures item.createdAt.None? ==> ContentCard.GetTimeAgo(now, t) == "0 hours ago"
  {
    ContentCard.JustNowLabel(now);
    item.createdAt.GetOr(now)
  }

  // ---------------------------------------------------------------------------
  // The dashboard's state

  class DashboardState {
    var localContent: seq<ContentItem>
    var searchQuery: string
    var currentFilter: string
    var typeFilter: string

    /** A type filter and the "recent" window are never in force together. */
    ghost predicate Valid()
      reads this
    {
      !(typeFilter != "all" && currentFilter == "recent")
    }

    constructor ()
      ensures Valid()
      ensures localContent == [] && searchQuery == "" && currentFilter == "all" && typeFilter == "all"
    {
      localContent := [];
      searchQuery := "";
      currentFilter := "all";
      typeFilter := "all";
    }

    /** The items shown at clock time `now`. */
    function Visible(now: int): seq<ContentItem>
      reads this
      requires AllSearchCompletes(localContent, searchQuery)
    {
      FilteredContent(localContent, searchQuery, typeFilter, currentFilter, now)
    }

    /** The entry the sidebar highlights: the type filter when one is set,
        otherwise the current filter. */
    function SidebarHighlight(): (r: string)
      reads this
      ensures r == "all" <==> typeFilter == "all" && currentFilter == "all"
      ensures typeFilter != "all" ==> r == typeFilter
      ensures typeFilter == "all" ==> r == currentFilter
    {
      if typeFilter != "all" then typeFilter else currentFilter
    }

    /** The mirror follows every new `content` from the hook. */
    method SyncContent(content: seq<ContentItem>)
      requires Valid()
      modifies this
      ensures Valid()
      ensures localContent == content
      ensures searchQuery == old(searchQuery) && currentFilter == old(currentFilter) && typeFilter == old(typeFilter)
    {
      localContent := content;
    }

    /** Typing in the search box. */
    method SetSearchQuery(query: string)
      requires Valid()
      modifies this
      ensures Valid()
      ensures searchQuery == query
      ensures localContent == old(localContent) && currentFilter == old(currentFilter) && typeFilter == old(typeFilter)
    {
      searchQuery := query;
    }

    /** `handleFilterChange(filter)`: a type name sets the type filter and
        resets the window to "all"; "all" or "recent" sets the window and
        resets the type filter; any other string sets only the window. Either
        way the two never narrow together afterwards, and the sidebar
        highlights the chosen entry unless an unknown string was chosen over
        a type filter. */
    method HandleFilterChange(filter: string)
      modifies this
      ensures Valid()
      ensures filter in TypeNames ==> typeFilter == filter && currentFilter == "all"
      ensures filter !in TypeNames ==> currentFilter == filter
      ensures filter !in TypeNames ==>
        typeFilter == if filter == "all" || filter == "recent" then "all" else old(typeFilter)
      ensures filter in TypeNames || filter == "all" || filter == "recent" || old(typeFilter) == "all" ==>
        SidebarHighlight() == filter
      ensures localContent == old(localContent) && searchQuery == old(searchQuery)
    {
      if filter in TypeNames {
        typeFilter := filter;
        currentFilter := "all";
      } else {
        currentFilter := filter;
        if filter == "all" || filter == "recent" {
          typeFilter := "all";
        }
      }
    }

    /** The "All" button clears both filters. */
    method ShowAll()
      modifies this
      ensures Valid()
      ensures typeFilter == "all" && currentFilter == "all"
      ensures localContent == old(localContent) && searchQuery == old(searchQuery)
    {
      typeFilter := "all";
      currentFilter := "all";
    }

    /** `handleContentDeleted(id)`: the mirror loses the items with that id. */
    method HandleContentDeleted(id: int)
      requires Valid()
      modifies this
      ensures Valid()
      ensures localContent == WithoutContent(old(localContent), id)
      ensures searchQuery == old(searchQuery) && currentFilter == old(currentFilter) && typeFilter == old(typeFilter)
    {
      localContent := WithoutContent(localContent, id);
    }
  }
}
