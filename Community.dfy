/**
 * The community deck board: the search and category filter over the deck
 * list, the comma-separated tag field, the derived statistics, and the two
 * handlers that change the list (sharing a new deck, downloading one).
 * The component's state is a class; the filter effect, which React re-runs
 * whenever the list, the query or the category changes, is the invariant
 * that ties `filteredDecks` to the other three fields.
 */
module Community {
  import opened Wrappers
  import opened Seqs
  import opened Text

  datatype Difficulty = Easy | Medium | Hard

  datatype CommunityDeck = CommunityDeck(
    id: string,
    title: string,
    description: string,
    category: string,
    author: string,
    /** The average rating, in tenths of a star. */
    rating: int,
    totalRatings: nat,
    cardCount: nat,
    downloads: nat,
    tags: seq<string>,
    difficulty: Difficulty,
    createdAt: int)

  /** The category choice that filters nothing. */
  const AllCategories: string := "All Categories"

  /** The search test: the lower-cased query occurs in the title, the description, one of the tags or the author. */
  predicate MatchesQuery(deck: CommunityDeck, query: string)
  {
    var q := ToLower(query);
    Contains(ToLower(deck.title), q)
    || Contains(ToLower(deck.description), q)
    || (exists t | t in deck.tags :: Contains(ToLower(t), q))
    || Contains(ToLower(deck.author), q)
  }

  /**
   * The search is case-insensitive substring search: the lower-cased query
   * occurs in the lower-cased title, description, a tag or the author. The
   * empty query matches every deck.
   */
  lemma MatchesQueryAt(deck: CommunityDeck, query: string)
    ensures MatchesQuery(deck, query) ==> Found(deck, ToLower(query))
    ensures Found(deck, ToLower(query)) ==> MatchesQuery(deck, query)
    ensures query == "" ==> MatchesQuery(deck, query)
  {
    var q := ToLower(query);
    ContainsAt(ToLower(deck.title), q);
    ContainsAt(ToLower(deck.description), q);
    ContainsAt(ToLower(deck.author), q);
    TagsMatchAt(deck.tags, q);
    assert MatchesQuery(deck, query) <==>
      Contains(ToLower(deck.title), q) || Contains(ToLower(deck.description), q)
      || (exists t | t in deck.tags :: Contains(ToLower(t), q)) || Contains(ToLower(deck.author), q);
    if query == "" {
      assert StartsWith(ToLower(deck.title), q);
    }
  }

  /** The lower-cased needle `q` occurs in the lower-cased title, description, a tag or the author. */
  ghost predicate Found(deck: CommunityDeck, q: string)
  {
    (exists k :: OccursAt(ToLower(deck.title), q, k))
    || (exists k :: OccursAt(ToLower(deck.description), q, k))
    || (exists t, k :: t in deck.tags && OccursAt(ToLower(t), q, k))
    || (exists k :: OccursAt(ToLower(deck.author), q, k))
  }

  /** Some tag contains the query exactly when the query occurs in some tag. */
  lemma TagsMatchAt(tags: seq<string>, q: string)
    ensures (exists t | t in tags :: Contains(ToLower(t), q)) ==> exists t, k :: t in tags && OccursAt(ToLower(t), q, k)
    ensures (exists t, k :: t in tags && OccursAt(ToLower(t), q, k)) ==> exists t | t in tags :: Contains(ToLower(t), q)
  {
    if exists t | t in tags :: Contains(ToLower(t), q) {
      var t :| t in tags && Contains(ToLower(t), q);
      ContainsAt(ToLower(t), q);
      var k :| OccursAt(ToLower(t), q, k);
      assert t in tags && OccursAt(ToLower(t), q, k);
    }
    if exists t, k :: t in tags && OccursAt(ToLower(t), q, k) {
      var t, k :| t in tags && OccursAt(ToLower(t), q, k);
      ContainsAt(ToLower(t), q);
      assert Contains(ToLower(t), q);
    }
  }

  predicate InCategory(deck: CommunityDeck, category: string)
  {
    deck.category == category
  }

  /** The filter effect: the search filter when the query is not empty, then the category filter unless all categories are chosen. */
  function FilterDecks(decks: seq<CommunityDeck>, query: string, category: string): (r: seq<CommunityDeck>)
    ensures |r| <= |decks|
  {
    var searched := if query != "" then Filter(decks, d => MatchesQuery(d, query)) else decks;
    if category != AllCategories then Filter(searched, d => InCategory(d, category)) else searched
  }

  /** Whether a deck passes both filters. */
  predicate Shown(deck: CommunityDeck, query: string, category: string)
  {
    (query == "" || MatchesQuery(deck, query)) && (category == AllCategories || deck.category == category)
  }

  /** The filtered list is the deck list with exactly the decks that pass both filters kept, in their order. */
  lemma FilterDecksIsFilter(decks: seq<CommunityDeck>, query: string, category: string)
    ensures FilterDecks(decks, query, category) == Filter(decks, d => Shown(d, query, category))
  {
    var shown := d => Shown(d, query, category);
    if query != "" && category != AllCategories {
      FilterFilter(decks, d => MatchesQuery(d, query), d => InCategory(d, category), shown);
    } else if query != "" {
      FilterExtensional(decks, d => MatchesQuery(d, query), shown);
    } else if category != AllCategories {
      FilterExtensional(decks, d => InCategory(d, category), shown);
    } else {
      FilterKeepsAll(decks, shown);
    }
  }

  /** A deck is listed exactly when it is on the board and passes both filters; the listing keeps the board's order. */
  lemma FilterDecksExactly(decks: seq<CommunityDeck>, query: string, category: string, d: CommunityDeck)
    ensures d in FilterDecks(decks, query, category) <==>
      d in decks && (query == "" || MatchesQuery(d, query)) && (category == AllCategories || d.category == category)
    ensures IsSubsequence(FilterDecks(decks, query, category), decks)
  {
    FilterDecksIsFilter(decks, query, category);
    FilterMembership(decks, x => Shown(x, query, category), d);
    FilterIsSubsequence(decks, x => Shown(x, query, category));
  }

  // ---------------------------------------------------------------------------
  // Tags

  predicate NonEmpty(s: string)
  {
    s != ""
  }

  /** `tags.split(',').map(tag => tag.trim()).filter(Boolean)`. */
  function ParseTags(tags: string): (r: seq<string>)
    ensures forall i :: 0 <= i < |r| ==> r[i] != ""
  {
    Filter(Map(Split(tags, ','), Trim), NonEmpty)
  }

  /** Every parsed tag is trimmed and holds no comma. */
  lemma ParseTagsShape(tags: string)
    ensures forall t :: t in ParseTags(tags) ==> IsTrimmed(t) && ',' !in t
  {
    var pieces := Split(tags, ',');
    forall t | t in ParseTags(tags)
      ensures IsTrimmed(t) && ',' !in t
    {
      FilterMembership(Map(pieces, Trim), NonEmpty, t);
      var i :| 0 <= i < |pieces| && t == Trim(pieces[i]);
      TrimIsSlice(pieces[i]);
    }
  }

  /** Writing non-empty, trimmed, comma-free tags separated by commas and parsing them gives them back. */
  lemma ParseJoinedTags(tags: seq<string>)
    requires forall i :: 0 <= i < |tags| ==> tags[i] != "" && IsTrimmed(tags[i]) && ',' !in tags[i]
    ensures ParseTags(Join(tags, ",")) == tags
  {
    if tags == [] {
      assert Split("", ',') == [""];
      assert Map([""], Trim) == [""];
    } else {
      SplitJoin(tags, ',');
      TrimKeepsTrimmed(tags);
      FilterKeepsAll(tags, NonEmpty);
    }
  }

  lemma TrimKeepsTrimmed(tags: seq<string>)
    requires forall i :: 0 <= i < |tags| ==> IsTrimmed(tags[i])
    ensures Map(tags, Trim) == tags
  {
  }

  // ---------------------------------------------------------------------------
  // Statistics

  /** `decks.reduce((sum, deck) => sum + deck.downloads, 0)`. */
  function TotalDownloads(decks: seq<CommunityDeck>): nat
  {
    if decks == [] then 0 else TotalDownloads(decks[..|decks| - 1]) + decks[|decks| - 1].downloads
  }

  /** The total of a list in two parts is the sum of the parts' totals. */
  lemma {:induction false} TotalDownloadsAppend(a: seq<CommunityDeck>, b: seq<CommunityDeck>)
    ensures TotalDownloads(a + b) == TotalDownloads(a) + TotalDownloads(b)
  {
    if b != [] {
      var init := b[..|b| - 1];
      TotalDownloadsAppend(a, init);
      assert (a + b)[..|a + b| - 1] == a + init;
    } else {
      assert a + b == a;
    }
  }

  /** `new Set(decks.map(deck => deck.category)).size`. */
  function UniqueCategories(decks: seq<CommunityDeck>): (n: nat)
    ensures n <= |decks|
    ensures decks != [] ==> n >= 1
  {
    CategoriesBound(decks);
    |Categories(decks)|
  }

  function Categories(decks: seq<CommunityDeck>): set<string>
  {
    set d | d in decks :: d.category
  }

  lemma {:induction false} CategoriesBound(decks: seq<CommunityDeck>)
    ensures |Categories(decks)| <= |decks|
    ensures decks != [] ==> decks[0].category in Categories(decks)
  {
    if decks != [] {
      CategoriesBound(decks[1..]);
      assert Categories(decks) == {decks[0].category} + Categories(decks[1..]);
    }
  }

  /** How many decks carry the given id. */
  function CountId(decks: seq<CommunityDeck>, id: string): nat
  {
    if decks == [] then 0 else CountId(decks[..|decks| - 1], id) + (if decks[|decks| - 1].id == id then 1 else 0)
  }

  // ---------------------------------------------------------------------------
  // Sharing and downloading

  /** The share dialog's fields. */
  datatype DeckForm = DeckForm(title: string, description: string, category: string, tags: string)

  const EmptyForm := DeckForm("", "", "", "")

  /** The deck a successful share creates: by 'You', unrated, empty, never downloaded, of medium difficulty. */
  function SharedDeck(form: DeckForm, id: string, now: int): (d: CommunityDeck)
    ensures d.author == "You" && d.rating == 0 && d.totalRatings == 0 && d.cardCount == 0 && d.downloads == 0
    ensures d.title == form.title && d.description == form.description && d.category == form.category
    ensures d.tags == ParseTags(form.tags)
  {
    CommunityDeck(id, form.title, form.description, form.category, "You", 0, 0, 0, 0, ParseTags(form.tags), Medium, now)
  }

  /** `decks.find(d => d.id === deckId)`: the first deck with the id, if any. */
  function FindDeck(decks: seq<CommunityDeck>, id: string): (r: Option<CommunityDeck>)
    ensures r.Some? ==> r.value in decks && r.value.id == id
    ensures r.None? ==> forall d :: d in decks ==> d.id != id
    ensures r.Some? ==>
      exists i :: 0 <= i < |decks| && decks[i] == r.value && forall j :: 0 <= j < i ==> decks[j].id != id
  {
    if decks == [] then None
    else if decks[0].id == id then Some(decks[0])
    else FindDeck(decks[1..], id)
  }

  /** `decks.map(d => d.id === deckId ? {...d, downloads: d.downloads + 1} : d)`. */
  function CountDownload(decks: seq<CommunityDeck>, id: string): (r: seq<CommunityDeck>)
    ensures |r| == |decks|
    ensures forall i :: 0 <= i < |decks| && decks[i].id == id ==> r[i] == decks[i].(downloads := decks[i].downloads + 1)
    ensures forall i :: 0 <= i < |decks| && decks[i].id != id ==> r[i] == decks[i]
  {
    Map(decks, (d: CommunityDeck) => if d.id == id then d.(downloads := d.downloads + 1) else d)
  }

  /** A download adds one to the total for each deck with that id: exactly one when ids are unique. */
  lemma {:induction false} DownloadAddsToTotal(decks: seq<CommunityDeck>, id: string)
    ensures TotalDownloads(CountDownload(decks, id)) == TotalDownloads(decks) + CountId(decks, id)
  {
    if decks != [] {
      var n := |decks|;
      var count := (d: CommunityDeck) => if d.id == id then d.(downloads := d.downloads + 1) else d;
      var r := CountDownload(decks, id);
      assert r == Map(decks, count);
      DownloadAddsToTotal(decks[..n - 1], id);
      MapPrefix(decks, count, n - 1);
      assert r[..n - 1] == CountDownload(decks[..n - 1], id);
      assert TotalDownloads(r) == TotalDownloads(r[..n - 1]) + r[n - 1].downloads;
    }
  }

  /** Downloading changes no category. */
  lemma DownloadKeepsCategories(decks: seq<CommunityDeck>, id: string)
    ensures Categories(CountDownload(decks, id)) == Categories(decks)
  {
    var r := CountDownload(decks, id);
    forall c | c in Categories(decks)
      ensures c in Categories(r)
    {
      var i :| 0 <= i < |decks| && decks[i].category == c;
      assert r[i].category == c;
    }
  }

  /** Sharing adds no downloads and at most one new category. */
  lemma ShareStats(decks: seq<CommunityDeck>, d: CommunityDeck)
    requires d.downloads == 0
    ensures TotalDownloads([d] + decks) == TotalDownloads(decks)
    ensures UniqueCategories([d] + decks) <= UniqueCategories(decks) + 1
    ensures d.category in Categories(decks) ==> UniqueCategories([d] + decks) == UniqueCategories(decks)
  {
    PrependTotal(decks, d);
    assert Categories([d] + decks) == {d.category} + Categories(decks);
    if d.category in Categories(decks) {
      assert {d.category} + Categories(decks) == Categories(decks);
    }
  }

  lemma {:induction false} PrependTotal(decks: seq<CommunityDeck>, d: CommunityDeck)
    ensures TotalDownloads([d] + decks) == d.downloads + TotalDownloads(decks)
  {
    if decks != [] {
      var n := |decks|;
      assert ([d] + decks)[..n] == [d] + decks[..n - 1];
      PrependTotal(decks[..n - 1], d);
    }
  }

  /** The board's state: the deck list, the search controls, the filtered list and the share dialog. */
  class Board {
    var decks: seq<CommunityDeck>
    var filteredDecks: seq<CommunityDeck>
    var searchQuery: string
    var selectedCategory: string
    var isShareDialogOpen: bool
    var newDeck: DeckForm

    /** The filter effect has run on the current list, query and category. */
    predicate Valid()
      reads this
    {
      filteredDecks == FilterDecks(decks, searchQuery, selectedCategory)
    }

    /** The board as it mounts: the sample decks, no query, all categories. */
    constructor (sample: seq<CommunityDeck>)
      ensures Valid()
      ensures decks == sample && filteredDecks == sample
      ensures searchQuery == "" && selectedCategory == AllCategories && !isShareDialogOpen && newDeck == EmptyForm
    {
      decks := sample;
      filteredDecks := sample;
      searchQuery := "";
      selectedCategory := AllCategories;
      isShareDialogOpen := false;
      newDeck := EmptyForm;
    }

    method SetSearchQuery(query: string)
      modifies this
      ensures Valid()
      ensures searchQuery == query && decks == old(decks) && selectedCategory == old(selectedCategory)
      ensures newDeck == old(newDeck) && isShareDialogOpen == old(isShareDialogOpen)
    {
      searchQuery := query;
      filteredDecks := FilterDecks(decks, searchQuery, selectedCategory);
    }

    method SetCategory(category: string)
      modifies this
      ensures Valid()
      ensures selectedCategory == category && decks == old(decks) && searchQuery == old(searchQuery)
      ensures newDeck == old(newDeck) && isShareDialogOpen == old(isShareDialogOpen)
    {
      selectedCategory := category;
      filteredDecks := FilterDecks(decks, searchQuery, selectedCategory);
    }

    /**
     * `handleShareDeck`: with a title, a description and a category filled in,
     * the new deck goes first and the dialog is reset; otherwise nothing changes.
     */
    method ShareDeck(id: string, now: int) returns (shared: bool)
      requires Valid()
      modifies this
      ensures Valid()
      ensures shared <==> old(newDeck.title) != "" && old(newDeck.description) != "" && old(newDeck.category) != ""
      ensures !shared ==> decks == old(decks) && newDeck == old(newDeck) && isShareDialogOpen == old(isShareDialogOpen)
      ensures shared ==> decks == [SharedDeck(old(newDeck), id, now)] + old(decks)
      ensures shared ==> newDeck == EmptyForm && !isShareDialogOpen
      ensures searchQuery == old(searchQuery) && selectedCategory == old(selectedCategory)
    {
      if newDeck.title == "" || newDeck.description == "" || newDeck.category == "" {
        return false;
      }
      var deck := CommunityDeck(id, newDeck.title, newDeck.description, newDeck.category, "You", 0, 0, 0, 0,
                                ParseTags(newDeck.tags), Medium, now);
      decks := [deck] + decks;
      newDeck := EmptyForm;
      isShareDialogOpen := false;
      filteredDecks := FilterDecks(decks, searchQuery, selectedCategory);
      shared := true;
    }

    /** `handleDownload`'s state change: the matching deck counts one more download; an unknown id changes nothing. */
    method Download(deckId: string)
      requires Valid()
      modifies this
      ensures Valid()
      ensures decks == CountDownload(old(decks), deckId)
      ensures (forall d :: d in old(decks) ==> d.id != deckId) ==> decks == old(decks)
      ensures searchQuery == old(searchQuery) && selectedCategory == old(selectedCategory)
      ensures newDeck == old(newDeck) && isShareDialogOpen == old(isShareDialogOpen)
    {
      var deck := FindDeck(decks, deckId);
      if deck.Some? {
        decks := CountDownload(decks, deckId);
        filteredDecks := FilterDecks(decks, searchQuery, selectedCategory);
      } else {
        assert CountDownload(decks, deckId) == decks;
      }
    }
  }
}
