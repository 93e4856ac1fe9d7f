/**
 * The knowledge-base view: case-insensitive search over title, content and
 * tags with an exact category filter on top, the comma-separated tag parser
 * of the create form, the de-duplicated category buttons, the create-button
 * guard, and the component state those operations read and set.
 */
module KnowledgeBase {
  import opened Seqs
  import opened Strings
  import opened Records

  /** A row of `knowledge_base`; `tags` is nullable in the database. */
  datatype Article = Article(
    id: string,
    title: string,
    content: string,
    category: string,
    tags: Option<seq<string>>)

  /** The four text inputs of the create dialog. */
  datatype ArticleForm = ArticleForm(title: string, content: string, category: string, tags: string)

  /** The row `createArticle` sends to the database. */
  datatype ArticleInsert = ArticleInsert(title: string, content: string, category: string, tags: seq<string>)

  /** The category value that means "no category filter". */
  const AllCategories: string := "all"

  const EmptyForm: ArticleForm := ArticleForm("", "", "", "")

  // ---------------------------------------------------------------- search

  /** `tags.some(tag => tag.toLowerCase().includes(needle))`. */
  function SomeTagIncludes(tags: seq<string>, needle: string): (b: bool)
    ensures b <==> exists k :: 0 <= k < |tags| && Includes(Lower(tags[k]), needle)
    decreases |tags|
  {
    if tags == [] then false
    else Includes(Lower(tags[0]), needle) || SomeTagIncludes(tags[1..], needle)
  }

  /** The search predicate of `filterArticles`; a null tag list matches nothing. */
  predicate MatchesSearch(a: Article, term: string)
  {
    var t := Lower(term);
    || Includes(Lower(a.title), t)
    || Includes(Lower(a.content), t)
    || (a.tags.Some? && SomeTagIncludes(a.tags.value, t))
  }

  function SearchFilter(term: string): Article -> bool
  {
    (a: Article) => MatchesSearch(a, term)
  }

  function CategoryFilter(category: string): Article -> bool
  {
    (a: Article) => a.category == category
  }

  /**
   * `filterArticles`: the search filter runs only for a non-empty term, the
   * category filter only when a category other than "all" is selected.
   */
  function FilterArticles(articles: seq<Article>, searchTerm: string, selectedCategory: string): (r: seq<Article>)
    ensures searchTerm == "" && selectedCategory == AllCategories ==> r == articles
    ensures IsSubsequence(r, articles)
    ensures forall a :: a in r ==> selectedCategory == AllCategories || a.category == selectedCategory
  {
    var searched := if searchTerm != "" then Filter(SearchFilter(searchTerm), articles) else articles;
    SubsequenceRefl(articles);
    if selectedCategory != AllCategories then
      var r := Filter(CategoryFilter(selectedCategory), searched);
      SubsequenceTrans(r, searched, articles);
      r
    else searched
  }

  /**
   * The reference meaning of a search hit: the lower-cased term occurs at some
   * position of the lower-cased title, of the lower-cased content, or of some
   * lower-cased tag.
   */
  ghost predicate SearchHit(a: Article, term: string)
  {
    var t := Lower(term);
    || (exists i :: OccursAt(Lower(a.title), t, i))
    || (exists i :: OccursAt(Lower(a.content), t, i))
    || (a.tags.Some? && exists k, i :: 0 <= k < |a.tags.value| && OccursAt(Lower(a.tags.value[k]), t, i))
  }

  /** What the view shows: search hits that are in the selected category. */
  ghost predicate Shown(a: Article, searchTerm: string, selectedCategory: string)
  {
    SearchHit(a, searchTerm) && (selectedCategory == AllCategories || a.category == selectedCategory)
  }

  lemma MatchesSearchIffHit(a: Article, term: string)
    ensures MatchesSearch(a, term) <==> SearchHit(a, term)
  {
    var t := Lower(term);
    IncludesIffOccurs(Lower(a.title), t);
    IncludesIffOccurs(Lower(a.content), t);
    if a.tags.Some? {
      var tags := a.tags.value;
      forall k | 0 <= k < |tags|
        ensures Includes(Lower(tags[k]), t) <==> exists i :: OccursAt(Lower(tags[k]), t, i)
      {
        IncludesIffOccurs(Lower(tags[k]), t);
      }
    }
  }

  /** The empty term is a hit for every article, so skipping the search filter for it changes nothing. */
  lemma EmptyTermHitsEverything(a: Article)
    ensures SearchHit(a, "")
  {
    assert OccursAt(Lower(a.title), Lower(""), 0);
  }

  /**
   * Soundness and completeness of the filter: every copy of an article that is
   * shown is kept, and nothing else is.
   */
  lemma {:induction false} FilterArticlesKeepsExactlyShown(articles: seq<Article>, searchTerm: string, selectedCategory: string)
    ensures forall a ::
      multiset(FilterArticles(articles, searchTerm, selectedCategory))[a]
        == if Shown(a, searchTerm, selectedCategory) then multiset(articles)[a] else 0
  {
    forall a
      ensures multiset(FilterArticles(articles, searchTerm, selectedCategory))[a]
        == if Shown(a, searchTerm, selectedCategory) then multiset(articles)[a] else 0
    {
      MatchesSearchIffHit(a, searchTerm);
      if searchTerm == "" {
        EmptyTermHitsEverything(a);
      }
    }
  }

  /** Applying the category filter after the search filter keeps the intersection of the two predicates. */
  lemma SearchThenCategoryIsIntersection(articles: seq<Article>, searchTerm: string, selectedCategory: string)
    requires searchTerm != "" && selectedCategory != AllCategories
    ensures FilterArticles(articles, searchTerm, selectedCategory)
      == Filter((a: Article) => MatchesSearch(a, searchTerm) && a.category == selectedCategory, articles)
  {
    FilterTwice(SearchFilter(searchTerm), CategoryFilter(selectedCategory),
      (a: Article) => MatchesSearch(a, searchTerm) && a.category == selectedCategory, articles);
  }

  /** With the category "all", an article is kept exactly when it is a search hit. */
  lemma SearchOnlyKeepsHits(articles: seq<Article>, searchTerm: string, a: Article)
    requires a in articles
    ensures a in FilterArticles(articles, searchTerm, AllCategories) <==> SearchHit(a, searchTerm)
  {
    FilterArticlesKeepsExactlyShown(articles, searchTerm, AllCategories);
    assert multiset(articles)[a] > 0;
  }

  const BillingArticle: Article := Article("1", "Billing cycle", "", "billing", None)
  const FaqArticle: Article := Article("2", "General FAQ", "", "general", None)

  lemma BillingArticleMatches()
    ensures MatchesSearch(BillingArticle, "bill")
  {
    assert Lower("bill") == "bill";
    assert Lower("Billing cycle")[..4] == "bill";
  }

  lemma FaqArticleDoesNotMatch()
    ensures !MatchesSearch(FaqArticle, "bill")
  {
    assert Lower("bill") == "bill";
    assert Lower("General FAQ") == "general faq";
    IncludesNeedsFirstChar("general faq", "bill");
    IncludesNeedsFirstChar("", "bill");
  }

  /** Searching "bill" over "Billing cycle" and "General FAQ" keeps only the first: the match ignores case. */
  lemma BillSearchExample()
    ensures FilterArticles([BillingArticle, FaqArticle], "bill", AllCategories) == [BillingArticle]
  {
    var p := SearchFilter("bill");
    BillingArticleMatches();
    FaqArticleDoesNotMatch();
    FilterCons(p, FaqArticle, []);
    FilterCons(p, BillingArticle, [FaqArticle]);
    assert [BillingArticle] + [FaqArticle] == [BillingArticle, FaqArticle];
    assert [FaqArticle] + [] == [FaqArticle];
  }

  // ------------------------------------------------------------------ tags

  predicate IsNonEmpty(s: string)
  {
    s != ""
  }

  /** `tags.split(',').map(tag => tag.trim()).filter(Boolean)`. */
  function ParseTags(tags: string): (r: seq<string>)
    ensures forall t :: t in r ==> t != "" && IsTrimmed(t) && ',' !in t
    ensures IsSubsequence(r, Map(Trim, Split(tags, ',')))
    ensures forall t :: multiset(r)[t] == if t != "" then multiset(Map(Trim, Split(tags, ',')))[t] else 0
  {
    var pieces := Split(tags, ',');
    var trimmed := Map(Trim, pieces);
    assert forall t :: t in trimmed ==> ',' !in t by {
      forall t | t in trimmed ensures ',' !in t {
        var i :| 0 <= i < |trimmed| && trimmed[i] == t;
        assert ',' !in pieces[i];
      }
    }
    Filter(IsNonEmpty, trimmed)
  }

  /** A tag list survives being written as a comma-separated string and parsed back. */
  lemma TagsRoundTrip(tags: seq<string>)
    requires forall i :: 0 <= i < |tags| ==> tags[i] != "" && IsTrimmed(tags[i]) && ',' !in tags[i]
    ensures ParseTags(Join(tags, ",")) == tags
  {
    if tags == [] {
      NoTagsFromEmpty();
    } else {
      TrimmedPiecesOfJoin(tags);
      FilterKeepsAll(IsNonEmpty, tags);
    }
  }

  lemma TrimmedPiecesOfJoin(tags: seq<string>)
    requires |tags| >= 1
    requires forall i :: 0 <= i < |tags| ==> IsTrimmed(tags[i]) && ',' !in tags[i]
    ensures Map(Trim, Split(Join(tags, ","), ',')) == tags
  {
    SplitJoin(tags, ',');
    assert "," == [','];
    var trimmed := Map(Trim, tags);
    forall i | 0 <= i < |tags| ensures trimmed[i] == tags[i] {
      TrimTrimmed(tags[i]);
    }
  }

  lemma NoTagsFromEmpty()
    ensures ParseTags("") == []
  {
    var trimmed := Map(Trim, Split("", ','));
    assert Split("", ',') == [""];
    assert Trim("") == "";
    assert trimmed == [""];
    assert Filter(IsNonEmpty, trimmed) == Filter(IsNonEmpty, trimmed[1..]);
  }

  /** Input without a comma yields its trim as the only tag, or no tag when it is blank. */
  lemma SingleTag(s: string)
    requires ',' !in s
    ensures ParseTags(s) == if IsBlank(s) then [] else [Trim(s)]
  {
    SplitWithoutSeparator(s, ',');
    assert Map(Trim, [s]) == [Trim(s)];
  }

  // ------------------------------------------------------------ categories

  function CategoryOf(a: Article): string
  {
    a.category
  }

  /** `[...new Set(articles.map(article => article.category))]`. */
  function Categories(articles: seq<Article>): (r: seq<string>)
    ensures NoDuplicates(r)
    ensures forall c :: c in r <==> exists k :: 0 <= k < |articles| && articles[k].category == c
  {
    var all := Map(CategoryOf, articles);
    assert forall c :: c in all <==> exists k :: 0 <= k < |articles| && articles[k].category == c by {
      forall c ensures c in all <==> exists k :: 0 <= k < |articles| && articles[k].category == c {
        if c in all {
          var k :| 0 <= k < |all| && all[k] == c;
          assert articles[k].category == c;
        }
      }
    }
    Distinct(all)
  }

  /** Category buttons come in the order in which each category first appears among the articles. */
  lemma CategoriesInFirstOccurrenceOrder(articles: seq<Article>)
    ensures forall i, j :: 0 <= i < j < |Categories(articles)| ==>
      FirstIndex(Map(CategoryOf, articles), Categories(articles)[i])
        < FirstIndex(Map(CategoryOf, articles), Categories(articles)[j])
  {
    DistinctFirstOccurrenceOrder(Map(CategoryOf, articles));
  }

  // ----------------------------------------------------------- create form

  /** The "Create Article" button is enabled: title, content and category are non-empty strings. */
  predicate CanCreate(form: ArticleForm)
  {
    form.title != "" && form.content != "" && form.category != ""
  }

  /**
   * The guard tests emptiness, not blankness: a form whose title, content and
   * category are a space, a tab and a line feed enables the button, and the
   * row it creates carries those blank fields and no tags.
   */
  lemma BlankFieldsEnableCreate()
    ensures var f := ArticleForm(" ", "\t", "\n", "");
      && CanCreate(f)
      && IsBlank(f.title) && IsBlank(f.content) && IsBlank(f.category)
      && NewRow(f) == ArticleInsert(" ", "\t", "\n", [])
  {
    NoTagsFromEmpty();
  }

  /**
   * The row `createArticle` inserts: title, content and category as typed,
   * untrimmed, and the parsed tags.
   */
  function NewRow(form: ArticleForm): (r: ArticleInsert)
    ensures r.title == form.title && r.content == form.content && r.category == form.category
    ensures forall t :: t in r.tags ==> t != "" && IsTrimmed(t) && ',' !in t
  {
    ArticleInsert(form.title, form.content, form.category, ParseTags(form.tags))
  }

  /** The state of the `KnowledgeBase` component. */
  class KnowledgeBaseView {
    var articles: seq<Article>
    var filteredArticles: seq<Article>
    var searchTerm: string
    var selectedCategory: string
    var isDialogOpen: bool
    var newArticle: ArticleForm

    /** The filter effect has run since its inputs last changed. */
    ghost predicate Valid()
      reads this`filteredArticles, this`articles, this`searchTerm, this`selectedCategory
    {
      filteredArticles == FilterArticles(articles, searchTerm, selectedCategory)
    }

    constructor ()
      ensures Valid()
      ensures articles == [] && filteredArticles == []
      ensures searchTerm == "" && selectedCategory == AllCategories
      ensures !isDialogOpen && newArticle == EmptyForm
    {
      articles := [];
      filteredArticles := [];
      searchTerm := "";
      selectedCategory := AllCategories;
      isDialogOpen := false;
      newArticle := EmptyForm;
    }

    /** Re-runs the filter effect. */
    method ApplyFilter()
      modifies this`filteredArticles
      ensures Valid()
    {
      filteredArticles := FilterArticles(articles, searchTerm, selectedCategory);
    }

    /** `fetchArticles`: a null result counts as no articles; a failed query keeps the list. */
    method FetchArticles(result: Outcome<Option<seq<Article>>>)
      requires Valid()
      modifies this
      ensures Valid()
      ensures articles == if result.Succeeded? then result.value.GetOr([]) else old(articles)
      ensures searchTerm == old(searchTerm) && selectedCategory == old(selectedCategory)
      ensures isDialogOpen == old(isDialogOpen) && newArticle == old(newArticle)
    {
      if result.Succeeded? {
        articles := result.value.GetOr([]);
        ApplyFilter();
      }
    }

    method SetSearchTerm(term: string)
      requires Valid()
      modifies this
      ensures Valid() && searchTerm == term
      ensures articles == old(articles) && selectedCategory == old(selectedCategory)
      ensures isDialogOpen == old(isDialogOpen) && newArticle == old(newArticle)
    {
      searchTerm := term;
      ApplyFilter();
    }

    /** A category button ("all" for the "All" button). */
    method SelectCategory(category: string)
      requires Valid()
      modifies this
      ensures Valid() && selectedCategory == category
      ensures articles == old(articles) && searchTerm == old(searchTerm)
      ensures isDialogOpen == old(isDialogOpen) && newArticle == old(newArticle)
    {
      selectedCategory := category;
      ApplyFilter();
    }

    method SetDialogOpen(open: bool)
      modifies this`isDialogOpen
      ensures isDialogOpen == open
    {
      isDialogOpen := open;
    }

    /** The `onChange` handlers of the dialog's inputs. */
    method EditForm(form: ArticleForm)
      modifies this`newArticle
      ensures newArticle == form
    {
      newArticle := form;
    }

    /**
     * `createArticle`: sends the form with its tags parsed; on success resets
     * the form and closes the dialog, on failure changes nothing. The refetch
     * it starts on success is a separate `FetchArticles`.
     */
    method CreateArticle(insertSucceeds: bool) returns (row: ArticleInsert)
      requires Valid()
      modifies this`newArticle, this`isDialogOpen
      ensures Valid()
      ensures row == NewRow(old(newArticle))
      ensures insertSucceeds ==> newArticle == EmptyForm && !isDialogOpen
      ensures !insertSucceeds ==> newArticle == old(newArticle) && isDialogOpen == old(isDialogOpen)
    {
      row := NewRow(newArticle);
      if insertSucceeds {
        newArticle := EmptyForm;
        isDialogOpen := false;
      }
    }

    /** A click on "Create Article": a disabled button issues no insert. */
    method ClickCreate(insertSucceeds: bool) returns (row: Option<ArticleInsert>)
      requires Valid()
      modifies this`newArticle, this`isDialogOpen
      ensures Valid()
      ensures row.Some? <==> CanCreate(old(newArticle))
      ensures row.Some? ==> row.value == NewRow(old(newArticle))
      ensures row.Some? && insertSucceeds ==> newArticle == EmptyForm && !isDialogOpen
      ensures row.None? || !insertSucceeds ==> newArticle == old(newArticle) && isDialogOpen == old(isDialogOpen)
    {
      if CanCreate(newArticle) {
        var r := CreateArticle(insertSucceeds);
        row := Some(r);
      } else {
        row := None;
      }
    }
  }
}
