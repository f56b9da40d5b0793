/** The reference guide's search: the categories' items are flattened, each tagged with its
    category's title and id, and filtered by a case-insensitive substring search over title and
    content together with a category selection. */
module Reference {
  import opened JsArray
  import opened Text

  /** A reference item: its title and its body (an HTML fragment, treated as plain text). */
  datatype Item = Item(title: string, content: string)

  datatype Category = Category(id: string, title: string, items: seq<Item>)

  /** `{ ...item, category: category.title, categoryId: category.id }`. */
  datatype Entry = Entry(title: string, content: string, category: string, categoryId: string)

  /** The category selection that lets every category through. */
  const AllCategories := "all"

  /** `category.items.map(item => ({ ...item, category: category.title, categoryId: category.id }))`. */
  function Tagged(c: Category): (r: seq<Entry>)
    ensures |r| == |c.items|
    ensures forall j :: 0 <= j < |c.items| ==>
              r[j] == Entry(c.items[j].title, c.items[j].content, c.title, c.id)
  {
    seq(|c.items|, j requires 0 <= j < |c.items| =>
      Entry(c.items[j].title, c.items[j].content, c.title, c.id))
  }

  /** `referenceCategories.flatMap(...)`: category order, then item order. */
  function Flatten(cs: seq<Category>): seq<Entry>
    decreases |cs|
  {
    if cs == [] then [] else Tagged(cs[0]) + Flatten(cs[1..])
  }

  /** Every flattened entry is an item of some category, carrying that category's title and id,
      and every item of every category is among the flattened entries. */
  lemma {:induction false} FlattenProvenance(cs: seq<Category>)
    ensures forall e :: e in Flatten(cs) ==>
              exists i, j :: 0 <= i < |cs| && 0 <= j < |cs[i].items| &&
                e == Entry(cs[i].items[j].title, cs[i].items[j].content, cs[i].title, cs[i].id)
    ensures forall i, j :: 0 <= i < |cs| && 0 <= j < |cs[i].items| ==>
              Entry(cs[i].items[j].title, cs[i].items[j].content, cs[i].title, cs[i].id) in Flatten(cs)
    decreases |cs|
  {
    if cs != [] {
      var rest := cs[1..];
      FlattenProvenance(rest);
      var head := Tagged(cs[0]);
      assert Flatten(cs) == head + Flatten(rest);
      forall e | e in Flatten(cs)
        ensures exists i, j :: 0 <= i < |cs| && 0 <= j < |cs[i].items| &&
                  e == Entry(cs[i].items[j].title, cs[i].items[j].content, cs[i].title, cs[i].id)
      {
        if e in head {
          var j :| 0 <= j < |head| && head[j] == e;
          assert e == Entry(cs[0].items[j].title, cs[0].items[j].content, cs[0].title, cs[0].id);
        } else {
          assert e in Flatten(rest);
          var i, j :| 0 <= i < |rest| && 0 <= j < |rest[i].items| &&
                      e == Entry(rest[i].items[j].title, rest[i].items[j].content, rest[i].title, rest[i].id);
          assert rest[i] == cs[i + 1];
        }
      }
      forall i, j | 0 <= i < |cs| && 0 <= j < |cs[i].items|
        ensures Entry(cs[i].items[j].title, cs[i].items[j].content, cs[i].title, cs[i].id) in Flatten(cs)
      {
        if i == 0 {
          assert head[j] in head;
        } else {
          assert cs[i] == rest[i - 1];
        }
      }
    }
  }

  /** `matchesSearch`: the lower-cased title or content includes the lower-cased search term. */
  predicate MatchesSearch(e: Entry, term: string) {
    Contains(Lower(e.title), Lower(term)) || Contains(Lower(e.content), Lower(term))
  }

  /** `matchesCategory`. */
  predicate MatchesCategory(e: Entry, selected: string) {
    selected == AllCategories || e.categoryId == selected
  }

  function Keep(term: string, selected: string): Entry -> bool {
    (e: Entry) => MatchesSearch(e, term) && MatchesCategory(e, selected)
  }

  /** `filteredItems`: the flattened entries that match both the search and the category, in
      their original order. */
  function FilteredItems(cs: seq<Category>, term: string, selected: string): (r: seq<Entry>)
    ensures IsSubsequence(r, Flatten(cs))
    ensures forall e :: e in r <==> e in Flatten(cs) && MatchesSearch(e, term) && MatchesCategory(e, selected)
    ensures selected != AllCategories ==> forall e :: e in r ==> e.categoryId == selected
    ensures forall e :: multiset(r)[e] ==
              if MatchesSearch(e, term) && MatchesCategory(e, selected) then multiset(Flatten(cs))[e] else 0
  {
    FilterCounts(Flatten(cs), Keep(term, selected));
    Filter(Flatten(cs), Keep(term, selected))
  }

  /** Each item the search returns is an item of a category, with that category's title and id. */
  lemma FilteredItemsProvenance(cs: seq<Category>, term: string, selected: string)
    ensures forall e :: e in FilteredItems(cs, term, selected) ==>
              exists i, j :: 0 <= i < |cs| && 0 <= j < |cs[i].items| &&
                e == Entry(cs[i].items[j].title, cs[i].items[j].content, cs[i].title, cs[i].id)
  {
    FlattenProvenance(cs);
  }

  /** An empty search over all categories returns every item, in table order: every string
      includes the empty string. */
  lemma EmptySearchReturnsEverything(cs: seq<Category>)
    ensures FilteredItems(cs, "", AllCategories) == Flatten(cs)
  {
    forall e | e in Flatten(cs) ensures Keep("", AllCategories)(e) {
      ContainsEmpty(Lower(e.title));
    }
    FilterAll(Flatten(cs), Keep("", AllCategories));
  }

  /** Search terms that differ only in the case of letters give the same result. */
  lemma SearchIgnoresCase(cs: seq<Category>, term: string, term': string, selected: string)
    requires SameIgnoringCase(term, term')
    ensures FilteredItems(cs, term, selected) == FilteredItems(cs, term', selected)
  {
    SameIgnoringCaseIff(term, term');
    FilterAgree(Flatten(cs), Keep(term, selected), Keep(term', selected));
  }

  /** The reference table; the item bodies are long HTML fragments and are given as parameters,
      in table order. */
  function ReferenceCategories(bodies: seq<string>): seq<Category>
    requires |bodies| == 8
  {
    [ Category("punctuation", "Punctuation Rules", [
        Item("Comma Usage", bodies[0]),
        Item("Semicolon and Colon Usage", bodies[1])]),
      Category("grammar", "Grammar Essentials", [
        Item("Subject-Verb Agreement", bodies[2]),
        Item("Pronoun Usage", bodies[3])]),
      Category("legal-style", "Legal Style Guide", [
        Item("Speaker Identification", bodies[4]),
        Item("Parenthetical Notations", bodies[5])]),
      Category("procedures", "Court Procedures", [
        Item("Opening Procedures", bodies[6]),
        Item("Objections and Rulings", bodies[7])]) ]
  }

  function Titles(es: seq<Entry>): (r: seq<string>)
    ensures |r| == |es|
    ensures forall k :: 0 <= k < |es| ==> r[k] == es[k].title
  {
    seq(|es|, k requires 0 <= k < |es| => es[k].title)
  }

  /** The table flattens to its four categories' tagged items, one category after another. */
  lemma {:induction false} TableFlattens(bodies: seq<string>)
    requires |bodies| == 8
    ensures var cs := ReferenceCategories(bodies);
            Flatten(cs) == Tagged(cs[0]) + (Tagged(cs[1]) + (Tagged(cs[2]) + Tagged(cs[3])))
  {
    var cs := ReferenceCategories(bodies);
    assert Flatten(cs[3..]) == Tagged(cs[3]) by {
      assert cs[3..][1..] == [];
    }
    assert Flatten(cs[2..]) == Tagged(cs[2]) + Flatten(cs[3..]) by {
      assert cs[2..][1..] == cs[3..];
    }
    assert Flatten(cs[1..]) == Tagged(cs[1]) + Flatten(cs[2..]) by {
      assert cs[1..][1..] == cs[2..];
    }
  }

  lemma TitlesAppend(a: seq<Entry>, b: seq<Entry>)
    ensures Titles(a + b) == Titles(a) + Titles(b)
  {
  }

  /** The table's items, flattened, are the eight titles in table order. */
  lemma TableTitles(bodies: seq<string>)
    requires |bodies| == 8
    ensures Titles(Flatten(ReferenceCategories(bodies))) ==
              ["Comma Usage", "Semicolon and Colon Usage", "Subject-Verb Agreement",
               "Pronoun Usage", "Speaker Identification", "Parenthetical Notations",
               "Opening Procedures", "Objections and Rulings"]
  {
    var cs := ReferenceCategories(bodies);
    TableFlattens(bodies);
    var t0, t1, t2, t3 := Tagged(cs[0]), Tagged(cs[1]), Tagged(cs[2]), Tagged(cs[3]);
    TitlesAppend(t2, t3);
    TitlesAppend(t1, t2 + t3);
    TitlesAppend(t0, t1 + (t2 + t3));
    assert Titles(t0) == ["Comma Usage", "Semicolon and Colon Usage"];
    assert Titles(t1) == ["Subject-Verb Agreement", "Pronoun Usage"];
    assert Titles(t2) == ["Speaker Identification", "Parenthetical Notations"];
    assert Titles(t3) == ["Opening Procedures", "Objections and Rulings"];
  }

  /** With an empty search and every category the page lists all eight items, in table order. */
  lemma EmptySearchListsEightItems(bodies: seq<string>)
    requires |bodies| == 8
    ensures Titles(FilteredItems(ReferenceCategories(bodies), "", AllCategories)) ==
              Titles(Flatten(ReferenceCategories(bodies)))
    ensures |FilteredItems(ReferenceCategories(bodies), "", AllCategories)| == 8
  {
    EmptySearchReturnsEverything(ReferenceCategories(bodies));
    TableTitles(bodies);
  }
}
