/** The catalog filter: the products shown for a selected category chip and a
    search term, recomputed from the seed catalog whenever either changes. */
module ProductFilter {
  import opened Seqs
  import opened Text
  import opened Catalog

  /** The category test of the first `.filter`. */
  predicate InCategory(p: Product, category: string)
  {
    p.category == category
  }

  /** The text test of the second `.filter`: the lower-cased term occurs in the
      lower-cased name or in the lower-cased description. */
  predicate MatchesTerm(p: Product, searchTerm: string)
  {
    Contains(Lower(p.name), Lower(searchTerm)) || Contains(Lower(p.description), Lower(searchTerm))
  }

  /** The visible products: filter by category unless "All" is selected, then
      by the search term unless it is empty. */
  function VisibleProducts(catalog: seq<Product>, selectedCategory: string, searchTerm: string): seq<Product>
  {
    var byCategory := if selectedCategory != All then Keep(catalog, p => InCategory(p, selectedCategory)) else catalog;
    if searchTerm != "" then Keep(byCategory, p => MatchesTerm(p, searchTerm)) else byCategory
  }

  /** What the storefront shows: the filter applied to the seed catalog. */
  function Visible(selectedCategory: string, searchTerm: string): seq<Product>
  {
    VisibleProducts(InitialProducts, selectedCategory, searchTerm)
  }

  /** Reference definition: whether one product is shown, decided on its own. */
  predicate Shown(p: Product, selectedCategory: string, searchTerm: string)
  {
    (selectedCategory == All || InCategory(p, selectedCategory)) &&
    (searchTerm == "" || MatchesTerm(p, searchTerm))
  }

  /** The two chained filters are one filter by `Shown`. */
  lemma VisibleIsOnePassFilter(catalog: seq<Product>, selectedCategory: string, searchTerm: string)
    ensures VisibleProducts(catalog, selectedCategory, searchTerm) == Keep(catalog, p => Shown(p, selectedCategory, searchTerm))
  {
    var cat := p => InCategory(p, selectedCategory);
    var term := p => MatchesTerm(p, searchTerm);
    var shown := p => Shown(p, selectedCategory, searchTerm);
    if selectedCategory != All {
      if searchTerm != "" {
        KeepTwice(catalog, cat, term, shown);
      } else {
        KeepCongruent(catalog, cat, shown);
      }
    } else {
      if searchTerm != "" {
        KeepCongruent(catalog, term, shown);
      } else {
        KeepAll(catalog, shown);
      }
    }
  }

  /** The visible list is the catalog with some products deleted, in catalog order. */
  lemma VisibleIsSubsequence(catalog: seq<Product>, selectedCategory: string, searchTerm: string)
    ensures IsSubsequence(VisibleProducts(catalog, selectedCategory, searchTerm), catalog)
  {
    VisibleIsOnePassFilter(catalog, selectedCategory, searchTerm);
    KeepIsSubsequence(catalog, p => Shown(p, selectedCategory, searchTerm));
  }

  /** A product is visible exactly when it is in the catalog and passes both tests. */
  lemma VisibleMembership(catalog: seq<Product>, selectedCategory: string, searchTerm: string, p: Product)
    ensures p in VisibleProducts(catalog, selectedCategory, searchTerm) <==> p in catalog && Shown(p, selectedCategory, searchTerm)
  {
    VisibleIsOnePassFilter(catalog, selectedCategory, searchTerm);
    KeepMembership(catalog, q => Shown(q, selectedCategory, searchTerm), p);
  }

  /** With an empty search term and a real category, exactly the catalog's
      products of that category are visible. */
  lemma CategoryFilterExact(catalog: seq<Product>, selectedCategory: string, p: Product)
    requires selectedCategory != All
    ensures p in VisibleProducts(catalog, selectedCategory, "") <==> p in catalog && p.category == selectedCategory
  {
    VisibleMembership(catalog, selectedCategory, "", p);
  }

  /** With "All" and an empty term the whole catalog is visible, unchanged. */
  lemma NoFilterShowsCatalog(catalog: seq<Product>)
    ensures VisibleProducts(catalog, All, "") == catalog
  {
  }

  /** With a non-empty term, a product is visible exactly when it is in the
      catalog, passes the category test, and the lower-cased term occurs in its
      lower-cased name or description. */
  lemma SearchFilterExact(catalog: seq<Product>, selectedCategory: string, searchTerm: string, p: Product)
    requires searchTerm != ""
    ensures p in VisibleProducts(catalog, selectedCategory, searchTerm) <==>
      p in catalog && (selectedCategory == All || p.category == selectedCategory) &&
      ((exists i :: OccursAt(Lower(p.name), Lower(searchTerm), i)) ||
       (exists i :: OccursAt(Lower(p.description), Lower(searchTerm), i)))
  {
    VisibleMembership(catalog, selectedCategory, searchTerm, p);
    ContainsIffOccurs(Lower(p.name), Lower(searchTerm));
    ContainsIffOccurs(Lower(p.description), Lower(searchTerm));
  }

  /** The search is case-insensitive: two terms that lower-case alike show the
      same products. */
  lemma SearchIgnoresCase(catalog: seq<Product>, selectedCategory: string, t1: string, t2: string)
    requires Lower(t1) == Lower(t2)
    ensures VisibleProducts(catalog, selectedCategory, t1) == VisibleProducts(catalog, selectedCategory, t2)
  {
    LowerEmpty(t1);
    LowerEmpty(t2);
    VisibleIsOnePassFilter(catalog, selectedCategory, t1);
    VisibleIsOnePassFilter(catalog, selectedCategory, t2);
    KeepCongruent(catalog, p => Shown(p, selectedCategory, t1), p => Shown(p, selectedCategory, t2));
  }

  /** Selecting "Fiction" with no search term shows exactly books 1 and 4, in that order. */
  lemma FictionShowsBooksOneAndFour()
    ensures Visible("Fiction", "") == [InitialProducts[0], InitialProducts[3]]
    ensures |Visible("Fiction", "")| == 2 && Visible("Fiction", "")[0].id == 1 && Visible("Fiction", "")[1].id == 4
  {
    var f := p => InCategory(p, "Fiction");
    var s := InitialProducts;
    assert s == [s[0]] + s[1..];
    assert s[1..] == [s[1]] + s[2..];
    assert s[2..] == [s[2]] + s[3..];
    assert s[3..] == [s[3]] + s[4..];
    assert s[4..] == [s[4]] + s[5..];
    assert Keep(s[5..], f) == [];
    assert Keep(s[4..], f) == [];
    assert Keep(s[3..], f) == [s[3]];
    assert Keep(s[2..], f) == [s[3]];
    assert Keep(s[1..], f) == [s[3]];
  }

  /** Searching "HABITS" in all categories shows "Atomic Habits": upper case in
      the term matches lower case in the name. */
  lemma UpperCaseSearchFindsAtomicHabits()
    ensures InitialProducts[1] in Visible(All, "HABITS")
  {
    var p := InitialProducts[1];
    assert Lower("HABITS") == "habits";
    assert Lower(p.name) == "atomic habits";
    assert OccursAt(Lower(p.name), Lower("HABITS"), 7);
    OccursContains(Lower(p.name), Lower("HABITS"), 7);
    VisibleMembership(InitialProducts, All, "HABITS", p);
  }
}
