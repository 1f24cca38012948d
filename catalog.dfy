/** The storefront's product record, its fixed seed catalog and its list of
    category chips. Prices are held in integer cents. */
module Catalog {

  /** A catalog entry. The image URL is presentation-only and is not modelled. */
  datatype Product = Product(id: int, name: string, price: int, description: string, category: string)

  /** The sentinel category that switches the category filter off. */
  const All: string := "All"

  /** The six books the store starts with, in display order. */
  const InitialProducts: seq<Product> := [
    Product(1, "The Midnight Library", 1699,
      "Between life and death there is a library. When Nora finds herself in the Midnight Library, she has a chance to make things right.",
      "Fiction"),
    Product(2, "Atomic Habits", 1499,
      "Tiny Changes, Remarkable Results: An Easy & Proven Way to Build Good Habits & Break Bad Ones.",
      "Self-Help"),
    Product(3, "The Silent Patient", 1299,
      "A psychological thriller about a woman's act of violence against her husband\U{00E2}\U{20AC}\U{201D}and the therapist obsessed with uncovering her motive.",
      "Thriller"),
    Product(4, "Where the Crawdads Sing", 1599,
      "A novel about a young woman who raised herself in the marshes of the deep South, and what happens when the town hotshot is found dead.",
      "Fiction"),
    Product(5, "Educated", 1399,
      "A memoir about a young girl who leaves her survivalist family and goes on to earn a PhD from Cambridge University.",
      "Non-Fiction"),
    Product(6, "Circe", 1199,
      "The story of the mythological witch Circe, who transforms from an awkward nymph to a formidable witch.",
      "Fantasy")
  ]

  /** The category chips, "All" first. */
  const Categories: seq<string> := [All, "Fiction", "Non-Fiction", "Self-Help", "Thriller", "Fantasy"]

  /** No two products of the catalog share an id. */
  predicate UniqueProductIds(catalog: seq<Product>)
  {
    forall i, j :: 0 <= i < j < |catalog| ==> catalog[i].id != catalog[j].id
  }

  /** The seed catalog's ids are 1 to 6 in order, so they are unique; every
      price is positive; every product's category is one of the chips and none
      of them is the "All" sentinel. */
  lemma InitialProductsWellFormed()
    ensures |InitialProducts| == 6
    ensures forall i :: 0 <= i < |InitialProducts| ==> InitialProducts[i].id == i + 1
    ensures UniqueProductIds(InitialProducts)
    ensures forall i :: 0 <= i < |InitialProducts| ==> InitialProducts[i].price > 0
    ensures forall i :: 0 <= i < |InitialProducts| ==>
      InitialProducts[i].category in Categories[1..] && InitialProducts[i].category != All
  {
  }

  /** In a catalog with unique ids, a product is determined by its id. */
  lemma SameIdSameProduct(catalog: seq<Product>, p: Product, q: Product)
    requires UniqueProductIds(catalog)
    requires p in catalog && q in catalog && p.id == q.id
    ensures p == q
  {
  }
}
