/** Catalogue records (categories and products) and the defaulting their
    save performs. The slug derivation is a library routine whose rules are
    not part of this model: it is passed in as a function. */
module Catalogue {
  import opened Pricing

  datatype Category = Category(
    id: nat,
    name: string,
    slug: string,
    description: string,
    metaDescription: string,
    icon: string)

  /** A product with its two platform quotes. `basePrice` is the reference
      price in cents; images, links, ratings, review counts, delivery days
      and timestamps are not read by any modelled rule. */
  datatype Product = Product(
    id: nat,
    title: string,
    slug: string,
    category: nat,
    description: string,
    shortDescription: string,
    basePrice: int,
    amazon: Quote,
    ebay: Quote,
    isFeatured: bool,
    metaTitle: string,
    metaDescription: string,
    keywords: string)

  /** The default meta title: the title followed by a fixed suffix. */
  function DefaultMetaTitle(title: string): (r: string)
    ensures |r| > |title| && r[..|title|] == title
  {
    title + " - Comparaison Amazon vs eBay"
  }

  const MetaDescriptionPrefix: string := "Comparez les prix de "

  /** The default meta description: a fixed sentence naming the title. */
  function DefaultMetaDescription(title: string): (r: string)
    ensures |r| > |MetaDescriptionPrefix| + |title|
    ensures r[|MetaDescriptionPrefix|..|MetaDescriptionPrefix| + |title|] == title
  {
    MetaDescriptionPrefix + title + " sur Amazon et eBay. Trouvez la meilleure offre !"
  }

  /** Fills the slug from the name when it is empty; nothing else changes. */
  function SaveCategory(c: Category, slugify: string -> string): (r: Category)
    ensures c.slug != "" ==> r == c
    ensures c.slug == "" ==> r == c.(slug := slugify(c.name))
  {
    if c.slug == "" then c.(slug := slugify(c.name)) else c
  }

  /** Fills the slug, the meta title and the meta description from the title
      when each is empty. Non-empty values are kept, no other field changes,
      and both meta fields are non-empty afterwards. */
  function SaveProduct(p: Product, slugify: string -> string): (r: Product)
    ensures r == p.(slug := r.slug, metaTitle := r.metaTitle, metaDescription := r.metaDescription)
    ensures p.slug != "" ==> r.slug == p.slug
    ensures p.slug == "" ==> r.slug == slugify(p.title)
    ensures p.metaTitle != "" ==> r.metaTitle == p.metaTitle
    ensures p.metaTitle == "" ==> r.metaTitle == DefaultMetaTitle(p.title)
    ensures p.metaDescription != "" ==> r.metaDescription == p.metaDescription
    ensures p.metaDescription == "" ==> r.metaDescription == DefaultMetaDescription(p.title)
    ensures r.metaTitle != "" && r.metaDescription != ""
  {
    var slug := if p.slug == "" then slugify(p.title) else p.slug;
    var metaTitle := if p.metaTitle == "" then DefaultMetaTitle(p.title) else p.metaTitle;
    var metaDescription :=
      if p.metaDescription == "" then DefaultMetaDescription(p.title) else p.metaDescription;
    p.(slug := slug, metaTitle := metaTitle, metaDescription := metaDescription)
  }

  /** Saving twice is the same as saving once. */
  lemma SaveCategoryIdempotent(c: Category, slugify: string -> string)
    ensures SaveCategory(SaveCategory(c, slugify), slugify) == SaveCategory(c, slugify)
  {
  }

  /** Saving twice is the same as saving once: the meta fields are non-empty
      after the first save, and a slug still empty after it is recomputed to
      the same value. */
  lemma SaveProductIdempotent(p: Product, slugify: string -> string)
    ensures SaveProduct(SaveProduct(p, slugify), slugify) == SaveProduct(p, slugify)
  {
  }

  /** The meta description shown on a category page: the stored one, or a
      sentence naming the category when it is empty. */
  function CategoryMetaDescription(c: Category): (r: string)
    ensures c.metaDescription != "" ==> r == c.metaDescription
    ensures c.metaDescription == "" ==>
      |r| > |MetaDescriptionPrefix| + |c.name|
      && r[|MetaDescriptionPrefix|..|MetaDescriptionPrefix| + |c.name|] == c.name
  {
    if c.metaDescription != "" then c.metaDescription
    else MetaDescriptionPrefix + c.name + " entre Amazon et eBay"
  }
}
