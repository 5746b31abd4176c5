/** The chemical products screen: the search-and-category filter, the
    danger-level colour and the truncated list of risk chips. */
module Chemicals {
  import opened Wrappers
  import Seqs
  import Text
  import Palette

  datatype DangerLevel = Faible | Moyen | Eleve

  /** The label a danger level is written and compared as. */
  function Label(d: DangerLevel): string {
    match d
    case Faible => "Faible"
    case Moyen => "Moyen"
    case Eleve => "Élevé"
  }

  datatype Product = Product(id: string, nom: string, categorie: string, risques: seq<string>,
                             pictogrammes: seq<string>, dangerLevel: DangerLevel)

  /** The products the screen lists. */
  const MockProducts: seq<Product> := [
    Product("1", "Acide Sulfurique", "Acides", ["Corrosif", "Irritant", "Dangereux pour l'environnement"],
            ["GHS05", "GHS07", "GHS09"], Eleve),
    Product("2", "Éthanol", "Solvants", ["Inflammable", "Irritant"], ["GHS02", "GHS07"], Moyen),
    Product("3", "Ammoniaque", "Bases", ["Corrosif", "Toxique", "Dangereux pour l'environnement"],
            ["GHS05", "GHS06", "GHS09"], Eleve),
    Product("4", "Détergent industriel", "Nettoyants", ["Irritant"], ["GHS07"], Faible)
  ]

  /** The category chip that shows every category. */
  const AllCategories: string := "Tous"

  /** The search test: the lowered name contains the lowered search text. */
  predicate MatchesSearch(p: Product, search: string) {
    Text.Includes(Text.Lower(p.nom), Text.Lower(search))
  }

  predicate MatchesCategory(p: Product, category: string) {
    category == AllCategories || p.categorie == category
  }

  function Keep(search: string, category: string): Product -> bool {
    (p: Product) => MatchesSearch(p, search) && MatchesCategory(p, category)
  }

  /** `filteredProducts`: the products passing both tests, in their order. */
  function FilteredProducts(products: seq<Product>, search: string, category: string): (r: seq<Product>)
    ensures forall p :: p in r <==> p in products && MatchesSearch(p, search) && MatchesCategory(p, category)
    ensures Seqs.IsSubsequence(r, products)
    ensures |r| == |set i | 0 <= i < |products| && MatchesSearch(products[i], search) && MatchesCategory(products[i], category)|
  {
    Seqs.FilterIsSubsequence(Keep(search, category), products);
    Seqs.FilterLength(Keep(search, category), products);
    assert Seqs.Positions(Keep(search, category), products)
        == set i | 0 <= i < |products| && MatchesSearch(products[i], search) && MatchesCategory(products[i], category);
    Seqs.Filter(Keep(search, category), products)
  }

  /** The screen's opening state, an empty search under "Tous", lists every
      product. */
  lemma EmptySearchShowsAll(products: seq<Product>)
    ensures FilteredProducts(products, "", AllCategories) == products
  {
    forall p | p in products ensures Keep("", AllCategories)(p) {
      assert Text.OccursAt(Text.Lower(p.nom), Text.Lower(""), 0);
    }
    Seqs.FilterAll(Keep("", AllCategories), products);
  }

  /** The search ignores case: searching a lowered text finds the same
      products. */
  lemma SearchIgnoresCase(products: seq<Product>, search: string, category: string)
    ensures FilteredProducts(products, Text.Lower(search), category) == FilteredProducts(products, search, category)
  {
    Text.LowerIdempotent(search);
    Seqs.FilterAgree(Keep(Text.Lower(search), category), Keep(search, category), products);
  }

  /** Typing more narrows the list: whatever matches a longer search matched
      the shorter one it extends. */
  lemma TypingNarrows(products: seq<Product>, search: string, more: string, category: string)
    ensures forall p :: p in FilteredProducts(products, search + more, category) ==>
              p in FilteredProducts(products, search, category)
  {
    forall p | p in FilteredProducts(products, search + more, category)
      ensures p in FilteredProducts(products, search, category)
    {
      SearchNarrows(p, search, more);
    }
  }

  /** A name containing a search also contains every prefix of it. */
  lemma SearchNarrows(p: Product, search: string, more: string)
    requires MatchesSearch(p, search + more)
    ensures MatchesSearch(p, search)
  {
    Text.LowerAppend(search, more);
    var sub := Text.Lower(search);
    var longer := Text.Lower(search + more);
    var name := Text.Lower(p.nom);
    var i :| Text.OccursAt(name, longer, i);
    assert name[i..i + |sub|] == longer[..|sub|] == sub;
    assert Text.OccursAt(name, sub, i);
  }

  /** `getDangerColor`, a total map from any label to a colour. */
  function DangerColor(level: string): (c: string)
    ensures Palette.IsPaletteColour(c)
    ensures c == Palette.Green <==> level == "Faible"
    ensures c == Palette.Amber <==> level == "Moyen"
    ensures c == Palette.Red <==> level == "Élevé"
    ensures c == Palette.Grey <==> forall d: DangerLevel :: Label(d) != level
  {
    if level == "Faible" then assert Label(Faible) == level; Palette.Green
    else if level == "Moyen" then assert Label(Moyen) == level; Palette.Amber
    else if level == "Élevé" then assert Label(Eleve) == level; Palette.Red
    else Palette.Grey
  }

  /** Every danger level a product can carry gets its own, non-grey colour,
      growing from green to red with the danger. */
  lemma DangerColorsDistinct(a: DangerLevel, b: DangerLevel)
    requires a != b
    ensures DangerColor(Label(a)) != DangerColor(Label(b))
    ensures DangerColor(Label(a)) != Palette.Grey
  {
    assert Label(a) != Label(b) by {
      match a
      case Faible => {}
      case Moyen => {}
      case Eleve => {}
    }
  }

  /** The chips of a product card: the first two risks, and "+n autres"
      for the n risks left over. */
  datatype Chips = Chips(shown: seq<string>, more: Option<string>)

  /** The risk chips: `risques.slice(0, 2)` and, only beyond two risks, the
      count of the rest. */
  function RiskChips(risques: seq<string>): (r: Chips)
    ensures |r.shown| == (if |risques| < 2 then |risques| else 2) && r.shown == risques[..|r.shown|]
    ensures r.more.Some? <==> |risques| > 2
    ensures r.more.None? ==> r.shown == risques
    ensures r.more.Some? ==> r.more.value == "+" + Text.NatToString(|risques| - |r.shown|) + " autres"
  {
    if |risques| > 2 then Chips(risques[..2], Some("+" + Text.NatToString(|risques| - 2) + " autres"))
    else Chips(risques, None)
  }
}
