/** The chemical product detail screen: the description under each hazard
    pictogram code. Its danger-level colour is the table of the product
    list, `Chemicals.DangerColor`. */
module ProductDetail {
  import Chemicals
  import Palette

  /** The pictogram codes the screen describes, with their descriptions. */
  const PictogramDescriptions: map<string, string> := map[
    "GHS02" := "Inflammable",
    "GHS05" := "Corrosif",
    "GHS06" := "Toxique",
    "GHS07" := "Irritant",
    "GHS08" := "Danger pour la santé",
    "GHS09" := "Dangereux pour l'environnement"
  ]

  /** What is shown under a code the table does not describe. */
  const GenericDanger: string := "Danger"

  /** `getPictogramDescription(code)`: the table's description, or "Danger".
      Every description is a non-empty text, so the `||` fallback only
      applies to undescribed codes. */
  function PictogramDescription(code: string): (r: string)
    ensures code in PictogramDescriptions ==> r == PictogramDescriptions[code]
    ensures r == GenericDanger <==> code !in PictogramDescriptions
    ensures r != ""
  {
    if code in PictogramDescriptions && PictogramDescriptions[code] != "" then PictogramDescriptions[code]
    else GenericDanger
  }

  /** The danger indicator of a product's page: a product's level is always
      one of the three, so its colour is never the grey fallback, and it is
      red exactly for "Élevé". */
  lemma DangerIndicatorColour(p: Chemicals.Product)
    ensures Chemicals.DangerColor(Chemicals.Label(p.dangerLevel)) != Palette.Grey
    ensures Chemicals.DangerColor(Chemicals.Label(p.dangerLevel)) == Palette.Red <==> p.dangerLevel == Chemicals.Eleve
  {
    match p.dangerLevel
    case Faible =>
    case Moyen =>
    case Eleve =>
  }

  /** Different described codes get different descriptions, so the
      description names the code. */
  lemma DescriptionsNameTheCode(a: string, b: string)
    requires a in PictogramDescriptions && b in PictogramDescriptions && a != b
    ensures PictogramDescription(a) != PictogramDescription(b)
  {
  }

  /** The pictogram grid: one description per code, in order. */
  function PictogramGrid(codes: seq<string>): (r: seq<string>)
    ensures |r| == |codes|
    ensures forall k :: 0 <= k < |codes| ==> r[k] == PictogramDescription(codes[k])
  {
    if |codes| == 0 then [] else [PictogramDescription(codes[0])] + PictogramGrid(codes[1..])
  }

  /** In the product list, the risks of every product are exactly the
      descriptions of its pictograms, so the detail screen's two lists agree. */
  lemma MockRisksMatchPictograms()
    ensures forall p :: p in Chemicals.MockProducts ==> p.risques == PictogramGrid(p.pictogrammes)
  {
    var ps := Chemicals.MockProducts;
    assert PictogramGrid(ps[0].pictogrammes) == ps[0].risques;
    assert PictogramGrid(ps[1].pictogrammes) == ps[1].risques;
    assert PictogramGrid(ps[2].pictogrammes) == ps[2].risques;
    assert PictogramGrid(ps[3].pictogrammes) == ps[3].risques;
  }
}
