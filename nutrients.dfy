/**
 * The nutrient definitions of lib/data/nutrients.ts and their lookups: a
 * nutrient by slug, the nutrients of a category, and the conversion of an
 * amount between a nutrient's default unit and its alternate unit (IU for
 * vitamins A, D and E). Amounts are reals.
 */
module Nutrients {
  import opened Common

  datatype NutrientCategory = Vitamins | Minerals | FattyAcids | AminoAcids | Other

  /**
   * A nutrient; `conversionFactor` turns an amount in the alternate unit
   * into the default unit by multiplication. Descriptions are not modelled.
   */
  datatype NutrientDefinition = NutrientDefinition(
    name: string,
    slug: string,
    categoryId: NutrientCategory,
    defaultUnit: string,
    alternateUnit: Option<string>,
    conversionFactor: Option<real>)

  const VitaminDefinitions: seq<NutrientDefinition> := [
    NutrientDefinition("Vitamin A", "vitamin-a", Vitamins, "mcg", Some("IU"), Some(0.3)),
    NutrientDefinition("Vitamin D", "vitamin-d", Vitamins, "mcg", Some("IU"), Some(0.025)),
    NutrientDefinition("Vitamin E", "vitamin-e", Vitamins, "mg", Some("IU"), Some(0.67)),
    NutrientDefinition("Vitamin K", "vitamin-k", Vitamins, "mcg", None, None),
    NutrientDefinition("Vitamin B1 (Thiamine)", "vitamin-b1", Vitamins, "mg", None, None),
    NutrientDefinition("Vitamin B2 (Riboflavin)", "vitamin-b2", Vitamins, "mg", None, None),
    NutrientDefinition("Vitamin B3 (Niacin)", "vitamin-b3", Vitamins, "mg", None, None),
    NutrientDefinition("Vitamin B5 (Pantothenic Acid)", "vitamin-b5", Vitamins, "mg", None, None),
    NutrientDefinition("Vitamin B6", "vitamin-b6", Vitamins, "mg", None, None),
    NutrientDefinition("Vitamin B7 (Biotin)", "vitamin-b7", Vitamins, "mcg", None, None),
    NutrientDefinition("Vitamin B9 (Folate)", "vitamin-b9", Vitamins, "mcg", None, None),
    NutrientDefinition("Vitamin B12", "vitamin-b12", Vitamins, "mcg", None, None),
    NutrientDefinition("Vitamin C", "vitamin-c", Vitamins, "mg", None, None)]

  const MineralDefinitions: seq<NutrientDefinition> := [
    NutrientDefinition("Calcium", "calcium", Minerals, "mg", None, None),
    NutrientDefinition("Magnesium", "magnesium", Minerals, "mg", None, None),
    NutrientDefinition("Potassium", "potassium", Minerals, "mg", None, None),
    NutrientDefinition("Phosphorus", "phosphorus", Minerals, "mg", None, None),
    NutrientDefinition("Iron", "iron", Minerals, "mg", None, None),
    NutrientDefinition("Zinc", "zinc", Minerals, "mg", None, None),
    NutrientDefinition("Selenium", "selenium", Minerals, "mcg", None, None),
    NutrientDefinition("Copper", "copper", Minerals, "mg", None, None),
    NutrientDefinition("Manganese", "manganese", Minerals, "mg", None, None),
    NutrientDefinition("Iodine", "iodine", Minerals, "mcg", None, None),
    NutrientDefinition("Chromium", "chromium", Minerals, "mcg", None, None),
    NutrientDefinition("Molybdenum", "molybdenum", Minerals, "mcg", None, None)]

  const FattyAcidDefinitions: seq<NutrientDefinition> := [
    NutrientDefinition("Omega-3 (EPA)", "omega-3-epa", FattyAcids, "mg", None, None),
    NutrientDefinition("Omega-3 (DHA)", "omega-3-dha", FattyAcids, "mg", None, None),
    NutrientDefinition("Omega-3 (ALA)", "omega-3-ala", FattyAcids, "mg", None, None),
    NutrientDefinition("Omega-3 (Combined EPA+DHA)", "omega-3-epa-dha", FattyAcids, "mg", None, None)]

  const AminoAcidDefinitions: seq<NutrientDefinition> := [
    NutrientDefinition("L-Theanine", "l-theanine", AminoAcids, "mg", None, None),
    NutrientDefinition("L-Tyrosine", "l-tyrosine", AminoAcids, "mg", None, None),
    NutrientDefinition("L-Glutamine", "l-glutamine", AminoAcids, "mg", None, None),
    NutrientDefinition("Taurine", "taurine", AminoAcids, "mg", None, None),
    NutrientDefinition("Glycine", "glycine", AminoAcids, "mg", None, None)]

  const OtherDefinitions: seq<NutrientDefinition> := [
    NutrientDefinition("Melatonin", "melatonin", Other, "mg", None, None),
    NutrientDefinition("Coenzyme Q10", "coq10", Other, "mg", None, None),
    NutrientDefinition("Ashwagandha", "ashwagandha", Other, "mg", None, None),
    NutrientDefinition("Collagen", "collagen", Other, "g", None, None),
    NutrientDefinition("Probiotics", "probiotics", Other, "CFU", None, None),
    NutrientDefinition("Creatine", "creatine", Other, "g", None, None),
    NutrientDefinition("Caffeine", "caffeine", Other, "mg", None, None),
    NutrientDefinition("Choline", "choline", Other, "mg", None, None)]

  /** `NUTRIENTS`, in the order the file lists them. */
  const NutrientDefinitions: seq<NutrientDefinition> :=
    VitaminDefinitions + MineralDefinitions + FattyAcidDefinitions + AminoAcidDefinitions + OtherDefinitions

  /** `find`: the index of the first nutrient from `i` on with this slug. */
  function FindSlugFrom(nutrients: seq<NutrientDefinition>, slug: string, i: nat): (r: Option<nat>)
    requires i <= |nutrients|
    ensures r.Some? ==>
      (i <= r.value < |nutrients| && nutrients[r.value].slug == slug
       && forall j | i <= j < r.value :: nutrients[j].slug != slug)
    ensures r.None? ==> forall j | i <= j < |nutrients| :: nutrients[j].slug != slug
    decreases |nutrients| - i
  {
    if i == |nutrients| then None
    else if nutrients[i].slug == slug then Some(i)
    else FindSlugFrom(nutrients, slug, i + 1)
  }

  /** `getNutrientBySlug`: the first nutrient with the slug, if any. */
  function GetNutrientBySlug(slug: string): (r: Option<NutrientDefinition>)
    ensures r.Some? ==> r.value.slug == slug
  {
    match FindSlugFrom(NutrientDefinitions, slug, 0)
    case Some(i) => Some(NutrientDefinitions[i])
    case None => None
  }

  /** The lookup finds a nutrient exactly when one has the slug, and then the first such. */
  lemma GetNutrientBySlugFirst(slug: string)
    ensures GetNutrientBySlug(slug).None? <==>
      forall i | 0 <= i < |NutrientDefinitions| :: NutrientDefinitions[i].slug != slug
    ensures GetNutrientBySlug(slug).Some? ==>
      exists i | 0 <= i < |NutrientDefinitions| ::
        NutrientDefinitions[i] == GetNutrientBySlug(slug).value
        && forall j | 0 <= j < i :: NutrientDefinitions[j].slug != slug
  {
  }

  /** The nutrients of one category, in table order. */
  function InCategory(nutrients: seq<NutrientDefinition>, categoryId: NutrientCategory): (r: seq<NutrientDefinition>)
    ensures |r| <= |nutrients|
    ensures forall i | 0 <= i < |r| :: r[i].categoryId == categoryId
  {
    if |nutrients| == 0 then []
    else
      var last := nutrients[|nutrients| - 1];
      InCategory(nutrients[..|nutrients| - 1], categoryId) + (if last.categoryId == categoryId then [last] else [])
  }

  /** The nutrients kept are exactly those of the category. */
  lemma {:induction false} InCategoryMembers(nutrients: seq<NutrientDefinition>, categoryId: NutrientCategory)
    ensures forall n :: n in InCategory(nutrients, categoryId) <==> n in nutrients && n.categoryId == categoryId
  {
    if |nutrients| > 0 {
      InCategoryMembers(nutrients[..|nutrients| - 1], categoryId);
      assert nutrients == nutrients[..|nutrients| - 1] + [nutrients[|nutrients| - 1]];
    }
  }

  /** Filtering distributes over concatenation, so it keeps the table's order. */
  lemma {:induction false} InCategoryAppend(a: seq<NutrientDefinition>, b: seq<NutrientDefinition>, categoryId: NutrientCategory)
    ensures InCategory(a + b, categoryId) == InCategory(a, categoryId) + InCategory(b, categoryId)
    decreases |b|
  {
    if |b| > 0 {
      var b' := b[..|b| - 1];
      assert (a + b)[..|a + b| - 1] == a + b';
      InCategoryAppend(a, b', categoryId);
    } else {
      assert a + b == a;
    }
  }

  /** `getNutrientsByCategory`. */
  function GetNutrientsByCategory(categoryId: NutrientCategory): (r: seq<NutrientDefinition>)
    ensures forall n :: n in r <==> n in NutrientDefinitions && n.categoryId == categoryId
  {
    InCategoryMembers(NutrientDefinitions, categoryId);
    InCategory(NutrientDefinitions, categoryId)
  }

  /**
   * The factor the conversions apply for `unit`: only for a known nutrient,
   * a unit other than its default unit that is its alternate unit, and a
   * factor that is present and non-zero.
   */
  function FactorFor(nutrient: Option<NutrientDefinition>, unit: string): Option<real>
  {
    if nutrient.Some? && unit != nutrient.value.defaultUnit && Some(unit) == nutrient.value.alternateUnit
       && nutrient.value.conversionFactor.Some? && nutrient.value.conversionFactor.value != 0.0
    then nutrient.value.conversionFactor
    else None
  }

  /** `convertToDefaultUnit`: from the alternate unit to the default unit. */
  function ConvertToDefaultUnit(slug: string, value: real, fromUnit: string): (r: real)
    ensures FactorFor(GetNutrientBySlug(slug), fromUnit).None? ==> r == value
    ensures FactorFor(GetNutrientBySlug(slug), fromUnit).Some? ==>
      r == value * FactorFor(GetNutrientBySlug(slug), fromUnit).value
  {
    ToDefaultUnit(GetNutrientBySlug(slug), value, fromUnit)
  }

  /** The conversion to the default unit, once the nutrient has been looked up. */
  function ToDefaultUnit(found: Option<NutrientDefinition>, value: real, fromUnit: string): (r: real)
    ensures FactorFor(found, fromUnit).None? ==> r == value
    ensures FactorFor(found, fromUnit).Some? ==> r == value * FactorFor(found, fromUnit).value
  {
    match found
    case None => value
    case Some(nutrient) =>
      if fromUnit == nutrient.defaultUnit then value
      else if Some(fromUnit) == nutrient.alternateUnit && nutrient.conversionFactor.Some?
              && nutrient.conversionFactor.value != 0.0 then
        value * nutrient.conversionFactor.value
      else value
  }

  /** `convertToAlternateUnit`: from the default unit to the alternate unit. */
  function ConvertToAlternateUnit(slug: string, value: real, toUnit: string): (r: real)
    ensures FactorFor(GetNutrientBySlug(slug), toUnit).None? ==> r == value
    ensures var factor := FactorFor(GetNutrientBySlug(slug), toUnit);
      factor.Some? ==> r == value / factor.value
  {
    ToAlternateUnit(GetNutrientBySlug(slug), value, toUnit)
  }

  /** The conversion to the alternate unit, once the nutrient has been looked up. */
  function ToAlternateUnit(found: Option<NutrientDefinition>, value: real, toUnit: string): (r: real)
    ensures FactorFor(found, toUnit).None? ==> r == value
    ensures FactorFor(found, toUnit).Some? ==> r == value / FactorFor(found, toUnit).value
  {
    if found.None? then value
    else if toUnit == found.value.defaultUnit then value
    else if Some(toUnit) == found.value.alternateUnit && found.value.conversionFactor.Some?
            && found.value.conversionFactor.value != 0.0 then
      value / found.value.conversionFactor.value
    else value
  }

  lemma DivThenMultiply(value: real, factor: real)
    requires factor != 0.0
    ensures (value / factor) * factor == value
  {
  }

  lemma MultiplyThenDiv(value: real, factor: real)
    requires factor != 0.0
    ensures (value * factor) / factor == value
  {
  }

  /** An unknown nutrient, or the default unit itself, leaves an amount unchanged both ways. */
  lemma UnconvertedUnits(slug: string, value: real, unit: string)
    requires GetNutrientBySlug(slug).None? || unit == GetNutrientBySlug(slug).value.defaultUnit
    ensures ConvertToDefaultUnit(slug, value, unit) == value
    ensures ConvertToAlternateUnit(slug, value, unit) == value
  {
  }

  /** Converting to the default unit and back gives the amount back, for every unit. */
  lemma DefaultRoundTrip(slug: string, value: real, unit: string)
    ensures ConvertToAlternateUnit(slug, ConvertToDefaultUnit(slug, value, unit), unit) == value
  {
    var factor := FactorFor(GetNutrientBySlug(slug), unit);
    if factor.Some? {
      var converted := ConvertToDefaultUnit(slug, value, unit);
      assert converted == value * factor.value;
      MultiplyThenDiv(value, factor.value);
      assert ConvertToAlternateUnit(slug, converted, unit) == converted / factor.value;
    }
  }

  /** Converting to the alternate unit and back gives the amount back, for every unit. */
  lemma AlternateRoundTrip(slug: string, value: real, unit: string)
    ensures ConvertToDefaultUnit(slug, ConvertToAlternateUnit(slug, value, unit), unit) == value
  {
    var factor := FactorFor(GetNutrientBySlug(slug), unit);
    if factor.Some? {
      DivThenMultiply(value, factor.value);
    }
  }

  /** Vitamin D: 1000 IU is 25 mcg, and 25 mcg is 1000 IU. */
  lemma VitaminDExamples()
    ensures ConvertToDefaultUnit("vitamin-d", 1000.0, "IU") == 25.0
    ensures ConvertToAlternateUnit("vitamin-d", 25.0, "IU") == 1000.0
  {
    assert NutrientDefinitions[0].slug == "vitamin-a";
    assert NutrientDefinitions[1] == VitaminDefinitions[1];
    assert GetNutrientBySlug("vitamin-d") == Some(VitaminDefinitions[1]);
  }
}
