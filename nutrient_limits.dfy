/**
 * The daily intake reference table of lib/data/nutrient-limits.ts (EFSA
 * values with US IOM fallbacks and typical supplement ranges) and its
 * lookups: the row for a user's age group and sex with an "all" fallback,
 * the effective upper limit, the rows of one nutrient, and whether a
 * nutrient has an upper limit at all.
 */
module NutrientLimits {
  import opened Common

  datatype AgeGroup = Adults18To50 | Adults51To70 | Seniors71Plus

  /** The sex a row applies to; `AllSexes` is the row shared by both. */
  datatype Sex = Male | Female | AllSexes

  /** The sexes a user can have. */
  type UserSex = s: Sex | s != AllSexes witness Male

  datatype UlSource = Efsa | Iom | EfsaSafeLevel | TypicalRange

  /** The optional `safe_level` field: missing from the row, `null`, or a number. */
  datatype SafeLevel = Absent | Null | Level(amount: real)

  datatype NutrientLimitData = NutrientLimitData(
    nutrientSlug: string,
    ageGroup: AgeGroup,
    sex: Sex,
    rda: Option<real>,
    upperLimit: Option<real>,
    safeLevel: SafeLevel,
    unit: string,
    ulSource: Option<UlSource>,
    ulContext: Option<string>)

  const VitaminALimits: seq<NutrientLimitData> := [
    NutrientLimitData("vitamin-a", Adults18To50, Male, Some(750.0), Some(3000.0), Absent, "mcg", Some(Efsa), None),
    NutrientLimitData("vitamin-a", Adults18To50, Female, Some(650.0), Some(3000.0), Absent, "mcg", Some(Efsa), None),
    NutrientLimitData("vitamin-a", Adults51To70, Male, Some(750.0), Some(3000.0), Absent, "mcg", Some(Efsa), None),
    NutrientLimitData("vitamin-a", Adults51To70, Female, Some(650.0), Some(3000.0), Absent, "mcg", Some(Efsa), None),
    NutrientLimitData("vitamin-a", Seniors71Plus, AllSexes, Some(700.0), Some(3000.0), Absent, "mcg", Some(Efsa), None)]

  const VitaminDLimits: seq<NutrientLimitData> := [
    NutrientLimitData("vitamin-d", Adults18To50, AllSexes, Some(15.0), Some(100.0), Absent, "mcg", Some(Efsa), None),
    NutrientLimitData("vitamin-d", Adults51To70, AllSexes, Some(15.0), Some(100.0), Absent, "mcg", Some(Efsa), None),
    NutrientLimitData("vitamin-d", Seniors71Plus, AllSexes, Some(20.0), Some(100.0), Absent, "mcg", Some(Efsa), None)]

  const VitaminELimits: seq<NutrientLimitData> := [
    NutrientLimitData("vitamin-e", Adults18To50, Male, Some(13.0), Some(300.0), Absent, "mg", Some(Efsa), None),
    NutrientLimitData("vitamin-e", Adults18To50, Female, Some(11.0), Some(300.0), Absent, "mg", Some(Efsa), None),
    NutrientLimitData("vitamin-e", Adults51To70, AllSexes, Some(12.0), Some(300.0), Absent, "mg", Some(Efsa), None),
    NutrientLimitData("vitamin-e", Seniors71Plus, AllSexes, Some(12.0), Some(300.0), Absent, "mg", Some(Efsa), None)]

  const VitaminKLimits: seq<NutrientLimitData> := [
    NutrientLimitData("vitamin-k", Adults18To50, AllSexes, Some(70.0), None, Absent, "mcg", None, None),
    NutrientLimitData("vitamin-k", Adults51To70, AllSexes, Some(70.0), None, Absent, "mcg", None, None),
    NutrientLimitData("vitamin-k", Seniors71Plus, AllSexes, Some(70.0), None, Absent, "mcg", None, None)]

  const VitaminCLimits: seq<NutrientLimitData> := [
    NutrientLimitData("vitamin-c", Adults18To50, Male, Some(110.0), Some(2000.0), Absent, "mg", Some(Iom), None),
    NutrientLimitData("vitamin-c", Adults18To50, Female, Some(95.0), Some(2000.0), Absent, "mg", Some(Iom), None),
    NutrientLimitData("vitamin-c", Adults51To70, AllSexes, Some(100.0), Some(2000.0), Absent, "mg", Some(Iom), None),
    NutrientLimitData("vitamin-c", Seniors71Plus, AllSexes, Some(100.0), Some(2000.0), Absent, "mg", Some(Iom), None)]

  const VitaminB1Limits: seq<NutrientLimitData> := [
    NutrientLimitData("vitamin-b1", Adults18To50, AllSexes, Some(1.1), None, Absent, "mg", None, None),
    NutrientLimitData("vitamin-b1", Adults51To70, AllSexes, Some(1.1), None, Absent, "mg", None, None),
    NutrientLimitData("vitamin-b1", Seniors71Plus, AllSexes, Some(1.0), None, Absent, "mg", None, None)]

  const VitaminB2Limits: seq<NutrientLimitData> := [
    NutrientLimitData("vitamin-b2", Adults18To50, AllSexes, Some(1.6), None, Absent, "mg", None, None),
    NutrientLimitData("vitamin-b2", Adults51To70, AllSexes, Some(1.6), None, Absent, "mg", None, None),
    NutrientLimitData("vitamin-b2", Seniors71Plus, AllSexes, Some(1.6), None, Absent, "mg", None, None)]

  const VitaminB3Limits: seq<NutrientLimitData> := [
    NutrientLimitData("vitamin-b3", Adults18To50, Male, Some(16.0), Some(35.0), Absent, "mg", Some(Iom), None),
    NutrientLimitData("vitamin-b3", Adults18To50, Female, Some(14.0), Some(35.0), Absent, "mg", Some(Iom), None),
    NutrientLimitData("vitamin-b3", Adults51To70, AllSexes, Some(15.0), Some(35.0), Absent, "mg", Some(Iom), None),
    NutrientLimitData("vitamin-b3", Seniors71Plus, AllSexes, Some(14.0), Some(35.0), Absent, "mg", Some(Iom), None)]

  const VitaminB5Limits: seq<NutrientLimitData> := [
    NutrientLimitData("vitamin-b5", Adults18To50, AllSexes, Some(5.0), None, Absent, "mg", None, None),
    NutrientLimitData("vitamin-b5", Adults51To70, AllSexes, Some(5.0), None, Absent, "mg", None, None),
    NutrientLimitData("vitamin-b5", Seniors71Plus, AllSexes, Some(5.0), None, Absent, "mg", None, None)]

  const VitaminB6Limits: seq<NutrientLimitData> := [
    NutrientLimitData("vitamin-b6", Adults18To50, Male, Some(1.7), Some(12.5), Absent, "mg", Some(Efsa), None),
    NutrientLimitData("vitamin-b6", Adults18To50, Female, Some(1.6), Some(12.5), Absent, "mg", Some(Efsa), None),
    NutrientLimitData("vitamin-b6", Adults51To70, AllSexes, Some(1.7), Some(12.5), Absent, "mg", Some(Efsa), None),
    NutrientLimitData("vitamin-b6", Seniors71Plus, AllSexes, Some(1.7), Some(12.5), Absent, "mg", Some(Efsa), None)]

  const VitaminB7Limits: seq<NutrientLimitData> := [
    NutrientLimitData("vitamin-b7", Adults18To50, AllSexes, Some(40.0), None, Absent, "mcg", None, None),
    NutrientLimitData("vitamin-b7", Adults51To70, AllSexes, Some(40.0), None, Absent, "mcg", None, None),
    NutrientLimitData("vitamin-b7", Seniors71Plus, AllSexes, Some(40.0), None, Absent, "mcg", None, None)]

  const VitaminB9Limits: seq<NutrientLimitData> := [
    NutrientLimitData("vitamin-b9", Adults18To50, AllSexes, Some(330.0), Some(1000.0), Absent, "mcg", Some(Efsa), None),
    NutrientLimitData("vitamin-b9", Adults51To70, AllSexes, Some(330.0), Some(1000.0), Absent, "mcg", Some(Efsa), None),
    NutrientLimitData("vitamin-b9", Seniors71Plus, AllSexes, Some(330.0), Some(1000.0), Absent, "mcg", Some(Efsa), None)]

  const VitaminB12Limits: seq<NutrientLimitData> := [
    NutrientLimitData("vitamin-b12", Adults18To50, AllSexes, Some(4.0), None, Absent, "mcg", None, None),
    NutrientLimitData("vitamin-b12", Adults51To70, AllSexes, Some(4.0), None, Absent, "mcg", None, None),
    NutrientLimitData("vitamin-b12", Seniors71Plus, AllSexes, Some(4.0), None, Absent, "mcg", None, None)]

  const CalciumLimits: seq<NutrientLimitData> := [
    NutrientLimitData("calcium", Adults18To50, AllSexes, Some(950.0), Some(2500.0), Absent, "mg", Some(Efsa), None),
    NutrientLimitData("calcium", Adults51To70, AllSexes, Some(950.0), Some(2500.0), Absent, "mg", Some(Efsa), None),
    NutrientLimitData("calcium", Seniors71Plus, AllSexes, Some(950.0), Some(2500.0), Absent, "mg", Some(Efsa), None)]

  const MagnesiumLimits: seq<NutrientLimitData> := [
    NutrientLimitData("magnesium", Adults18To50, Male, Some(350.0), Some(250.0), Absent, "mg", Some(Efsa), Some("supplements_only")),
    NutrientLimitData("magnesium", Adults18To50, Female, Some(300.0), Some(250.0), Absent, "mg", Some(Efsa), Some("supplements_only")),
    NutrientLimitData("magnesium", Adults51To70, AllSexes, Some(350.0), Some(250.0), Absent, "mg", Some(Efsa), Some("supplements_only")),
    NutrientLimitData("magnesium", Seniors71Plus, AllSexes, Some(350.0), Some(250.0), Absent, "mg", Some(Efsa), Some("supplements_only"))]

  const PotassiumLimits: seq<NutrientLimitData> := [
    NutrientLimitData("potassium", Adults18To50, AllSexes, Some(3500.0), None, Absent, "mg", None, None),
    NutrientLimitData("potassium", Adults51To70, AllSexes, Some(3500.0), None, Absent, "mg", None, None),
    NutrientLimitData("potassium", Seniors71Plus, AllSexes, Some(3500.0), None, Absent, "mg", None, None)]

  const PhosphorusLimits: seq<NutrientLimitData> := [
    NutrientLimitData("phosphorus", Adults18To50, AllSexes, Some(550.0), Some(4000.0), Absent, "mg", Some(Iom), None),
    NutrientLimitData("phosphorus", Adults51To70, AllSexes, Some(550.0), Some(4000.0), Absent, "mg", Some(Iom), None),
    NutrientLimitData("phosphorus", Seniors71Plus, AllSexes, Some(550.0), Some(3000.0), Absent, "mg", Some(Iom), None)]

  const IronLimits: seq<NutrientLimitData> := [
    NutrientLimitData("iron", Adults18To50, Male, Some(11.0), None, Level(25.0), "mg", Some(EfsaSafeLevel), None),
    NutrientLimitData("iron", Adults18To50, Female, Some(16.0), None, Level(25.0), "mg", Some(EfsaSafeLevel), None),
    NutrientLimitData("iron", Adults51To70, AllSexes, Some(11.0), None, Level(25.0), "mg", Some(EfsaSafeLevel), None),
    NutrientLimitData("iron", Seniors71Plus, AllSexes, Some(11.0), None, Level(25.0), "mg", Some(EfsaSafeLevel), None)]

  const ZincLimits: seq<NutrientLimitData> := [
    NutrientLimitData("zinc", Adults18To50, Male, Some(11.0), Some(25.0), Absent, "mg", Some(Efsa), None),
    NutrientLimitData("zinc", Adults18To50, Female, Some(8.0), Some(25.0), Absent, "mg", Some(Efsa), None),
    NutrientLimitData("zinc", Adults51To70, AllSexes, Some(10.0), Some(25.0), Absent, "mg", Some(Efsa), None),
    NutrientLimitData("zinc", Seniors71Plus, AllSexes, Some(10.0), Some(25.0), Absent, "mg", Some(Efsa), None)]

  const SeleniumLimits: seq<NutrientLimitData> := [
    NutrientLimitData("selenium", Adults18To50, AllSexes, Some(70.0), Some(255.0), Absent, "mcg", Some(Efsa), None),
    NutrientLimitData("selenium", Adults51To70, AllSexes, Some(70.0), Some(255.0), Absent, "mcg", Some(Efsa), None),
    NutrientLimitData("selenium", Seniors71Plus, AllSexes, Some(70.0), Some(255.0), Absent, "mcg", Some(Efsa), None)]

  const CopperLimits: seq<NutrientLimitData> := [
    NutrientLimitData("copper", Adults18To50, AllSexes, Some(1.6), Some(5.0), Absent, "mg", Some(Efsa), None),
    NutrientLimitData("copper", Adults51To70, AllSexes, Some(1.6), Some(5.0), Absent, "mg", Some(Efsa), None),
    NutrientLimitData("copper", Seniors71Plus, AllSexes, Some(1.3), Some(5.0), Absent, "mg", Some(Efsa), None)]

  const ManganeseLimits: seq<NutrientLimitData> := [
    NutrientLimitData("manganese", Adults18To50, AllSexes, Some(3.0), None, Level(8.0), "mg", Some(EfsaSafeLevel), None),
    NutrientLimitData("manganese", Adults51To70, AllSexes, Some(3.0), None, Level(8.0), "mg", Some(EfsaSafeLevel), None),
    NutrientLimitData("manganese", Seniors71Plus, AllSexes, Some(3.0), None, Level(8.0), "mg", Some(EfsaSafeLevel), None)]

  const IodineLimits: seq<NutrientLimitData> := [
    NutrientLimitData("iodine", Adults18To50, AllSexes, Some(150.0), Some(600.0), Absent, "mcg", Some(Efsa), None),
    NutrientLimitData("iodine", Adults51To70, AllSexes, Some(150.0), Some(600.0), Absent, "mcg", Some(Efsa), None),
    NutrientLimitData("iodine", Seniors71Plus, AllSexes, Some(150.0), Some(600.0), Absent, "mcg", Some(Efsa), None)]

  const ChromiumLimits: seq<NutrientLimitData> := [
    NutrientLimitData("chromium", Adults18To50, Male, Some(35.0), None, Absent, "mcg", None, None),
    NutrientLimitData("chromium", Adults18To50, Female, Some(25.0), None, Absent, "mcg", None, None),
    NutrientLimitData("chromium", Adults51To70, AllSexes, Some(30.0), None, Absent, "mcg", None, None),
    NutrientLimitData("chromium", Seniors71Plus, AllSexes, Some(30.0), None, Absent, "mcg", None, None)]

  const MolybdenumLimits: seq<NutrientLimitData> := [
    NutrientLimitData("molybdenum", Adults18To50, AllSexes, Some(65.0), Some(600.0), Absent, "mcg", Some(Efsa), None),
    NutrientLimitData("molybdenum", Adults51To70, AllSexes, Some(65.0), Some(600.0), Absent, "mcg", Some(Efsa), None),
    NutrientLimitData("molybdenum", Seniors71Plus, AllSexes, Some(65.0), Some(600.0), Absent, "mcg", Some(Efsa), None)]

  const Omega3EpaDhaLimits: seq<NutrientLimitData> := [
    NutrientLimitData("omega-3-epa-dha", Adults18To50, AllSexes, Some(250.0), Some(5000.0), Absent, "mg", Some(Efsa), None),
    NutrientLimitData("omega-3-epa-dha", Adults51To70, AllSexes, Some(250.0), Some(5000.0), Absent, "mg", Some(Efsa), None),
    NutrientLimitData("omega-3-epa-dha", Seniors71Plus, AllSexes, Some(250.0), Some(5000.0), Absent, "mg", Some(Efsa), None)]

  const CholineLimits: seq<NutrientLimitData> := [
    NutrientLimitData("choline", Adults18To50, AllSexes, Some(400.0), Some(3500.0), Absent, "mg", Some(Efsa), None),
    NutrientLimitData("choline", Adults51To70, AllSexes, Some(400.0), Some(3500.0), Absent, "mg", Some(Efsa), None),
    NutrientLimitData("choline", Seniors71Plus, AllSexes, Some(400.0), Some(3500.0), Absent, "mg", Some(Efsa), None)]

  const CaffeineLimits: seq<NutrientLimitData> := [
    NutrientLimitData("caffeine", Adults18To50, AllSexes, None, Some(400.0), Absent, "mg", Some(Efsa), None),
    NutrientLimitData("caffeine", Adults51To70, AllSexes, None, Some(400.0), Absent, "mg", Some(Efsa), None),
    NutrientLimitData("caffeine", Seniors71Plus, AllSexes, None, Some(400.0), Absent, "mg", Some(Efsa), None)]

  const Omega3EpaLimits: seq<NutrientLimitData> := [
    NutrientLimitData("omega-3-epa", Adults18To50, AllSexes, None, None, Level(1800.0), "mg", Some(TypicalRange), None),
    NutrientLimitData("omega-3-epa", Adults51To70, AllSexes, None, None, Level(1800.0), "mg", Some(TypicalRange), None),
    NutrientLimitData("omega-3-epa", Seniors71Plus, AllSexes, None, None, Level(1800.0), "mg", Some(TypicalRange), None)]

  const Omega3DhaLimits: seq<NutrientLimitData> := [
    NutrientLimitData("omega-3-dha", Adults18To50, AllSexes, None, None, Level(1500.0), "mg", Some(TypicalRange), None),
    NutrientLimitData("omega-3-dha", Adults51To70, AllSexes, None, None, Level(1500.0), "mg", Some(TypicalRange), None),
    NutrientLimitData("omega-3-dha", Seniors71Plus, AllSexes, None, None, Level(1500.0), "mg", Some(TypicalRange), None)]

  const Omega3AlaLimits: seq<NutrientLimitData> := [
    NutrientLimitData("omega-3-ala", Adults18To50, Male, Some(1600.0), None, Level(3000.0), "mg", Some(TypicalRange), None),
    NutrientLimitData("omega-3-ala", Adults18To50, Female, Some(1100.0), None, Level(3000.0), "mg", Some(TypicalRange), None),
    NutrientLimitData("omega-3-ala", Adults51To70, AllSexes, Some(1350.0), None, Level(3000.0), "mg", Some(TypicalRange), None),
    NutrientLimitData("omega-3-ala", Seniors71Plus, AllSexes, Some(1350.0), None, Level(3000.0), "mg", Some(TypicalRange), None)]

  const LTheanineLimits: seq<NutrientLimitData> := [
    NutrientLimitData("l-theanine", Adults18To50, AllSexes, None, None, Level(600.0), "mg", Some(TypicalRange), None),
    NutrientLimitData("l-theanine", Adults51To70, AllSexes, None, None, Level(600.0), "mg", Some(TypicalRange), None),
    NutrientLimitData("l-theanine", Seniors71Plus, AllSexes, None, None, Level(400.0), "mg", Some(TypicalRange), None)]

  const LTyrosineLimits: seq<NutrientLimitData> := [
    NutrientLimitData("l-tyrosine", Adults18To50, AllSexes, None, None, Level(2000.0), "mg", Some(TypicalRange), None),
    NutrientLimitData("l-tyrosine", Adults51To70, AllSexes, None, None, Level(2000.0), "mg", Some(TypicalRange), None),
    NutrientLimitData("l-tyrosine", Seniors71Plus, AllSexes, None, None, Level(1500.0), "mg", Some(TypicalRange), None)]

  const LGlutamineLimits: seq<NutrientLimitData> := [
    NutrientLimitData("l-glutamine", Adults18To50, AllSexes, None, None, Level(14000.0), "mg", Some(TypicalRange), None),
    NutrientLimitData("l-glutamine", Adults51To70, AllSexes, None, None, Level(14000.0), "mg", Some(TypicalRange), None),
    NutrientLimitData("l-glutamine", Seniors71Plus, AllSexes, None, None, Level(10000.0), "mg", Some(TypicalRange), None)]

  const TaurineLimits: seq<NutrientLimitData> := [
    NutrientLimitData("taurine", Adults18To50, AllSexes, None, None, Level(3000.0), "mg", Some(TypicalRange), None),
    NutrientLimitData("taurine", Adults51To70, AllSexes, None, None, Level(3000.0), "mg", Some(TypicalRange), None),
    NutrientLimitData("taurine", Seniors71Plus, AllSexes, None, None, Level(3000.0), "mg", Some(TypicalRange), None)]

  const GlycineLimits: seq<NutrientLimitData> := [
    NutrientLimitData("glycine", Adults18To50, AllSexes, None, None, Level(10000.0), "mg", Some(TypicalRange), None),
    NutrientLimitData("glycine", Adults51To70, AllSexes, None, None, Level(10000.0), "mg", Some(TypicalRange), None),
    NutrientLimitData("glycine", Seniors71Plus, AllSexes, None, None, Level(5000.0), "mg", Some(TypicalRange), None)]

  const MelatoninLimits: seq<NutrientLimitData> := [
    NutrientLimitData("melatonin", Adults18To50, AllSexes, None, None, Level(10.0), "mg", Some(TypicalRange), None),
    NutrientLimitData("melatonin", Adults51To70, AllSexes, None, None, Level(10.0), "mg", Some(TypicalRange), None),
    NutrientLimitData("melatonin", Seniors71Plus, AllSexes, None, None, Level(5.0), "mg", Some(TypicalRange), None)]

  const Coq10Limits: seq<NutrientLimitData> := [
    NutrientLimitData("coq10", Adults18To50, AllSexes, None, None, Level(600.0), "mg", Some(TypicalRange), None),
    NutrientLimitData("coq10", Adults51To70, AllSexes, None, None, Level(600.0), "mg", Some(TypicalRange), None),
    NutrientLimitData("coq10", Seniors71Plus, AllSexes, None, None, Level(600.0), "mg", Some(TypicalRange), None)]

  const AshwagandhaLimits: seq<NutrientLimitData> := [
    NutrientLimitData("ashwagandha", Adults18To50, AllSexes, None, None, Level(600.0), "mg", Some(TypicalRange), None),
    NutrientLimitData("ashwagandha", Adults51To70, AllSexes, None, None, Level(600.0), "mg", Some(TypicalRange), None),
    NutrientLimitData("ashwagandha", Seniors71Plus, AllSexes, None, None, Level(450.0), "mg", Some(TypicalRange), None)]

  const CollagenLimits: seq<NutrientLimitData> := [
    NutrientLimitData("collagen", Adults18To50, AllSexes, None, None, Level(15.0), "g", Some(TypicalRange), None),
    NutrientLimitData("collagen", Adults51To70, AllSexes, None, None, Level(15.0), "g", Some(TypicalRange), None),
    NutrientLimitData("collagen", Seniors71Plus, AllSexes, None, None, Level(15.0), "g", Some(TypicalRange), None)]

  const ProbioticsLimits: seq<NutrientLimitData> := [
    NutrientLimitData("probiotics", Adults18To50, AllSexes, None, None, Level(100.0), "billion CFU", Some(TypicalRange), None),
    NutrientLimitData("probiotics", Adults51To70, AllSexes, None, None, Level(100.0), "billion CFU", Some(TypicalRange), None),
    NutrientLimitData("probiotics", Seniors71Plus, AllSexes, None, None, Level(50.0), "billion CFU", Some(TypicalRange), None)]

  const CreatineLimits: seq<NutrientLimitData> := [
    NutrientLimitData("creatine", Adults18To50, AllSexes, None, None, Level(5.0), "g", Some(TypicalRange), None),
    NutrientLimitData("creatine", Adults51To70, AllSexes, None, None, Level(5.0), "g", Some(TypicalRange), None),
    NutrientLimitData("creatine", Seniors71Plus, AllSexes, None, None, Level(5.0), "g", Some(TypicalRange), None)]

  /** `NUTRIENT_LIMITS`: the rows of every nutrient, in the order the table lists them. */
  const NutrientLimitsTable: seq<NutrientLimitData> :=
    VitaminALimits + VitaminDLimits + VitaminELimits + VitaminKLimits + VitaminCLimits +
    VitaminB1Limits + VitaminB2Limits + VitaminB3Limits + VitaminB5Limits + VitaminB6Limits +
    VitaminB7Limits + VitaminB9Limits + VitaminB12Limits + CalciumLimits + MagnesiumLimits +
    PotassiumLimits + PhosphorusLimits + IronLimits + ZincLimits + SeleniumLimits + CopperLimits +
    ManganeseLimits + IodineLimits + ChromiumLimits + MolybdenumLimits + Omega3EpaDhaLimits +
    CholineLimits + CaffeineLimits + Omega3EpaLimits + Omega3DhaLimits + Omega3AlaLimits +
    LTheanineLimits + LTyrosineLimits + LGlutamineLimits + TaurineLimits + GlycineLimits +
    MelatoninLimits + Coq10Limits + AshwagandhaLimits + CollagenLimits + ProbioticsLimits +
    CreatineLimits

  /** The row is for this nutrient, age group and sex. */
  predicate RowFor(l: NutrientLimitData, slug: string, ageGroup: AgeGroup, sex: Sex)
  {
    l.nutrientSlug == slug && l.ageGroup == ageGroup && l.sex == sex
  }

  /** `find`: the index of the first row from `i` on for this nutrient, age group and sex. */
  function FindRowFrom(limits: seq<NutrientLimitData>, slug: string, ageGroup: AgeGroup, sex: Sex, i: nat)
    : (r: Option<nat>)
    requires i <= |limits|
    ensures r.Some? ==>
      (i <= r.value < |limits| && RowFor(limits[r.value], slug, ageGroup, sex)
       && forall j | i <= j < r.value :: !RowFor(limits[j], slug, ageGroup, sex))
    ensures r.None? ==> forall j | i <= j < |limits| :: !RowFor(limits[j], slug, ageGroup, sex)
    decreases |limits| - i
  {
    if i == |limits| then None
    else if RowFor(limits[i], slug, ageGroup, sex) then Some(i)
    else FindRowFrom(limits, slug, ageGroup, sex, i + 1)
  }

  function FindRow(limits: seq<NutrientLimitData>, slug: string, ageGroup: AgeGroup, sex: Sex): Option<nat>
  {
    FindRowFrom(limits, slug, ageGroup, sex, 0)
  }

  /**
   * `getLimitForUser`: the first row matching the nutrient, the age group
   * and the user's sex exactly; failing that, the first row for both sexes.
   */
  function GetLimitForUser(slug: string, ageGroup: AgeGroup, sex: UserSex): (r: Option<NutrientLimitData>)
    ensures r.Some? ==>
      r.value in NutrientLimitsTable && r.value.nutrientSlug == slug && r.value.ageGroup == ageGroup
      && (r.value.sex == sex || r.value.sex == AllSexes)
  {
    var r := LimitForUserIn(NutrientLimitsTable, slug, ageGroup, sex);
    assert r.Some? ==> r.value in NutrientLimitsTable;
    r
  }

  /** The lookup of `getLimitForUser` over a table of rows. */
  function LimitForUserIn(limits: seq<NutrientLimitData>, slug: string, ageGroup: AgeGroup, sex: UserSex)
    : (r: Option<NutrientLimitData>)
    ensures r.Some? ==>
      r.value in limits && r.value.nutrientSlug == slug && r.value.ageGroup == ageGroup
      && (r.value.sex == sex || r.value.sex == AllSexes)
    ensures r.None? <==> forall i | 0 <= i < |limits| ::
      !RowFor(limits[i], slug, ageGroup, sex) && !RowFor(limits[i], slug, ageGroup, AllSexes)
    ensures (exists i | 0 <= i < |limits| :: RowFor(limits[i], slug, ageGroup, sex)) ==>
      r.Some? && r.value.sex == sex
  {
    match FindRow(limits, slug, ageGroup, sex)
    case Some(i) => Some(limits[i])
    case None =>
      match FindRow(limits, slug, ageGroup, AllSexes)
      case Some(i) => Some(limits[i])
      case None => None
  }

  /** An exact row wins over a row for both sexes, and among exact rows the first one wins. */
  lemma ExactRowFirst(limits: seq<NutrientLimitData>, slug: string, ageGroup: AgeGroup, sex: UserSex, k: nat)
    requires k < |limits| && RowFor(limits[k], slug, ageGroup, sex)
    requires forall j | 0 <= j < k :: !RowFor(limits[j], slug, ageGroup, sex)
    ensures LimitForUserIn(limits, slug, ageGroup, sex) == Some(limits[k])
  {
    var r := FindRow(limits, slug, ageGroup, sex);
    assert r.Some? && r.value <= k;
    assert r.value >= k;
  }

  /** Without an exact row, the first row for both sexes is returned. */
  lemma AllSexesFallback(limits: seq<NutrientLimitData>, slug: string, ageGroup: AgeGroup, sex: UserSex, k: nat)
    requires forall i | 0 <= i < |limits| :: !RowFor(limits[i], slug, ageGroup, sex)
    requires k < |limits| && RowFor(limits[k], slug, ageGroup, AllSexes)
    requires forall j | 0 <= j < k :: !RowFor(limits[j], slug, ageGroup, AllSexes)
    ensures LimitForUserIn(limits, slug, ageGroup, sex) == Some(limits[k])
  {
    var exact := FindRow(limits, slug, ageGroup, sex);
    assert exact.None?;
    var r := FindRow(limits, slug, ageGroup, AllSexes);
    assert r.Some? && r.value <= k;
    assert r.value >= k;
  }

  /** `getEffectiveUpperLimit`: the upper limit when there is one, else the safe level when it is a number. */
  function GetEffectiveUpperLimit(limit: NutrientLimitData): (r: Option<real>)
    ensures limit.upperLimit.Some? ==> r == limit.upperLimit
    ensures limit.upperLimit.None? && limit.safeLevel.Level? ==> r == Some(limit.safeLevel.amount)
    ensures r.None? <==> limit.upperLimit.None? && !limit.safeLevel.Level?
  {
    if limit.upperLimit.Some? then limit.upperLimit
    else match limit.safeLevel
      case Level(amount) => Some(amount)
      case _ => None
  }

  /** The rows of one nutrient, in table order. */
  function RowsOf(limits: seq<NutrientLimitData>, slug: string): (r: seq<NutrientLimitData>)
    ensures |r| <= |limits|
    ensures forall i | 0 <= i < |r| :: r[i].nutrientSlug == slug
  {
    if |limits| == 0 then []
    else
      var init := RowsOf(limits[..|limits| - 1], slug);
      var last := limits[|limits| - 1];
      init + (if last.nutrientSlug == slug then [last] else [])
  }

  /** The rows kept are the nutrient's rows of the table, and no others. */
  lemma {:induction false} RowsOfMembers(limits: seq<NutrientLimitData>, slug: string)
    ensures forall l :: l in RowsOf(limits, slug) <==> l in limits && l.nutrientSlug == slug
  {
    if |limits| > 0 {
      RowsOfMembers(limits[..|limits| - 1], slug);
      assert limits == limits[..|limits| - 1] + [limits[|limits| - 1]];
    }
  }

  /** Filtering distributes over concatenation, so it keeps the table's order. */
  lemma {:induction false} RowsOfAppend(a: seq<NutrientLimitData>, b: seq<NutrientLimitData>, slug: string)
    ensures RowsOf(a + b, slug) == RowsOf(a, slug) + RowsOf(b, slug)
    decreases |b|
  {
    if |b| > 0 {
      var b' := b[..|b| - 1];
      assert (a + b)[..|a + b| - 1] == a + b';
      RowsOfAppend(a, b', slug);
    } else {
      assert a + b == a;
    }
  }

  /** `getLimitsForNutrient`: the table's rows for the nutrient, and no others. */
  function GetLimitsForNutrient(slug: string): (r: seq<NutrientLimitData>)
    ensures forall l :: l in r <==> l in NutrientLimitsTable && l.nutrientSlug == slug
  {
    RowsOfMembers(NutrientLimitsTable, slug);
    RowsOf(NutrientLimitsTable, slug)
  }

  /**
   * The test `hasUpperLimit` applies to a row as written: `safe_level !==
   * null`, which a row without the field passes.
   */
  predicate CountsAsLimitedAsWritten(l: NutrientLimitData)
  {
    l.upperLimit.Some? || l.safeLevel != Null
  }

  /** `hasUpperLimit` as written. */
  predicate HasUpperLimitAsWritten(slug: string)
  {
    LimitedAsWrittenIn(NutrientLimitsTable, slug)
  }

  /** The test as written, over a table of rows. */
  predicate LimitedAsWrittenIn(limits: seq<NutrientLimitData>, slug: string)
  {
    exists l | l in RowsOf(limits, slug) :: CountsAsLimitedAsWritten(l)
  }

  /** Vitamin K has no upper limit and no safe level, yet counts as limited as written. */
  lemma VitaminKCountsAsWritten()
    ensures HasUpperLimitAsWritten("vitamin-k")
  {
    var l := VitaminKLimits[0];
    assert l in NutrientLimitsTable;
    RowsOfMembers(NutrientLimitsTable, "vitamin-k");
    assert l in RowsOf(NutrientLimitsTable, "vitamin-k");
  }

  /** `hasUpperLimit` as intended: some row of the nutrient has an effective upper limit. */
  function HasUpperLimit(slug: string): (r: bool)
    ensures r <==> exists i | 0 <= i < |NutrientLimitsTable| ::
      NutrientLimitsTable[i].nutrientSlug == slug && GetEffectiveUpperLimit(NutrientLimitsTable[i]).Some?
  {
    LimitedMeansEffectiveLimit(NutrientLimitsTable, slug);
    LimitedIn(NutrientLimitsTable, slug)
  }

  /** The intended test, over a table of rows. */
  predicate LimitedIn(limits: seq<NutrientLimitData>, slug: string)
  {
    exists l | l in RowsOf(limits, slug) :: GetEffectiveUpperLimit(l).Some?
  }

  /** With the intended test, a nutrient has an upper limit exactly when one of its rows yields one. */
  lemma LimitedMeansEffectiveLimit(limits: seq<NutrientLimitData>, slug: string)
    ensures LimitedIn(limits, slug) <==>
      exists i | 0 <= i < |limits| :: limits[i].nutrientSlug == slug && GetEffectiveUpperLimit(limits[i]).Some?
  {
    RowsOfMembers(limits, slug);
  }

  /** Every nutrient the intended test reports as limited also passes the test as written. */
  lemma AsWrittenOverApproximates(limits: seq<NutrientLimitData>, slug: string)
    requires LimitedIn(limits, slug)
    ensures LimitedAsWrittenIn(limits, slug)
  {
    var l :| l in RowsOf(limits, slug) && GetEffectiveUpperLimit(l).Some?;
    assert CountsAsLimitedAsWritten(l);
  }

  /** None of vitamin K's rows has an upper limit or a safe level. */
  lemma VitaminKRowsUnlimited()
    ensures |VitaminKLimits| == 3
    ensures forall l | l in VitaminKLimits :: l.nutrientSlug == "vitamin-k" && GetEffectiveUpperLimit(l).None?
  {
  }
}
