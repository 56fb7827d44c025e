/**
 * The static fixtures of `src/lib/data.js`: the drug-supplement interaction
 * table the interaction checker scans, the product table the transparency
 * search filters, and the sample health metrics.
 */
module Data {

  /** One known interaction between a prescription drug and a supplement. */
  datatype Interaction = Interaction(
    drug: string,
    supplement: string,
    severity: string,
    description: string,
    mechanism: string)

  /** One product fact sheet of the transparency database. */
  datatype Product = Product(
    id: int,
    name: string,
    ingredients: seq<string>,
    certifications: seq<string>,
    knownContaminants: string,
    regulatoryNotes: string)

  /** One sample health-log record. */
  datatype HealthMetric = HealthMetric(
    id: int,
    date: string,
    mood: int,
    energy: int,
    sleepQuality: string,
    notes: string)

  const TransparencyDatabase: seq<Product> := [
    Product(1, "Vitamin D3 (Cholecalciferol)",
      ["Cholecalciferol 2000 IU", "Microcrystalline Cellulose", "Vegetable Stearate"],
      ["USP Verified", "NSF Certified"],
      "None detected",
      "Generally Recognized as Safe (GRAS). Limited FDA oversight of dosage claims."),
    Product(2, "Magnesium Glycinate",
      ["Magnesium (as Magnesium Glycinate) 400mg", "Vegetable Capsule", "Silicon Dioxide"],
      ["Third-party tested"],
      "Heavy metals below USP limits",
      "Bisglycinate form has better absorption. No FDA pre-market approval required."),
    Product(3, "Whey Protein Isolate",
      // the long ingredient is written in pieces, which proofs about it take apart
      ["Proprietary " + "Protein Blend " + "25g (Whey " + "Protein Isolate, " + "Whey Protein " + "Concentrate)",
       "Natural Flavors", "Sucralose"],
      ["NSF Certified for Sport"],
      "None detected in recent batch testing",
      "Proprietary blend - exact amounts of isolate vs concentrate not disclosed"),
    Product(4, "Multivitamin Complex",
      ["Vitamin A 5000 IU", "Vitamin C 500mg", "Vitamin E 30 IU", "B-Complex", "Iron 18mg", "Calcium 200mg"],
      ["USP Verified"],
      "None detected",
      "Iron content may interact with certain medications. Consult healthcare provider."),
    Product(5, "Omega-3 Fish Oil",
      ["EPA 600mg", "DHA 400mg", "Other Omega-3 Fatty Acids 200mg", "Gelatin Capsule", "Glycerin"],
      ["IFOS Certified", "Third-party tested"],
      "Mercury below detection limits",
      "FDA recognizes health benefits. Source and processing methods vary significantly."),
    Product(6, "Creatine Monohydrate",
      ["Creatine Monohydrate 5g"],
      ["Creapure Certified", "Informed Sport"],
      "None detected",
      "Extensive research support. No FDA pre-market approval required.")
  ]

  const DrugInteractions: seq<Interaction> := [
    Interaction("Warfarin", "Vitamin E", "High",
      "Vitamin E may increase bleeding risk when combined with Warfarin. Monitor INR closely.",
      "Vitamin E potentiates anticoagulant effects"),
    Interaction("Levothyroxine", "Calcium", "Moderate",
      "Calcium can reduce absorption of Levothyroxine. Take 4 hours apart.",
      "Calcium binds to levothyroxine in GI tract"),
    Interaction("Metformin", "Magnesium", "Low",
      "May be beneficial - Magnesium deficiency common with Metformin use.",
      "Metformin may deplete magnesium stores"),
    Interaction("Digoxin", "Magnesium", "Moderate",
      "Low magnesium levels can increase Digoxin toxicity risk.",
      "Magnesium deficiency increases cardiac sensitivity to Digoxin"),
    Interaction("Tetracycline", "Calcium", "High",
      "Calcium significantly reduces Tetracycline absorption. Take 2-4 hours apart.",
      "Calcium forms chelates with Tetracycline"),
    Interaction("Aspirin", "Omega-3", "Moderate",
      "Combined use may increase bleeding risk. Monitor for bleeding symptoms.",
      "Both have antiplatelet effects")
  ]

  const SampleHealthMetrics: seq<HealthMetric> := [
    HealthMetric(1, "2025-09-10", 4, 3, "Good", "Felt energetic after morning workout"),
    HealthMetric(2, "2025-09-11", 3, 4, "Excellent", "Great sleep with magnesium supplement"),
    HealthMetric(3, "2025-09-12", 4, 4, "Good", "Consistent energy levels")
  ]

  predicate IsSeverity(s: string) {
    s == "High" || s == "Moderate" || s == "Low"
  }

  /** Six interaction records, each with one of the three severities. */
  lemma InteractionTableShape()
    ensures |DrugInteractions| == 6
    ensures forall r | r in DrugInteractions :: IsSeverity(r.severity)
  {
  }

  /**
   * No (drug, supplement) pair is listed twice, although Calcium and
   * Magnesium each appear in two records.
   */
  lemma InteractionPairsDistinct()
    ensures forall i, j | 0 <= i < j < |DrugInteractions| ::
      (DrugInteractions[i].drug, DrugInteractions[i].supplement)
      != (DrugInteractions[j].drug, DrugInteractions[j].supplement)
    ensures DrugInteractions[1].supplement == DrugInteractions[4].supplement == "Calcium"
    ensures DrugInteractions[2].supplement == DrugInteractions[3].supplement == "Magnesium"
  {
  }

  /** Six products whose ids are 1 to 6 in strictly ascending order. */
  lemma ProductIds()
    ensures |TransparencyDatabase| == 6
    ensures forall i | 0 <= i < |TransparencyDatabase| :: TransparencyDatabase[i].id == i + 1
    ensures forall i, j | 0 <= i < j < |TransparencyDatabase| ::
      TransparencyDatabase[i].id < TransparencyDatabase[j].id
  {
  }

  /** Every product lists at least one ingredient and one certification. */
  lemma ProductListsNonEmpty()
    ensures forall p | p in TransparencyDatabase :: p.ingredients != [] && p.certifications != []
  {
  }

  /** Three sample metrics, each rating mood and energy on the 1-5 scale. */
  lemma SampleMetricsShape()
    ensures |SampleHealthMetrics| == 3
    ensures forall m | m in SampleHealthMetrics :: 1 <= m.mood <= 5 && 1 <= m.energy <= 5
  {
  }
}
