/**
 * The fixed feature schema the classifier was trained with, and the catalog of
 * canned insights keyed by predicted learning-style label.
 */
module Schema {

  /** The five required fields, in the positional order the classifier expects. */
  const Features: seq<string> := [
    "module_count",
    "total_study_duration",
    "avg_study_per_module",
    "avg_completion_ratio",
    "avg_submission_rating"
  ]

  /** Insight text for each learning-style label the catalog knows. */
  const Insights: map<string, string> := map[
    "Fast Learner" := "Menyerap materi lebih cepat dari estimasi modul.",
    "Reflective" := "Belajar stabil dan mendalam sesuai estimasi modul.",
    "Consistent" := "Belajar konsisten namun membutuhkan waktu lebih lama."
  ]

  /** Total lookup into the catalog: an unknown label yields the empty insight. */
  function InsightFor(style: string): (insight: string)
    ensures style in Insights ==> insight == Insights[style]
    ensures insight == "" <==> style !in Insights
  {
    if style in Insights then Insights[style] else ""
  }

  /**
   * The schema has five pairwise distinct names. No proof relies on this; it
   * documents the constant (so each name sits at exactly one position).
   */
  lemma FeaturesWellFormed()
    ensures |Features| == 5
    ensures forall i, j :: 0 <= i < j < |Features| ==> Features[i] != Features[j]
  {
  }

  /** The catalog entries, and the empty insight for every other label. */
  lemma InsightCatalog(style: string)
    ensures InsightFor("Fast Learner") == "Menyerap materi lebih cepat dari estimasi modul."
    ensures InsightFor("Reflective") == "Belajar stabil dan mendalam sesuai estimasi modul."
    ensures InsightFor("Consistent") == "Belajar konsisten namun membutuhkan waktu lebih lama."
    ensures (style != "Fast Learner" && style != "Reflective" && style != "Consistent")
              ==> InsightFor(style) == ""
  {
  }
}
