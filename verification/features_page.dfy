/** The features section's tabs: which tab opens first, and the short label
    a tab shows on narrow screens. */
module FeaturesPage {
  import opened Wrappers
  import opened Text

  /** A feature; its description, icon, benefits and examples only fill the card. */
  datatype Feature = Feature(id: string, title: string)

  const Features := [
    Feature("preventive", "Healthcare Guidance"),
    Feature("symptoms", "Disease Symptom Identification"),
    Feature("vaccination", "Vaccination & Immunization"),
    Feature("alerts", "Real-time Outbreak Alerts"),
    Feature("integration", "Database Integration"),
    Feature("multilingual", "Multilingual Support")
  ]

  /** `features.some((f) => f.id === initialTab)`; an absent `initialTab`
      equals no id. */
  predicate IsFeatureId(features: seq<Feature>, tab: Option<string>) {
    tab.Some? && exists i | 0 <= i < |features| :: features[i].id == tab.value
  }

  /** `defaultTab`: the requested tab when it names a feature, otherwise the
      first feature's id (`undefined` when there is no feature). */
  function DefaultTab(features: seq<Feature>, initialTab: Option<string>): (tab: Option<string>)
    ensures features != [] ==> IsFeatureId(features, tab)
    ensures features == [] ==> tab.None?
    ensures IsFeatureId(features, initialTab) ==> tab == initialTab
  {
    if IsFeatureId(features, initialTab) then initialTab
    else if features == [] then None
    else Some(features[0].id)
  }

  /** The opening tab is the requested one exactly when that names a feature,
      and otherwise the first one. */
  lemma DefaultTabChoice(features: seq<Feature>, initialTab: Option<string>)
    requires features != []
    ensures DefaultTab(features, initialTab) == initialTab || DefaultTab(features, initialTab) == Some(features[0].id)
    ensures initialTab.Some? && initialTab != Some(features[0].id) ==>
      (DefaultTab(features, initialTab) == initialTab <==> IsFeatureId(features, initialTab))
  {
  }

  /** Asking again for the tab that was chosen gives the same tab. */
  lemma DefaultTabIdempotent(features: seq<Feature>, initialTab: Option<string>)
    ensures DefaultTab(features, DefaultTab(features, initialTab)) == DefaultTab(features, initialTab)
  {
  }

  /** With the shipped features: no request opens "preventive", "alerts"
      opens "alerts", and an unknown id falls back to "preventive". */
  lemma ShippedDefaultTabs()
    ensures DefaultTab(Features, None) == Some("preventive")
    ensures DefaultTab(Features, Some("alerts")) == Some("alerts")
    ensures DefaultTab(Features, Some("pricing")) == Some("preventive")
  {
    assert Features[3].id == "alerts";
    assert !IsFeatureId(Features, Some("pricing")) by {
      forall i | 0 <= i < |Features| ensures Features[i].id != "pricing" {
        assert |Features[i].id| != |"pricing"|;
      }
    }
  }

  /** `title.split(" ")[0]`: a start of the title holding no space. */
  function MobileLabel(title: string): (short: string)
    ensures short <= title
    ensures ' ' !in short
  {
    JoinSplit(title, ' ');
    Split(title, ' ')[0]
  }

  /** The label is the longest start of the title without a space: a prefix
      holding no space, followed by a space or by the end of the title. */
  lemma MobileLabelShape(title: string)
    ensures MobileLabel(title) <= title
    ensures ' ' !in MobileLabel(title)
    ensures |MobileLabel(title)| == |title| || title[|MobileLabel(title)|] == ' '
  {
    var parts := Split(title, ' ');
    JoinSplit(title, ' ');
    if |parts| > 1 {
      assert Join(parts, " ") == parts[0] + " " + Join(parts[1..], " ");
    }
  }

  /** A title whose first word has no space before it is labelled by that word. */
  lemma MobileLabelFirstWord(first: string, rest: string)
    requires ' ' !in first
    ensures MobileLabel(first + " " + rest) == first
  {
    SplitAround(first, rest, ' ');
    SplitWithoutSeparator(first, ' ');
  }

  /** "Real-time Outbreak Alerts" is labelled "Real-time". */
  lemma OutbreakAlertsLabel()
    ensures MobileLabel(Features[3].title) == "Real-time"
  {
    assert Features[3].title == "Real-time" + " " + "Outbreak Alerts";
    MobileLabelFirstWord("Real-time", "Outbreak Alerts");
  }
}
