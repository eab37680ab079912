/** The option lists the select boxes offer and the form's initial value. */
module Constants {
  import opened Types

  const Platforms: seq<string> := [
    "Facebook", "Instagram", "Google Ads (Search)", "LinkedIn",
    "Twitter/X", "TikTok", "YouTube", "Email Marketing"]

  const Tones: seq<string> := [
    "Professional", "Friendly", "Emotional", "Luxury/Elegant",
    "Urgent/Hype", "Witty/Humorous", "Minimalist"]

  const Objectives: seq<string> := [
    "Brand Awareness", "Traffic/Clicks", "Lead Generation",
    "Sales/Conversions", "App Installs", "Engagement"]

  const Languages: seq<string> := [
    "English", "Spanish", "French", "German",
    "Urdu", "Hindi", "Portuguese", "Japanese"]

  const InitialFormData: FormData := FormData(
    productName := "",
    businessType := "",
    targetAudience := "",
    platform := "Facebook",
    tone := "Professional",
    objective := "Sales/Conversions",
    language := "English")

  /** No entry occurs twice (each entry is used as an element key). */
  predicate Distinct<T(==)>(s: seq<T>)
  {
    forall i, j :: 0 <= i < j < |s| ==> s[i] != s[j]
  }

  /** Each default of the initial form is one of the options offered for it. */
  lemma DefaultsAreOffered()
    ensures InitialFormData.platform in Platforms
    ensures InitialFormData.tone in Tones
    ensures InitialFormData.objective in Objectives
    ensures InitialFormData.language in Languages
  {
  }

  lemma OptionListsDistinct()
    ensures Distinct(Platforms)
    ensures Distinct(Tones)
    ensures Distinct(Objectives)
    ensures Distinct(Languages)
  {
  }
}
