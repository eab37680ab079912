/**
 The data shapes of the ad-copy generator: the campaign form, one generated
 variation, one saved history entry, and the two views of the page.
 */
module Types {

  /** The campaign brief the form edits. Every field is a free string: the
      select boxes offer fixed lists, but nothing checks the stored value. */
  datatype FormData = FormData(
    productName: string,
    businessType: string,
    targetAudience: string,
    platform: string,
    tone: string,
    objective: string,
    language: string)

  /** The `name` attribute of each form control, one per field of FormData. */
  datatype Field =
    | ProductName | BusinessType | TargetAudience
    | Platform | Tone | Objective | Language

  /** The value of one named field. */
  function Get(f: FormData, k: Field): string
  {
    match k
    case ProductName => f.productName
    case BusinessType => f.businessType
    case TargetAudience => f.targetAudience
    case Platform => f.platform
    case Tone => f.tone
    case Objective => f.objective
    case Language => f.language
  }

  /** The form with one named field overwritten. */
  function Put(f: FormData, k: Field, v: string): (r: FormData)
    ensures Get(r, k) == v
    ensures forall k' :: k' != k ==> Get(r, k') == Get(f, k')
  {
    match k
    case ProductName => f.(productName := v)
    case BusinessType => f.(businessType := v)
    case TargetAudience => f.(targetAudience := v)
    case Platform => f.(platform := v)
    case Tone => f.(tone := v)
    case Objective => f.(objective := v)
    case Language => f.(language := v)
  }

  /** Writing back a field's own value leaves the form as it was. */
  lemma PutCurrentValue(f: FormData, k: Field)
    ensures Put(f, k, Get(f, k)) == f
  {
  }

  /** Of two writes to the same field, the later one wins. */
  lemma PutTwice(f: FormData, k: Field, v: string, w: string)
    ensures Put(Put(f, k, v), k, w) == Put(f, k, w)
  {
  }

  /** One generated ad. The declared type names four frameworks (AIDA, PAS,
      Benefit-Driven, Storytelling), but the reply is cast without checks, so
      at run time `framework` may hold any value; here it is any string. */
  datatype Variation = Variation(
    headline: string,
    primaryText: string,
    cta: string,
    framework: string,
    explanation: string)

  /** One saved generation. `timestamp` is milliseconds since the epoch. */
  datatype HistoryItem = HistoryItem(
    id: string,
    timestamp: int,
    formData: FormData,
    variations: seq<Variation>)

  datatype ViewMode = GeneratorView | HistoryView
}
