/**
 The page's session state and its event handlers, lifted out of the UI
 framework into pure transitions over one record. The generation call is an
 outcome passed in; ids, timestamps and the confirmation dialog's answer are
 parameters too.
 */
module Session {
  import opened Wrappers
  import opened Types
  import opened Constants
  import opened HistoryLog

  datatype Session = Session(
    formData: FormData,
    variations: seq<Variation>,
    isLoading: bool,
    error: Option<string>,
    viewMode: ViewMode,
    history: seq<HistoryItem>)

  const MissingNameMessage: string := "Please enter a product or service name."
  const GenerationFailedMessage: string := "Failed to generate ad copy. Please try again."

  /** The state the page starts in, before the saved history is read. */
  const Initial: Session := Session(InitialFormData, [], false, None, GeneratorView, [])

  /** What reading the saved history at start-up yields: no value (or an
      empty one), a value the parser rejects, or the decoded entries. */
  datatype Saved = Absent | Unreadable | Decoded(items: seq<HistoryItem>)

  /** The outcome of the generation call. The reply is passed through as
      parsed: neither its length nor its framework names are checked. */
  datatype Outcome = Success(result: seq<Variation>) | Failure

  /** A submit either stops at validation or starts a generation for the
      form as it stood at that moment. */
  datatype Submission = Rejected(after: Session) | Launched(after: Session, request: FormData)

  /** Start-up: decoded entries become the history; otherwise it stays as it is. */
  function LoadSaved(s: Session, saved: Saved): (r: Session)
    ensures saved.Decoded? ==> r.history == saved.items
    ensures !saved.Decoded? ==> r == s
    ensures r.(history := s.history) == s
  {
    match saved
    case Decoded(items) => s.(history := items)
    case _ => s
  }

  /** Typing into or selecting in the control named `k`. */
  function HandleInputChange(s: Session, k: Field, v: string): (r: Session)
    ensures Get(r.formData, k) == v
    ensures forall k' :: k' != k ==> Get(r.formData, k') == Get(s.formData, k')
    ensures r.(formData := s.formData) == s
  {
    s.(formData := Put(s.formData, k, v))
  }

  /** The validation and start of a submit. The handler has no busy guard, so
      a submit while a generation is running is accepted too. */
  function HandleSubmit(s: Session): (r: Submission)
    ensures r.Rejected? <==> s.formData.productName == ""
    ensures r.Rejected? ==> r.after.error == Some(MissingNameMessage)
    ensures r.Rejected? ==> r.after.(error := s.error) == s
    ensures r.Launched? ==> r.request == s.formData && r.request.productName != ""
    ensures r.Launched? ==> r.after.isLoading && r.after.error == None && r.after.variations == []
    ensures r.Launched? ==> r.after.(isLoading := s.isLoading, error := s.error, variations := s.variations) == s
  {
    if s.formData.productName == "" then
      Rejected(s.(error := Some(MissingNameMessage)))
    else
      Launched(s.(isLoading := true, error := None, variations := []), s.formData)
  }

  /** The end of a generation started for `request`, applied to the session as
      it is when the call returns. On success the result is shown and a new
      entry for it goes in front of the history; on failure only the message
      is set. Either way loading stops. */
  function Resolve(s: Session, request: FormData, outcome: Outcome, id: string, timestamp: int): (r: Session)
    ensures !r.isLoading
    ensures outcome.Success? ==> r.variations == outcome.result
    ensures outcome.Success? ==> |r.history| == |s.history| + 1 && r.history[1..] == s.history
    ensures outcome.Success? ==> r.history[0] == HistoryItem(id, timestamp, request, outcome.result)
    ensures outcome.Success? ==> r.error == s.error
    ensures outcome.Failure? ==> r.error == Some(GenerationFailedMessage)
    ensures outcome.Failure? ==> r.variations == s.variations && r.history == s.history
    ensures r.formData == s.formData && r.viewMode == s.viewMode
  {
    match outcome
    case Success(result) =>
      var item := HistoryItem(id, timestamp, request, result);
      s.(variations := result, history := [item] + s.history, isLoading := false)
    case Failure =>
      s.(error := Some(GenerationFailedMessage), isLoading := false)
  }

  /** The Clear button: the form and the results go back to their defaults. */
  function HandleClear(s: Session): (r: Session)
    ensures r.formData == InitialFormData && r.variations == [] && r.error == None
    ensures r.(formData := s.formData, variations := s.variations, error := s.error) == s
  {
    s.(formData := InitialFormData, variations := [], error := None)
  }

  /** Opening a saved entry shows its form and results in the generator. */
  function LoadFromHistory(s: Session, item: HistoryItem): (r: Session)
    ensures r.formData == item.formData && r.variations == item.variations
    ensures r.viewMode == GeneratorView
    ensures r.(formData := s.formData, variations := s.variations, viewMode := s.viewMode) == s
  {
    s.(formData := item.formData, variations := item.variations, viewMode := GeneratorView)
  }

  /** Deleting the entries with a given id from the history. */
  function DeleteHistoryItem(s: Session, id: string): (r: Session)
    ensures forall x :: x in r.history <==> x in s.history && x.id != id
    ensures !HasId(s.history, id) ==> r == s
    ensures HasId(s.history, id) ==> |r.history| < |s.history|
    ensures r.(history := s.history) == s
  {
    var r := s.(history := RemoveId(s.history, id));
    if HasId(s.history, id) then RemovePresentId(s.history, id); r
    else RemoveAbsentId(s.history, id); r
  }

  /** The Clear All button; `confirmed` is the answer to its dialog. */
  function ClearAllHistory(s: Session, confirmed: bool): (r: Session)
    ensures confirmed ==> r.history == []
    ensures !confirmed ==> r == s
    ensures r.(history := s.history) == s
  {
    if confirmed then s.(history := []) else s
  }

  /** The Generator and History tabs. */
  function ShowView(s: Session, mode: ViewMode): (r: Session)
    ensures r.viewMode == mode
    ensures r.(viewMode := s.viewMode) == s
  {
    s.(viewMode := mode)
  }
}
