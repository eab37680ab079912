/**
 Properties that relate several transitions of the session: submit followed by
 each outcome, deleting a fresh entry, idempotence of the reset actions, and
 an invariant of every run of user events.
 */
module SessionProperties {
  import opened Wrappers
  import opened Types
  import opened Constants
  import opened HistoryLog
  import opened Session

  /** The initial form has no product name, so submitting it is always
      refused with the validation message and nothing else changes. */
  lemma InitialFormIsRejected(s: Session)
    requires s.formData == InitialFormData
    ensures HandleSubmit(s).Rejected?
    ensures HandleSubmit(s).after == s.(error := Some(MissingNameMessage))
  {
  }

  /** A submit that succeeds straight away shows the result, clears the
      message, and puts exactly one new entry, for the submitted form, in
      front of the old history. */
  lemma SubmitThenSuccess(s: Session, result: seq<Variation>, id: string, timestamp: int)
    requires s.formData.productName != ""
    ensures HandleSubmit(s).Launched?
    ensures var r := Resolve(HandleSubmit(s).after, HandleSubmit(s).request, Success(result), id, timestamp);
      && r.variations == result
      && r.history == [HistoryItem(id, timestamp, s.formData, result)] + s.history
      && !r.isLoading && r.error == None
      && r.formData == s.formData && r.viewMode == s.viewMode
  {
  }

  /** A submit that fails straight away shows the failure message and no
      results, and the history is untouched. */
  lemma SubmitThenFailure(s: Session, id: string, timestamp: int)
    requires s.formData.productName != ""
    ensures HandleSubmit(s).Launched?
    ensures var r := Resolve(HandleSubmit(s).after, HandleSubmit(s).request, Failure, id, timestamp);
      && r.variations == []
      && r.error == Some(GenerationFailedMessage)
      && !r.isLoading
      && r.history == s.history
      && r.formData == s.formData && r.viewMode == s.viewMode
  {
  }

  /** The reply is not checked: an empty list of variations is a success,
      and the entry saved for it has no variations to preview. */
  lemma EmptyReplyIsSaved(s: Session, request: FormData, id: string, timestamp: int)
    ensures var r := Resolve(s, request, Success([]), id, timestamp);
      r.variations == [] && r.error == s.error && r.history[0].variations == []
  {
  }

  /** Deleting the id of the entry a success just added, when no older entry
      shares it, gives back the old history. */
  lemma DeleteUndoesSuccess(s: Session, request: FormData, result: seq<Variation>, id: string, timestamp: int)
    requires !HasId(s.history, id)
    ensures DeleteHistoryItem(Resolve(s, request, Success(result), id, timestamp), id).history == s.history
  {
    var r := Resolve(s, request, Success(result), id, timestamp);
    assert r.history == [r.history[0]] + s.history;
    RemoveIdAppend([r.history[0]], s.history, id);
    RemoveAbsentId(s.history, id);
  }

  lemma DeleteIdempotent(s: Session, id: string)
    ensures DeleteHistoryItem(DeleteHistoryItem(s, id), id) == DeleteHistoryItem(s, id)
  {
  }

  lemma ClearIdempotent(s: Session)
    ensures HandleClear(HandleClear(s)) == HandleClear(s)
  {
  }

  lemma ClearAllTwice(s: Session, first: bool, second: bool)
    ensures ClearAllHistory(ClearAllHistory(s, first), second).history
         == (if first || second then [] else s.history)
  {
  }

  /** The user's actions and the generation call's return, as events. */
  datatype Event =
    | Typed(field: Field, value: string)
    | TabChosen(mode: ViewMode)
    | ClearPressed
    | EntryOpened(item: HistoryItem)
    | DeletePressed(id: string)
    | ClearAllPressed(confirmed: bool)
    | SubmitPressed
    | GenerationReturned(request: FormData, outcome: Outcome, id: string, timestamp: int)

  function Step(s: Session, e: Event): Session
  {
    match e
    case Typed(k, v) => HandleInputChange(s, k, v)
    case TabChosen(mode) => ShowView(s, mode)
    case ClearPressed => HandleClear(s)
    case EntryOpened(item) => LoadFromHistory(s, item)
    case DeletePressed(id) => DeleteHistoryItem(s, id)
    case ClearAllPressed(confirmed) => ClearAllHistory(s, confirmed)
    case SubmitPressed => HandleSubmit(s).after
    case GenerationReturned(request, outcome, id, timestamp) => Resolve(s, request, outcome, id, timestamp)
  }

  function Run(s: Session, es: seq<Event>): Session
    decreases |es|
  {
    if |es| == 0 then s else Run(Step(s, es[0]), es[1..])
  }

  /** Every saved entry was made for a form that passed validation. */
  predicate NamedHistory(s: Session)
  {
    forall i :: 0 <= i < |s.history| ==> s.history[i].formData.productName != ""
  }

  /** The requests a step leaves in flight: a submit that passes validation
      adds the form it captured. */
  function Launches(s: Session, e: Event, launched: set<FormData>): set<FormData>
  {
    if e.SubmitPressed? && HandleSubmit(s).Launched? then launched + {HandleSubmit(s).request}
    else launched
  }

  /** A generation can only return for a request some earlier submit launched. */
  predicate Returnable(e: Event, launched: set<FormData>)
  {
    e.GenerationReturned? ==> e.request in launched
  }

  /** Every returning generation in `es` answers a request launched before it. */
  predicate ValidRun(s: Session, launched: set<FormData>, es: seq<Event>)
    decreases |es|
  {
    |es| == 0 || (Returnable(es[0], launched) && ValidRun(Step(s, es[0]), Launches(s, es[0], launched), es[1..]))
  }

  predicate AllNamed(launched: set<FormData>)
  {
    forall r :: r in launched ==> r.productName != ""
  }

  lemma InitialNamedHistory()
    ensures NamedHistory(Initial)
  {
  }

  /** No step saves an entry for an unnamed form, and every request a submit
      launches has passed validation. */
  lemma StepKeepsNamedHistory(s: Session, launched: set<FormData>, e: Event)
    requires NamedHistory(s) && AllNamed(launched) && Returnable(e, launched)
    ensures NamedHistory(Step(s, e))
    ensures AllNamed(Launches(s, e, launched))
  {
  }

  /** Whatever the user does, every entry the session saves has a name. */
  lemma {:induction false} RunKeepsNamedHistory(s: Session, launched: set<FormData>, es: seq<Event>)
    requires NamedHistory(s) && AllNamed(launched)
    requires ValidRun(s, launched, es)
    ensures NamedHistory(Run(s, es))
    decreases |es|
  {
    if |es| > 0 {
      StepKeepsNamedHistory(s, launched, es[0]);
      RunKeepsNamedHistory(Step(s, es[0]), Launches(s, es[0], launched), es[1..]);
    }
  }

  /** From the start, with nothing in flight, no run saves an unnamed entry. */
  lemma RunFromStartKeepsNamedHistory(es: seq<Event>)
    requires ValidRun(Initial, {}, es)
    ensures NamedHistory(Run(Initial, es))
  {
    InitialNamedHistory();
    RunKeepsNamedHistory(Initial, {}, es);
  }

  /** Events that never return a generation leave the loading flag alone,
      except a submit, which can only raise it. */
  lemma StepLoadingFlag(s: Session, e: Event)
    ensures !e.SubmitPressed? && !e.GenerationReturned? ==> Step(s, e).isLoading == s.isLoading
    ensures e.GenerationReturned? ==> !Step(s, e).isLoading
    ensures e.SubmitPressed? && s.isLoading ==> Step(s, e).isLoading
  {
  }
}
