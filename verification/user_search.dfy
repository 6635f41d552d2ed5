/**
 * The user search widget: its four pieces of state and the handlers that
 * update them. A search is split at its `await`: `Submit` runs up to the
 * request, `Complete` runs once the lookup has an outcome.
 */
module UserSearch {
  import opened JsText
  import opened CulturalTypes
  import opened UserApi

  /** The three translated messages the widget shows; their wording is opaque here. */
  datatype Messages = Messages(userIdRequired: string, userNotFound: string, errorOccurred: string)

  /** The ids the sample buttons fill in. */
  const SampleIds: seq<string> := ["1", "2", "3"]

  /**
   * The message for a failed lookup: the thrown detail when it is
   * non-empty, else the not-found text for a 404 and the generic text for
   * anything else (parse and network errors carry neither status nor detail).
   */
  function ErrorMessage(f: Failure, t: Messages): string
  {
    match f
    case HttpError(status, detail) =>
      if detail != "" then detail
      else if status == 404 then t.userNotFound
      else t.errorOccurred
    case ParseError => t.errorOccurred
    case NetworkError => t.errorOccurred
  }

  /**
   * Because the client always throws a non-empty detail, a failed lookup
   * shows either that detail or, for a reply without a JSON body or without
   * a reply, the generic text: the not-found text is never chosen by the
   * 404 branch.
   */
  lemma FailureMessages(reply: Reply, t: Messages)
    requires GetUser(reply).Failed?
    ensures reply.Received? && reply.body.Some? ==>
      ErrorMessage(GetUser(reply).failure, t) == ErrorDetail(reply.body.value)
    ensures !(reply.Received? && reply.body.Some?) ==>
      ErrorMessage(GetUser(reply).failure, t) == t.errorOccurred
  {
    GetUserOutcomes(reply);
  }

  class SearchWidget {
    var userId: string
    var loading: bool
    var user: Option<User>
    var error: string

    /** While a lookup is pending, neither a user nor an error is on display. */
    predicate Valid()
      reads this
    {
      loading ==> user.None? && error == ""
    }

    constructor()
      ensures userId == "" && !loading && user.None? && error == ""
      ensures Valid()
    {
      userId := "";
      loading := false;
      user := None;
      error := "";
    }

    /** `user && !loading`: whether the card is rendered. */
    predicate ShowsCard()
      reads this
    {
      user.Some? && !loading
    }

    /**
     * The form submit up to the `await`: clear the error and the user, then
     * either reject a blank id or start loading and issue the request for
     * the trimmed id in the current locale. The submit button is disabled
     * while a lookup is pending.
     */
    method Submit(locale: string, t: Messages) returns (request: Option<Request>)
      requires Valid() && !loading
      modifies this
      ensures userId == old(userId) && user.None?
      ensures Trim(userId) == [] ==> request.None? && error == t.userIdRequired && !loading
      ensures Trim(userId) != [] ==>
        request == Some(BuildRequest(Trim(userId), locale)) && error == "" && loading
      ensures Valid()
    {
      error := "";
      user := None;
      var id := Trim(userId);
      if id == [] {
        error := t.userIdRequired;
        request := None;
        return;
      }
      loading := true;
      request := Some(BuildRequest(id, locale));
    }

    /**
     * The search after the `await`: a returned body puts its `data` on
     * display, a thrown error its message; either way loading ends.
     */
    method Complete(outcome: Outcome, t: Messages)
      modifies this
      ensures userId == old(userId) && !loading
      ensures outcome.Found? ==> user == outcome.body.data && error == old(error)
      ensures outcome.Failed? ==> error == ErrorMessage(outcome.failure, t) && user == old(user)
      ensures Valid()
    {
      match outcome {
        case Found(body) =>
          user := body.data;
        case Failed(failure) =>
          error := ErrorMessage(failure, t);
      }
      loading := false;
    }

    /** Typing: take the new value and drop any error; the user and loading stay. */
    method InputChange(value: string)
      requires Valid() && !loading
      modifies this
      ensures userId == value && error == ""
      ensures user == old(user) && loading == old(loading)
      ensures Valid()
    {
      userId := value;
      if error != "" {
        error := "";
      }
    }

    /** A click on the i-th sample button. */
    method SelectSample(i: nat)
      requires i < |SampleIds|
      requires Valid()
      modifies this
      ensures userId == SampleIds[i] && error == ""
      ensures user == old(user) && loading == old(loading)
      ensures Valid()
    {
      userId := SampleIds[i];
      error := "";
    }
  }

  /**
   * A whole successful search: after a submit with a non-blank id and a
   * reply that is ok and JSON, the card shows exactly the reply's user.
   */
  method SearchRoundTrip(w: SearchWidget, locale: string, t: Messages, status: int, body: ResponseBody)
    returns (request: Option<Request>)
    requires w.Valid() && !w.loading && Trim(w.userId) != [] && IsOk(status)
    modifies w
    ensures request == Some(BuildRequest(Trim(w.userId), locale))
    ensures w.user == body.data && w.error == "" && !w.loading
    ensures w.ShowsCard() <==> body.data.Some?
  {
    request := w.Submit(locale, t);
    GetUserOutcomes(Received(status, Some(body)));
    w.Complete(GetUser(Received(status, Some(body))), t);
  }
}
