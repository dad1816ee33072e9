/** The notification center of `src/hooks/useErrorHandler.tsx`: an ordered
    list of severity-tagged messages with append, remove-by-id and clear, and
    the choice of the user-facing text for a failed API call. */
module Notifications {

  import opened Wrappers
  import opened Seqs
  import opened Text
  import opened Http

  datatype Severity = Error | Warning | Info | Success

  datatype ErrorMessage = ErrorMessage(id: string, message: string, severity: Severity, timestamp: int)

  /** A message id is the creation time in milliseconds, rendered in decimal;
      two messages created in the same millisecond share an id. */
  function ClockId(now: int): string {
    IntToString(now)
  }

  function IdIsNot(id: string): ErrorMessage -> bool {
    (m: ErrorMessage) => m.id != id
  }

  /** The list `removeError(id)` leaves behind. */
  function WithoutId(errors: seq<ErrorMessage>, id: string): (r: seq<ErrorMessage>)
    ensures |r| <= |errors|
    ensures forall i :: 0 <= i < |r| ==> r[i].id != id
    ensures forall i :: 0 <= i < |errors| && errors[i].id != id ==> errors[i] in r
  {
    Filter(IdIsNot(id), errors)
  }

  /** Removal keeps exactly the messages whose id differs, every copy of each,
      in their original order. */
  lemma RemoveKeepsOthersInOrder(errors: seq<ErrorMessage>, id: string, m: ErrorMessage)
    ensures IsSubseq(WithoutId(errors, id), errors)
    ensures multiset(WithoutId(errors, id))[m] == if m.id != id then multiset(errors)[m] else 0
  {
    FilterIsSubseq(IdIsNot(id), errors);
    FilterCount(IdIsNot(id), errors, m);
  }

  /** Removing an id that no message carries changes nothing. */
  lemma RemoveAbsentIsNoop(errors: seq<ErrorMessage>, id: string)
    requires forall i :: 0 <= i < |errors| ==> errors[i].id != id
    ensures WithoutId(errors, id) == errors
  {
    FilterAllPass(IdIsNot(id), errors);
  }

  /** Removing the same id twice is removing it once. */
  lemma RemoveIdempotent(errors: seq<ErrorMessage>, id: string)
    ensures WithoutId(WithoutId(errors, id), id) == WithoutId(errors, id)
  {
    FilterIdempotent(IdIsNot(id), errors);
  }

  /** The timed removal and a manual dismissal may run in either order. */
  lemma RemoveCommutes(errors: seq<ErrorMessage>, a: string, b: string)
    ensures WithoutId(WithoutId(errors, a), b) == WithoutId(WithoutId(errors, b), a)
  {
    FilterCommutes(IdIsNot(b), IdIsNot(a), errors);
  }

  /** Removing the id of the message just appended takes that message away
      again, with every earlier message of the same id; from an empty list
      that leaves the list empty. */
  lemma AddThenRemove(errors: seq<ErrorMessage>, m: ErrorMessage)
    ensures WithoutId(errors + [m], m.id) == WithoutId(errors, m.id)
    ensures WithoutId([] + [m], m.id) == []
  {
    FilterAppend(IdIsNot(m.id), errors, [m]);
    FilterAppend(IdIsNot(m.id), [], [m]);
  }

  /** Removing some other id keeps the message just appended at the end. */
  lemma AddThenRemoveOther(errors: seq<ErrorMessage>, m: ErrorMessage, id: string)
    requires m.id != id
    ensures WithoutId(errors + [m], id) == WithoutId(errors, id) + [m]
  {
    FilterAppend(IdIsNot(id), errors, [m]);
  }

  /** The message shown for a failed API call, from the first source that
      has one: the response body's `message`, a plain-string body, the
      response status, the absence of a response, the error's own `message`,
      and a fixed fallback. It is empty exactly when the server answered with
      an empty string body. */
  function ApiErrorMessage(e: ApiError): (msg: string)
    ensures msg == "" <==> e.response.Some? && e.response.value.data == TextBody("")
  {
    if e.response.Some? then
      var data := e.response.value.data;
      if data.ObjectBody? && data.message.Some? && data.message.value != "" then data.message.value
      else if data.TextBody? then data.text
      else "Request failed with status " + IntToString(e.response.value.status)
    else if e.requestSent then "No response received from server"
    else if e.message != "" then e.message
    else "An unknown error occurred"
  }

  /** The text the user sees for each kind of failure, in priority order. */
  lemma ApiErrorPriority(e: ApiError)
    ensures (e.response.Some? && e.response.value.data.ObjectBody? && e.response.value.data.message.Some?
             && e.response.value.data.message.value != "")
            ==> ApiErrorMessage(e) == e.response.value.data.message.value
    ensures (e.response.Some? && e.response.value.data.TextBody?)
            ==> ApiErrorMessage(e) == e.response.value.data.text
    ensures (e.response.Some? && e.response.value.data.ObjectBody?
             && (e.response.value.data.message.None? || e.response.value.data.message.value == ""))
            ==> ApiErrorMessage(e) == "Request failed with status " + IntToString(e.response.value.status)
    ensures (e.response.None? && e.requestSent)
            ==> ApiErrorMessage(e) == "No response received from server"
    ensures (e.response.None? && !e.requestSent && e.message != "")
            ==> ApiErrorMessage(e) == e.message
    ensures (e.response.None? && !e.requestSent && e.message == "")
            ==> ApiErrorMessage(e) == "An unknown error occurred"
  {
  }

  /** The status-only message names the status: two such messages agree only
      for the same status. */
  lemma StatusMessageNamesStatus(e1: ApiError, e2: ApiError)
    requires e1.response.Some? && e1.response.value.data == ObjectBody(None)
    requires e2.response.Some? && e2.response.value.data == ObjectBody(None)
    requires ApiErrorMessage(e1) == ApiErrorMessage(e2)
    ensures e1.response.value.status == e2.response.value.status
  {
    var prefix := "Request failed with status ";
    var s1, s2 := IntToString(e1.response.value.status), IntToString(e2.response.value.status);
    assert (prefix + s1)[|prefix|..] == s1;
    assert (prefix + s2)[|prefix|..] == s2;
    IntToStringInjective(e1.response.value.status, e2.response.value.status);
  }

  /** The process-wide list of visible messages, in insertion order. */
  class NotificationCenter {
    var errors: seq<ErrorMessage>

    constructor ()
      ensures errors == []
    {
      errors := [];
    }

    /** `addError(message, severity)`: appends one message stamped with the
        clock reading `now`; the severity is `Error` unless given. */
    method AddError(now: int, message: string, severity: Severity := Error)
      modifies this
      ensures errors == old(errors) + [ErrorMessage(ClockId(now), message, severity, now)]
    {
      var added := ErrorMessage(ClockId(now), message, severity, now);
      errors := errors + [added];
    }

    /** `removeError(id)`: drops every message with that id. */
    method RemoveError(id: string)
      modifies this
      ensures errors == WithoutId(old(errors), id)
    {
      errors := WithoutId(errors, id);
    }

    /** `clearErrors()`. */
    method ClearErrors()
      modifies this
      ensures errors == []
    {
      errors := [];
    }
  }

  /** `handleApiError(error, addError)`: reports the chosen text once, as an
      `Error`, and returns that same text. */
  method HandleApiError(e: ApiError, center: NotificationCenter, now: int) returns (msg: string)
    modifies center
    ensures msg == ApiErrorMessage(e)
    ensures center.errors == old(center.errors) + [ErrorMessage(ClockId(now), msg, Error, now)]
  {
    msg := ApiErrorMessage(e);
    center.AddError(now, msg, Error);
  }
}
