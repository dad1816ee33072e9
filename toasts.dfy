/** The visual layer of `src/components/Toast.tsx`: one toast per message,
    coloured by severity, whose close button removes its own message. */
module Toasts {

  import opened Seqs
  import opened Notifications

  /** `getBgColor(severity)`. */
  function BgColor(s: Severity): (colour: string)
    ensures colour == "bg-red-500" <==> s == Error
    ensures colour == "bg-yellow-500" <==> s == Warning
    ensures colour == "bg-green-500" <==> s == Success
    ensures colour == "bg-blue-500" <==> s == Info
  {
    match s
    case Error => "bg-red-500"
    case Warning => "bg-yellow-500"
    case Success => "bg-green-500"
    case Info => "bg-blue-500"
  }

  /** Different severities never share a colour. */
  lemma BgColorsDistinct(a: Severity, b: Severity)
    requires a != b
    ensures BgColor(a) != BgColor(b)
  {
    assert BgColor(Error)[3] == 'r' && BgColor(Warning)[3] == 'y';
    assert BgColor(Success)[3] == 'g' && BgColor(Info)[3] == 'b';
  }

  /** What one toast shows. */
  datatype ToastView = ToastView(id: string, message: string, bgColor: string)

  function ToastFor(e: ErrorMessage): ToastView {
    ToastView(e.id, e.message, BgColor(e.severity))
  }

  /** `ToastContainer`: exactly one toast per message, in list order. */
  function ToastContainer(errors: seq<ErrorMessage>): (toasts: seq<ToastView>)
    ensures |toasts| == |errors|
    ensures forall i :: 0 <= i < |errors| ==>
      toasts[i].id == errors[i].id && toasts[i].message == errors[i].message
      && toasts[i].bgColor == BgColor(errors[i].severity)
  {
    Map(ToastFor, errors)
  }

  /** After a toast's message is removed no toast with its id is rendered, and
      the other toasts keep their order. */
  lemma {:induction false} ToastsAfterRemoval(errors: seq<ErrorMessage>, id: string)
    ensures ToastContainer(WithoutId(errors, id)) == Filter((t: ToastView) => t.id != id, ToastContainer(errors))
  {
    if errors != [] {
      ToastsAfterRemoval(errors[1..], id);
      var rest := WithoutId(errors[1..], id);
      if errors[0].id != id {
        assert WithoutId(errors, id) == [errors[0]] + rest;
        assert ToastContainer([errors[0]] + rest) == [ToastFor(errors[0])] + ToastContainer(rest);
      } else {
        assert WithoutId(errors, id) == rest;
      }
      assert ToastContainer(errors)[1..] == ToastContainer(errors[1..]);
    }
  }

  /** One rendered toast. Its exit animation and timer are presentation only. */
  class Toast {
    const error: ErrorMessage
    var isVisible: bool

    constructor (e: ErrorMessage)
      ensures error == e && isVisible
    {
      error := e;
      isVisible := true;
    }

    /** `handleClose`: hides the toast and calls `onClose` with the toast's
        own id; the application passes `removeError` as `onClose`. */
    method HandleClose(center: NotificationCenter)
      modifies this, center
      ensures !isVisible
      ensures center.errors == WithoutId(old(center.errors), error.id)
    {
      isVisible := false;
      center.RemoveError(error.id);
    }
  }
}
