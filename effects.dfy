/** What a modal's event handler does to the outside world, in order: the
    endpoint calls it issues and the `onClose` / `onSuccess` callbacks it runs.
    The outcome of an issued mutation is an input. */
module Effects {
  import opened Wrappers
  import opened FoodApi

  /** Whether the awaited, unwrapped mutation resolved or threw. */
  datatype Outcome = Fulfilled | Rejected

  datatype Event = Issued(call: Endpoint) | OnClose | OnSuccess

  /** What follows a fulfilled mutation: `onClose()` and then `onSuccess()`, the
      latter only when the parent supplied the callback. */
  function Completion(notify: bool): (r: seq<Event>)
    ensures |r| == (if notify then 2 else 1) && r[0] == OnClose
    ensures OnSuccess in r <==> notify
  {
    if notify then [OnClose, OnSuccess] else [OnClose]
  }

  /** The endpoint calls of a trace, in order. */
  function Calls(t: seq<Event>): (r: seq<Endpoint>)
    ensures |r| <= |t|
    ensures forall e :: e in r <==> Issued(e) in t
    ensures (forall i | 0 <= i < |t| :: !t[i].Issued?) ==> r == []
  {
    if t == [] then []
    else (if t[0].Issued? then [t[0].call] else []) + Calls(t[1..])
  }

  /** Every `onSuccess` in the trace comes after some `onClose`. */
  predicate ClosesBeforeSuccess(t: seq<Event>) {
    forall i | 0 <= i < |t| && t[i] == OnSuccess :: OnClose in t[..i]
  }

  /** The trace a mutation handler leaves once the request is issued: the call
      first, then the completion callbacks only when the mutation is fulfilled,
      with `onClose` at most once. */
  function AfterIssue(call: Endpoint, outcome: Outcome, notify: bool): (r: seq<Event>)
    ensures Calls(r) == [call]
    ensures |r| >= 1 && r[0] == Issued(call) && multiset(r)[OnClose] <= 1
    ensures multiset(r)[OnSuccess] == if outcome == Fulfilled && notify then 1 else 0
    ensures ClosesBeforeSuccess(r)
    ensures OnClose in r <==> outcome == Fulfilled
  {
    var tail := if outcome == Fulfilled then Completion(notify) else [];
    var r := [Issued(call)] + tail;
    assert Calls(r) == [call] by {
      assert r[1..] == tail;
      assert forall i | 0 <= i < |tail| :: !tail[i].Issued?;
    }
    assert outcome == Fulfilled ==> r[1] == OnClose;
    r
  }

  /** The tail every mutation handler shares once its request is issued: the
      call, then, when the awaited mutation is fulfilled, `onClose` and
      `onSuccess` in that order. */
  method RunMutation(call: Endpoint, outcome: Outcome, notify: bool) returns (effects: seq<Event>)
    ensures effects == AfterIssue(call, outcome, notify)
  {
    effects := [Issued(call)];
    if outcome == Fulfilled {
      effects := effects + [OnClose];
      if notify {
        effects := effects + [OnSuccess];
      }
    }
  }

  /** Every dialog's `onOpenChange`, and the delete dialog's cancel button, is
      the parent's `onClose` itself: it runs that callback and issues nothing.
      It calls no handler of the dialog, so the add form closed this way keeps
      its draft and errors, unlike its Cancel button (`HandleCancel`). */
  method Dismiss() returns (effects: seq<Event>)
    ensures effects == [OnClose] && Calls(effects) == []
  {
    effects := [OnClose];
  }

  /** What a modal component returns: nothing, or the dialog with its `open`
      prop. */
  datatype Rendered = Nothing | Dialog(open: bool)

  /** The edit and delete modals return `null` without a record and otherwise
      the dialog, open as their parent says. */
  function ModalView(isOpen: bool, food: Option<Food>): (r: Rendered)
    ensures r == Nothing <==> food.None?
    ensures r.Dialog? ==> r.open == isOpen
  {
    if food.None? then Nothing else Dialog(isOpen)
  }
}
