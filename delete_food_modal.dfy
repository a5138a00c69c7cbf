/** The delete confirmation (components/modals/DeleteFoodModal.tsx): a null
    guard, one `deleteFood` call, then `onClose` and `onSuccess` in that order.
    The component holds no state of its own. */
module DeleteModal {
  import opened Wrappers
  import opened FoodApi
  import opened Effects

  /** The trace `handleDelete` leaves: nothing without a record, otherwise the
      delete call for the record's id and, once it is fulfilled, `onClose` then
      `onSuccess`. */
  function DeleteTrace(food: Option<Food>, outcome: Outcome, notify: bool): (r: seq<Event>)
    ensures Calls(r) == if food.Some? then [DeleteFood(food.value.id)] else []
    ensures ClosesBeforeSuccess(r)
    ensures OnClose in r <==> food.Some? && outcome == Fulfilled
    ensures OnSuccess in r <==> food.Some? && outcome == Fulfilled && notify
    ensures r != [] ==> r[0].Issued? && multiset(r)[OnClose] <= 1 && multiset(r)[OnSuccess] <= 1
  {
    if food.None? then [] else AfterIssue(DeleteFood(food.value.id), outcome, notify)
  }

  /** `handleDelete`, with the outcome of `deleteFood(id).unwrap()` as input. */
  method HandleDelete(food: Option<Food>, outcome: Outcome, notify: bool) returns (effects: seq<Event>)
    ensures effects == DeleteTrace(food, outcome, notify)
  {
    effects := [];
    if food.None? {
      return;
    }
    effects := RunMutation(DeleteFood(food.value.id), outcome, notify);
  }

  /** The one request a confirmation can send is a DELETE of "Food/" followed by
      the record's id, without a body, and the id can be read back from it. */
  lemma DeleteRequestCarriesId(food: Option<Food>, outcome: Outcome, notify: bool, e: Endpoint)
    requires e in Calls(DeleteTrace(food, outcome, notify))
    ensures food.Some? && Describe(e) == Request(DELETE, ItemPrefix + food.value.id, None)
    ensures Decode(Describe(e)) == Some(DeleteFood(food.value.id))
  {
    DescribeDecode(e);
  }

  /** Without a selected record the confirmation renders nothing and confirming
      issues nothing. */
  method NoRecordScenario() returns (view: Rendered, effects: seq<Event>)
    ensures view == Nothing && effects == []
  {
    view := ModalView(true, None);
    effects := HandleDelete(None, Fulfilled, false);
  }
}
