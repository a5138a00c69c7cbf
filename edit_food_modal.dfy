/** The edit meal form (components/modals/EditFoodModal.tsx): the draft loaded
    from the selected record, the null-record guard and validation gate in front
    of `updateFood`, and cancel, which keeps the draft. */
module EditFood {
  import opened Wrappers
  import opened JsNumber
  import opened FoodApi
  import opened FoodForm
  import opened Effects

  /** The trace `handleSubmit` leaves: nothing without a record or when the draft
      fails validation, otherwise the `updateFood` call for the record's id with
      the coerced body and, once it is fulfilled, `onClose` then `onSuccess`. */
  function SubmitTrace(food: Option<Food>, d: FormDraft, outcome: Outcome, notify: bool): (r: seq<Event>)
    ensures Calls(r) == if food.Some? && Acceptable(d) then [UpdateFood(food.value.id, UpdateBody(d))] else []
    ensures ClosesBeforeSuccess(r)
    ensures OnClose in r <==> food.Some? && Acceptable(d) && outcome == Fulfilled
    ensures OnSuccess in r <==> food.Some? && Acceptable(d) && outcome == Fulfilled && notify
    ensures r != [] ==> r[0].Issued? && multiset(r)[OnClose] <= 1 && multiset(r)[OnSuccess] <= 1
  {
    ValidateEmptyIff(d);
    if food.None? || Validate(d) != map[] then []
    else AfterIssue(UpdateFood(food.value.id, UpdateBody(d)), outcome, notify)
  }

  /** The only request the edit form can issue names the record by its id in the
      URL and sends both the rating and the price through `Number(...)`, unlike
      the add form, which keeps the price as text. */
  lemma UpdatePayloadCoercesBoth(food: Option<Food>, d: FormDraft, outcome: Outcome, notify: bool, e: Endpoint)
    requires e in Calls(SubmitTrace(food, d, outcome, notify))
    ensures food.Some? && e == UpdateFood(food.value.id, UpdateBody(d))
    ensures e.food.rating == NumberOf(d.rating) && e.food.price == NumberOf(d.price)
    ensures DraftOfBody(e.food) == d && e.food != CreateBody(d)
    ensures Describe(e).url == ItemPrefix + food.value.id
  {
  }

  class EditFoodModal {
    var draft: FormDraft
    var errors: map<ErrorKey, string>
    /** The `food` prop: the record being edited, if any. */
    var food: Option<Food>
    /** Whether the parent passed an `onSuccess` callback. */
    const notify: bool

    /** Mounting: the initial draft and no errors, then the effect runs once. */
    constructor(food: Option<Food>, notify: bool)
      ensures this.food == food && this.notify == notify && errors == map[]
      ensures draft == if food.Some? then DraftOf(food.value) else InitialDraft
    {
      this.food := food;
      this.notify := notify;
      draft := InitialDraft;
      errors := map[];
      new;
      LoadRecord();
    }

    /** The effect: a record overwrites the whole draft, no record leaves it. */
    method LoadRecord()
      modifies this
      ensures draft == if food.Some? then DraftOf(food.value) else old(draft)
      ensures errors == old(errors) && food == old(food)
    {
      if food.Some? {
        var f := food.value;
        draft := FormDraft(f.name, NumberText(f.rating), f.image, f.restaurant, f.logo,
                           StatusText(f.status), f.price);
      }
    }

    /** A render with the prop `next`: the effect reruns only when the prop has
        changed, so an edited draft survives renders with the same record. */
    method ReceiveRecord(next: Option<Food>)
      modifies this
      ensures food == next && errors == old(errors)
      ensures draft == if next != old(food) && next.Some? then DraftOf(next.value) else old(draft)
    {
      var changed := next != food;
      food := next;
      if changed {
        LoadRecord();
      }
    }

    /** A text input's `onChange`. */
    method ChangeField(f: Field, v: string)
      modifies this
      ensures draft == WithField(old(draft), f, v)
      ensures errors == old(errors) && food == old(food)
    {
      draft := WithField(draft, f, v);
    }

    /** The status select's `onValueChange`. */
    method ChangeStatus(s: Status)
      modifies this
      ensures draft == old(draft).(status := StatusText(s))
      ensures errors == old(errors) && food == old(food)
    {
      draft := draft.(status := StatusText(s));
    }

    /** `validateForm`: the new error map replaces the old one. */
    method ValidateForm() returns (ok: bool)
      modifies this
      ensures errors == Validate(draft) && draft == old(draft) && food == old(food)
      ensures ok <==> errors == map[]
    {
      var newErrors := BuildErrors(draft);
      errors := newErrors;
      ok := |newErrors.Keys| == 0;
    }

    /** `handleSubmit`, with the outcome of `updateFood(...).unwrap()` as input.
        Without a record nothing happens, not even validation; otherwise the
        errors end as the validator's map of the draft. The draft is never
        reset. */
    method HandleSubmit(outcome: Outcome) returns (effects: seq<Event>)
      modifies this
      ensures effects == SubmitTrace(old(food), old(draft), outcome, notify)
      ensures errors == if old(food).Some? then Validate(old(draft)) else old(errors)
      ensures draft == old(draft) && food == old(food)
    {
      effects := [];
      if food.None? {
        return;
      }
      var ok := ValidateForm();
      if !ok {
        return;
      }
      if outcome == Fulfilled {
        errors := map[];
      }
      effects := RunMutation(UpdateFood(food.value.id, UpdateBody(draft)), outcome, notify);
    }

    /** `handleCancel`: clears the errors and calls `onClose`; the draft stays. */
    method HandleCancel() returns (effects: seq<Event>)
      modifies this
      ensures errors == map[] && draft == old(draft) && food == old(food)
      ensures effects == [OnClose] && Calls(effects) == []
    {
      errors := map[];
      effects := [OnClose];
    }
  }

  /** Without a selected record the form renders nothing and a submit issues
      nothing. */
  method NoRecordScenario() returns (view: Rendered, effects: seq<Event>)
    ensures view == Nothing && effects == []
  {
    var form := new EditFoodModal(None, false);
    view := ModalView(true, form.food);
    effects := form.HandleSubmit(Fulfilled);
  }
}
