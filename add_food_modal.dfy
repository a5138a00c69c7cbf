/** The add meal form (components/modals/AddFoodModal.tsx): its `formData` and
    `errors` state, the validation gate in front of `createFood`, the reset after
    a successful create and the reset on cancel. */
module AddFood {
  import opened JsText
  import opened FoodApi
  import opened FoodForm
  import opened Effects

  /** The trace `handleSubmit` leaves for a draft: nothing when the draft fails
      validation, otherwise the `createFood` call with the coerced body and, once
      it is fulfilled, `onClose` then `onSuccess`. */
  function SubmitTrace(d: FormDraft, outcome: Outcome, notify: bool): (r: seq<Event>)
    ensures Calls(r) == if Acceptable(d) then [CreateFood(CreateBody(d))] else []
    ensures ClosesBeforeSuccess(r)
    ensures OnClose in r <==> Acceptable(d) && outcome == Fulfilled
    ensures OnSuccess in r <==> Acceptable(d) && outcome == Fulfilled && notify
    ensures r != [] ==> r[0].Issued? && multiset(r)[OnClose] <= 1 && multiset(r)[OnSuccess] <= 1
  {
    ValidateEmptyIff(d);
    if Validate(d) == map[] then AfterIssue(CreateFood(CreateBody(d)), outcome, notify) else []
  }

  /** The payload of the only request the add form can issue keeps the price as
      typed and carries `Number(rating)`; every field of the draft can be read
      back from it. */
  lemma CreatePayloadKeepsDraft(d: FormDraft, outcome: Outcome, notify: bool, e: Endpoint)
    requires e in Calls(SubmitTrace(d, outcome, notify))
    ensures e.CreateFood? && e.newFood.price == Text(d.price)
    ensures e.newFood.rating == NumberOf(d.rating) && DraftOfBody(e.newFood) == d
  {
  }

  class AddFoodModal {
    var draft: FormDraft
    var errors: map<ErrorKey, string>
    /** Whether the parent passed an `onSuccess` callback. */
    const notify: bool

    /** Mounting: the initial draft and no errors. */
    constructor(notify: bool)
      ensures draft == InitialDraft && errors == map[] && this.notify == notify
    {
      draft := InitialDraft;
      errors := map[];
      this.notify := notify;
    }

    /** A text input's `onChange`. */
    method ChangeField(f: Field, v: string)
      modifies this
      ensures draft == WithField(old(draft), f, v) && errors == old(errors)
    {
      draft := WithField(draft, f, v);
    }

    /** The status select's `onValueChange`, which offers only the two values. */
    method ChangeStatus(s: Status)
      modifies this
      ensures draft == old(draft).(status := StatusText(s)) && errors == old(errors)
    {
      draft := draft.(status := StatusText(s));
    }

    /** `validateForm`: the new error map replaces the old one, whatever it held,
        and the answer is whether the new map is empty. */
    method ValidateForm() returns (ok: bool)
      modifies this
      ensures errors == Validate(draft) && draft == old(draft)
      ensures ok <==> errors == map[]
    {
      var newErrors := BuildErrors(draft);
      errors := newErrors;
      ok := |newErrors.Keys| == 0;
    }

    /** `handleSubmit`, with the outcome of `createFood(...).unwrap()` as input.
        The errors always end as the validator's map of the submitted draft (it is
        empty whenever the request is issued); the draft is reset only after a
        fulfilled create. */
    method HandleSubmit(outcome: Outcome) returns (effects: seq<Event>)
      modifies this
      ensures effects == SubmitTrace(old(draft), outcome, notify)
      ensures errors == Validate(old(draft))
      ensures draft == if Acceptable(old(draft)) && outcome == Fulfilled then InitialDraft else old(draft)
    {
      effects := [];
      var ok := ValidateForm();
      if !ok {
        return;
      }
      effects := RunMutation(CreateFood(CreateBody(draft)), outcome, notify);
      ValidateEmptyIff(draft);
      if outcome == Fulfilled {
        draft := InitialDraft;
        errors := map[];
      }
    }

    /** `handleCancel`: back to the initial draft with no errors, and only
        `onClose`. Closing through the dialog's `onOpenChange` is
        `Effects.Dismiss` instead, which leaves draft and errors as they are. */
    method HandleCancel() returns (effects: seq<Event>)
      modifies this
      ensures draft == InitialDraft && errors == map[]
      ensures effects == [OnClose] && Calls(effects) == []
    {
      draft := InitialDraft;
      errors := map[];
      effects := [OnClose];
    }
  }

  /** A meal with every input filled in, a numeric rating and a numeric price. */
  const Pasta := FormDraft("Pasta", "4.5", "pasta.jpg", "Trattoria", "logo.png", "Open Now", "12")

  lemma PastaPasses()
    ensures Acceptable(Pasta)
  {
    FractionalSample();
    IntegerSample();
    assert !IsJsSpace(Pasta.name[0]) && !IsJsSpace(Pasta.image[0]);
    assert !IsJsSpace(Pasta.restaurant[0]) && !IsJsSpace(Pasta.logo[0]);
    assert !IsJsSpace(Pasta.price[0]) && Pasta.rating != [];
  }

  /** Filling in that meal and submitting it issues exactly one create request,
      whose body carries the price as typed, and closes the form once it is
      fulfilled. */
  method PastaScenario() returns (effects: seq<Event>)
    ensures Calls(effects) == [CreateFood(CreateBody(Pasta))]
    ensures CreateBody(Pasta).price == Text("12") && OnClose in effects
  {
    var form := new AddFoodModal(false);
    form.ChangeField(Name, Pasta.name);
    form.ChangeField(Rating, Pasta.rating);
    form.ChangeField(Image, Pasta.image);
    form.ChangeField(Restaurant, Pasta.restaurant);
    form.ChangeField(Logo, Pasta.logo);
    form.ChangeField(Price, Pasta.price);
    assert form.draft == Pasta;
    PastaPasses();
    effects := form.HandleSubmit(Fulfilled);
  }

  /** A draft whose name, rating, price and status pass but whose three links are
      blank fails exactly the three link tests. */
  lemma OnlyBlankLinksReported(d: FormDraft)
    requires !Rejects(Name, d.name) && !Rejects(Rating, d.rating) && !Rejects(Price, d.price)
    requires IsStatusValue(d.status)
    requires AllSpace(d.image) && AllSpace(d.restaurant) && AllSpace(d.logo)
    ensures Validate(d).Keys == {FoodImageKey, RestaurantNameKey, RestaurantLogoKey}
  {
    var e := Validate(d);
    forall k ensures k in e <==> k in {FoodImageKey, RestaurantNameKey, RestaurantLogoKey} {
      match k
      case FoodNameKey => case FoodRatingKey => case FoodImageKey =>
      case RestaurantNameKey => case RestaurantLogoKey => case RestaurantStatusKey =>
      case PriceKey =>
    }
  }


  /** The same meal without image, restaurant and logo issues no request and
      reports exactly those three inputs. */
  method MissingLinksScenario() returns (effects: seq<Event>, errors: map<ErrorKey, string>)
    ensures effects == []
    ensures errors.Keys == {FoodImageKey, RestaurantNameKey, RestaurantLogoKey}
  {
    var form := new AddFoodModal(false);
    form.ChangeField(Name, Pasta.name);
    form.ChangeField(Rating, Pasta.rating);
    form.ChangeField(Price, Pasta.price);
    assert form.draft == Pasta.(image := "", restaurant := "", logo := "");
    PastaPasses();
    assert AllSpace("");
    OnlyBlankLinksReported(form.draft);
    effects := form.HandleSubmit(Rejected);
    errors := form.errors;
  }
}
