/** What the add and edit meal forms share (components/modals/AddFoodModal.tsx and
    components/modals/EditFoodModal.tsx hold two identical copies of it): the
    draft record of seven text fields, the validator that maps fixed error keys to
    messages, the bodies each form sends, and the draft the edit form loads from
    a record. */
module FoodForm {
  import opened JsText
  import opened JsNumber
  import opened FoodApi

  /** The `formData` state: every field is the text of an input. */
  datatype FormDraft = FormDraft(
    name: string,
    rating: string,
    image: string,
    restaurant: string,
    logo: string,
    status: string,
    price: string)

  /** The initial `formData`, which the add form also resets to. */
  const InitialDraft := FormDraft("", "", "", "", "", "Open Now", "")

  /** The text inputs; the status select is not one of them, since it offers only
      the two literal status values. */
  datatype Field = Name | Rating | Image | Restaurant | Logo | Price

  function FieldText(d: FormDraft, f: Field): string {
    match f
    case Name => d.name
    case Rating => d.rating
    case Image => d.image
    case Restaurant => d.restaurant
    case Logo => d.logo
    case Price => d.price
  }

  /** An input's `onChange`: `{ ...formData, <field>: value }`. */
  function WithField(d: FormDraft, f: Field, v: string): (r: FormDraft)
    ensures FieldText(r, f) == v
    ensures forall g | g != f :: FieldText(r, g) == FieldText(d, g)
    ensures r.status == d.status
  {
    match f
    case Name => d.(name := v)
    case Rating => d.(rating := v)
    case Image => d.(image := v)
    case Restaurant => d.(restaurant := v)
    case Logo => d.(logo := v)
    case Price => d.(price := v)
  }

  /** The keys `validateForm` writes into `newErrors`. */
  datatype ErrorKey =
    | FoodNameKey | FoodRatingKey | FoodImageKey | RestaurantNameKey
    | RestaurantLogoKey | RestaurantStatusKey | PriceKey

  const ErrorKeys: set<ErrorKey> := {FoodNameKey, FoodRatingKey, FoodImageKey,
    RestaurantNameKey, RestaurantLogoKey, RestaurantStatusKey, PriceKey}

  /** The property name each key has in the `errors` record. */
  function KeyName(k: ErrorKey): string {
    match k
    case FoodNameKey => "food_name"
    case FoodRatingKey => "food_rating"
    case FoodImageKey => "food_image"
    case RestaurantNameKey => "restaurant_name"
    case RestaurantLogoKey => "restaurant_logo"
    case RestaurantStatusKey => "restaurant_status"
    case PriceKey => "price"
  }

  /** The property names are pairwise distinct, so a map over ErrorKey stands for
      the `Record<string, string>` of the source. */
  lemma KeyNamesDistinct(j: ErrorKey, k: ErrorKey)
    ensures KeyName(j) == KeyName(k) ==> j == k
  {
    if j != k && |KeyName(j)| == |KeyName(k)| {
      assert {j, k} == {RestaurantNameKey, RestaurantLogoKey};
      assert KeyName(j)[11] != KeyName(k)[11];
    }
  }

  /** The `errors` record itself: each key's property name holding its message.
      It is empty, as `Object.keys(newErrors).length === 0` asks, exactly when
      the map it is built from is. */
  function ErrorRecord(e: map<ErrorKey, string>): (r: map<string, string>)
    ensures forall k :: KeyName(k) in r <==> k in e
    ensures forall k | k in e :: r[KeyName(k)] == e[k]
    ensures r.Keys == set k | k in e :: KeyName(k)
    ensures r == map[] <==> e == map[]
  {
    NamesIdentifyKeys();
    var r := map k | k in e :: KeyName(k) := e[k];
    assert e != map[] ==> r != map[] by {
      if e != map[] {
        var k :| k in e;
        assert KeyName(k) in r;
      }
    }
    r
  }

  lemma NamesIdentifyKeys()
    ensures forall j, k :: KeyName(j) == KeyName(k) ==> j == k
  {
    forall j, k ensures KeyName(j) == KeyName(k) ==> j == k {
      KeyNamesDistinct(j, k);
    }
  }

  /** The message `validateForm` stores under each key. */
  const FoodNameMessage := "Food Name is required"
  const FoodRatingMessage := "Food Rating must be a number"
  const FoodImageMessage := "Food Image URL is required"
  const RestaurantNameMessage := "Restaurant Name is required"
  const RestaurantLogoMessage := "Restaurant Logo URL is required"
  const RestaurantStatusMessage := "Restaurant Status must be 'Open Now' or 'Closed'"
  const PriceMessage := "Price must be a number"

  function Message(k: ErrorKey): string {
    match k
    case FoodNameKey => FoodNameMessage
    case FoodRatingKey => FoodRatingMessage
    case FoodImageKey => FoodImageMessage
    case RestaurantNameKey => RestaurantNameMessage
    case RestaurantLogoKey => RestaurantLogoMessage
    case RestaurantStatusKey => RestaurantStatusMessage
    case PriceKey => PriceMessage
  }


  /** The error key of each text input. */
  function KeyOf(f: Field): (k: ErrorKey)
    ensures k != RestaurantStatusKey
  {
    match f
    case Name => FoodNameKey
    case Rating => FoodRatingKey
    case Image => FoodImageKey
    case Restaurant => RestaurantNameKey
    case Logo => RestaurantLogoKey
    case Price => PriceKey
  }

  /** Whether the check of one input rejects the text `v`. The rating is not
      trimmed and only tested for emptiness and `isNaN(Number(...))`; the other
      inputs are rejected when blank after `trim()`, the price also when not a
      number. */
  predicate Rejects(f: Field, v: string)
    ensures v == "" ==> Rejects(f, v)
    ensures f != Rating && AllSpace(v) ==> Rejects(f, v)
    ensures f == Rating && v != "" && AllSpace(v) ==> !Rejects(f, v)
    ensures (f == Rating || f == Price) && !Rejects(f, v) ==> JsNumeric(v)
    ensures f != Rating && f != Price ==> (Rejects(f, v) <==> Trim(v) == [])
  {
    match f
    case Rating => v == "" || !JsNumeric(v)
    case Price => AllSpace(v) || !JsNumeric(v)
    case _ => AllSpace(v)
  }

  predicate IsStatusValue(s: string) {
    s == "Open Now" || s == "Closed"
  }

  /** The outcome of each test `validateForm` makes, true where it fails. */
  datatype Verdicts = Verdicts(
    name: bool, rating: bool, image: bool, restaurant: bool, logo: bool, status: bool, price: bool)

  /** The seven tests, written as the source writes them: `!x.trim()` for the
      text inputs, `!rating || isNaN(Number(rating))` for the rating, the status
      compared with both literals, `!price.trim() || isNaN(Number(price))`. */
  function Checks(d: FormDraft): (v: Verdicts)
    ensures v.name == Rejects(Name, d.name) && v.rating == Rejects(Rating, d.rating)
    ensures v.image == Rejects(Image, d.image) && v.restaurant == Rejects(Restaurant, d.restaurant)
    ensures v.logo == Rejects(Logo, d.logo) && v.price == Rejects(Price, d.price)
    ensures v.status == !IsStatusValue(d.status)
  {
    Verdicts(
      Trim(d.name) == [],
      !Truthy(d.rating) || !JsNumeric(d.rating),
      Trim(d.image) == [],
      Trim(d.restaurant) == [],
      Trim(d.logo) == [],
      d.status != "Open Now" && d.status != "Closed",
      Trim(d.price) == [] || !JsNumeric(d.price))
  }

  /** ErrorKeys lists every key. */
  lemma AllKeysListed()
    ensures forall k :: k in ErrorKeys
  {
    forall k ensures k in ErrorKeys {
      match k
      case FoodNameKey => case FoodRatingKey => case FoodImageKey =>
      case RestaurantNameKey => case RestaurantLogoKey => case RestaurantStatusKey =>
      case PriceKey =>
    }
  }

  /** Whether verdict `v` reports the test whose key is `k`. */
  function Failed(v: Verdicts, k: ErrorKey): bool {
    match k
    case FoodNameKey => v.name
    case FoodRatingKey => v.rating
    case FoodImageKey => v.image
    case RestaurantNameKey => v.restaurant
    case RestaurantLogoKey => v.logo
    case RestaurantStatusKey => v.status
    case PriceKey => v.price
  }

  /** The keys of a map are those of the failed tests when each of the seven keys
      is present exactly when its test failed. */
  lemma MembershipByKey(e: map<ErrorKey, string>, v: Verdicts)
    requires FoodNameKey in e <==> v.name
    requires FoodRatingKey in e <==> v.rating
    requires FoodImageKey in e <==> v.image
    requires RestaurantNameKey in e <==> v.restaurant
    requires RestaurantLogoKey in e <==> v.logo
    requires RestaurantStatusKey in e <==> v.status
    requires PriceKey in e <==> v.price
    ensures forall k :: k in e <==> Failed(v, k)
  {
    forall k ensures k in e <==> Failed(v, k) {
      match k
      case FoodNameKey => case FoodRatingKey => case FoodImageKey =>
      case RestaurantNameKey => case RestaurantLogoKey => case RestaurantStatusKey =>
      case PriceKey =>
    }
  }

  /** Every entry of an error map holds its key's fixed message. */
  predicate Messaged(e: map<ErrorKey, string>) {
    forall k | k in e :: e[k] == Message(k)
  }

  /** The error map of a set of verdicts: the failed keys, each with its message. */
  function ErrorsOf(v: Verdicts): (errors: map<ErrorKey, string>)
    ensures FoodNameKey in errors <==> v.name
    ensures FoodRatingKey in errors <==> v.rating
    ensures FoodImageKey in errors <==> v.image
    ensures RestaurantNameKey in errors <==> v.restaurant
    ensures RestaurantLogoKey in errors <==> v.logo
    ensures RestaurantStatusKey in errors <==> v.status
    ensures PriceKey in errors <==> v.price
    ensures forall k :: k in errors <==> Failed(v, k)
    ensures Messaged(errors)
  {
    AllKeysListed();
    map k | k in ErrorKeys && Failed(v, k) :: Message(k)
  }

  /** `validateForm`'s error map: an entry, with its fixed message, for exactly
      the tests that fail. */
  function Validate(d: FormDraft): (errors: map<ErrorKey, string>)
    ensures FoodNameKey in errors <==> Rejects(Name, d.name)
    ensures FoodRatingKey in errors <==> Rejects(Rating, d.rating)
    ensures FoodImageKey in errors <==> Rejects(Image, d.image)
    ensures RestaurantNameKey in errors <==> Rejects(Restaurant, d.restaurant)
    ensures RestaurantLogoKey in errors <==> Rejects(Logo, d.logo)
    ensures RestaurantStatusKey in errors <==> !IsStatusValue(d.status)
    ensures PriceKey in errors <==> Rejects(Price, d.price)
    ensures Messaged(errors)
  {
    ErrorsOf(Checks(d))
  }

  /** `validateForm`'s `newErrors`: the seven tests, then their insertions. */
  method BuildErrors(d: FormDraft) returns (newErrors: map<ErrorKey, string>)
    ensures newErrors == Validate(d)
  {
    var failed := Checks(d);
    newErrors := InsertErrors(failed);
    KeysDetermineErrors(newErrors, failed);
  }

  /** A map carrying the fixed messages whose keys are exactly those of the
      failed tests is the error map of those verdicts. */
  lemma KeysDetermineErrors(e: map<ErrorKey, string>, v: Verdicts)
    requires FoodNameKey in e <==> v.name
    requires FoodRatingKey in e <==> v.rating
    requires FoodImageKey in e <==> v.image
    requires RestaurantNameKey in e <==> v.restaurant
    requires RestaurantLogoKey in e <==> v.logo
    requires RestaurantStatusKey in e <==> v.status
    requires PriceKey in e <==> v.price
    requires Messaged(e)
    ensures e == ErrorsOf(v)
  {
    MembershipByKey(e, v);
    SameKeysSameErrors(e, ErrorsOf(v), {});
  }

  /** `newErrors` starts empty and each failed test writes its message under its
      key, in the order of the source. */
  method InsertErrors(failed: Verdicts) returns (newErrors: map<ErrorKey, string>)
    ensures FoodNameKey in newErrors <==> failed.name
    ensures FoodRatingKey in newErrors <==> failed.rating
    ensures FoodImageKey in newErrors <==> failed.image
    ensures RestaurantNameKey in newErrors <==> failed.restaurant
    ensures RestaurantLogoKey in newErrors <==> failed.logo
    ensures RestaurantStatusKey in newErrors <==> failed.status
    ensures PriceKey in newErrors <==> failed.price
    ensures Messaged(newErrors)
  {
    newErrors := map[];
    if failed.name {
      newErrors := newErrors[FoodNameKey := FoodNameMessage];
    }
    if failed.rating {
      newErrors := newErrors[FoodRatingKey := FoodRatingMessage];
    }
    if failed.image {
      newErrors := newErrors[FoodImageKey := FoodImageMessage];
    }
    if failed.restaurant {
      newErrors := newErrors[RestaurantNameKey := RestaurantNameMessage];
    }
    if failed.logo {
      newErrors := newErrors[RestaurantLogoKey := RestaurantLogoMessage];
    }
    if failed.status {
      newErrors := newErrors[RestaurantStatusKey := RestaurantStatusMessage];
    }
    if failed.price {
      newErrors := newErrors[PriceKey := PriceMessage];
    }
  }

  /** The same, input by input. */
  lemma ValidateField(d: FormDraft, f: Field)
    ensures KeyOf(f) in Validate(d) <==> Rejects(f, FieldText(d, f))
  {
  }

  /** Every input's check passes and the status is one of the two values. */
  predicate Acceptable(d: FormDraft) {
    && !Rejects(Name, d.name) && !Rejects(Rating, d.rating) && !Rejects(Image, d.image)
    && !Rejects(Restaurant, d.restaurant) && !Rejects(Logo, d.logo) && !Rejects(Price, d.price)
    && IsStatusValue(d.status)
  }

  /** An error map is empty when none of the seven keys is in it. */
  lemma NoErrorKeyMeansEmpty(e: map<ErrorKey, string>)
    requires FoodNameKey !in e && FoodRatingKey !in e && FoodImageKey !in e
    requires RestaurantNameKey !in e && RestaurantLogoKey !in e
    requires RestaurantStatusKey !in e && PriceKey !in e
    ensures e == map[]
  {
    forall k ensures k !in e {
      match k
      case FoodNameKey => case FoodRatingKey => case FoodImageKey =>
      case RestaurantNameKey => case RestaurantLogoKey => case RestaurantStatusKey =>
      case PriceKey =>
    }
    assert e.Keys == {};
  }

  /** `validateForm` returns true (the error map is empty) exactly when every check
      passes. */
  lemma ValidateEmptyIff(d: FormDraft)
    ensures Validate(d) == map[] <==> Acceptable(d)
  {
    if Acceptable(d) {
      NoErrorKeyMeansEmpty(Validate(d));
    }
  }

  /** Two error maps whose entries carry the fixed messages agree outside `s` when
      they hold the same keys outside `s`. */
  lemma SameKeysSameErrors(a: map<ErrorKey, string>, b: map<ErrorKey, string>, s: set<ErrorKey>)
    requires Messaged(a) && Messaged(b)
    requires forall k | k !in s :: k in a <==> k in b
    ensures a - s == b - s
  {
    assert (a - s).Keys == (b - s).Keys;
  }

  /** The verdicts agree on every test except possibly the one of input `f`. */
  predicate AgreeOutside(a: Verdicts, b: Verdicts, f: Field) {
    && (f == Name || a.name == b.name) && (f == Rating || a.rating == b.rating)
    && (f == Image || a.image == b.image) && (f == Restaurant || a.restaurant == b.restaurant)
    && (f == Logo || a.logo == b.logo) && (f == Price || a.price == b.price)
    && a.status == b.status
  }

  /** Verdicts that agree outside input `f` give the same errors outside its key. */
  lemma ErrorsAgreeOutside(a: Verdicts, b: Verdicts, f: Field)
    requires AgreeOutside(a, b, f)
    ensures ErrorsOf(a) - {KeyOf(f)} == ErrorsOf(b) - {KeyOf(f)}
  {
    forall k | k != KeyOf(f) ensures Failed(a, k) == Failed(b, k) {
      match k
      case FoodNameKey => case FoodRatingKey => case FoodImageKey =>
      case RestaurantNameKey => case RestaurantLogoKey => case RestaurantStatusKey =>
      case PriceKey =>
    }
    SameKeysSameErrors(ErrorsOf(a), ErrorsOf(b), {KeyOf(f)});
  }

  /** Each input is checked on its own: changing one input's text decides that
      input's error alone and leaves every other entry of the map as it was. */
  lemma ChecksAreIndependent(d: FormDraft, f: Field, v: string)
    ensures KeyOf(f) in Validate(WithField(d, f, v)) <==> Rejects(f, v)
    ensures Validate(WithField(d, f, v)) - {KeyOf(f)} == Validate(d) - {KeyOf(f)}
  {
    var d' := WithField(d, f, v);
    assert FieldText(d', f) == v;
    assert AgreeOutside(Checks(d'), Checks(d), f) by {
      match f
      case Name => assert d' == d.(name := v);
      case Rating => assert d' == d.(rating := v);
      case Image => assert d' == d.(image := v);
      case Restaurant => assert d' == d.(restaurant := v);
      case Logo => assert d' == d.(logo := v);
      case Price => assert d' == d.(price := v);
    }
    ErrorsAgreeOutside(Checks(d'), Checks(d), f);
  }

  /** Rating and price differ on white space: a rating of spaces passes, since
      `Number("  ")` is 0 and the rating is not trimmed, while a price of spaces
      is rejected by its `trim()` test. */
  lemma SpacesPassAsRatingNotAsPrice(d: FormDraft, s: string)
    requires s != [] && AllSpace(s)
    ensures FoodRatingKey !in Validate(WithField(d, Rating, s))
    ensures PriceKey in Validate(WithField(d, Price, s))
  {
    assert FieldText(WithField(d, Rating, s), Rating) == s;
    assert FieldText(WithField(d, Price, s), Price) == s;
  }

  /** Submitting the initial draft reports every input but the status. */
  lemma InitialDraftErrors()
    ensures Validate(InitialDraft).Keys == ErrorKeys - {RestaurantStatusKey}
  {
    var e := Validate(InitialDraft);
    assert AllSpace("");
    assert FieldText(InitialDraft, Name) == "" && FieldText(InitialDraft, Image) == "";
    assert FieldText(InitialDraft, Restaurant) == "" && FieldText(InitialDraft, Logo) == "";
    assert FieldText(InitialDraft, Rating) == "" && FieldText(InitialDraft, Price) == "";
    assert KeyOf(Name) in e && KeyOf(Rating) in e && KeyOf(Image) in e;
    assert KeyOf(Restaurant) in e && KeyOf(Logo) in e && KeyOf(Price) in e;
  }

  /** The body `createFood` receives: the draft with the rating replaced by
      `Number(rating)` and the price kept as text. */
  function CreateBody(d: FormDraft): (r: FoodInput)
    ensures r.rating == NumberOf(d.rating) && r.price == Text(d.price)
    ensures DraftOfBody(r) == d
  {
    FoodInput(d.name, NumberOf(d.rating), d.image, d.restaurant, d.logo, d.status, Text(d.price))
  }

  /** The `food` part of `updateFood`'s argument: the draft with both rating and
      price replaced by `Number(...)`. */
  function UpdateBody(d: FormDraft): (r: FoodInput)
    ensures r.rating == NumberOf(d.rating) && r.price == NumberOf(d.price)
    ensures DraftOfBody(r) == d
    ensures r == CreateBody(d).(price := NumberOf(d.price)) && r != CreateBody(d)
  {
    FoodInput(d.name, NumberOf(d.rating), d.image, d.restaurant, d.logo, d.status, NumberOf(d.price))
  }

  function SourceText(v: JsField): string {
    match v
    case Text(s) => s
    case NumberOf(s) => s
  }

  /** The texts a body was built from. */
  function DraftOfBody(b: FoodInput): FormDraft {
    FormDraft(b.name, SourceText(b.rating), b.image, b.restaurant, b.logo, b.status, SourceText(b.price))
  }

  /** The draft the edit form's effect loads from a record: text fields and the
      status copied, the rating through `toString()` (so it is always numeric and
      denotes the rating), the price through `toString()` of a string (itself). */
  function DraftOf(food: Food): (d: FormDraft)
    ensures d.name == food.name && d.image == food.image && d.restaurant == food.restaurant
    ensures d.logo == food.logo && d.price == food.price
    ensures d.rating != [] && JsNumeric(d.rating) && NumeralValue(d.rating) == Value(food.rating)
    ensures IsStatusValue(d.status) && d.status == StatusText(food.status)
  {
    NumberTextRoundTrip(food.rating);
    FormDraft(food.name, NumberText(food.rating), food.image, food.restaurant, food.logo,
              StatusText(food.status), food.price)
  }

  /** A loaded record never fails the rating or the status check; it passes
      validation exactly when its name, image, restaurant and logo are not blank
      and its price is a non-blank number. */
  lemma LoadedRecordValidation(food: Food)
    ensures FoodRatingKey !in Validate(DraftOf(food))
    ensures RestaurantStatusKey !in Validate(DraftOf(food))
    ensures Validate(DraftOf(food)) == map[] <==>
      !AllSpace(food.name) && !AllSpace(food.image) && !AllSpace(food.restaurant) &&
      !AllSpace(food.logo) && !AllSpace(food.price) && JsNumeric(food.price)
  {
    ValidateEmptyIff(DraftOf(food));
  }
}
