/** One meal card (components/FoodCard.tsx): the star row derived from the
    floor of the rating, the fallbacks for photo, price and logo, and the status
    badge. Everything here is an expression over the record. */
module Card {
  import opened JsText
  import opened JsNumber
  import opened FoodApi

  /** `renderStars` always draws five stars. */
  const StarSlots: nat := 5
  const PhotoPlaceholder := "/placeholder.svg?height=200&width=300"
  const LogoPlaceholder := "/placeholder.svg?height=24&width=24"
  const DefaultPrice := "12.99"

  /** `renderStars(rating)`: slot i is filled iff `i < Math.floor(rating)`. */
  function Stars(rating: real): (r: seq<bool>)
    ensures |r| == StarSlots
  {
    seq(StarSlots, i requires 0 <= i < StarSlots => i < rating.Floor)
  }

  /** The number of filled slots in a star row. */
  function FilledCount(slots: seq<bool>): (n: nat)
    ensures n <= |slots|
  {
    if slots == [] then 0
    else FilledCount(slots[..|slots| - 1]) + (if slots[|slots| - 1] then 1 else 0)
  }

  /** `max(lo, min(hi, x))`. */
  function Clamp(x: int, lo: int, hi: int): int {
    if x < lo then lo else if x > hi then hi else x
  }

  /** A row whose slot i is filled exactly when i is below a threshold f has
      f filled slots, cut to the row's length and never below zero. */
  lemma {:induction false} ThresholdRowCount(slots: seq<bool>, f: int)
    requires forall i | 0 <= i < |slots| :: slots[i] <==> i < f
    ensures FilledCount(slots) == Clamp(f, 0, |slots|)
  {
    if slots != [] {
      var init := slots[..|slots| - 1];
      assert forall i | 0 <= i < |init| :: init[i] == slots[i];
      ThresholdRowCount(init, f);
    }
  }

  /** The star row is filled from the left, and it shows
      `max(0, min(5, floor(rating)))` filled stars. */
  lemma FilledStars(rating: real)
    ensures forall i | 0 <= i < StarSlots :: Stars(rating)[i] <==> i < rating.Floor
    ensures FilledCount(Stars(rating)) == Clamp(rating.Floor, 0, StarSlots)
  {
    ThresholdRowCount(Stars(rating), rating.Floor);
  }

  /** 3.7 gives three stars, 5 gives five, 0 gives none, and so does a negative
      rating; a rating above five still fills only five. */
  lemma StarSamples()
    ensures FilledCount(Stars(3.7)) == 3 && FilledCount(Stars(5.0)) == 5
    ensures FilledCount(Stars(0.0)) == 0 && FilledCount(Stars(-1.5)) == 0
    ensures FilledCount(Stars(7.0)) == 5
  {
    FilledStars(3.7);
    FilledStars(5.0);
    FilledStars(0.0);
    FilledStars(-1.5);
    FilledStars(7.0);
  }

  /** The star row of a card, from the record's decimal rating: its whole part
      for a non-negative rating, and no stars at all for a negative one. */
  lemma CardStars(food: Food)
    ensures FilledCount(Stars(Value(food.rating))) ==
            if food.rating.negative then 0 else Clamp(food.rating.units, 0, StarSlots)
  {
    FloorOfValue(food.rating);
    FilledStars(Value(food.rating));
  }

  /** The photo: the avatar, or the large placeholder when the avatar is the
      empty string. */
  function PhotoSrc(food: Food): (r: string)
    ensures r != [] && (r == food.avatar || r == PhotoPlaceholder)
    ensures Truthy(food.avatar) ==> r == food.avatar
  {
    if Truthy(food.avatar) then food.avatar else PhotoPlaceholder
  }

  /** The photo never looks at the record's `image` field, which is what the
      forms edit. */
  lemma PhotoIgnoresImage(food: Food, image: string)
    ensures PhotoSrc(food.(image := image)) == PhotoSrc(food)
  {
  }

  /** The price label: "$" and the price, or "$12.99" when the price is the empty
      string. */
  function PriceLabel(food: Food): (r: string)
    ensures |r| > 1 && r[0] == '$'
    ensures r[1..] == if Truthy(food.price) then food.price else DefaultPrice
  {
    "$" + if Truthy(food.price) then food.price else DefaultPrice
  }

  /** The logo: the record's logo, or the small placeholder when it is empty. */
  function LogoSrc(food: Food): (r: string)
    ensures r != [] && (r == food.logo || r == LogoPlaceholder)
    ensures Truthy(food.logo) ==> r == food.logo
  {
    if Truthy(food.logo) then food.logo else LogoPlaceholder
  }

  /** The badge's two colour schemes. */
  datatype Tone = Green | Red

  datatype Badge = Badge(text: string, tone: Tone)

  /** The status badge, driven by the `open` flag alone. */
  function StatusBadge(food: Food): (b: Badge)
    ensures b.text == "Open Now" <==> food.open
    ensures b.text == "Closed" <==> !food.open
    ensures b.tone == Green <==> food.open
  {
    if food.open then Badge(StatusText(OpenNow), Green) else Badge(StatusText(Closed), Red)
  }

  /** The badge never reads `status`, the field the forms edit: a record whose
      status is "Closed" but whose `open` flag is set shows "Open Now". */
  lemma BadgeIgnoresStatus(food: Food, s: Status)
    ensures StatusBadge(food.(status := s)) == StatusBadge(food)
    ensures food.open ==> StatusBadge(food.(status := Closed)).text == StatusText(OpenNow)
  {
  }

  /** The rating text next to the stars: the number as JavaScript prints it. */
  function RatingText(food: Food): (r: string)
    ensures r != [] && NumeralValue(r) == Value(food.rating)
  {
    NumberTextRoundTrip(food.rating);
    NumberText(food.rating)
  }
}
