# Restaurant menu front end — a verified model

This project models the logic of a small restaurant-menu web front end written
in TypeScript and React. The front end lists meals from a remote service,
lets the visitor search, reveal more meals and open one of three dialogs. The
dialogs add a meal, edit the selected meal or delete it. The model covers:

- the meal forms: the seven-field draft, the validator that maps fixed error
  keys to messages, the gate in front of the create and update requests, the
  payload coercion, and the resets on success and on cancel (`AddFood`,
  `EditFood`, with the shared parts in `FoodForm`);
- the delete confirmation: its null guard, the single request, and the
  `onClose`-before-`onSuccess` order (`DeleteModal`);
- the meal list: which query feeds it, the skip rule for the search, the
  loading and empty states, the revealed prefix and the load-more counter
  (`Featured`);
- the card display rules: the filled stars, the photo, price and logo
  fallbacks, and the status badge (`Card`);
- the page state: three dialog flags, the shared selected meal and the search
  text (`Home`);
- the API table: the request each endpoint builds and the cache tags each one
  provides or invalidates (`FoodApi`).

JavaScript's `String.prototype.trim` and `isNaN(Number(s))` are defined in
`JsText`. `JsNumeric` follows the StringNumericLiteral grammar of ECMA-262
(section 7.1.4.1.1, StringToNumber): after trimming white space and line
terminators, the empty string converts to 0; otherwise the text must be a
signed decimal (with optional fraction and exponent), "Infinity", or an
unsigned 0x/0o/0b integer. Record ratings are finite decimals (`JsNumber`).
`JsNumber` gives their real value, which the card floors, and their
`toString` text, which the edit form loads.

Each event handler is a method. It returns the trace of what it did to the
outside world (`Effects.Event`): the endpoint calls it issued, then `onClose`
and `onSuccess`. The outcome of an awaited mutation (`Fulfilled` or
`Rejected`) is an input. Whether the parent passed `onSuccess` is the
`notify` flag. The dialogs' state (`formData`, `errors`), the list's counter
and the page's state are fields of classes. Each class method states the
whole new state against the old one.

## Model

| member | source | states |
|---|---|---|
| FoodApi.StatusText | store/api/foodApi.ts:12 | The status is one of the two literals "Open Now" and "Closed". |
| FoodApi.Describe | store/api/foodApi.ts:24-54 | Every request targets a URL under "Food". The two queries are exactly the GET requests, and the delete call is exactly the DELETE request. Exactly the create and update calls carry a body, and that body is their argument unchanged. |
| FoodApi.Provides | store/api/foodApi.ts:24-31 | A call provides the "Food" tag iff it is one of the two queries, and provides no other tag. |
| FoodApi.Invalidates | store/api/foodApi.ts:32-54 | A call invalidates the "Food" tag iff it is one of the three mutations, and invalidates no other tag. |
| FoodApi.DescribeDecode | store/api/foodApi.ts:24-54 | Every endpoint call's request can be read back to the same call. The search parameter and the id travel verbatim in the URL after "Food?name=" and "Food/". The create and update bodies are the inputs unchanged, and the update body does not hold the id. A delete has no body. |
| FoodApi.DecodeDescribe | store/api/foodApi.ts:24-54 | A request that decodes to a call is exactly the request that call builds. |
| FoodApi.MutationsRefreshEveryQuery | store/api/foodApi.ts:22-54 | A cached query is stale after an endpoint call iff the query is getFoods or searchFoods (any parameter) and the call is a mutation. Every mutation invalidates the "Food" tag that both queries provide. |
| JsText.Trim | components/modals/AddFoodModal.tsx:34 | `trim()` is empty iff the text is all white space. Otherwise it starts and ends with a non-space. |
| JsText.TrimUnpads | components/modals/AddFoodModal.tsx:34 | `trim()` only cuts a white-space prefix and a white-space suffix off the text. |
| JsText.UnpaddingsAgree | components/modals/AddFoodModal.tsx:34 | Two such cuts of the same text that both leave non-space ends leave the same text. |
| JsText.TrimCharacterized | components/modals/AddFoodModal.tsx:34 | `trim()` of a text is exactly the text left by cutting off a white-space prefix and suffix so that neither end is white space. |
| JsText.TrimUnpadded | components/modals/AddFoodModal.tsx:34 | Text without leading or trailing white space trims to itself. |
| JsText.JsNumeric | components/modals/AddFoodModal.tsx:38-58 | `!isNaN(Number(s))`: the trimmed text is empty or a StrNumericLiteral. In particular the empty string and white space alone are numeric, because `Number` gives 0 for them. |
| JsText.NumericIgnoresPadding | components/modals/AddFoodModal.tsx:38-58 | Surrounding white space never decides whether text is numeric: text is numeric iff its trimmed form is. |
| JsText.DecimalLiteralIsNumeric | components/modals/AddFoodModal.tsx:38 | Every numeral `[-]digits[.digits]` is numeric. |
| JsText.TwoPointsNotNumeric | components/modals/AddFoodModal.tsx:38 | "1.2.3" is not numeric. |
| JsText.FractionalSample | components/modals/AddFoodModal.tsx:38 | "4.5" is numeric. |
| JsText.IntegerSample | components/modals/AddFoodModal.tsx:58 | "12" is numeric. |
| JsNumber.FloorOfValue | components/FoodCard.tsx:19 | `Math.floor` of a rating is its integer part when it is non-negative. For a negative rating with a fraction, it is one below the negated integer part. |
| JsNumber.Value | store/api/foodApi.ts:8 | The number a rating stands for: its magnitude lies in [integer part, integer part + 1), and it is 0 iff the integer part and every fraction digit are 0. |
| JsNumber.NumberTextRoundTrip | components/modals/EditFoodModal.tsx:36 | The `toString()` text of a rating reads back as the rating's value. |
| JsNumber.NumberText | components/modals/EditFoodModal.tsx:36 | The `toString()` text of a rating is non-empty and numeric. |
| FoodForm.WithField | components/modals/AddFoodModal.tsx:123 | An input's `onChange` sets that field to the typed text and leaves every other field and the status unchanged. |
| FoodForm.KeyNamesDistinct | components/modals/AddFoodModal.tsx:35-59 | The seven error property names are pairwise distinct. |
| FoodForm.ErrorRecord | components/modals/AddFoodModal.tsx:62-63 | The `errors` record holds a property under each key's name with that key's message. It is empty exactly when the key map is. |
| FoodForm.Checks | components/modals/AddFoodModal.tsx:34-60 | The seven tests as written fail exactly when their rules reject the field. The rules: a text input is blank after `trim()`; the rating is empty or not a number; the status is neither literal; the price is blank after `trim()` or not a number. |
| FoodForm.ErrorsOf | components/modals/AddFoodModal.tsx:32-60 | A key is in the error map iff its test failed, and each entry holds that key's fixed message. |
| FoodForm.Validate | components/modals/AddFoodModal.tsx:31-60 | `food_name`, `food_image`, `restaurant_name` and `restaurant_logo` are set iff their input is blank after trimming. `food_rating` is set iff the rating is empty or not numeric. `restaurant_status` is set iff the status is neither literal. `price` is set iff the price is blank or not numeric. Every entry holds its fixed message. |
| FoodForm.BuildErrors | components/modals/AddFoodModal.tsx:32-60 | The step-by-step construction of `newErrors` yields exactly the validator's map. |
| FoodForm.InsertErrors | components/modals/AddFoodModal.tsx:32-60 | Starting from the empty record, each failed test inserts its key with its message. No other key is inserted. |
| FoodForm.KeysDetermineErrors | components/modals/AddFoodModal.tsx:32-60 | A map with the fixed messages and exactly the failed keys is the error map of those verdicts. |
| FoodForm.ValidateField | components/modals/AddFoodModal.tsx:34-60 | Each input's key is in the map iff that input's rule rejects its text. |
| FoodForm.Rejects | components/modals/AddFoodModal.tsx:34-60 | Every input rejects the empty text. Every input but the rating rejects white space alone, while the rating accepts non-empty white space. A rating or price that passes is numeric. A text input fails iff its trimmed text is empty. |
| FoodForm.ValidateEmptyIff | components/modals/AddFoodModal.tsx:63 | The validator returns true (empty map) iff every input passes and the status is one of the two values. |
| FoodForm.NoErrorKeyMeansEmpty | components/modals/AddFoodModal.tsx:63 | A map that holds none of the seven keys is empty. |
| FoodForm.ChecksAreIndependent | components/modals/AddFoodModal.tsx:34-60 | Changing one input decides that input's error alone. Every other entry of the map stays as it was. |
| FoodForm.ErrorsAgreeOutside | components/modals/AddFoodModal.tsx:34-60 | Verdicts that agree outside one input give the same errors outside that input's key. |
| FoodForm.SpacesPassAsRatingNotAsPrice | components/modals/AddFoodModal.tsx:38-60 | A rating of spaces passes (it is not trimmed, and `Number("  ")` is 0). A price of spaces fails. |
| FoodForm.InitialDraftErrors | components/modals/AddFoodModal.tsx:21-29 | Submitting the initial draft reports every key except `restaurant_status`. |
| FoodForm.CreateBody | components/modals/AddFoodModal.tsx:72-76 | The create body is the draft with `Number(rating)` and the price kept as text. Every draft field can be read back from it. |
| FoodForm.UpdateBody | components/modals/EditFoodModal.tsx:87-93 | The update body is the draft with both rating and price passed through `Number`. It differs from the create body exactly in the price. |
| FoodForm.DraftOf | components/modals/EditFoodModal.tsx:32-44 | A loaded record's name, image, restaurant, logo, status and price are copied. The rating is copied as its `toString()` text, which is numeric and denotes the rating. |
| FoodForm.LoadedRecordValidation | components/modals/EditFoodModal.tsx:32-79 | A loaded record never fails the rating or status check. It passes iff its name, image, restaurant and logo are not blank and its price is a non-blank number. |
| Effects.AfterIssue | components/modals/DeleteFoodModal.tsx:20-26 | Once a request is issued, the trace holds that one call, and the call comes first. `onClose` appears at most once, and iff the mutation is fulfilled. `onSuccess` appears exactly once when the mutation is fulfilled and the parent supplied it, and never otherwise. `onSuccess` never comes before `onClose`. |
| Effects.Completion | components/modals/DeleteFoodModal.tsx:21-23 | After a fulfilled mutation, `onClose` runs first and once. `onSuccess` follows, once, iff the parent supplied it; nothing else runs. |
| Effects.RunMutation | components/modals/DeleteFoodModal.tsx:20-26 | The shared tail of the three mutation handlers appends the call, then `onClose` and `onSuccess` on fulfilment. It is equal to AfterIssue. |
| Effects.Dismiss | components/modals/DeleteFoodModal.tsx:32-56 | Closing a dialog through `onOpenChange`, or through the delete dialog's cancel button, runs `onClose` alone and issues no request. |
| Effects.ModalView | components/modals/EditFoodModal.tsx:109-112 | The edit and delete dialogs render nothing without a record. Otherwise they render the dialog with `open` as the parent says. |
| AddFood.SubmitTrace | components/modals/AddFoodModal.tsx:66-93 | The only call is `createFood(CreateBody(d))`, issued iff the draft passes validation. A non-empty trace starts with that call, and `onClose` and `onSuccess` each run at most once. `onClose` runs iff the call is also fulfilled, `onSuccess` iff also supplied, and `onClose` always comes first. |
| AddFood.CreatePayloadKeepsDraft | components/modals/AddFoodModal.tsx:72-76 | Any request the add form issues is a create whose price is the typed text and whose rating is `Number(rating)`. The draft can be read back from it. |
| AddFood.AddFoodModal.constructor | components/modals/AddFoodModal.tsx:19-29 | The form starts with the initial draft (all empty, status "Open Now") and no errors. |
| AddFood.AddFoodModal.ChangeField | components/modals/AddFoodModal.tsx:123 | Typing changes that field of the draft only; errors stay. |
| AddFood.AddFoodModal.ChangeStatus | components/modals/AddFoodModal.tsx:185 | The select sets the status to one of the two literals; errors stay. |
| AddFood.AddFoodModal.ValidateForm | components/modals/AddFoodModal.tsx:31-64 | The errors become the validator's map of the draft, replacing whatever was there. The result is true iff that map is empty. |
| AddFood.AddFoodModal.HandleSubmit | components/modals/AddFoodModal.tsx:66-93 | The trace is SubmitTrace of the submitted draft, and the errors end as the validator's map. The draft is reset to the initial draft iff the draft passed and the create was fulfilled. On a rejected create, draft and errors are what validation left. |
| AddFood.AddFoodModal.HandleCancel | components/modals/AddFoodModal.tsx:95-107 | Cancel resets the draft to the initial draft and clears the errors. Its only effect is `onClose`, with no request. |
| AddFood.PastaPasses | components/modals/AddFoodModal.tsx:34-60 | A fully filled draft with rating "4.5" and price "12" passes every check. |
| AddFood.PastaScenario | components/modals/AddFoodModal.tsx:66-93 | Filling in that draft and submitting issues exactly one create, with the price as typed, and closes the form. |
| AddFood.OnlyBlankLinksReported | components/modals/AddFoodModal.tsx:42-52 | With name, rating, price and status passing and image, restaurant and logo blank, exactly those three keys are reported. |
| AddFood.MissingLinksScenario | components/modals/AddFoodModal.tsx:66-70 | Submitting without image, restaurant and logo issues nothing and reports exactly those three keys. |
| EditFood.SubmitTrace | components/modals/EditFoodModal.tsx:81-102 | The only call is `updateFood` with the record's id and UpdateBody(d). It is issued iff there is a record and the draft passes. A non-empty trace starts with that call, and `onClose` and `onSuccess` each run at most once. `onClose` runs iff the update is also fulfilled, `onSuccess` iff also supplied, and `onClose` always comes first. |
| EditFood.UpdatePayloadCoercesBoth | components/modals/EditFoodModal.tsx:87-93 | Any request the edit form issues is a PUT of "Food/" and the record's id, with rating and price both coerced. Its body differs from the add form's. |
| EditFood.EditFoodModal.constructor | components/modals/EditFoodModal.tsx:20-44 | On mount there are no errors. The draft is the loaded record, or the initial draft without a record. |
| EditFood.EditFoodModal.LoadRecord | components/modals/EditFoodModal.tsx:32-44 | The effect replaces the whole draft with the record's fields. Without a record it leaves the draft alone. Errors are untouched. |
| EditFood.EditFoodModal.ReceiveRecord | components/modals/EditFoodModal.tsx:32-44 | The effect reruns only when the record prop changes. A new record reloads the draft; the same record or no record keeps it. |
| EditFood.EditFoodModal.ChangeField | components/modals/EditFoodModal.tsx:125 | Typing changes that field of the draft only. |
| EditFood.EditFoodModal.ChangeStatus | components/modals/EditFoodModal.tsx:189 | The select sets the status to one of the two literals. |
| EditFood.EditFoodModal.ValidateForm | components/modals/EditFoodModal.tsx:46-79 | The errors become the shared validator's map of the draft. The result is true iff that map is empty. |
| EditFood.EditFoodModal.HandleSubmit | components/modals/EditFoodModal.tsx:81-102 | The trace is SubmitTrace. Without a record the errors stay untouched; otherwise they end as the validator's map. The draft and the record are never changed. |
| EditFood.EditFoodModal.HandleCancel | components/modals/EditFoodModal.tsx:104-107 | Cancel clears the errors, keeps the draft, and only runs `onClose`. |
| EditFood.NoRecordScenario | components/modals/EditFoodModal.tsx:84-109 | Without a record the form renders nothing, and a submit issues nothing. |
| DeleteModal.DeleteTrace | components/modals/DeleteFoodModal.tsx:17-27 | The only call is `deleteFood(food.id)`, issued iff there is a record. A non-empty trace starts with that call, and `onClose` and `onSuccess` each run at most once. `onClose` runs iff the call is fulfilled, `onSuccess` iff also supplied, and `onClose` always comes first. |
| DeleteModal.HandleDelete | components/modals/DeleteFoodModal.tsx:17-27 | The handler's trace is DeleteTrace. |
| DeleteModal.DeleteRequestCarriesId | components/modals/DeleteFoodModal.tsx:21 | The only request is a DELETE of "Food/" and the record's id, without a body, and it decodes back to that id. |
| DeleteModal.NoRecordScenario | components/modals/DeleteFoodModal.tsx:18-29 | Without a record the confirmation renders nothing, and confirming issues nothing. |
| Featured.Subscriptions | components/FeaturedMeals.tsx:16-19 | The full list is always queried. The search is queried iff the trimmed text is non-empty, with the untrimmed text as its parameter. |
| Featured.Source | components/FeaturedMeals.tsx:21-22 | The list and its loading flag come from the search iff the search is subscribed; otherwise they come from the full list. |
| Featured.ViewOf | components/FeaturedMeals.tsx:28-67 | While loading, exactly 8 placeholders are shown. A missing or empty list shows the empty state. Otherwise the cards are the first min(limit, length) meals in order, and load-more is shown iff length > limit. |
| Featured.Take | components/FeaturedMeals.tsx:62 | `slice(0, n)` has min(n, length) items, each equal to the list's item at the same index. |
| Featured.Keys | components/FeaturedMeals.tsx:34 | The placeholder keys are 0 to n-1. |
| Featured.FeaturedMeals.constructor | components/FeaturedMeals.tsx:15 | The reveal limit starts at 8. |
| Featured.FeaturedMeals.HandleLoadMore | components/FeaturedMeals.tsx:24-26 | Each click raises the limit by exactly 4, without a cap. |
| Featured.FeaturedMeals.Render | components/FeaturedMeals.tsx:21-67 | A blank search text renders the full list's view. A non-blank one renders the search result's view, which is the skeleton while that search is loading. |
| Featured.LoadMoreShownUntilAllRevealed | components/FeaturedMeals.tsx:67 | After k clicks, load-more is still shown iff k < ClicksNeeded(n). So it disappears once the limit reaches the list length. |
| Featured.LoadMoreKeepsShownCards | components/FeaturedMeals.tsx:24-62 | A click only appends: the cards shown before it are a prefix of those shown after. |
| Card.Stars | components/FoodCard.tsx:15-21 | There are always exactly 5 star slots. |
| Card.FilledStars | components/FoodCard.tsx:15-21 | Slot i is filled iff i < floor(rating). The filled count is max(0, min(5, floor(rating))). |
| Card.ThresholdRowCount | components/FoodCard.tsx:19 | A row whose slot i is filled iff i is below f has f filled slots, clamped to [0, length]. |
| Card.StarSamples | components/FoodCard.tsx:19 | 3.7 gives 3 stars, 5 gives 5, 0 gives 0, -1.5 gives 0, and 7 gives 5. |
| Card.CardStars | components/FoodCard.tsx:71 | A card fills its whole-number rating of stars, capped at 5, and none for a negative rating. |
| Card.PhotoSrc | components/FoodCard.tsx:28 | The photo is the avatar when non-empty, else the 200x300 placeholder; never empty. |
| Card.PhotoIgnoresImage | components/FoodCard.tsx:28 | The photo does not depend on the `image` field. |
| Card.PriceLabel | components/FoodCard.tsx:33 | The label is "$" followed by the price when non-empty, else by "12.99". |
| Card.LogoSrc | components/FoodCard.tsx:60 | The logo is the record's logo when non-empty, else the 24x24 placeholder. |
| Card.StatusBadge | components/FoodCard.tsx:77-81 | The badge says "Open Now" in green iff `open`, otherwise "Closed" in red. |
| Card.BadgeIgnoresStatus | components/FoodCard.tsx:77-81 | The badge does not depend on `status`. A record marked "Closed" but `open` shows "Open Now". |
| Card.RatingText | components/FoodCard.tsx:72 | The rating text is non-empty and denotes the rating's value. |
| Home.HomePage.constructor | components/HomePage.tsx:14-18 | Initially all three flags are false, no meal is selected and the search text is "". |
| Home.HomePage.HandleEditFood | components/HomePage.tsx:20-23 | Selects the meal and opens the edit dialog. The other flags and the search text stay. |
| Home.HomePage.HandleDeleteFood | components/HomePage.tsx:25-28 | Selects the meal and opens the delete dialog. The other flags and the search text stay. |
| Home.HomePage.OpenAdd | components/HomePage.tsx:32 | Opens the add dialog only. The selected meal stays. |
| Home.HomePage.CloseAdd | components/HomePage.tsx:37 | Clears only the add flag. |
| Home.HomePage.CloseEdit | components/HomePage.tsx:39 | Clears only the edit flag; the selected meal stays. |
| Home.HomePage.CloseDelete | components/HomePage.tsx:41 | Clears only the delete flag; the selected meal stays. |
| Home.HomePage.SetSearchQuery | components/HomePage.tsx:33 | Sets the search text only. |
| Home.HomePage.Props | components/HomePage.tsx:33-41 | Edit and delete receive the same selected meal. The hero and the list receive the same search text. No dialog receives `onSuccess`. |
| Home.OpenDialogsRender | components/HomePage.tsx:20-41 | In every reachable page state, the open flag the edit or delete dialog receives opens it: the dialog has a meal to show and renders open. |
| Home.EditCloseDeleteScenario | components/HomePage.tsx:20-41 | Editing one meal, closing the edit dialog and then deleting another opens only the delete dialog. Both record dialogs then point at the second meal. |

## Left out

- The caching runtime is not modelled. That covers refetching, `isLoading` flags, disabled submit buttons and `.unwrap()`. Query data, loading flags and mutation outcomes are inputs. Only the provide/invalidate table is modelled.
- The HTTP transport and the service's base URL are not modelled. Requests are described relative to the base URL.
- Asynchrony and `console.error` logging are not modelled. Each handler is one atomic step whose awaited mutation either is fulfilled or is rejected.
- `Number(...)` is kept symbolic in request bodies (`NumberOf(text)`). The model does not compute the double it yields. Ratings are finite decimals: exponent notation, rounding to doubles, NaN and Infinity values are not modelled.
- Markup, CSS classes, icons and UI primitives are not modelled. That includes which error messages each form displays; the edit form shows only the name and price errors. The card's alt texts, its name and restaurant text and its edit/delete menu are also left out.
- Header.tsx, HeroSection.tsx, Footer.tsx, app/layout.tsx, app/page.tsx and store/store.ts are not part of this model. They hold markup, wiring and a no-op search handler.
- A missing `onSuccess` prop is modelled as "no callback": the trace ends after `onClose`. In the source, calling the missing callback throws after `onClose`, and the handler's `catch` logs it.
- EditFood.EditFoodModal.ReceiveRecord: compares records by value. React reruns the effect when the object identity changes, so a re-fetched but equal record would reload the draft in the source and not in the model.
- FoodForm.Validate: the error record is a map keyed by ErrorKey. FoodForm.ErrorRecord gives the `Record<string, string>` with the source's property names.
- FoodApi: the TypeScript types of the endpoints (`Omit<Food, ...>`, `Partial<...>`) are not checked. The update body may carry a number where `Food.price` is declared a string.
