# Admin dashboard logic, modelled in Dafny

This project models the parts of a React/Next.js admin dashboard that carry real logic, and
proves properties of them. The modules are:

- **Live order feed** (`OrderFeed`):
  - the parameter defaults of `useOrdersQuery`;
  - the `tracking_number` prefix range, computed on UTF-16 code units;
  - the `limit * page` fetch window and the page cut from each snapshot;
  - the document-id override on each materialised order;
  - the new-order notification rule;
  - the paginator fields;
  - the snapshot-to-order step of `useOrderQuery`.

  The notification rule keeps a set of notified ids. It is modelled as a class,
  `OrderSubscription`, whose `OnSnapshot` loop is proved against a recursive specification,
  `Notify`.
- **Ordered products and translations** (`OrderedProduct`):
  - `formatOrderedProduct`;
  - the field-by-field translation fallback of `applyProductTranslations`. This function
    assigns `name` and `description` on the object it receives, so it is also modelled as a
    method of the class `ProductObject`;
  - `applyOrderTranslations` over an order's products.
- **Validation schemas**:
  - the shared `name-required` test (`NameRequired`), which requires an English or Russian name
    that is not all white space;
  - the category schema (`CategoryValidation`);
  - the product schema (`ProductValidation`), written as a validity predicate over the
    submitted values.
- **Form submission**:
  - the shared translation merge, locale fallback and create-or-update dispatch (`FormSubmit`);
  - the publication form (`PublicationForm`): its payload, default values and slug-suggestion
    guard;
  - the vacancy form (`VacancyForm`): its payload and default values.
- **Lists**:
  - the shared sort-header state (`SortableList`): a class whose `Click` replaces the direction
    and the column, plus the date-header flags and the pagination guard;
  - the publication list's columns and the columns it hides for a shop (`PublicationList`);
  - the vacancy application list's columns and cell texts (`VacancyApplicationList`).

JavaScript values are one datatype, `Js.Value`. Optional chaining is `Js.Get`, `||` is `Js.Or`,
truthiness is `Js.Truthy`, and object spread is `Js.Spread`. A call that would throw a
`TypeError` is modelled as `None`.

Three facts about the order feed shape the model:

- The set of notified ids belongs to one subscription. The hook creates it (src/data/order.ts:55)
  and the snapshot callback of that subscription captures it (src/data/order.ts:101-115). The
  model keeps it as a field of `OrderSubscription`.
- The cleanup closure that would stop both listeners is the return value of the async
  `fetchOrders`, so it never reaches React (src/data/order.ts:121-131). No listener is ever
  stopped, and the model states no cancellation property.
- The `catch` sees only errors thrown while the query is built (src/data/order.ts:125-128). Of
  those, `BuildQuery` models one: a fetch limit that is not positive. Firestore's other argument
  checks are not modelled (see "## Left out").

## Model

| member | source | states |
|---|---|---|
| OrderFeed.ResolveOptionsDefaults | src/data/order.ts:47-63 | a missing limit, page, sort field or direction becomes 15, 1, `created_at` or `desc`; a given one is kept |
| OrderFeed.PrefixEndShape | src/data/order.ts:74-76 | for a last code unit below 0xFFFF, the upper bound has the same length, the same units before the last, and the last unit plus one |
| OrderFeed.PrefixRangeIsPrefixFilter | src/data/order.ts:74-76 | in that case, a string lies in `[tracking_number, prefixEnd)` exactly when it starts with the tracking number |
| OrderFeed.WrappedPrefixRangeIsEmpty | src/data/order.ts:75-76 | a last unit 0xFFFF wraps the bound (`fromCharCode` is mod 2^16), so the range is empty |
| OrderFeed.BuildQueryWindow | src/data/order.ts:74-90 | for a positive limit and page, the query fetches `limit * page` documents in the requested order, and has a range exactly when the tracking number is non-empty |
| OrderFeed.MaterializeAll | src/data/order.ts:93-96 | one order per document |
| OrderFeed.MaterializeOverridesId | src/data/order.ts:93-96 | the order's `id` is the document id, overriding any `id` in the data; every other field is the data's |
| OrderFeed.PageSliceWindow | src/data/order.ts:99-100 | the page has `min(limit, max(0, n - (page-1)*limit))` orders, never more than `limit`, and element i is snapshot element `(page-1)*limit + i` |
| OrderFeed.FullSnapshotGivesFullPage | src/data/order.ts:89-100 | a snapshot of `limit * page` orders gives a page of exactly `limit` orders: the last `limit` of the snapshot |
| OrderFeed.PageSliceScenario | src/data/order.ts:99-100 | pages 1 and 2 of size 2 over three orders are the first two and the third |
| OrderFeed.NotifyBounded | src/data/order.ts:101 | at most as many notifications as orders examined, and at most 5 per snapshot |
| OrderFeed.NotifyAlertsAreNew | src/data/order.ts:101-115 | every notified order comes from the snapshot, is not `is_seen`, and has an id not already in the set; no id is notified twice |
| OrderFeed.NotifySeenGrowth | src/data/order.ts:102-113 | the set only grows, and exactly by the ids of the notified orders (an `is_seen` order never enters it) |
| OrderFeed.NotifiedIdsExactly | src/data/order.ts:101-115 | the notified ids are exactly the ids of the unseen orders that were not in the set before |
| OrderFeed.SeenOrderIsSkipped | src/data/order.ts:102 | an `is_seen` order changes neither the notifications nor the set |
| OrderFeed.NotifyAgainIsSilent | src/data/order.ts:101-115 | delivering the same orders again on the same subscription notifies nothing |
| OrderFeed.NotifyBurstScenario | src/data/order.ts:101-115 | the head [X, Y, X] of unseen orders notifies X and then Y, each once |
| OrderFeed.OrderSubscription.constructor | src/data/order.ts:55 | a new subscription starts with an empty set of notified ids |
| OrderFeed.OrderSubscription.OnSnapshot | src/data/order.ts:92-115 | the loop over the first five orders returns the page slice, and the notifications and new set that `Notify` specifies |
| OrderFeed.LastPageIsCeiling | src/data/order.ts:138 | for a limit of at least 1, `last_page` is the least k with `k * limit >= total`; it is 0 when total is 0 |
| OrderFeed.PaginatorIgnoresFilter | src/data/order.ts:84-86 | `total` is the size of the whole collection, `current_page` is the page and `per_page` the limit; the tracking-number filter changes none of them |
| OrderFeed.ViewShape | src/data/order.ts:134-158 | the hook publishes the translated page and a paginator around those same orders, with total, current page, per page and last page from the collection size, page and limit; nothing when a translation throws |
| OrderFeed.TranslateOrdersElementwise | src/data/order.ts:134 | the published orders are the page's orders, each translated with the locale or `en`, in the same order |
| OrderFeed.OrderFromSnapshotCases | src/data/order.ts:166-184 | an empty id never listens; a missing document gives `null`; an existing document gives an order exactly when its `products` is an array of objects (otherwise the callback throws); that order is the data with `id` set to the snapshot id, every other field but `products` unchanged, and the products translated one by one |
| OrderedProduct.FormatOrderedProductFields | src/utils/format-ordered-product.ts:3-13 | `product_id` is a truthy `productId`, else `id`; `variation_option_id` is present exactly when `variationId` is truthy, and then equals it; quantity, price and total are copied; a nullish product throws |
| OrderedProduct.FirstTruthy | src/utils/format-ordered-product.ts:24-29 | the fallback chain yields a truthy candidate or `""` |
| OrderedProduct.TranslatedFieldFallback | src/utils/format-ordered-product.ts:16-30 | with an entry for the language, a field is the first non-empty of that entry's field, the English field and `""`; without one, the first non-empty of the English field and `""` |
| OrderedProduct.MissingTranslationsAsEmpty | src/utils/format-ordered-product.ts:17-29 | a missing `translations` behaves as `{}`, and both fields become `""` |
| OrderedProduct.TranslatedKeepsOtherFields | src/utils/format-ordered-product.ts:23-32 | only `name` and `description` are set; every other entry of the product is kept |
| OrderedProduct.TranslatedIdempotent | src/utils/format-ordered-product.ts:16-33 | translating twice gives the same product as translating once |
| OrderedProduct.ProductObject.ApplyTranslations | src/utils/format-ordered-product.ts:16-33 | the method assigns the translated fields on the object it was given and returns that same object; the language defaults to `en` |
| OrderedProduct.ApplyProductTranslationsCases | src/utils/format-ordered-product.ts:16-32 | the call succeeds exactly on objects (arrays included); a plain object gets its fields translated, in `en` when no language is given |
| OrderedProduct.TranslateProductsElementwise | src/utils/format-ordered-product.ts:38-40 | mapping the products succeeds exactly when all are objects or arrays; the result has the same length, and element i is product i translated |
| OrderedProduct.OrderTranslationsShape | src/utils/format-ordered-product.ts:35-42 | every order field except `products` is kept, and `products` is mapped element by element; it fails exactly when `products` is not an array of objects (arrays included) |
| NameRequired.TrimEmptyIffBlank | src/components/category/category-validation-schema.ts:13-14 | `s.trim()` is empty exactly when every character of `s` is white space |
| NameRequired.HasNameIff | src/components/category/category-validation-schema.ts:13-14 | a locale has a name exactly when its `name` is a string with a character that is not white space |
| NameRequired.NameRequiredIff | src/components/category/category-validation-schema.ts:11-22 | the test passes exactly when the `en` or the `ru` name has a non-white-space character; missing `translations` fails |
| NameRequired.BlankNameIsAbsent | src/components/category/category-validation-schema.ts:13-14 | a name of white space only gives the same verdict as no name |
| NameRequired.SwapEnRu | src/components/category/category-validation-schema.ts:19-22 | swapping the `en` and `ru` entries keeps the verdict |
| NameRequired.OtherLocalesIgnored | src/components/category/category-validation-schema.ts:4-14 | entries under any other locale do not change the verdict |
| CategoryValidation.ValidateIff | src/components/category/category-validation-schema.ts:11-23 | the form is rejected exactly when neither name is non-blank, and then on `translations` with `form:error-name-required` |
| ProductValidation.ValidProductFields | src/components/product/product-validation-schema.ts:10-52 | a valid product has the `en`-or-`ru` name, a positive price, a sale price strictly between 0 and the price when it is a number, a positive whole quantity, and non-empty sku, unit and status |
| ProductValidation.SalePriceNotBelowPriceRejected | src/components/product/product-validation-schema.ts:38-43 | a sale price at or above the price is rejected |
| ProductValidation.SalePriceNaNIsAbsent | src/components/product/product-validation-schema.ts:38-43 | a NaN or `null` sale price gives the same verdict as no sale price |
| ProductValidation.FractionalQuantityRejected | src/components/product/product-validation-schema.ts:44-49 | a quantity that is not a whole number is rejected |
| ProductValidation.UnknownKeysIgnored | src/components/product/product-validation-schema.ts:9-111 | fields outside the schema do not change the verdict |
| ProductValidation.VariationsElementwise | src/components/product/product-validation-schema.ts:53-94 | every variation of a valid product has a positive price, a sale price below it, a positive whole quantity and a sku; appending a valid variation or removing one keeps the product valid |
| ProductValidation.DigitalFileRequirement | src/components/product/product-validation-schema.ts:95-111 | a digital product needs a file object with a non-empty string id; for a product that is not digital, a `null` file is the same as none |
| FormSubmit.Locale | src/components/publication/publication-form.tsx:73 | the router locale, or `en` when there is none |
| FormSubmit.Language | src/components/publication/publication-form.tsx:137 | the payload's `language` is the router locale with no fallback: `undefined` when there is none |
| FormSubmit.MergeTranslationsEntries | src/components/publication/publication-form.tsx:143-149 | every caller translation is kept unchanged; only the locale key is added; the locale holds the form's own entry unless the caller has one |
| FormSubmit.DispatchCases | src/components/publication/publication-form.tsx:154-164 | create exactly when there are no initial values; an update sends the same input plus `id` from the initial values |
| PublicationForm.FinalSlug | src/components/publication/publication-form.tsx:134 | `values.slug` when it is non-empty, otherwise the suggested slug |
| PublicationForm.SubmitInputShape | src/components/publication/publication-form.tsx:135-151 | the payload is the form values with `language`, an image of exactly thumbnail, original and id, the translations and the final slug set; every other field is kept |
| PublicationForm.SubmitTranslations | src/components/publication/publication-form.tsx:143-149 | the payload's translations keep every caller entry, add only the locale, and give it `{title, description}` from the form unless the caller has it |
| PublicationForm.OnSubmitDispatch | src/components/publication/publication-form.tsx:154-164 | without initial values the payload is created; with them it is updated under `initialValues.id` |
| PublicationForm.DefaultValuesShape | src/components/publication/publication-form.tsx:102-107 | no defaults without initial values; otherwise the initial values, with `translations` defaulting to `{}` |
| PublicationForm.NextSlugSuggest | src/components/publication/publication-form.tsx:113-117 | the suggestion changes only when the translated title is non-empty, and then becomes the formatted title |
| PublicationForm.EmptyTitleKeepsSuggestion | src/components/publication/publication-form.tsx:112-134 | an empty title keeps the previous suggestion, and an empty slug then falls back to it |
| VacancyForm.SubmitInputShape | src/components/vacancy/vacancy-form.tsx:108-120 | the payload is the form values with `language` and the merged translations set; caller entries win, the locale's too; only the locale key is added, with the form's title, description and requirements |
| VacancyForm.OnSubmitDispatch | src/components/vacancy/vacancy-form.tsx:122-133 | without initial values the payload is created; with them it is updated under `initialValues.id` |
| VacancyForm.DefaultValuesShape | src/components/vacancy/vacancy-form.tsx:75-82 | no defaults without initial values; otherwise the initial values, with `translations` defaulting to the locale (or `en`) with no requirements |
| SortableList.Toggle | src/components/publication/publication-list.tsx:51-53 | the toggler always changes the direction |
| SortableList.ToggleTwice | src/components/publication/publication-list.tsx:57-58 | toggling twice restores the direction |
| SortableList.SortingState.constructor | src/components/publication/publication-list.tsx:41-47 | the state starts as descending with no column |
| SortableList.SortingState.Click | src/components/publication/publication-list.tsx:49-62 | a click flips the direction and records the column; it hands `onSort` a Desc/Asc toggler and `onOrder` the column |
| SortableList.SortingState.ClickColumn | src/components/vacancy/vacancy-application-list.tsx:60-73 | a header without a click handler changes nothing; one with a handler behaves as `Click` |
| SortableList.SortingState.DateAscending | src/components/publication/publication-list.tsx:141-144 | the date header is ascending exactly when the direction is Asc and the column is `created_at` |
| SortableList.SortingState.DateActive | src/components/publication/publication-list.tsx:145 | the date header is active exactly when the column is `created_at` |
| SortableList.ClickTwice | src/components/publication/publication-list.tsx:56-60 | two clicks restore the direction and leave the last column clicked |
| SortableList.FirstDateClick | src/components/vacancy/vacancy-application-list.tsx:55-71 | from the initial state, one click on the date header makes it active and ascending |
| SortableList.ShowPaginationIff | src/components/publication/publication-list.tsx:215 | pagination shows exactly when `paginatorInfo.total` is truthy; a zero total hides it and a non-zero one shows it |
| PublicationList.WithoutShopColumnsMembers | src/components/publication/publication-list.tsx:188-192 | a column survives exactly when its key is neither `approve` nor `actions` |
| PublicationList.WithoutShopColumnsConcat | src/components/publication/publication-list.tsx:189-191 | the filter works piece by piece, so the kept columns stay in order |
| PublicationList.WithoutShopColumnsKeeps | src/components/publication/publication-list.tsx:189-191 | a list with no such column is left alone |
| PublicationList.WithoutShopColumnsIdempotent | src/components/publication/publication-list.tsx:189-191 | filtering twice is filtering once |
| PublicationList.VisibleColumnsKeys | src/components/publication/publication-list.tsx:64-192 | under a shop query the table shows id, title and date; otherwise it also shows actions |
| PublicationList.ClickableColumns | src/components/publication/publication-list.tsx:72-153 | every visible column except actions sorts, by its own key |
| PublicationList.IdCell | src/components/publication/publication-list.tsx:73 | the id cell starts with `#` and ends with the id |
| VacancyApplicationList.OnlyDateSorts | src/components/vacancy/vacancy-application-list.tsx:75-172 | only the `created_at` header is clickable |
| VacancyApplicationList.ClickApplicationColumn | src/components/vacancy/vacancy-application-list.tsx:93-124 | a click on any other column leaves the sort state as it was; a click on the date column reports `created_at`, flips the direction and records `created_at` as the column, so the date header is active |
| VacancyApplicationList.IdCell | src/components/vacancy/vacancy-application-list.tsx:82 | the id cell is `#` followed by the id |
| VacancyApplicationList.IdCellInjective | src/components/vacancy/vacancy-application-list.tsx:82 | different ids give different cells |
| VacancyApplicationList.VacancyCell | src/components/vacancy/vacancy-application-list.tsx:148 | the cell is the vacancy's title when it is a string, and `""` when the title is missing or empty |
| VacancyApplicationList.VacancyCellMissing | src/components/vacancy/vacancy-application-list.tsx:148 | a record without a vacancy or a title shows an empty cell |

## Left out

- The Firestore listeners (`onSnapshot`, ordered query execution, `snapshot.size`) are foreign calls. A snapshot is the input sequence of documents, and the collection size is an input number.
- OrderFeed.BuildQuery: Firestore's own argument checks are not modelled. These are an invalid field path in `orderBy` (empty, `..`, a leading or trailing `.`), a direction other than `asc`/`desc`, and, in SDK versions without multi-field range filters, a range on `tracking_number` under a first `orderBy` on another field. Each of these throws while the query is built, and the `catch` publishes the error; the model returns a query instead. Only a fetch limit that is not positive gives `None`.
- The ordering Firestore applies to `tracking_number` is not modelled. `OrderFeed.Below` compares UTF-16 code units, whereas Firestore orders strings by their UTF-8 bytes, and the two differ for surrogate pairs.
- React plumbing is left out: hooks, state setters, effects, the loading and error flags, JSX, the table and pagination widgets, and router navigation.
- The toast text of a notification is not modelled. The model records which orders are notified, not what is shown.
- Floating point is left out. Prices and quantities are reals, and `Math.ceil(total / limit)` is integer ceiling division. For a negative limit it is truncation toward zero, and a zero limit gives `None`.
- yup's type coercion is not modelled: a string turning into a number, or `""` turning into NaN. The values reach the schema already cast.
- The `en`/`ru` shape checks of the `translations` object are not modelled, nor the `typeError` messages. Only the `name-required` test and the field rules are.
- Spreading a string or an array into an object is not modelled. `Js.Spread` of any non-object adds nothing.
- `formatSlug`, `mapPaginatorData` and `t()` are not part of this model. `formatSlug` is a parameter of `NextSlugSuggest`, the paginator is the record of fields handed to `mapPaginatorData`, and a translated label is a parameter.
- Of the placeholder paginator fields, `from` and `to` are carried as the constant 0; the empty URL fields, `links` and `path` are left out.
- OrderFeed.NotifyAlertsAreNew: "no id is notified twice" holds per subscription, not per hook. Since no listener is ever stopped, every parameter change leaves the earlier subscriptions live, each with its own set: an unseen order among the first five is notified again by each of them, and a stale listener keeps publishing the page for its own old `page` and `limit`. Several live subscriptions are not modelled.
- OrderedProduct.ApplyProductTranslations: an array product is returned unchanged. The source assigns `name` and `description` on the array, but `Js.Arr` has no named properties to hold them.
- OrderedProduct.ProductObject.ApplyTranslations: aliasing is not modelled. The model does not capture that a product object may also be reachable from an order that the caller still holds.
- ProductValidation.ProductValid: only the rules are modelled, not the order in which yup reports failures, nor its messages. The category schema's message is modelled.
- VacancyApplicationList.VacancyCell: a title that is neither a string nor falsy gives `None`. JavaScript's number-to-text conversion is not modelled.
- PublicationList.IdCell and VacancyApplicationList.IdCell: the id is taken as text. Number-to-text conversion is not modelled.
- Dayjs relative-time formatting of the date cells is left out.
- The stale closure of `onHeaderClick` is not modelled. It reads the state of the render it was created in, which the model takes to be the current state.
- Pages, filters, delete views, the react-query data hooks and the HTTP client wrappers are not part of this model.
