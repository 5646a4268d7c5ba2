# Window-company site: the logic behind its components

A model of the sequential logic in the window manufacturer's site. The site has five parts:

- a price calculator that builds a quote configuration and submits it as a customer request;
- an admin panel that searches, sorts, re-labels, deletes and exports requests;
- an admin product editor with defaults, merges, list edits, specification edits and a category slug;
- the public catalog, with its category tabs, filters and image carousel;
- the cloud function that renders the notification e-mail for a new request.

It also covers the data-access layer for the "requests" collection and two string helpers: the card description preview and the footer's `tel:`/`mailto:` links.

## Layout

Each source file has its own module. A few shared modules hold what several of them repeat.

- `wrappers.dfy` (`Wrappers`): `Option` and `Result`.
- `text.dfy` (`Text`): string helpers.
  - `Lower` is `toLowerCase`, over the ASCII capitals and the capitals of the basic Cyrillic block (U+0400 to U+042F, the Russian alphabet with Ё among them).
  - `Contains` is `includes`, `IsSpace` is the `\s` class, and `Join` is `Array.prototype.join`.
  - Numbers are rendered in decimal for template strings.
- `seqs.dfy` (`Seqs`): `Array.prototype.filter` as `Filter` and the delete-by-id filter as `RemoveByKey`, order-preserving subsequences, duplicate-freedom, and `[...new Set(xs)]` as `Distinct`.
- `types.dfy` (`Types`): the records of `src/types.ts` and of the calculator. Dates are integer timestamps.
- `labels.dfy` (`Labels`): code-to-label tables and the "-" fallbacks. The calculator, the admin export and the e-mail all use them.
- `requests_api.dfy` (`RequestApi`): `src/api/requests.ts`. The collection is a class holding a map from document id to stored fields, plus a source of fresh ids.
- `price_calculator.dfy` (`PriceCalculator`): the calculator's hook state as a class (`Calculator`) whose methods call pure functions.
- `request_management.dfy` (`RequestManagement`): the admin request list as a class (`RequestPanel`), together with the filter, the sort and the export rows.
- `product_management.dfy` (`ProductManagement`): the admin product editor as a class (`ProductPanel`). `product_specs.dfy` (`ProductSpecs`) holds its specification-object edits, modelled as an insertion-ordered association list.
- `product_section.dfy` (`ProductSection`), `product_modal.dfy` (`ProductModal`), `product_card.dfy` (`ProductCard`), `footer.dfy` (`Footer`, `FooterDefaults`): the pure catalog pieces.
- `notification_email.dfy` (`NotificationEmail`): the subject and the body of the e-mail. The body is the sequence of its HTML elements.

The outcome of every database call that these files do not model is a parameter of the method that makes it. This covers the product store, and the moment at which a request is stamped.

## Behaviour worth noting

- `removeRequest` returns `true` whenever the delete completes, even for an id with no document. A document store's delete does not fail on a missing document.
- `editRequest` on a missing document fails. It is modelled as an error result that changes nothing. It returns the patch plus the id, not the merged document.
- Toggling a calculator feature twice is the identity only for an absent code. A present code comes back at the end of the list (`ToggleTwicePresent`).
- A product whose category is literally "all" gives the catalog a second "all" tab (`CategoriesDistinctIff`).
- The e-mail shows "-" for a zero width or height and for an empty code. The export shows the size always, and shows an empty code as "" (`EmailAgreesWithExport`).
- Renaming a specification key to itself deletes the entry (`RenameKeyCount`).

## Model

| member | source | states |
|---|---|---|
| Text.Lower | src/components/admin/RequestManagement.tsx:87-90 | lower-casing keeps the length and maps each character on its own |
| Text.LowerIdempotent | src/components/admin/RequestManagement.tsx:87-90 | lower-casing twice is lower-casing once |
| Text.LowerCharKeepsSpace | src/components/admin/ProductManagement.tsx:409 | lower-casing neither creates nor removes whitespace |
| Text.ContainsAt | src/components/sections/ProductSection.tsx:188-189 | `includes` holds exactly when the needle is a prefix of some suffix |
| Text.ContainsEmpty | src/components/admin/RequestManagement.tsx:87 | every string includes the empty string |
| Text.NatToString | functions/src/index.ts:80-83 | a decimal numeral is non-empty, all digits, with no leading zero except for 0 |
| Text.ParseNatToString | functions/src/index.ts:80-83 | reading the numeral back gives the number |
| Text.NatToStringInjective | functions/src/index.ts:80-83 | different numbers render differently |
| Text.IntToString | src/components/admin/RequestManagement.tsx:190-192 | the rendering is non-empty and starts with "-" exactly for negatives |
| Text.Join | functions/src/index.ts:141 | joining nothing gives "", joining one item gives that item |
| Text.JoinSnoc | functions/src/index.ts:141 | one more item appends the separator and the item |
| Seqs.Filter | src/components/sections/ProductSection.tsx:186-193 | the result keeps exactly the kept elements and is no longer than the input |
| Seqs.FilterIsSubsequence | src/components/sections/ProductSection.tsx:186-193 | filtering keeps the original order |
| Seqs.FilterAppend | src/components/sections/ProductSection.tsx:186-193 | filtering distributes over concatenation |
| Seqs.FilterAll | src/components/sections/ProductSection.tsx:186-193 | when every element is kept, the result is the input |
| Seqs.FilterIdempotent | src/components/sections/ProductSection.tsx:186-193 | filtering twice is filtering once |
| Seqs.FilterShorter | src/components/sections/ProductSection.tsx:325 | the result is shorter exactly when some element is dropped |
| Seqs.RemoveByKey | src/components/admin/RequestManagement.tsx:124-126 | no element with that key remains and every other element does (the request list and the product list both delete this way) |
| Seqs.RemoveByKeyKeepsOrder | src/components/admin/ProductManagement.tsx:170-172 | the remaining elements keep their relative order |
| Seqs.FilterKeepsNoDup | src/components/calculator/PriceCalculator.tsx:104 | filtering a duplicate-free list leaves it duplicate-free |
| Seqs.FirstIndex | src/components/sections/ProductSection.tsx:182-183 | the first position holding a value |
| Seqs.Distinct | src/components/sections/ProductSection.tsx:181-184 | `[...new Set(xs)]` is duplicate-free with exactly the elements of `xs` |
| Seqs.FirstIndexPrefix | src/components/sections/ProductSection.tsx:181-184 | the first position is unchanged by cutting after it |
| Seqs.DistinctFirstAppearance | src/components/sections/ProductSection.tsx:181-184 | the distinct values come in order of first appearance |
| Labels.LabelOr | src/components/calculator/PriceCalculator.tsx:474-481 | a known code shows its name and any other code shows itself; the label is empty only for an empty code |
| Labels.WindowTypeLabel | src/components/calculator/PriceCalculator.tsx:474-481 | a known window-type code shows its name from the table, any other code shows as it is, and the label is empty only for an empty code |
| Labels.MaterialLabel | src/components/calculator/PriceCalculator.tsx:487-497 | a known material code shows its name from the table, any other code shows as it is, and the label is empty only for an empty code |
| Labels.GlazingLabel | src/components/calculator/PriceCalculator.tsx:503-508 | a known glazing code shows its name from the table, any other code shows as it is, and the label is empty only for an empty code |
| Labels.FeatureLabel | src/components/calculator/PriceCalculator.tsx:515-525 | a known feature code shows its name from the table, any other code shows as it is, and the label is empty only for an empty code |
| Labels.FeatureList | src/components/calculator/PriceCalculator.tsx:512-525 | no features give "", one feature gives its label |
| Labels.FeatureListSnoc | src/components/calculator/PriceCalculator.tsx:512-525 | each further feature adds ", " and its label at the end, so the stored order is kept |
| Labels.WindowTypeTable | src/components/calculator/PriceCalculator.tsx:474-481 | each of the six window types shows its Russian name |
| Labels.MaterialTable | src/components/calculator/PriceCalculator.tsx:487-497 | each of the five materials shows its Russian name, and an unknown material shows as typed |
| Labels.GlazingTable | src/components/calculator/PriceCalculator.tsx:503-508 | each of the four glazing types shows its Russian name |
| Labels.FeatureTable | src/components/calculator/PriceCalculator.tsx:515-525 | each of the four additional features shows its Russian name |
| Labels.StatusLabel | src/components/admin/RequestManagement.tsx:181-188 | new, processing and completed get their labels; every other status shows "Отклонена" |
| Labels.StatusBadgeLabel | src/components/admin/RequestManagement.tsx:158-171 | each of the four statuses gets its badge text, and any other value "Неизвестно" |
| Labels.BadgeAgreesWithExport | src/components/admin/RequestManagement.tsx:158-171 | the badge and the export agree exactly on the four statuses; elsewhere the badge says "Неизвестно" |
| Labels.OrDash | functions/src/index.ts:58 | an empty value shows "-", any other value shows itself |
| Labels.ProductText | src/components/admin/RequestManagement.tsx:189 | the product column is the product's name, or "-" when there is no product or no name |
| Labels.AreaLine | src/components/admin/RequestManagement.tsx:193 | the area column is the area with "м²", or "-" for an empty area |
| Labels.FeaturesText | src/components/admin/RequestManagement.tsx:225-237 | the features column is the joined labels, or "-" with no features |
| Labels.QuantityText | src/components/admin/RequestManagement.tsx:238-240 | the quantity column is "N шт.", or "-" for quantity 0 |
| RequestApi.DocIdInjective | src/api/requests.ts:27 | distinct counters give distinct document ids |
| RequestApi.Stamp | src/api/requests.ts:22-26 | a stored request has status "new" and the creation date whatever the caller passed; the contact fields and calculator data are kept |
| RequestApi.Materialize | src/api/requests.ts:8-11 | a fetched record takes the document id unless the stored fields carry their own `id`, which wins |
| RequestApi.FetchAgreesWithCreate | src/api/requests.ts:8-11 | fetching a created document gives back what `createRequest` returned |
| RequestApi.ApplyPatch | src/api/requests.ts:40-41 | every field the patch supplies takes the supplied value and every field it leaves out keeps its stored value, so an empty patch changes nothing |
| RequestApi.ApplyPatchIdempotent | src/api/requests.ts:40-41 | sending the same patch twice gives the same document as sending it once |
| RequestApi.StatusPatchChangesOnlyStatus | src/api/requests.ts:40-41 | the `{ status }` patch changes only the status |
| RequestApi.RequestStore.constructor | src/api/requests.ts:7 | an empty collection |
| RequestApi.RequestStore.Create | src/api/requests.ts:18-33 | a new document under an unused id holds the stamped draft, and the result is the stored fields plus that id |
| RequestApi.RequestStore.Edit | src/api/requests.ts:35-47 | an existing document is patched and the result is the patch plus the id; a missing one is an error with nothing changed |
| RequestApi.RequestStore.Remove | src/api/requests.ts:49-57 | the document is gone and the result is always true |
| RequestApi.RequestStore.Fetch | src/api/requests.ts:5-16 | one record per document: ids without duplicates, covering the collection, each record made from its document |
| PriceCalculator.InitialConfig | src/components/calculator/PriceCalculator.tsx:58-71 | 100 × 100, "standard", "double", no features, quantity 1; a stored product wins over the default one; material is the product's category when it is non-empty, and "vinyl" when no product is selected or its category is empty |
| PriceCalculator.Toggled | src/components/calculator/PriceCalculator.tsx:99-114 | the code's membership flips, every other code's membership is kept, and a duplicate-free list stays duplicate-free |
| PriceCalculator.FilterKeepsNoDupIfDistinct | src/components/calculator/PriceCalculator.tsx:104 | dropping a code keeps a list duplicate-free |
| PriceCalculator.ToggleKeepsOthers | src/components/calculator/PriceCalculator.tsx:99-114 | the other codes and their order are unchanged |
| PriceCalculator.ToggleTwiceAbsent | src/components/calculator/PriceCalculator.tsx:99-114 | toggling an absent code twice gives back the exact list |
| PriceCalculator.ToggleTwicePresent | src/components/calculator/PriceCalculator.tsx:99-114 | toggling a present code twice moves it to the end and keeps the set |
| PriceCalculator.Incremented | src/components/calculator/PriceCalculator.tsx:116-121 | increment adds exactly one, with no upper bound |
| PriceCalculator.Decremented | src/components/calculator/PriceCalculator.tsx:123-128 | decrement gives q - 1 but never less than 1 |
| PriceCalculator.ClampedQuantity | src/components/calculator/PriceCalculator.tsx:432-436 | a typed quantity n becomes max(1, n) |
| PriceCalculator.StepperRoundTrip | src/components/calculator/PriceCalculator.tsx:116-128 | decrement undoes increment from 1 up, increment undoes decrement from 2 up, and decrement at 1 stays at 1 |
| PriceCalculator.AreaHundredths | src/components/calculator/PriceCalculator.tsx:141 | the area in hundredths of m² is exact when w·h is a multiple of 100 and otherwise within half a hundredth |
| PriceCalculator.FixedTwoDenotes | src/components/calculator/PriceCalculator.tsx:141 | the two-decimal text is digits, a point and two digits, and reads back as the number of hundredths |
| PriceCalculator.AreaText | src/components/calculator/PriceCalculator.tsx:141 | for a non-negative product the area text is the two-decimal rendering of the hundredths |
| PriceCalculator.AreaTextDenotes | src/components/calculator/PriceCalculator.tsx:141 | the area text reads back as the rounded area in hundredths |
| PriceCalculator.AreaExample | src/components/calculator/PriceCalculator.tsx:468 | 150 × 180 shows "2.70" |
| PriceCalculator.Snapshot | src/components/calculator/PriceCalculator.tsx:139-142 | the calculator data sent is the configuration unchanged plus its area |
| PriceCalculator.RequestDraftOf | src/components/calculator/PriceCalculator.tsx:137-145 | the request is the contact fields, the calculator data with its area, the client's date and status "new" |
| PriceCalculator.Calculator.constructor | src/components/calculator/PriceCalculator.tsx:58-79 | the initial configuration and an empty contact form |
| PriceCalculator.Calculator.ToggleFeature | src/components/calculator/PriceCalculator.tsx:99-114 | only the feature list changes, to its toggle |
| PriceCalculator.Calculator.IncrementQuantity | src/components/calculator/PriceCalculator.tsx:116-121 | only the quantity changes, and quantity stays at least 1 |
| PriceCalculator.Calculator.DecrementQuantity | src/components/calculator/PriceCalculator.tsx:123-128 | only the quantity changes, and quantity stays at least 1 |
| PriceCalculator.Calculator.TypeQuantity | src/components/calculator/PriceCalculator.tsx:432-436 | only the quantity changes, to the clamped input |
| PriceCalculator.Calculator.SetWidth | src/components/calculator/PriceCalculator.tsx:194-208 | only the width changes |
| PriceCalculator.Calculator.SetHeight | src/components/calculator/PriceCalculator.tsx:238-252 | only the height changes |
| PriceCalculator.Calculator.SetWindowType | src/components/calculator/PriceCalculator.tsx:266 | only the window type changes |
| PriceCalculator.Calculator.SetMaterial | src/components/calculator/PriceCalculator.tsx:298 | only the material changes |
| PriceCalculator.Calculator.SetGlazingType | src/components/calculator/PriceCalculator.tsx:331 | only the glazing type changes |
| PriceCalculator.WithContactField | src/components/calculator/PriceCalculator.tsx:559-608 | the edited contact field takes the typed text and the other three keep theirs |
| PriceCalculator.ContactFieldsCommute | src/components/calculator/PriceCalculator.tsx:559-608 | typing into one field twice keeps the last text, and edits of different fields do not interfere |
| PriceCalculator.Calculator.SetContactField | src/components/calculator/PriceCalculator.tsx:563-603 | only the edited contact field changes |
| PriceCalculator.Calculator.SubmitRequest | src/components/calculator/PriceCalculator.tsx:134-155 | a new document holds the contact fields and the configuration with its area, status "new" and the server's date; the contact form is cleared and the configuration kept |
| RequestManagement.EmptyQueryMatchesAll | src/components/admin/RequestManagement.tsx:84-91 | the empty query matches every request |
| RequestManagement.ConsNewestFirst | src/components/admin/RequestManagement.tsx:92 | a request at least as new as every request of a newest-first list can go in front of it |
| RequestManagement.HeadIsNewest | src/components/admin/RequestManagement.tsx:92 | a head newer than the inserted request is at least as new as that request and every request of its tail |
| RequestManagement.InsertByDate | src/components/admin/RequestManagement.tsx:92 | inserting into a newest-first list keeps it newest-first and adds exactly that request |
| RequestManagement.SortNewestFirst | src/components/admin/RequestManagement.tsx:92 | the sorted list is newest-first and a permutation of the input |
| RequestManagement.DateOrderStep | src/components/admin/RequestManagement.tsx:92 | a request older than the head that goes behind it does not change the order of any date group |
| RequestManagement.InsertKeepsDateOrder | src/components/admin/RequestManagement.tsx:92 | insertion puts the new request ahead of the requests of its own date and keeps their order |
| RequestManagement.SortKeepsDateOrder | src/components/admin/RequestManagement.tsx:92 | the sort is stable: the requests of each date appear in the same order as in the input |
| RequestManagement.FilteredRequests | src/components/admin/RequestManagement.tsx:84-92 | a request is listed exactly when it matches the lower-cased query in name, e-mail, phone or message; the list is a newest-first permutation of the matches |
| RequestManagement.EmptyQueryKeepsAll | src/components/admin/RequestManagement.tsx:84-92 | with an empty query every request is listed |
| RequestManagement.SetStatusById | src/components/admin/RequestManagement.tsx:103-105 | only the requests with that id change, and only in their status; length and order are kept |
| RequestManagement.StatusChangeMatchesStore | src/components/admin/RequestManagement.tsx:99-105 | the local update equals re-reading the patched document |
| RequestManagement.ExportRowOf | src/components/admin/RequestManagement.tsx:174-240 | id, client, e-mail, phone, message and date are copied and the status shows its label; without calculator data every calculator column is "-"; with it the product name or "-", the size, the area with its unit or "-", the code labels, the joined feature names or "-" for none, and "N шт." or "-" for 0 |
| RequestManagement.RequestPanel.constructor | src/components/admin/RequestManagement.tsx:55-59 | an empty list, nothing open, an empty query |
| RequestManagement.RequestPanel.ExportRows | src/components/admin/RequestManagement.tsx:173-174 | one row per visible request, in the visible order |
| RequestManagement.RequestPanel.Load | src/components/admin/RequestManagement.tsx:63-81 | the list becomes one record per stored document |
| RequestManagement.RequestPanel.Search | src/components/admin/RequestManagement.tsx:291 | only the query changes |
| RequestManagement.RequestPanel.Open | src/components/admin/RequestManagement.tsx:137-145 | only the open request changes |
| RequestManagement.RequestPanel.ChangeStatus | src/components/admin/RequestManagement.tsx:94-114 | after the store accepts it, the document, the matching list entries and a matching open request get the new status; a rejected update changes nothing |
| RequestManagement.RequestPanel.DeleteCurrent | src/components/admin/RequestManagement.tsx:116-135 | the open request leaves the store and the list and is closed; with none open nothing changes |
| ProductSection.CatalogFilter | src/components/sections/ProductSection.tsx:186-193 | a product is shown exactly when it matches the search in name or description and the tab is "all" or its category |
| ProductSection.CatalogFilterKeepsOrder | src/components/sections/ProductSection.tsx:186-193 | the shown products keep the catalog order |
| ProductSection.ResetShowsAll | src/components/sections/ProductSection.tsx:186-193 | an empty query on the "all" tab shows the whole catalog |
| ProductSection.Categories | src/components/sections/ProductSection.tsx:181-184 | the tabs are "all", then every product category once, and nothing else |
| ProductSection.CategoriesInFirstAppearanceOrder | src/components/sections/ProductSection.tsx:181-184 | the category tabs follow the order of first appearance |
| ProductSection.CategoriesDistinctIff | src/components/sections/ProductSection.tsx:181-184 | the tabs are duplicate-free exactly when no product's category is "all" |
| ProductSection.TabLabel | src/components/sections/ProductSection.tsx:273-283 | all, vinyl, aluminum and wooden get Russian names; any other category shows itself |
| ProductSection.FindById | src/components/sections/ProductSection.tsx:196 | the position of the first product with the id, or none exactly when no product has it |
| ProductSection.InitialView | src/components/sections/ProductSection.tsx:153-156 | empty query, "all" tab, nothing selected, modal closed |
| ProductSection.ViewDetails | src/components/sections/ProductSection.tsx:195-201 | a known id selects its first product and opens the modal; an unknown id changes nothing |
| ProductSection.CloseModal | src/components/sections/ProductSection.tsx:207-210 | the selection is cleared and the modal closed; the filters are kept |
| ProductSection.ResetFilters | src/components/sections/ProductSection.tsx:300-303 | the query becomes "" and the tab "all"; the selection is kept |
| ProductSection.ResetListsCatalog | src/components/sections/ProductSection.tsx:329-332 | after a reset the whole catalog is shown |
| ProductSection.ShowAllVisibleIff | src/components/sections/ProductSection.tsx:325 | "show all" appears exactly when something is shown and some product is filtered out |
| ProductModal.Next | src/components/products/ProductModal.tsx:62-66 | next stays in range and is the index plus one, wrapping to 0 |
| ProductModal.Prev | src/components/products/ProductModal.tsx:68-72 | prev stays in range and is the index minus one, wrapping to n - 1 |
| ProductModal.PrevUndoesNext | src/components/products/ProductModal.tsx:62-72 | prev after next and next after prev are the identity |
| ProductModal.AdvanceAdd | src/components/products/ProductModal.tsx:62-66 | a + b steps are a steps then b steps |
| ProductModal.AdvanceNoWrap | src/components/products/ProductModal.tsx:62-66 | steps that do not reach the end just add |
| ProductModal.FullCircle | src/components/products/ProductModal.tsx:62-66 | n steps come back to the starting image |
| ProductModal.ControlsShownIffArrowsMove | src/components/products/ProductModal.tsx:108-140 | the arrows and dots are drawn (more than one image) exactly when an arrow would change the image |
| ProductModal.DotClick | src/components/products/ProductModal.tsx:137 | a dot sets the index to that dot, which is in range |
| ProductCard.Truncate | src/components/products/ProductCard.tsx:49-51 | a description of at most 80 characters is unchanged; a longer one becomes its first 80 characters and "..."; never more than 83 |
| ProductCard.TruncateIdempotent | src/components/products/ProductCard.tsx:49-51 | truncating twice is truncating once |
| Footer.StripPhone | src/components/layout/Footer.tsx:100 | stripping never lengthens the phone |
| Footer.StripIsFilter | src/components/layout/Footer.tsx:100 | stripping is the filter that drops whitespace, "(", ")" and "-" |
| Footer.StripRemovesExactlySeparators | src/components/layout/Footer.tsx:100 | no separator is left and every other character is kept |
| Footer.StripKeepsOrder | src/components/layout/Footer.tsx:100 | the kept characters stay in order |
| Footer.StripIdempotent | src/components/layout/Footer.tsx:100 | stripping twice is stripping once |
| Footer.StripAppend | src/components/layout/Footer.tsx:100 | stripping a concatenation strips each part |
| Footer.StripThree | src/components/layout/Footer.tsx:100 | the same for three parts |
| Footer.TelHref | src/components/layout/Footer.tsx:100 | the link is "tel:" followed by the stripped phone |
| Footer.MailtoHref | src/components/layout/Footer.tsx:109 | the link is "mailto:" followed by the address verbatim |
| FooterDefaults.StripDefaultCode | src/components/layout/Footer.tsx:28 | the country and area code "+7 (988) " of the default phone strip to "+7" "98" "8", that is "+7988" |
| FooterDefaults.StripDefaultLine | src/components/layout/Footer.tsx:28 | the line number "149-99-89" of the default phone strips to "149" "99" "89", that is "1499989" |
| FooterDefaults.DefaultTel | src/components/layout/Footer.tsx:28 | the default phone links to "tel:+79881499989" |
| FooterDefaults.DefaultMailto | src/components/layout/Footer.tsx:29 | the default address links to "mailto:mashtabss@mail.ru" |
| ProductSpecs.Keys | src/components/admin/ProductManagement.tsx:525 | the keys in entry order |
| ProductSpecs.KeysCons | src/components/admin/ProductManagement.tsx:525 | the first key comes first |
| ProductSpecs.NoDupCons | src/components/admin/ProductManagement.tsx:518 | a key list with a head is distinct exactly when the head is new and the tail is distinct |
| ProductSpecs.Lookup | src/components/admin/ProductManagement.tsx:526 | a key has a value exactly when it is present, and that value belongs to its entry |
| ProductSpecs.Set | src/components/admin/ProductManagement.tsx:526 | assigning an existing key keeps the key order; a new key goes at the end |
| ProductSpecs.SetLookup | src/components/admin/ProductManagement.tsx:526 | after assignment the key reads back the value and another key reads as before |
| ProductSpecs.SetLookupAll | src/components/admin/ProductManagement.tsx:526 | the same for all other keys at once |
| ProductSpecs.SetWellFormed | src/components/admin/ProductManagement.tsx:526 | assignment keeps keys distinct |
| ProductSpecs.Delete | src/components/admin/ProductManagement.tsx:527 | deleting never lengthens the object |
| ProductSpecs.DeleteLookup | src/components/admin/ProductManagement.tsx:527 | after deletion the key has no value and any other key reads as before |
| ProductSpecs.DeleteLookupAll | src/components/admin/ProductManagement.tsx:527 | the same for all keys at once |
| ProductSpecs.DeleteAbsent | src/components/admin/ProductManagement.tsx:527 | deleting an absent key changes nothing |
| ProductSpecs.DeleteWellFormed | src/components/admin/ProductManagement.tsx:527 | deletion keeps keys distinct |
| ProductSpecs.DeleteCount | src/components/admin/ProductManagement.tsx:527 | with distinct keys, deleting a present key removes exactly one entry |
| ProductSpecs.LookupAt | src/components/admin/ProductManagement.tsx:526 | with distinct keys, a row's key reads that row's value |
| ProductSpecs.SetFresh | src/components/admin/ProductManagement.tsx:526 | assigning a key not yet present appends its entry |
| ProductSpecs.DeleteAt | src/components/admin/ProductManagement.tsx:527 | with distinct keys, deleting a row's key removes exactly that row and keeps the order of the rest |
| ProductSpecs.SetSame | src/components/admin/ProductManagement.tsx:538 | assigning a key its own value changes nothing |
| ProductSpecs.RenameKey | src/components/admin/ProductManagement.tsx:523-528 | the old key is gone, the new key takes its value, other keys read as before, keys stay distinct |
| ProductSpecs.RenameKeyCount | src/components/admin/ProductManagement.tsx:523-528 | a fresh key keeps the count; an existing other key or the same key drops it by one |
| ProductSpecs.RenameFreshMovesToEnd | src/components/admin/ProductManagement.tsx:523-528 | renaming to a fresh key removes the row from its place and appends the new key with the old value at the end; the other rows keep their order |
| ProductSpecs.SetValueAt | src/components/admin/ProductManagement.tsx:535-539 | only the value of that row's key changes; the keys stay as they were |
| ProductSpecs.RemoveAt | src/components/admin/ProductManagement.tsx:548-552 | that row's key is gone, the others read as before, and one entry is removed |
| ProductSpecs.AddBlank | src/components/admin/ProductManagement.tsx:563-566 | the empty key reads "" and other keys read as before |
| ProductSpecs.AddBlankIdempotent | src/components/admin/ProductManagement.tsx:563-566 | adding a blank row twice is adding it once |
| ProductManagement.EmptyForm | src/components/admin/ProductManagement.tsx:203-215 | a blank form with rating 4.5, category "vinyl", one blank feature, one blank specification and no images |
| ProductManagement.FormOf | src/components/admin/ProductManagement.tsx:183-196 | the edit form holds every field of the product |
| ProductManagement.TextOr | src/components/admin/ProductManagement.tsx:100-101 | a non-empty text wins and an empty or missing one takes the fallback |
| ProductManagement.NewProduct | src/components/admin/ProductManagement.tsx:99-113 | empty texts get the defaults, rating 0 becomes 4.5, missing lists become empty, and missing images become the main image |
| ProductManagement.EmptyGalleryStaysEmpty | src/components/admin/ProductManagement.tsx:110-113 | an empty image list stays empty on create |
| ProductManagement.Merged | src/components/admin/ProductManagement.tsx:133-143 | a typed name, description, image or category wins, and an empty or missing one keeps the current value; a defined rating (even 0) wins; a supplied list wins and a missing one keeps the current list |
| ProductManagement.SaveUnchangedIsIdentity | src/components/admin/ProductManagement.tsx:133-143 | saving an unedited form gives back the product |
| ProductManagement.ClearedTextKeepsCurrent | src/components/admin/ProductManagement.tsx:133-143 | clearing the text fields keeps the current texts |
| ProductManagement.SearchProducts | src/components/admin/ProductManagement.tsx:91-95 | exactly the products matching the query in name or description are listed |
| ProductManagement.SearchKeepsOrder | src/components/admin/ProductManagement.tsx:91-95 | the listed products keep their order |
| ProductManagement.SearchAgreesWithCatalog | src/components/admin/ProductManagement.tsx:91-95 | the admin search equals the catalog filter on the "all" tab |
| ProductManagement.ReplaceById | src/components/admin/ProductManagement.tsx:148-152 | only products with that id are replaced; length and order are kept |
| ProductManagement.RemoveAfterReplace | src/components/admin/ProductManagement.tsx:148-173 | deleting after an edit of the same id is deleting |
| ProductManagement.SetAt | src/components/admin/ProductManagement.tsx:234-238 | only slot i changes |
| ProductManagement.RemoveAt | src/components/admin/ProductManagement.tsx:247-251 | exactly the element at i is removed; an index past the end changes nothing |
| ProductManagement.AppendBlank | src/components/admin/ProductManagement.tsx:240-245 | a "" is appended and the rest is kept |
| ProductManagement.RemoveUndoesAppend | src/components/admin/ProductManagement.tsx:240-251 | removing the appended blank gives back the list |
| ProductManagement.RemoveForgetsSet | src/components/admin/ProductManagement.tsx:234-251 | removing a slot forgets an edit to it |
| ProductManagement.DropSpaces | src/components/admin/ProductManagement.tsx:409 | dropping a whitespace run leaves a suffix that does not start with whitespace |
| ProductManagement.Dashed | src/components/admin/ProductManagement.tsx:409 | no whitespace is left, and a non-empty text stays non-empty |
| ProductManagement.DashedNoSpace | src/components/admin/ProductManagement.tsx:409 | text without whitespace is unchanged |
| ProductManagement.DashedRun | src/components/admin/ProductManagement.tsx:409 | a whitespace run at the front becomes exactly one "-" |
| ProductManagement.DashedAppend | src/components/admin/ProductManagement.tsx:409 | a text ending in a non-space character is dashed independently of what follows |
| ProductManagement.DashedSplit | src/components/admin/ProductManagement.tsx:409 | a maximal whitespace run between two texts becomes one "-" between their dashed forms; with DashedNoSpace this fixes the result on every input |
| ProductManagement.CategorySlug | src/components/admin/ProductManagement.tsx:405-411 | the slug is lower-case and has no whitespace, and a non-empty text gives a non-empty slug |
| ProductManagement.CategorySlugSplit | src/components/admin/ProductManagement.tsx:405-411 | a whitespace run in the typed text becomes one "-" between the slugs of both sides |
| ProductManagement.DashedChars | src/components/admin/ProductManagement.tsx:409 | dashing introduces no character other than "-" |
| ProductManagement.LowerDashed | src/components/admin/ProductManagement.tsx:409 | dashing lower-case text keeps it lower-case |
| ProductManagement.CategorySlugIdempotent | src/components/admin/ProductManagement.tsx:405-411 | slugging a slug changes nothing |
| ProductManagement.ProductPanel.constructor | src/components/admin/ProductManagement.tsx:53-68 | no products, an empty query, the blank form, nothing open |
| ProductManagement.ProductPanel.Load | src/components/admin/ProductManagement.tsx:72-89 | the list becomes the fetched products |
| ProductManagement.ProductPanel.Search | src/components/admin/ProductManagement.tsx:272 | only the query changes |
| ProductManagement.ProductPanel.OpenEdit | src/components/admin/ProductManagement.tsx:183-196 | the product is open and the form holds its fields |
| ProductManagement.ProductPanel.OpenDelete | src/components/admin/ProductManagement.tsx:198-201 | only the open product changes |
| ProductManagement.ProductPanel.ResetForm | src/components/admin/ProductManagement.tsx:203-215 | the form is blank and nothing is open |
| ProductManagement.ProductPanel.SetText | src/components/admin/ProductManagement.tsx:217-225 | only the edited text field of the form changes |
| ProductManagement.ProductPanel.SetRating | src/components/admin/ProductManagement.tsx:217-225 | only the form's rating changes |
| ProductManagement.ProductPanel.SelectCategory | src/components/admin/ProductManagement.tsx:227-232 | only the form's category changes |
| ProductManagement.ProductPanel.TypeCategory | src/components/admin/ProductManagement.tsx:405-411 | a non-empty text sets the category to its slug; an empty one changes nothing |
| ProductManagement.ProductPanel.SetImage | src/components/admin/ProductManagement.tsx:234-238 | only slot i of the image list changes |
| ProductManagement.ProductPanel.AddImage | src/components/admin/ProductManagement.tsx:240-245 | a blank image is appended |
| ProductManagement.ProductPanel.RemoveImage | src/components/admin/ProductManagement.tsx:247-251 | image i is removed |
| ProductManagement.ProductPanel.SetFeature | src/components/admin/ProductManagement.tsx:479-483 | only slot i of the feature list changes |
| ProductManagement.ProductPanel.AddFeature | src/components/admin/ProductManagement.tsx:503-507 | a blank feature is appended |
| ProductManagement.ProductPanel.RemoveFeature | src/components/admin/ProductManagement.tsx:490-494 | feature i is removed |
| ProductManagement.ProductPanel.RenameSpecKey | src/components/admin/ProductManagement.tsx:523-528 | the specifications become the renamed ones |
| ProductManagement.ProductPanel.SetSpecValue | src/components/admin/ProductManagement.tsx:535-539 | the specifications get the new value in that row |
| ProductManagement.ProductPanel.RemoveSpec | src/components/admin/ProductManagement.tsx:548-552 | that row's key leaves the specifications |
| ProductManagement.ProductPanel.AddSpec | src/components/admin/ProductManagement.tsx:563-566 | a blank specification is added |
| ProductManagement.ProductPanel.Add | src/components/admin/ProductManagement.tsx:97-127 | once stored, the new product with its defaults goes at the end and the form is reset; a failed store call changes nothing |
| ProductManagement.ProductPanel.Edit | src/components/admin/ProductManagement.tsx:129-160 | once stored, products with the open id become the merged product and the form is reset; otherwise nothing changes |
| ProductManagement.ProductPanel.Delete | src/components/admin/ProductManagement.tsx:162-181 | once deleted, products with the open id leave the list and nothing is open; otherwise nothing changes |
| NotificationEmail.Subject | functions/src/index.ts:51 | the subject is "Новая заявка #", the document id, " от " and the name, in that order |
| NotificationEmail.CodeShown | functions/src/index.ts:90-128 | an empty code shows "-", a known code its label, an unknown code itself |
| NotificationEmail.SizeText | functions/src/index.ts:78-84 | "W × H см" when both sizes are non-zero, otherwise "-" |
| NotificationEmail.CalculatorSection | functions/src/index.ts:71-150 | without calculator data a single "no data" paragraph; with it the heading, then one paragraph each for the product name or "-", the size or "-", the area with its unit or "-", the window type, material and glazing labels or "-", the feature names or "-", and "N шт." or "-" |
| NotificationEmail.Body | functions/src/index.ts:52-151 | the heading, then one paragraph each for the id, name, phone, e-mail, message or "-", date text and status label, then the calculator section |
| NotificationEmail.NoCalculatorBody | functions/src/index.ts:149-150 | a request without calculator data ends in the "no data" paragraph |
| NotificationEmail.EmailAgreesWithExport | functions/src/index.ts:75-148 | the e-mail and the export agree on product, area, features and quantity, and on the codes except where a code is empty |

## Left out

- Document-store calls, network and mail transport are not modelled: `getDocs`, `addDoc`, `updateDoc` and `deleteDoc`, the XLSX workbook writing and the e-mail `sendMail`. The request collection is a map. The outcome of a product-store call is a method parameter.
- src/api/products.ts is not part of this model. It only adds the document id, so `ProductPanel.Add` takes that id as a parameter.
- src/lib/mongodb.ts, ContactForm.tsx, Header.tsx, HeroSection.tsx, home.tsx, AdminDashboard.tsx and the storyboard are not part of this model. They are data layers nothing imports, form-library validation, or layout.
- The calculator's category fetch (PriceCalculator.tsx:83-97) is not modelled. It is the same `[...new Set]` construction as the catalog tabs (`Seqs.Distinct`), over the fetched products.
- `localStorage` is not modelled. Reading the stored product is a parameter of `Calculator.constructor`. Removing it after submit, and the `onSubmitRequest` callback, are not modelled.
- Dialog open/close flags, loading and error flags, tooltips and all rendering are not modelled.
- Dates are integer timestamps. `new Date().toISOString()`, `Intl.DateTimeFormat` and `toLocaleString` are not modelled. The e-mail's date text is a parameter, and the export row keeps the timestamp.
- Floating point is not modelled:
  - `parseFloat` of the rating is a real parameter of `SetRating`.
  - `Number()` of typed sizes and quantities is an integer parameter, so NaN is not modelled.
  - The half-way rounding of `toFixed(2)` on doubles is not stated; the area is exact or within half a hundredth.
- Case mapping covers the ASCII capitals and the basic Cyrillic capitals (U+0400 to U+042F) only, not the full Unicode `toLowerCase` (Greek, Latin-1, extended Cyrillic and the rest are left unchanged).
- Lengths count characters, not the UTF-16 code units JavaScript counts.
- Specifications are an insertion-ordered list of entries. JavaScript orders integer-like keys first; that ordering is not modelled, and neither are inherited prototype keys in the `{...}[code] || code` lookups.
- `ProductManagement.SetAt`: requires an index inside the list. JavaScript assignment past the end extends the array with holes, which no input field can cause.
- `ProductManagement.RemoveAt`: takes a natural index. `splice` with a negative index counts from the end, which no remove button can cause.
- `RequestApi.RequestStore.Fetch`: returns the documents in an unspecified order. `getDocs` returns them in a fixed order, and because `Array.prototype.sort` is stable that order decides how requests with the same date are listed (`RequestManagement.SortKeepsDateOrder`).
- `RequestManagement.RequestPanel.ChangeStatus`: requires one of the four statuses, as the type of `handleStatusChange` does.
- The e-mail body is its sequence of HTML elements. The template's indentation and line breaks are not modelled.
- Missing fields of a stored request are the empty string, and missing calculator lists are empty lists. Absent `additionalFeatures` or `quantity` therefore show as the empty cases ("-").
- Catalog search and tab selection are plain assignments to the `query` and `active` fields of `CatalogView`. Those fields are what `CatalogFilter` takes.
