# Bearly Used server: a verified model of the marketplace back end

Bearly Used is a student marketplace for Brown and RISD. This project models its Java HTTP
server in Dafny and proves properties of that model. The modelled parts are:

- the in-memory store (`MockStorage`) over the `Listing` and `User` classes;
- the nine request handlers: add-listing, update-listing, add-user, update-user,
  get-listings, get-listing-by-id, delete-listing, get-user and get-user-listings;
- the parts of the Postgres store (`RealStorage`) that do not touch the database:
  - the builders of the search, update-listing and update-user queries;
  - the tag-column cleanup `cleanTags`;
  - the argument checks `validateEmail` and `validatePrice`.

Files and modules:

- `wrappers.dfy` (`Wrappers`): `Option` for Java's null; `Result` for a value or an error message.
- `java_strings.dfy` (`JavaStrings`) and `java_numbers.dfy` (`JavaNumbers`): the library
  calls the server relies on. These are `trim`, `toLowerCase`, `endsWith`, `contains`,
  `split`, `replaceAll`, `Long.parseLong`, `Float.parseFloat` and `Boolean.parseBoolean`.
- `classes.dfy` (`Classes`):
  - `Listing` and `User` are classes with mutable fields and setters;
  - `ListingValue` and `UserValue` are their values;
  - `Value` is what a response map may hold.
- `mock_storage.dfy` (`Storage`): the class `MockStorage` with its two maps and the listing
  counter. Its search is specified by a filter predicate and a stable price sort, and
  proved to return exactly the matching listings.
- `requests.dfy` (`Requests`) and `responses.dfy` (`Responses`): query parameters, the tag
  parser, the id and price parsers, the catch clauses and the response map.
- `listing_handlers.dfy` (`ListingHandlers`) and `user_handlers.dfy` (`UserHandlers`): one
  pure `...Response` function per endpoint, over the parameters and what the store
  answered (a value or an exception). Beside it, a `Handle...` method runs against
  `MockStorage` and is proved to fill exactly that response map. It is also proved to
  leave the store in the state the endpoint promises.
- `phone.dfy` (`Phone`): the phone-number regular expression as a set of readings, and a
  left-to-right matcher proved sound and complete for it.
- `real_storage.dfy` (`RealStorage`):
  - each query is built by a method that appends text and parameters step by step, as
    the Java `StringBuilder` code does;
  - each builder is proved equal to a list of clauses, where each clause carries one `?`
    placeholder and the parameter bound to it;
  - so every query holds exactly one placeholder per parameter, in order.

The in-memory store's search does not test availability: a listing marked unavailable is
still found. Only the Postgres query adds `available = TRUE`. The model follows the code
(`Storage.MockStorage.GetListings`, `RealStorage.SearchOnlyAvailable`). Likewise, nothing
in the server checks that a category or condition comes from a fixed set, or that a price
has two decimals. The model imposes neither.

## Model

| member | source | states |
|---|---|---|
| Classes.OptStr | server/src/main/java/edu/brown/cs/student/main/server/handlers/UpdateListingHandler.java:72-80 | an absent value is put as null, a present one as that text |
| Classes.Listing.constructor | server/src/main/java/edu/brown/cs/student/main/server/classes/Listing.java:21-42 | a new listing holds exactly the ten values it was built from |
| Classes.Listing.SetPrice | server/src/main/java/edu/brown/cs/student/main/server/classes/Listing.java:52-54 | the price is replaced and every other field keeps its value |
| Classes.Listing.SetTitle | server/src/main/java/edu/brown/cs/student/main/server/classes/Listing.java:64-66 | the title is replaced and every other field keeps its value |
| Classes.Listing.SetDescription | server/src/main/java/edu/brown/cs/student/main/server/classes/Listing.java:72-74 | the description is replaced and every other field keeps its value |
| Classes.Listing.SetCategory | server/src/main/java/edu/brown/cs/student/main/server/classes/Listing.java:80-82 | the category is replaced and every other field keeps its value |
| Classes.Listing.SetCondition | server/src/main/java/edu/brown/cs/student/main/server/classes/Listing.java:88-90 | the condition is replaced and every other field keeps its value |
| Classes.Listing.SetImageUrl | server/src/main/java/edu/brown/cs/student/main/server/classes/Listing.java:96-98 | the image URL is replaced and every other field keeps its value |
| Classes.Listing.SetAvailable | server/src/main/java/edu/brown/cs/student/main/server/classes/Listing.java:104-106 | the availability is replaced and every other field keeps its value |
| Classes.Listing.SetTags | server/src/main/java/edu/brown/cs/student/main/server/classes/Listing.java:112-114 | the tag list is replaced and every other field keeps its value |
| Classes.User.constructor | server/src/main/java/edu/brown/cs/student/main/server/classes/User.java:14-19 | a new user holds exactly the clerk id, name, phone number and school it was built from |
| Classes.User.SetName | server/src/main/java/edu/brown/cs/student/main/server/classes/User.java:29-31 | the name is replaced; clerk id, phone number and school are kept |
| Classes.User.SetPhoneNumber | server/src/main/java/edu/brown/cs/student/main/server/classes/User.java:37-39 | the phone number is replaced; the other fields are kept |
| Classes.User.SetSchool | server/src/main/java/edu/brown/cs/student/main/server/classes/User.java:45-47 | the school is replaced; the other fields are kept |
| Storage.Patched | server/src/main/java/edu/brown/cs/student/main/server/storage/MockStorage.java:110-126 | an update keeps id and seller, replaces each field the update carries, keeps each one it does not, and always overwrites the availability |
| Storage.PatchIdempotent | server/src/main/java/edu/brown/cs/student/main/server/storage/MockStorage.java:110-126 | applying the same update twice gives the listing that applying it once gives |
| Storage.EmptyPatchKeepsListing | server/src/main/java/edu/brown/cs/student/main/server/storage/MockStorage.java:110-126 | an update with no fields and the listing's own availability leaves the listing as it was |
| Storage.UserPatched | server/src/main/java/edu/brown/cs/student/main/server/storage/MockStorage.java:27-36 | a user update keeps the clerk id, replaces each field it carries and keeps the others |
| Storage.InIdOrder | server/src/main/java/edu/brown/cs/student/main/server/storage/MockStorage.java:46 | the stored listings in a range of ids, in increasing id order, each the one stored under its id, none missing |
| Storage.DistinctCount | server/src/main/java/edu/brown/cs/student/main/server/storage/MockStorage.java:46-55 | in a sequence with increasing ids every listing occurs at most once |
| Storage.Select | server/src/main/java/edu/brown/cs/student/main/server/storage/MockStorage.java:47-55 | the filter keeps, with their multiplicities, exactly the listings the test accepts and nothing else |
| Storage.SelectKeepsIdOrder | server/src/main/java/edu/brown/cs/student/main/server/storage/MockStorage.java:47-55 | filtering keeps the relative order, so a result in id order stays in id order |
| Storage.Insert | server/src/main/java/edu/brown/cs/student/main/server/storage/MockStorage.java:56-67 | inserting into a price-sorted list adds exactly that listing and keeps the list sorted |
| Storage.InsertAfterHead | server/src/main/java/edu/brown/cs/student/main/server/storage/MockStorage.java:56-67 | the step of the insertion that keeps the head keeps both the contents and the order |
| Storage.PrependInOrder | server/src/main/java/edu/brown/cs/student/main/server/storage/MockStorage.java:56-67 | a listing that may precede the head of a sorted list may go in front of it |
| Storage.SortByPrice | server/src/main/java/edu/brown/cs/student/main/server/storage/MockStorage.java:56-67 | the price sort returns a permutation of its input, sorted ascending or descending as the sorter asks |
| Storage.RecordsOf | server/src/main/java/edu/brown/cs/student/main/server/storage/MockStorage.java:151-169 | one record per listing, in the same order |
| Storage.PatchInTwoHalves | server/src/main/java/edu/brown/cs/student/main/server/storage/MockStorage.java:110-126 | the setters of the descriptive fields followed by the others give the whole update |
| Storage.ApplyTextFields | server/src/main/java/edu/brown/cs/student/main/server/storage/MockStorage.java:112-116 | calling the setters for title, description, price and category changes exactly those of the four fields the update carries, and nothing else |
| Storage.ApplyPatch | server/src/main/java/edu/brown/cs/student/main/server/storage/MockStorage.java:113-122 | calling every setter of a present field and then setAvailable leaves the listing equal to the patched value |
| Storage.RecordsDistinct | server/src/main/java/edu/brown/cs/student/main/server/storage/MockStorage.java:151-169 | records of listings with different ids differ |
| Storage.RecordCarriesId | server/src/main/java/edu/brown/cs/student/main/server/storage/MockStorage.java:156-166 | two listings with the same record have the same id |
| Storage.SellerRecords | server/src/main/java/edu/brown/cs/student/main/server/storage/MockStorage.java:151-169 | the records of one seller's listings are exactly the records of the stored listings of that seller, without repeats |
| Storage.SameIdSameListing | server/src/main/java/edu/brown/cs/student/main/server/storage/MockStorage.java:151-169 | in a sequence with increasing ids an id names at most one listing |
| Storage.MockStorage.constructor | server/src/main/java/edu/brown/cs/student/main/server/storage/MockStorage.java:13-16 | a new store holds no users and no listings and its id counter starts at 1 |
| Storage.MockStorage.CreateUser | server/src/main/java/edu/brown/cs/student/main/server/storage/MockStorage.java:19-24 | the user is stored under its clerk id, replacing any earlier one, listings untouched; the answer is the number of users now stored |
| Storage.MockStorage.UpdateUser | server/src/main/java/edu/brown/cs/student/main/server/storage/MockStorage.java:27-36 | true exactly when the clerk id is stored; then that user gets the sent fields and nothing else changes; otherwise the store is unchanged |
| Storage.MockStorage.ListingsInOrder | server/src/main/java/edu/brown/cs/student/main/server/storage/MockStorage.java:46 | every stored listing, each once, in increasing id order |
| Storage.MockStorage.GetListings | server/src/main/java/edu/brown/cs/student/main/server/storage/MockStorage.java:39-69 | the result holds every stored listing that passes every given filter exactly once and nothing else; sorted by price when a sorter is given, in id order otherwise |
| Storage.MockStorage.GetListingById | server/src/main/java/edu/brown/cs/student/main/server/storage/MockStorage.java:100-102 | present exactly when the id is stored, and then the listing stored under that id |
| Storage.MockStorage.ObtainListing | server/src/main/java/edu/brown/cs/student/main/server/storage/MockStorage.java:105-107 | null exactly when the id is not stored; otherwise an object holding the stored listing |
| Storage.MockStorage.CreateListing | server/src/main/java/edu/brown/cs/student/main/server/storage/MockStorage.java:72-97 | the listing is stored under the counter's old value, which was free, the counter advances by one, and the new listing can be read back |
| Storage.MockStorage.UpdateListing | server/src/main/java/edu/brown/cs/student/main/server/storage/MockStorage.java:110-126 | true exactly when the id is stored; then that listing is patched and nothing else changes; otherwise the store is unchanged |
| Storage.MockStorage.DeleteListing | server/src/main/java/edu/brown/cs/student/main/server/storage/MockStorage.java:129-134 | true exactly when the id was stored; afterwards the id is gone and every other listing and user is kept |
| Storage.MockStorage.GetUser | server/src/main/java/edu/brown/cs/student/main/server/storage/MockStorage.java:137-148 | the empty map exactly for an unknown clerk id; otherwise the four keys with the stored user's values |
| Storage.MockStorage.GetListingsBySellerId | server/src/main/java/edu/brown/cs/student/main/server/storage/MockStorage.java:151-169 | a stored listing's record is in the result exactly when its seller matches; every record comes from a matching listing; no record twice; empty exactly when the seller has none |
| Storage.MockStorage.Contains | server/src/main/java/edu/brown/cs/student/main/server/storage/MockStorage.java:171-173 | true exactly when some stored listing has this title |
| JavaStrings.Trim | server/src/main/java/edu/brown/cs/student/main/server/handlers/AddListingHandler.java:90-95 | the result has no outer space and is no longer than the input |
| JavaStrings.TrimRemovesEnds | server/src/main/java/edu/brown/cs/student/main/server/handlers/AddListingHandler.java:90-95 | trimming removes only trim spaces and only at the two ends; the result is empty exactly when every character is a trim space |
| JavaStrings.TrimIdempotent | server/src/main/java/edu/brown/cs/student/main/server/handlers/AddListingHandler.java:90-95 | trimming a trimmed text changes nothing |
| JavaStrings.ToLower | server/src/main/java/edu/brown/cs/student/main/server/handlers/AddUserHandler.java:74 | same length, each character lower-cased on its own |
| JavaStrings.HasSubstring | server/src/main/java/edu/brown/cs/student/main/server/storage/MockStorage.java:49 | true exactly when the text occurs at some index |
| JavaStrings.Split | server/src/main/java/edu/brown/cs/student/main/server/handlers/AddListingHandler.java:136-144 | at least one piece, no piece holds the separator, and joining the pieces gives the text back |
| JavaStrings.RemoveAll | server/src/main/java/edu/brown/cs/student/main/server/storage/RealStorage.java:360 | a character survives exactly when it was there and is not dropped |
| JavaNumbers.ParseLong | server/src/main/java/edu/brown/cs/student/main/server/handlers/DeleteListingHandler.java:65-70 | accepts exactly an optionally signed run of ASCII digits whose value is in the 64-bit range, answers that value, and otherwise fails with the message naming the input |
| JavaNumbers.LongRoundTrip | server/src/main/java/edu/brown/cs/student/main/server/handlers/DeleteListingHandler.java:65-70 | every 64-bit value written in decimal parses back to itself |
| JavaNumbers.ParseFloat | server/src/main/java/edu/brown/cs/student/main/server/handlers/AddListingHandler.java:104-113 | accepts exactly a plain decimal after trimming and answers its value; a negative value was written with a minus sign; the two failure messages |
| JavaNumbers.ParseFloatOfNat | server/src/main/java/edu/brown/cs/student/main/server/handlers/AddListingHandler.java:104-113 | a whole number parses to itself |
| JavaNumbers.ParseFloatOfNegatedNat | server/src/main/java/edu/brown/cs/student/main/server/handlers/AddListingHandler.java:104-113 | a minus sign before a whole number parses to its negation |
| JavaNumbers.ParseBoolean | server/src/main/java/edu/brown/cs/student/main/server/handlers/AddListingHandler.java:41 | true exactly for the text "true" in any letter case; null gives false |
| Requests.Param | server/src/main/java/edu/brown/cs/student/main/server/handlers/UpdateListingHandler.java:40-49 | a missing key is null; a present one gives the value sent |
| Requests.TrimmedNonEmpty | server/src/main/java/edu/brown/cs/student/main/server/handlers/AddListingHandler.java:140-143 | no more pieces than given, each non-empty and without outer spaces |
| Requests.TrimmedNonEmptyOne | server/src/main/java/edu/brown/cs/student/main/server/handlers/AddListingHandler.java:140-143 | one piece gives its trim, or nothing when it is blank |
| Requests.TrimmedNonEmptyConcat | server/src/main/java/edu/brown/cs/student/main/server/handlers/AddListingHandler.java:140-143 | the pieces are handled one at a time and in order: the result for a concatenation is the concatenation of the results |
| Requests.TrimmedNonEmptyMembers | server/src/main/java/edu/brown/cs/student/main/server/handlers/AddListingHandler.java:140-143 | a string is in the result exactly when it is the trim of some non-blank piece |
| Requests.TrimmedNonEmptyAvoids | server/src/main/java/edu/brown/cs/student/main/server/handlers/AddListingHandler.java:140-143 | trimming and dropping pieces brings in no character that was not there |
| Requests.ParseTags | server/src/main/java/edu/brown/cs/student/main/server/handlers/AddListingHandler.java:136-144 | null or blank gives no tags; otherwise every tag is non-empty, has no outer spaces and holds no comma |
| Requests.ParseTagsPieces | server/src/main/java/edu/brown/cs/student/main/server/handlers/AddListingHandler.java:136-144 | for every present value the tags are the trimmed non-blank comma-separated pieces: the blank test never changes the answer |
| Requests.ParseTagsMembers | server/src/main/java/edu/brown/cs/student/main/server/handlers/AddListingHandler.java:136-144 | a tag is returned exactly when it is the trim of a non-blank piece between commas |
| Requests.ParseTagsAtComma | server/src/main/java/edu/brown/cs/student/main/server/handlers/AddListingHandler.java:136-144 | the text before the first comma gives the first tag unless it is blank, and the rest gives the remaining tags in order |
| Requests.ParseTagsOnePiece | server/src/main/java/edu/brown/cs/student/main/server/handlers/AddListingHandler.java:136-144 | text without a comma is one trimmed tag, or none when blank |
| Requests.ParseTagsSkipsBlankPiece | server/src/main/java/edu/brown/cs/student/main/server/handlers/AddListingHandler.java:136-144 | a blank piece between two commas gives no tag |
| Requests.ParseTagsExample | server/src/main/java/edu/brown/cs/student/main/server/handlers/AddListingHandler.java:136-144 | " a , ,b " parses to the tags a and b |
| Requests.SplitWithoutSeparator | server/src/main/java/edu/brown/cs/student/main/server/handlers/AddListingHandler.java:136-144 | a text without the separator splits into itself |
| Requests.SplitAtFirstSeparator | server/src/main/java/edu/brown/cs/student/main/server/handlers/AddListingHandler.java:136-144 | splitting cuts at the first separator and goes on with the rest |
| Requests.SplitJoin | server/src/main/java/edu/brown/cs/student/main/server/handlers/AddListingHandler.java:136-144 | split undoes join when no piece holds the separator |
| Requests.CleanPiecesKept | server/src/main/java/edu/brown/cs/student/main/server/handlers/AddListingHandler.java:140-143 | pieces that are already trimmed and non-empty pass unchanged |
| Requests.ParseTagsJoin | server/src/main/java/edu/brown/cs/student/main/server/handlers/AddListingHandler.java:136-144 | a comma-joined list of clean tags parses back to the same list in the same order |
| Requests.JoinStartsWithFirst | server/src/main/java/edu/brown/cs/student/main/server/handlers/AddListingHandler.java:136-144 | a join starts with the first character of its first piece |
| Requests.ValidateListingId | server/src/main/java/edu/brown/cs/student/main/server/handlers/UpdateListingHandler.java:98-103 | null or empty fails with "Listing ID is required"; otherwise the parseLong answer, always a 64-bit value |
| Requests.ListingIdRoundTrip | server/src/main/java/edu/brown/cs/student/main/server/handlers/UpdateListingHandler.java:98-103 | every 64-bit id written in decimal is accepted as itself |
| Requests.ParsePrice | server/src/main/java/edu/brown/cs/student/main/server/handlers/UpdateListingHandler.java:113-119 | succeeds exactly with a non-negative parsed value; passes on the parse failure; a negative value fails with "Price cannot be negative" |
| Requests.WholePriceAccepted | server/src/main/java/edu/brown/cs/student/main/server/handlers/UpdateListingHandler.java:113-119 | a whole number is a valid price, worth itself |
| Requests.NegativePriceRejected | server/src/main/java/edu/brown/cs/student/main/server/handlers/UpdateListingHandler.java:113-119 | a minus sign before a positive whole number is refused as negative |
| Responses.CaughtMessage | server/src/main/java/edu/brown/cs/student/main/server/handlers/AddListingHandler.java:69-76 | an illegal-argument exception (number format included) gives "Invalid input: " and its message, any other "Unexpected error: " and its message |
| Responses.ResponseMap | server/src/main/java/edu/brown/cs/student/main/server/handlers/AddListingHandler.java:58-76 | "response_type" is "success" exactly for a success; a failure holds only the type and the error; a success holds the type and all its fields |
| Responses.PutFailure | server/src/main/java/edu/brown/cs/student/main/server/handlers/AddListingHandler.java:69-76 | the two puts of a failure build the failure response map |
| ListingHandlers.ValidateSellerId | server/src/main/java/edu/brown/cs/student/main/server/handlers/AddListingHandler.java:83-88 | fails with "Seller ID is required" exactly when null or empty; otherwise passes the id on untrimmed |
| ListingHandlers.RequireText | server/src/main/java/edu/brown/cs/student/main/server/handlers/AddListingHandler.java:90-95 | fails with "<field> is required" exactly when null or blank; otherwise passes on the trimmed, non-empty text |
| ListingHandlers.ValidateRequiredPrice | server/src/main/java/edu/brown/cs/student/main/server/handlers/AddListingHandler.java:104-113 | missing or empty fails with "Price is required"; otherwise the price check's answer, never negative |
| ListingHandlers.ValidatedListing | server/src/main/java/edu/brown/cs/student/main/server/handlers/AddListingHandler.java:37-48 | a request that passes carries the seller id as sent, five trimmed non-empty texts, a non-negative parsed price, and the parsed availability and tags |
| ListingHandlers.AddListingResponse | server/src/main/java/edu/brown/cs/student/main/server/handlers/AddListingHandler.java:34-79 | a validation failure is "Invalid input: " and its message whatever the store does; for a valid request an exception from the store is its caught message; success exactly when validation passes and the store returns, and then the fields are the new id and the validated listing |
| ListingHandlers.AddListingEchoesRequest | server/src/main/java/edu/brown/cs/student/main/server/handlers/AddListingHandler.java:54-68 | the success map of a valid request is the new id and the trimmed request fields, the parsed price, availability and tags, under the handler's own keys |
| ListingHandlers.AddListingWithoutSellerId | server/src/main/java/edu/brown/cs/student/main/server/handlers/AddListingHandler.java:83-88 | without a seller id the request fails on it, whatever else it holds |
| ListingHandlers.AddListingBlankTitle | server/src/main/java/edu/brown/cs/student/main/server/handlers/AddListingHandler.java:90-95 | with a seller id and a blank title the request fails on the title |
| ListingHandlers.AddListingWithoutPrice | server/src/main/java/edu/brown/cs/student/main/server/handlers/AddListingHandler.java:104-107 | with the earlier fields valid and no price the request fails on the price |
| ListingHandlers.AddListingNegativePrice | server/src/main/java/edu/brown/cs/student/main/server/handlers/AddListingHandler.java:108-111 | with the earlier fields valid a negative price is refused |
| ListingHandlers.HandleAddListing | server/src/main/java/edu/brown/cs/student/main/server/handlers/AddListingHandler.java:34-79 | an invalid request leaves the store alone; a valid one stores the validated listing under the counter's value, advances the counter, and answers that id |
| ListingHandlers.PutAddedListing | server/src/main/java/edu/brown/cs/student/main/server/handlers/AddListingHandler.java:58-68 | the puts of the success branch build the success response with every listing field |
| ListingHandlers.TrimmedIfPresent | server/src/main/java/edu/brown/cs/student/main/server/handlers/UpdateListingHandler.java:105-131 | present exactly when sent, and then trimmed, with no blank check |
| ListingHandlers.OptionalPrice | server/src/main/java/edu/brown/cs/student/main/server/handlers/UpdateListingHandler.java:60 | an absent price is no price; a present one succeeds or fails exactly as the price check does |
| ListingHandlers.ValidatedUpdate | server/src/main/java/edu/brown/cs/student/main/server/handlers/UpdateListingHandler.java:40-65 | a valid update has a parsed id; each field is present exactly when sent and then trimmed or parsed; a present price is non-negative; availability is always given |
| ListingHandlers.UpdateListingResponse | server/src/main/java/edu/brown/cs/student/main/server/handlers/UpdateListingHandler.java:36-94 | a validation failure is "Invalid input: "; for a valid request an exception from the store is its caught message and a false is "Listing could not be updated"; success exactly for a valid request the store accepts, and then the fields echo the raw parameters |
| ListingHandlers.UpdateListingEchoesRawParameters | server/src/main/java/edu/brown/cs/student/main/server/handlers/UpdateListingHandler.java:69-80 | the success map is the message, the parsed id and every other parameter as sent (untrimmed), null where it was absent |
| ListingHandlers.UpdateListingWithoutId | server/src/main/java/edu/brown/cs/student/main/server/handlers/UpdateListingHandler.java:98-103 | without a listing id the update fails on it |
| ListingHandlers.UpdateListingNegativePrice | server/src/main/java/edu/brown/cs/student/main/server/handlers/UpdateListingHandler.java:113-119 | a present negative price is refused before the store is asked |
| ListingHandlers.HandleUpdateListing | server/src/main/java/edu/brown/cs/student/main/server/handlers/UpdateListingHandler.java:36-94 | a stored id is patched with the validated update and nothing else changes; an unknown id or an invalid request leaves the store alone; the response matches |
| ListingHandlers.PutUpdatedListing | server/src/main/java/edu/brown/cs/student/main/server/handlers/UpdateListingHandler.java:69-80 | the puts of the success branch echo the parameters |
| ListingHandlers.UpdateWithoutAvailable | server/src/main/java/edu/brown/cs/student/main/server/handlers/UpdateListingHandler.java:54-67 | an update that omits availability marks the listing unavailable, and an omitted title is kept |
| ListingHandlers.DecodeSorter | server/src/main/java/edu/brown/cs/student/main/server/handlers/GetListingsHandler.java:56-67 | absent means unsorted; the two names decode to their sorters; every other value fails with the sorter message |
| ListingHandlers.SorterNameDecodes | server/src/main/java/edu/brown/cs/student/main/server/handlers/GetListingsHandler.java:56-67 | each sorter's name decodes back to that sorter |
| ListingHandlers.ValidatedSearch | server/src/main/java/edu/brown/cs/student/main/server/handlers/GetListingsHandler.java:44-76 | a valid search passes title and category as sent, a price bound exactly when given and never negative, the parsed tags and the decoded sorter |
| ListingHandlers.SearchNegativeMinPrice | server/src/main/java/edu/brown/cs/student/main/server/handlers/GetListingsHandler.java:102-107 | a negative minimum price is refused |
| ListingHandlers.EmptySearchHasNoFilters | server/src/main/java/edu/brown/cs/student/main/server/handlers/GetListingsHandler.java:44-76 | a request without parameters is a search with no filters and no sorter |
| ListingHandlers.GetListingsResponse | server/src/main/java/edu/brown/cs/student/main/server/handlers/GetListingsHandler.java:37-91 | a validation failure is "Invalid input: "; for a valid query an exception from the store is its caught message; success exactly for a valid query the store answers, carrying the result and its length |
| ListingHandlers.HandleGetListings | server/src/main/java/edu/brown/cs/student/main/server/handlers/GetListingsHandler.java:37-91 | the response is the store's search result for the validated query, or the validation failure |
| ListingHandlers.PutSearchResult | server/src/main/java/edu/brown/cs/student/main/server/handlers/GetListingsHandler.java:78-80 | the puts of the success branch build the success response |
| ListingHandlers.SearchResultCounted | server/src/main/java/edu/brown/cs/student/main/server/handlers/GetListingsHandler.java:69-80 | a successful search reports every stored listing that passes the filters exactly once, and its count |
| ListingHandlers.GetListingByIdResponse | server/src/main/java/edu/brown/cs/student/main/server/handlers/GetListingsByIdHandler.java:36-66 | a bad id or any exception is "Invalid input: "; an absent listing is "Listing not found"; success exactly when the listing is there, carrying it |
| ListingHandlers.HandleGetListingById | server/src/main/java/edu/brown/cs/student/main/server/handlers/GetListingsByIdHandler.java:36-66 | the response is the one for what the store holds under the parsed id |
| ListingHandlers.FoundListingHasRequestedId | server/src/main/java/edu/brown/cs/student/main/server/handlers/GetListingsByIdHandler.java:45-60 | a found listing is the one stored under the id that was asked for |
| ListingHandlers.DeleteListingResponse | server/src/main/java/edu/brown/cs/student/main/server/handlers/DeleteListingHandler.java:33-61 | a bad id is "Invalid input: "; for a valid id an exception from the store is its caught message and a false is "Listing not found"; success exactly when the store deleted |
| ListingHandlers.HandleDeleteListing | server/src/main/java/edu/brown/cs/student/main/server/handlers/DeleteListingHandler.java:33-61 | the named listing is gone afterwards and nothing else changes; success exactly when it was there |
| ListingHandlers.DeleteTwice | server/src/main/java/edu/brown/cs/student/main/server/handlers/DeleteListingHandler.java:33-61 | the same delete sent twice: the first succeeds exactly when the listing was stored, the second always answers "Listing not found" |
| Phone.ParsePhone | server/src/main/java/edu/brown/cs/student/main/server/handlers/AddUserHandler.java:99-101 | an answered reading is well formed and spells exactly the input |
| Phone.ParseRender | server/src/main/java/edu/brown/cs/student/main/server/handlers/AddUserHandler.java:99-101 | every well-formed reading is found again from the text it spells, so a match has one reading |
| Phone.MatchPhone | server/src/main/java/edu/brown/cs/student/main/server/handlers/AddUserHandler.java:99-101 | true exactly when the text matches the phone pattern |
| Phone.RenderLength | server/src/main/java/edu/brown/cs/student/main/server/handlers/AddUserHandler.java:99-101 | a well-formed reading spells 10 to 17 characters |
| Phone.MatchLength | server/src/main/java/edu/brown/cs/student/main/server/handlers/AddUserHandler.java:99-101 | a matching text has 10 to 17 characters |
| Phone.TenDigitsMatch | server/src/main/java/edu/brown/cs/student/main/server/handlers/AddUserHandler.java:97-101 | ten plain digits match |
| Phone.BracketedAreaCodeMatches | server/src/main/java/edu/brown/cs/student/main/server/handlers/AddUserHandler.java:97-101 | a bracketed area code with dashes matches |
| Phone.FiveDigitsRejected | server/src/main/java/edu/brown/cs/student/main/server/handlers/AddUserHandler.java:99-101 | five digits do not match |
| UserHandlers.ValidateEmail | server/src/main/java/edu/brown/cs/student/main/server/handlers/AddUserHandler.java:69-80 | null or blank is "Email is required"; passes exactly when the lower-cased text as sent ends in one of the two school domains, and then gives it trimmed |
| UserHandlers.ValidateName | server/src/main/java/edu/brown/cs/student/main/server/handlers/AddUserHandler.java:82-91 | null or blank is "Name is required"; passes exactly when at least two characters remain after trimming, and gives the trimmed name |
| UserHandlers.ValidatePhoneNumber | server/src/main/java/edu/brown/cs/student/main/server/handlers/AddUserHandler.java:93-106 | null or blank is "Phone number is required"; passes exactly when the text without whitespace matches the phone pattern, and gives it trimmed |
| UserHandlers.ValidateSchool | server/src/main/java/edu/brown/cs/student/main/server/handlers/AddUserHandler.java:108-117 | null or blank is "School is required"; passes exactly for "brown" or "RISD" in any case as sent, and gives it trimmed |
| UserHandlers.SchoolNamesLowered | server/src/main/java/edu/brown/cs/student/main/server/handlers/AddUserHandler.java:112 | the two school names lower-case to "brown" and "risd" |
| UserHandlers.BrownEmailAccepted | server/src/main/java/edu/brown/cs/student/main/server/handlers/AddUserHandler.java:69-80 | any local part before "@brown.edu" is accepted |
| UserHandlers.TrailingSpaceEmailRejected | server/src/main/java/edu/brown/cs/student/main/server/handlers/AddUserHandler.java:74-79 | the domain is tested before trimming, so a trailing space makes the email invalid |
| UserHandlers.AcceptedSchool | server/src/main/java/edu/brown/cs/student/main/server/handlers/AddUserHandler.java:108-117 | an accepted school is one of the two names and is passed on unchanged |
| UserHandlers.ValidatedUser | server/src/main/java/edu/brown/cs/student/main/server/handlers/AddUserHandler.java:37-41 | a request that passes carries the clerk id as sent and each field validated as its check demands |
| UserHandlers.AddUserResponse | server/src/main/java/edu/brown/cs/student/main/server/handlers/AddUserHandler.java:33-65 | a validation failure is "Invalid input: " whatever the store does; for a valid request an exception from the store is its caught message; success exactly when validation passes and the store returns, and then the fields are the new id and the validated user |
| UserHandlers.AddUserEchoesRequest | server/src/main/java/edu/brown/cs/student/main/server/handlers/AddUserHandler.java:46-54 | the success map of a valid request is the new user id, the clerk id (null when absent), the trimmed email, name and phone number, and the school as sent |
| UserHandlers.AddUserEmpty | server/src/main/java/edu/brown/cs/student/main/server/handlers/AddUserHandler.java:69-72 | an empty request fails on the email first |
| UserHandlers.AddUserShortName | server/src/main/java/edu/brown/cs/student/main/server/handlers/AddUserHandler.java:86-88 | a valid email and a one-character name fail on the name |
| UserHandlers.AddUserBadPhone | server/src/main/java/edu/brown/cs/student/main/server/handlers/AddUserHandler.java:99-102 | valid email and name and a five-digit phone number fail on the phone number |
| UserHandlers.FiveDigitPhoneRejected | server/src/main/java/edu/brown/cs/student/main/server/handlers/AddUserHandler.java:93-106 | five digits are refused with "Invalid phone number format" |
| UserHandlers.HandleAddUser | server/src/main/java/edu/brown/cs/student/main/server/handlers/AddUserHandler.java:33-65 | a valid request stores the user under its clerk id and answers the new user count; an invalid one changes nothing |
| UserHandlers.PutAddedUser | server/src/main/java/edu/brown/cs/student/main/server/handlers/AddUserHandler.java:48-54 | the puts of the success branch build the success response |
| UserHandlers.IfPresent | server/src/main/java/edu/brown/cs/student/main/server/handlers/UpdateUserHandler.java:47-52 | an absent field is no change; a present one passes or fails as its check does |
| UserHandlers.ValidatedUserPatch | server/src/main/java/edu/brown/cs/student/main/server/handlers/UpdateUserHandler.java:39-52 | a field is changed exactly when sent, and then to its validated value |
| UserHandlers.UpdateUserResponse | server/src/main/java/edu/brown/cs/student/main/server/handlers/UpdateUserHandler.java:33-77 | a validation failure is "Invalid input: "; for a valid request an exception from the store is its caught message and a false is "User could not be updated"; success exactly for a valid request the store accepts, and then the fields echo the raw parameters |
| UserHandlers.UpdateUserEchoesRawParameters | server/src/main/java/edu/brown/cs/student/main/server/handlers/UpdateUserHandler.java:56-62 | the success map is the message and the clerk id, name, phone number and school as sent, null where absent |
| UserHandlers.UpdateUserEmptyPhone | server/src/main/java/edu/brown/cs/student/main/server/handlers/UpdateUserHandler.java:92-95 | a phone number that is sent empty is refused although the field is optional |
| UserHandlers.UpdateUserNothingSent | server/src/main/java/edu/brown/cs/student/main/server/handlers/UpdateUserHandler.java:39-54 | a request with none of the three fields changes nothing |
| UserHandlers.HandleUpdateUser | server/src/main/java/edu/brown/cs/student/main/server/handlers/UpdateUserHandler.java:33-77 | a stored clerk id gets the sent fields and nothing else changes; an unknown one or an invalid request changes nothing |
| UserHandlers.PutUpdatedUser | server/src/main/java/edu/brown/cs/student/main/server/handlers/UpdateUserHandler.java:56-62 | the puts of the success branch echo the parameters |
| UserHandlers.RequireId | server/src/main/java/edu/brown/cs/student/main/server/handlers/GetUserHandler.java:39-41 | fails with the given message exactly when null or blank; otherwise passes the id on as sent |
| UserHandlers.GetUserResponse | server/src/main/java/edu/brown/cs/student/main/server/handlers/GetUserHandler.java:33-61 | a missing clerk id is "Invalid input: "; for a present id an exception from the store is its caught message and an empty answer is "User not found"; success exactly for a non-empty answer, carrying it |
| UserHandlers.HandleGetUser | server/src/main/java/edu/brown/cs/student/main/server/handlers/GetUserHandler.java:33-61 | the response is the one for the store's record of the clerk id |
| UserHandlers.AddedUserIsFound | server/src/main/java/edu/brown/cs/student/main/server/handlers/GetUserHandler.java:43-51 | a user added with a clerk id is found under it with the validated name, phone number and school |
| UserHandlers.SellerListingsCaught | server/src/main/java/edu/brown/cs/student/main/server/handlers/GetUserListingsHandler.java:54-62 | a number-format exception has its own message; the others are caught as usual |
| UserHandlers.GetUserListingsResponse | server/src/main/java/edu/brown/cs/student/main/server/handlers/GetUserListingsHandler.java:34-66 | a missing seller id is "Invalid input: "; for a present id an exception from the store goes through the handler's own catch clauses ("Invalid seller ID format" for a number format error) and no listings is its own failure; success exactly for a non-empty list, carrying it |
| UserHandlers.HandleGetUserListings | server/src/main/java/edu/brown/cs/student/main/server/handlers/GetUserListingsHandler.java:34-66 | the response is the one for the seller's records in the store |
| UserHandlers.SellerListingsFound | server/src/main/java/edu/brown/cs/student/main/server/handlers/GetUserListingsHandler.java:45-53 | success exactly when the seller has a stored listing, and then every one of them is listed |
| RealStorage.CheckPrice | server/src/main/java/edu/brown/cs/student/main/server/storage/RealStorage.java:37-41 | fails with "Price cannot be negative" exactly for a negative price |
| RealStorage.LocalRun | server/src/main/java/edu/brown/cs/student/main/server/storage/RealStorage.java:30-34 | the longest prefix of local-part characters |
| RealStorage.MatchEmail | server/src/main/java/edu/brown/cs/student/main/server/storage/RealStorage.java:30-34 | true exactly when the whole text matches the email pattern |
| RealStorage.CheckEmail | server/src/main/java/edu/brown/cs/student/main/server/storage/RealStorage.java:30-34 | passes exactly a present address that matches the pattern; otherwise "Invalid email format" |
| RealStorage.SchoolEmailMatches | server/src/main/java/edu/brown/cs/student/main/server/storage/RealStorage.java:30-34 | a school address passes |
| RealStorage.EmptyLocalPartRejected | server/src/main/java/edu/brown/cs/student/main/server/storage/RealStorage.java:30-34 | nothing before the '@' fails |
| RealStorage.EmptyDomainRejected | server/src/main/java/edu/brown/cs/student/main/server/storage/RealStorage.java:30-34 | nothing after the '@' fails |
| RealStorage.CleanTags | server/src/main/java/edu/brown/cs/student/main/server/storage/RealStorage.java:355-365 | null or blank gives no tags; every tag is non-empty, has no outer spaces, and holds no comma and no junk character |
| RealStorage.CleanTagsPieces | server/src/main/java/edu/brown/cs/student/main/server/storage/RealStorage.java:355-365 | for every present column the tags are the trimmed non-blank comma-separated pieces of the text with the junk deleted: the blank test never changes the answer |
| RealStorage.CleanTagsMembers | server/src/main/java/edu/brown/cs/student/main/server/storage/RealStorage.java:355-365 | a tag is returned exactly when it is the trim of a non-blank comma-separated piece of the de-junked text |
| RealStorage.CleanTagsAtComma | server/src/main/java/edu/brown/cs/student/main/server/storage/RealStorage.java:355-365 | the text before the first comma, with the junk deleted, gives the first tag unless blank, and the rest gives the remaining tags in order |
| RealStorage.JoinHolds | server/src/main/java/edu/brown/cs/student/main/server/storage/RealStorage.java:360-364 | a character of a piece is a character of the join |
| RealStorage.RemoveAllConcat | server/src/main/java/edu/brown/cs/student/main/server/storage/RealStorage.java:360 | removing characters works piece by piece |
| RealStorage.CleanTagsOfArrayText | server/src/main/java/edu/brown/cs/student/main/server/storage/RealStorage.java:355-365 | a tag column printed as {t1,t2,...} is read back as the same list, for clean tags |
| RealStorage.BracesRemoved | server/src/main/java/edu/brown/cs/student/main/server/storage/RealStorage.java:360 | removing the junk from the braced text leaves the comma-joined tags |
| RealStorage.JoinMembers | server/src/main/java/edu/brown/cs/student/main/server/storage/RealStorage.java:361 | every character of a join other than the separator comes from one of the pieces |
| RealStorage.PlaceholdersConcat | server/src/main/java/edu/brown/cs/student/main/server/storage/RealStorage.java:150-202 | placeholder counts add up over appended texts |
| RealStorage.NoPlaceholder | server/src/main/java/edu/brown/cs/student/main/server/storage/RealStorage.java:150-202 | a text without '?' holds no placeholder |
| RealStorage.BindPlaceholder | server/src/main/java/edu/brown/cs/student/main/server/storage/RealStorage.java:150-202 | a clause text ending in its '?' holds one placeholder |
| RealStorage.FilterTextsPlain | server/src/main/java/edu/brown/cs/student/main/server/storage/RealStorage.java:157-188 | no filter text holds a '?' apart from its placeholder |
| RealStorage.FilterPlaceholder | server/src/main/java/edu/brown/cs/student/main/server/storage/RealStorage.java:157-188 | each filter appends exactly one placeholder |
| RealStorage.ParamsOf | server/src/main/java/edu/brown/cs/student/main/server/storage/RealStorage.java:157-188 | the parameters bound for a list of search clauses or SET items: exactly one per item, each that item's value, in item order |
| RealStorage.ClausePlaceholders | server/src/main/java/edu/brown/cs/student/main/server/storage/RealStorage.java:157-188 | the clause texts hold as many placeholders as there are parameters |
| RealStorage.AppendClause | server/src/main/java/edu/brown/cs/student/main/server/storage/RealStorage.java:157-188 | a clause added at the end adds its text and its parameter at the end |
| RealStorage.FieldClause | server/src/main/java/edu/brown/cs/student/main/server/storage/RealStorage.java:157-175 | the title adds its clause exactly when present and not blank, category and each price bound exactly when present, a tag never; each clause belongs to its filter |
| RealStorage.FieldClauseFilter | server/src/main/java/edu/brown/cs/student/main/server/storage/RealStorage.java:157-175 | a field filter's clause belongs to that filter |
| RealStorage.TagClauses | server/src/main/java/edu/brown/cs/student/main/server/storage/RealStorage.java:178-188 | one test per tag, in order, only the first opening the group, each bound to its tag |
| RealStorage.BuildSearchQuery | server/src/main/java/edu/brown/cs/student/main/server/storage/RealStorage.java:150-202 | the built text and parameter list are the search text and the clause parameters of the query |
| RealStorage.AppendTagGroup | server/src/main/java/edu/brown/cs/student/main/server/storage/RealStorage.java:178-188 | the tag group is appended only for a non-empty tag list, with one parameter per tag |
| RealStorage.AppendOrderBy | server/src/main/java/edu/brown/cs/student/main/server/storage/RealStorage.java:190-202 | the ORDER BY suffix of the sorter is appended, or nothing for an unsorted search |
| RealStorage.AddFilter | server/src/main/java/edu/brown/cs/student/main/server/storage/RealStorage.java:157-175 | one filter test appends the clause exactly when the filter applies |
| RealStorage.AddClause | server/src/main/java/edu/brown/cs/student/main/server/storage/RealStorage.java:157-175 | appending a clause's text and parameter keeps the builder equal to its clause list |
| RealStorage.BuildTagGroup | server/src/main/java/edu/brown/cs/student/main/server/storage/RealStorage.java:178-188 | the tag loop builds the tag group and appends one parameter per tag |
| RealStorage.AppendTagTest | server/src/main/java/edu/brown/cs/student/main/server/storage/RealStorage.java:180-186 | one loop pass appends the next tag test |
| RealStorage.NextTagClause | server/src/main/java/edu/brown/cs/student/main/server/storage/RealStorage.java:180-186 | one more tag adds " OR " (but not before the first) and one test, and its parameter |
| RealStorage.SearchPlaceholders | server/src/main/java/edu/brown/cs/student/main/server/storage/RealStorage.java:150-202 | the search text holds exactly one placeholder per parameter |
| RealStorage.BasePlain | server/src/main/java/edu/brown/cs/student/main/server/storage/RealStorage.java:152-153 | the base query holds no placeholder |
| RealStorage.TagGroupPlaceholders | server/src/main/java/edu/brown/cs/student/main/server/storage/RealStorage.java:178-188 | the tag group holds one placeholder per tag |
| RealStorage.OrderByPlain | server/src/main/java/edu/brown/cs/student/main/server/storage/RealStorage.java:190-202 | the ORDER BY suffix holds no placeholder |
| RealStorage.SearchOnlyAvailable | server/src/main/java/edu/brown/cs/student/main/server/storage/RealStorage.java:152-153 | every search text starts with the base query, which requires availability |
| RealStorage.SearchTitleParam | server/src/main/java/edu/brown/cs/student/main/server/storage/RealStorage.java:157-160 | the title is the first parameter exactly when it is not blank, then trimmed and lower-cased between wildcards; otherwise no title clause |
| RealStorage.SearchTagParams | server/src/main/java/edu/brown/cs/student/main/server/storage/RealStorage.java:178-188 | the tags are the last parameters, one per tag, in order, after the field filters' |
| RealStorage.TagParamsLast | server/src/main/java/edu/brown/cs/student/main/server/storage/RealStorage.java:178-188 | tag parameters follow whatever clauses come first |
| RealStorage.ClauseParamsConcat | server/src/main/java/edu/brown/cs/student/main/server/storage/RealStorage.java:150-202 | parameters of two clause lists are appended in order |
| RealStorage.SearchOrder | server/src/main/java/edu/brown/cs/student/main/server/storage/RealStorage.java:190-202 | a sorted search ends with its ORDER BY; an unsorted one is base, filters and tag group only |
| RealStorage.TwoTagGroup | server/src/main/java/edu/brown/cs/student/main/server/storage/RealStorage.java:178-188 | two tags give both tests joined by OR in parentheses, with both tags as parameters |
| RealStorage.EmptySearchSql | server/src/main/java/edu/brown/cs/student/main/server/storage/RealStorage.java:150-202 | a search with no filters is the base query with no parameters |
| RealStorage.ItemPlaceholder | server/src/main/java/edu/brown/cs/student/main/server/storage/RealStorage.java:425-471 | each SET item holds one placeholder |
| RealStorage.ColumnPlain | server/src/main/java/edu/brown/cs/student/main/server/storage/RealStorage.java:425-471 | no SET item text holds a '?' before its placeholder |
| RealStorage.SetListPlaceholders | server/src/main/java/edu/brown/cs/student/main/server/storage/RealStorage.java:425-471 | the SET list holds one placeholder per item |
| RealStorage.UpdatePlaceholders | server/src/main/java/edu/brown/cs/student/main/server/storage/RealStorage.java:425-479 | an UPDATE text holds one placeholder per SET item plus one for the row |
| RealStorage.AppendAssignment | server/src/main/java/edu/brown/cs/student/main/server/storage/RealStorage.java:426-427 | one builder step appends ", " unless first, the item text and its value |
| RealStorage.AppendIfSet | server/src/main/java/edu/brown/cs/student/main/server/storage/RealStorage.java:425-471 | one null test appends the item exactly when the field is set |
| RealStorage.ListingField | server/src/main/java/edu/brown/cs/student/main/server/storage/RealStorage.java:425-471 | each listing field adds at most one SET item, for its own column; availability always adds one; user columns none |
| RealStorage.BuildListingUpdate | server/src/main/java/edu/brown/cs/student/main/server/storage/RealStorage.java:410-479 | a negative new price is refused; otherwise the statement is the SET list of the present fields and the row id |
| RealStorage.ListingUpdateShape | server/src/main/java/edu/brown/cs/student/main/server/storage/RealStorage.java:410-479 | a listing update has one placeholder per parameter, always sets availability, and binds the row id last |
| RealStorage.ParamAmong | server/src/main/java/edu/brown/cs/student/main/server/storage/RealStorage.java:425-479 | an item's value is among the statement's parameters |
| RealStorage.AvailabilityOnlyUpdate | server/src/main/java/edu/brown/cs/student/main/server/storage/RealStorage.java:461-479 | an update with only the availability sets that one column for the row |
| RealStorage.UserField | server/src/main/java/edu/brown/cs/student/main/server/storage/RealStorage.java:92-108 | name, phone number and school each add one SET item exactly when present, for their own column; other columns none |
| RealStorage.BuildUserUpdate | server/src/main/java/edu/brown/cs/student/main/server/storage/RealStorage.java:82-111 | the statement is the SET list of the present fields and the clerk id, bound as null when it is missing |
| RealStorage.UserUpdateShape | server/src/main/java/edu/brown/cs/student/main/server/storage/RealStorage.java:82-111 | a user update has one placeholder per parameter and binds the clerk id last, or null when there is none |
| RealStorage.EmptyUserUpdate | server/src/main/java/edu/brown/cs/student/main/server/storage/RealStorage.java:82-111 | with nothing to change the statement has an empty SET list, and is still built |

## Left out

- Serialization to JSON (Moshi, Gson), the Spark routes, HTTP status codes, the server's
  start-up, `Utils`, `DefaultHandler` and console logging are not modelled. A handler's
  result is its response map.
- RealStorage's database round trips are left out, because the database is outside the
  model: the connection, statement execution, and reading result rows back into listings
  and user maps. This covers `createUser`, `createListing`, `getUser`, `getListingById`,
  `obtainListing`, `deleteListing`, `getListingsBySellerId`, and the executing half of
  `getListings`, `updateListing` and `updateUser`. Only the query text, the parameter
  list and the argument checks are modelled.
- Connection and SQL failures are not modelled. The handlers take any store failure as an
  `Answer.Threw` value and are proved to report it through their catch clauses.
- `connection.createArrayOf("TEXT", ...)` is modelled as the parameter `TextArray(tags)`.
- Concurrent requests against one store are not modelled. Every handler runs alone.
- The unused `validateListingId` of the get-listings handler and `StorageInterface`
  (a Java interface with no behaviour) have no members of their own.
- Storage.MockStorage.GetListings: the Java search iterates a `HashMap`, whose order is
  unspecified. The model fixes that order as ascending listing id. The model's price
  sort is stable, so equal prices keep that order. Java promises no order among them.
- Storage.SortByPrice: prices are exact `real` values, so `Float.compare`'s treatment of
  NaN and of -0.0 against 0.0 is not modelled.
- Storage.MockStorage.ObtainListing: the store holds listing values, not shared objects.
  The Java store hands out the stored `Listing` object itself, so a caller's later setter
  calls change the store. The model returns a fresh object, and this aliasing is not
  modelled. `getListings` and `updateListing` likewise share objects with the store in
  Java and not in the model.
- Storage.MockStorage.CreateListing: the listing counter is an unbounded integer, so the
  wrap-around of a `Long` after 2^63 - 1 listings is not modelled.
- JavaNumbers.ParseFloat: only plain decimal notation is accepted (an optional sign,
  digits, at most one point). Java also accepts exponents, hexadecimal floats, `NaN`,
  `Infinity` and a trailing `f` or `d`. The model rejects those, so for them a handler
  reports a format error where Java would go on. The value is the exact decimal, without
  rounding to 32-bit float precision.
- JavaNumbers.ParseLong: only the ASCII digits `0`-`9` are read. `Long.parseLong` reads
  digits through `Character.digit`, so it also accepts other Unicode decimal digits, such
  as Arabic-Indic or full-width ones. The model rejects those as a format error. This
  weakens the answer for the listing and seller ids.
- JavaStrings.ToLower: only the ASCII letters are lower-cased. Java's locale-dependent
  mapping of other letters is not modelled. The same holds for `EqualsIgnoreCase`.
- JavaStrings.Split: trailing empty pieces are kept, while Java's `split` drops them.
  Every caller drops empty pieces afterwards, so no result differs.
- The two regular expressions (the phone pattern and the email pattern) are stated as
  predicates: `Phone.MatchesPhonePattern` and `RealStorage.MatchesEmailPattern`. The
  matchers are proved to decide exactly those predicates. Java's regex engine itself is
  not modelled.
- RealStorage.AppendOrderBy: the `default` branch of the sorter switch throws, but it
  cannot be reached, because `Sorter` has exactly two values. The model has no such
  branch.
- RealStorage.BuildListingUpdate: the "No fields to update" branch returns false, but it
  cannot be reached, because the availability flag is a primitive and always sets a
  column. The model has no such branch; `ListingUpdateShape` proves that the flag is
  always among the parameters.
- RealStorage.BuildListingUpdate: the `IllegalArgumentException` of `validatePrice` is
  modelled as a `Failure` result carrying its message.
