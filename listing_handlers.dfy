/**
 * The five listing endpoints: add-listing, update-listing, get-listings,
 * get-listing-by-id and delete-listing. Each one validates its query parameters in a
 * fixed order, asks the store, and fills a response map.
 *
 * For every endpoint there is a pure `...Response` function over the parameters and the
 * store's answer (a value or an exception), and a `Handle...` method that runs against
 * the in-memory store, fills the map put by put, and is proved to produce exactly the
 * response the function describes.
 */
module ListingHandlers {
  import opened Wrappers
  import opened JavaStrings
  import opened JavaNumbers
  import opened Classes
  import opened Storage
  import opened Requests
  import opened Responses

  // ---------------------------------------------------------------- add-listing

  /** validateSellerId: rejected only when null or empty; passed on untrimmed. */
  function ValidateSellerId(sellerIdStr: Option<string>): (r: Result<string>)
    ensures r.Success? <==> sellerIdStr.Some? && sellerIdStr.value != []
    ensures r.Success? ==> r.value == sellerIdStr.value
    ensures r.Failure? ==> r.error == "Seller ID is required"
  {
    if sellerIdStr.None? || sellerIdStr.value == [] then Failure("Seller ID is required")
    else Success(sellerIdStr.value)
  }

  /**
   * validateTitle, validateDescription, validateCategory, validateCondition and
   * validateImageUrl: rejected when null or blank, passed on trimmed.
   */
  function RequireText(value: Option<string>, field: string): (r: Result<string>)
    ensures r.Success? <==> value.Some? && !IsBlank(value.value)
    ensures r.Success? ==> r.value == Trim(value.value) && r.value != [] && NoOuterSpace(r.value)
    ensures r.Failure? ==> r.error == field + " is required"
  {
    if value.None? || IsBlank(value.value) then Failure(field + " is required")
    else Success(Trim(value.value))
  }

  /** validatePrice of add-listing: present and non-empty, then a non-negative float. */
  function ValidateRequiredPrice(priceStr: Option<string>): (r: Result<real>)
    ensures priceStr.None? || priceStr.value == [] ==> r == Failure("Price is required")
    ensures priceStr.Some? && priceStr.value != [] ==> r == ParsePrice(priceStr.value)
    ensures r.Success? ==> r.value >= 0.0
  {
    if priceStr.None? || priceStr.value == [] then Failure("Price is required")
    else ParsePrice(priceStr.value)
  }

  /** The validated arguments of createListing. */
  datatype NewListing = NewListing(
    sellerId: string,
    title: string,
    available: bool,
    description: string,
    price: real,
    category: string,
    condition: string,
    imageUrl: string,
    tags: seq<string>)

  /**
   * The message of the first add-listing check that fails, in the handler's order:
   * seller id, title, description, price, category, condition, image URL. Availability
   * (parsed between title and description) and tags (parsed last) cannot fail.
   */
  function AddListingError(p: Params): Option<string> {
    var sellerId := ValidateSellerId(Param(p, "seller_id"));
    var title := RequireText(Param(p, "title"), "Title");
    var description := RequireText(Param(p, "description"), "Description");
    var price := ValidateRequiredPrice(Param(p, "price"));
    var category := RequireText(Param(p, "category"), "Category");
    var condition := RequireText(Param(p, "condition"), "Condition");
    var imageUrl := RequireText(Param(p, "image_url"), "Image URL");
    if sellerId.Failure? then Some(sellerId.error)
    else if title.Failure? then Some(title.error)
    else if description.Failure? then Some(description.error)
    else if price.Failure? then Some(price.error)
    else if category.Failure? then Some(category.error)
    else if condition.Failure? then Some(condition.error)
    else if imageUrl.Failure? then Some(imageUrl.error)
    else None
  }

  /** The validation part of add-listing: the first failing check, or the validated values. */
  function ValidateNewListing(p: Params): Result<NewListing> {
    match AddListingError(p)
    case Some(msg) => Failure(msg)
    case None =>
      Success(NewListing(
        ValidateSellerId(Param(p, "seller_id")).value,
        RequireText(Param(p, "title"), "Title").value,
        ParseBoolean(Param(p, "available")),
        RequireText(Param(p, "description"), "Description").value,
        ValidateRequiredPrice(Param(p, "price")).value,
        RequireText(Param(p, "category"), "Category").value,
        RequireText(Param(p, "condition"), "Condition").value,
        RequireText(Param(p, "image_url"), "Image URL").value,
        ParseTags(Param(p, "tags"))))
  }

  /**
   * What a request that passes add-listing validation carries: the seller id as sent,
   * the five text fields trimmed and non-empty, a non-negative price read from the price
   * parameter, and the parsed availability and tags.
   */
  lemma ValidatedListing(p: Params)
    requires ValidateNewListing(p).Success?
    ensures var v := ValidateNewListing(p).value;
      && "seller_id" in p && v.sellerId == p["seller_id"] && v.sellerId != []
      && "title" in p && v.title == Trim(p["title"]) && v.title != []
      && "description" in p && v.description == Trim(p["description"]) && v.description != []
      && "category" in p && v.category == Trim(p["category"]) && v.category != []
      && "condition" in p && v.condition == Trim(p["condition"]) && v.condition != []
      && "image_url" in p && v.imageUrl == Trim(p["image_url"]) && v.imageUrl != []
      && "price" in p && v.price >= 0.0 && ParseFloat(p["price"]) == Success(v.price)
      && v.available == ParseBoolean(Param(p, "available"))
      && v.tags == ParseTags(Param(p, "tags"))
  {
  }

  /** The fields of a successful add-listing response. */
  function AddedListingFields(id: int, v: NewListing): map<string, Value> {
    map[
      "listing_id" := Int(id),
      "sellerId" := Str(v.sellerId),
      "title" := Str(v.title),
      "available" := Bool(v.available),
      "description" := Str(v.description),
      "price" := Num(v.price),
      "category" := Str(v.category),
      "condition" := Str(v.condition),
      "imageUrl" := Str(v.imageUrl),
      "tags" := Strs(v.tags)]
  }

  /**
   * Add-listing, given what createListing answered. A request that fails validation gets
   * "Invalid input: " and its message whatever the store would have done, since the store
   * is never reached.
   */
  function AddListingResponse(p: Params, answer: Answer<int>): (r: Response)
    ensures ValidateNewListing(p).Failure? ==> r == Failed(INVALID_INPUT + ValidateNewListing(p).error)
    ensures r.Succeeded? <==> ValidateNewListing(p).Success? && answer.Returned?
    ensures ValidateNewListing(p).Success? && answer.Threw? ==> r == Failed(CaughtMessage(answer.exn))
    ensures r.Succeeded? ==> r.fields == AddedListingFields(answer.value, ValidateNewListing(p).value)
  {
    match ValidateNewListing(p)
    case Failure(msg) => Failed(INVALID_INPUT + msg)
    case Success(v) =>
      match answer
      case Threw(e) => Failed(CaughtMessage(e))
      case Returned(id) => Succeeded(AddedListingFields(id, v))
  }

  /**
   * A successful add-listing answers the store's id and echoes the request: the seller id
   * as sent, the text fields trimmed, the parsed price, availability and tags.
   */
  lemma AddListingEchoesRequest(p: Params, id: int)
    requires ValidateNewListing(p).Success?
    ensures AddListingResponse(p, Returned(id)) == Succeeded(map[
      "listing_id" := Int(id),
      "sellerId" := Str(p["seller_id"]),
      "title" := Str(Trim(p["title"])),
      "available" := Bool(ParseBoolean(Param(p, "available"))),
      "description" := Str(Trim(p["description"])),
      "price" := Num(ParseFloat(p["price"]).value),
      "category" := Str(Trim(p["category"])),
      "condition" := Str(Trim(p["condition"])),
      "imageUrl" := Str(Trim(p["image_url"])),
      "tags" := Strs(ParseTags(Param(p, "tags")))])
  {
    ValidatedListing(p);
  }

  /** A request without a seller id fails on it, whatever else it holds: the all-blank request. */
  lemma AddListingWithoutSellerId(p: Params, answer: Answer<int>)
    requires "seller_id" !in p || p["seller_id"] == ""
    ensures AddListingResponse(p, answer) == Failed(INVALID_INPUT + "Seller ID is required")
  {
  }

  /** A request whose seller id passes but whose title is blank fails on the title. */
  lemma AddListingBlankTitle(p: Params, answer: Answer<int>)
    requires "seller_id" in p && p["seller_id"] != ""
    requires "title" !in p || IsBlank(p["title"])
    ensures AddListingResponse(p, answer) == Failed(INVALID_INPUT + "Title is required")
  {
  }

  /** Seller id, title and description pass but the price is missing: the price check speaks. */
  lemma AddListingWithoutPrice(p: Params, answer: Answer<int>)
    requires "seller_id" in p && p["seller_id"] != ""
    requires "title" in p && !IsBlank(p["title"])
    requires "description" in p && !IsBlank(p["description"])
    requires "price" !in p || p["price"] == ""
    ensures AddListingResponse(p, answer) == Failed(INVALID_INPUT + "Price is required")
  {
  }

  /** A negative price is refused once the fields checked before it pass. */
  lemma AddListingNegativePrice(p: Params, n: nat, answer: Answer<int>)
    requires n > 0
    requires "seller_id" in p && p["seller_id"] != ""
    requires "title" in p && !IsBlank(p["title"])
    requires "description" in p && !IsBlank(p["description"])
    requires "price" in p && p["price"] == "-" + NatToString(n)
    ensures AddListingResponse(p, answer) == Failed(INVALID_INPUT + "Price cannot be negative")
  {
    NegativePriceRejected(n);
  }

  /** The listing the store keeps for a validated request. */
  function StoredListing(id: int, v: NewListing): ListingValue {
    ListingValue(id, v.sellerId, v.title, v.description, v.price, v.category, v.condition, v.imageUrl, v.tags, v.available)
  }

  /**
   * The add-listing handler against the in-memory store: a request that fails validation
   * leaves the store alone; one that passes stores the validated listing under the
   * counter's value, and the response carries that id.
   */
  method HandleAddListing(store: MockStorage, p: Params) returns (responseMap: map<string, Value>)
    requires store.Valid()
    modifies store
    ensures store.Valid()
    ensures responseMap == ResponseMap(AddListingResponse(p, Returned(old(store.nextListingId))))
    ensures ValidateNewListing(p).Failure? ==>
      store.listingStorage == old(store.listingStorage) && store.nextListingId == old(store.nextListingId)
    ensures ValidateNewListing(p).Success? ==>
      && store.listingStorage == old(store.listingStorage)[old(store.nextListingId) :=
           StoredListing(old(store.nextListingId), ValidateNewListing(p).value)]
      && store.nextListingId == old(store.nextListingId) + 1
    ensures store.userStorage == old(store.userStorage)
  {
    var validated := ValidateNewListing(p);
    if validated.Failure? {
      responseMap := PutFailure(INVALID_INPUT + validated.error);
      return;
    }
    var v := validated.value;
    var listingId := store.CreateListing(v.sellerId, v.title, v.available, v.description, v.price,
                                         v.category, v.condition, v.imageUrl, Some(v.tags));
    assert AddListingResponse(p, Returned(listingId)) == Succeeded(AddedListingFields(listingId, v));
    responseMap := PutAddedListing(listingId, v);
  }

  /**
   * The puts of add-listing's success branch. The response map is a hash map, so the
   * order of the puts is immaterial; "response_type" comes last here as in ResponseMap.
   */
  method PutAddedListing(listingId: int, v: NewListing) returns (responseMap: map<string, Value>)
    ensures responseMap == ResponseMap(Succeeded(AddedListingFields(listingId, v)))
  {
    responseMap := map[];
    responseMap := responseMap["listing_id" := Int(listingId)];
    responseMap := responseMap["sellerId" := Str(v.sellerId)];
    responseMap := responseMap["title" := Str(v.title)];
    responseMap := responseMap["available" := Bool(v.available)];
    responseMap := responseMap["description" := Str(v.description)];
    responseMap := responseMap["price" := Num(v.price)];
    responseMap := responseMap["category" := Str(v.category)];
    responseMap := responseMap["condition" := Str(v.condition)];
    responseMap := responseMap["imageUrl" := Str(v.imageUrl)];
    responseMap := responseMap["tags" := Strs(v.tags)];
    responseMap := responseMap["response_type" := Str("success")];
  }

  // ------------------------------------------------------------- update-listing

  /** The trim validators of update-listing: a present value is trimmed, with no blank check. */
  function TrimmedIfPresent(value: Option<string>): (r: Option<string>)
    ensures r.Some? <==> value.Some?
    ensures r.Some? ==> r.value == Trim(value.value) && NoOuterSpace(r.value)
  {
    if value.Some? then Some(Trim(value.value)) else None
  }

  /** validatePrice applied only to a present price; an absent one is no price. */
  function OptionalPrice(priceStr: Option<string>): (r: Result<Option<real>>)
    ensures priceStr.None? ==> r == Success(None)
    ensures priceStr.Some? ==> (r.Success? <==> ParsePrice(priceStr.value).Success?)
    ensures priceStr.Some? && r.Success? ==> r.value == Some(ParsePrice(priceStr.value).value)
    ensures priceStr.Some? && r.Failure? ==> r.error == ParsePrice(priceStr.value).error
  {
    if priceStr.None? then Success(None)
    else
      var price :- ParsePrice(priceStr.value);
      Success(Some(price))
  }

  /** The id and the patch an update request asks for. */
  datatype ListingUpdate = ListingUpdate(listingId: int, patch: ListingPatch)

  /**
   * The validation part of update-listing: the listing id, then the price if present;
   * every other field is optional and only trimmed, and availability is parseBoolean of
   * the parameter, absent or not.
   */
  function ValidateListingUpdate(p: Params): Result<ListingUpdate> {
    var listingId := ValidateListingId(Param(p, "listing_id"));
    var price := OptionalPrice(Param(p, "price"));
    if listingId.Failure? then Failure(listingId.error)
    else if price.Failure? then Failure(price.error)
    else
      Success(ListingUpdate(listingId.value, ListingPatch(
        TrimmedIfPresent(Param(p, "title")),
        TrimmedIfPresent(Param(p, "description")),
        price.value,
        TrimmedIfPresent(Param(p, "category")),
        TrimmedIfPresent(Param(p, "condition")),
        TrimmedIfPresent(Param(p, "image_url")),
        if "tags" in p then Some(ParseTags(Param(p, "tags"))) else None,
        ParseBoolean(Param(p, "available")))))
  }

  /**
   * What a valid update asks the store for: an absent field stays None (left unchanged),
   * a present one is trimmed but may be blank, a present price is non-negative, and
   * availability is always given.
   */
  lemma ValidatedUpdate(p: Params)
    requires ValidateListingUpdate(p).Success?
    ensures var u := ValidateListingUpdate(p).value;
      && ValidateListingId(Param(p, "listing_id")) == Success(u.listingId)
      && (u.patch.title.Some? <==> "title" in p)
      && (u.patch.title.Some? ==> u.patch.title.value == Trim(p["title"]))
      && (u.patch.description.Some? <==> "description" in p)
      && (u.patch.description.Some? ==> u.patch.description.value == Trim(p["description"]))
      && (u.patch.category.Some? <==> "category" in p)
      && (u.patch.category.Some? ==> u.patch.category.value == Trim(p["category"]))
      && (u.patch.condition.Some? <==> "condition" in p)
      && (u.patch.condition.Some? ==> u.patch.condition.value == Trim(p["condition"]))
      && (u.patch.imageUrl.Some? <==> "image_url" in p)
      && (u.patch.imageUrl.Some? ==> u.patch.imageUrl.value == Trim(p["image_url"]))
      && (u.patch.price.Some? <==> "price" in p)
      && (u.patch.price.Some? ==> u.patch.price.value >= 0.0 && ParseFloat(p["price"]) == Success(u.patch.price.value))
      && (u.patch.tags.Some? <==> "tags" in p)
      && (u.patch.tags.Some? ==> u.patch.tags.value == ParseTags(Param(p, "tags")))
      && u.patch.available == ParseBoolean(Param(p, "available"))
  {
  }

  /** The fields of a successful update-listing response: the raw parameters, echoed. */
  function UpdatedListingFields(p: Params, listingId: int): map<string, Value> {
    map[
      "message" := Str("Listing updated successfully"),
      "listing_id" := Int(listingId),
      "seller_id" := OptStr(Param(p, "seller_id")),
      "title" := OptStr(Param(p, "title")),
      "description" := OptStr(Param(p, "description")),
      "price" := OptStr(Param(p, "price")),
      "category" := OptStr(Param(p, "category")),
      "condition" := OptStr(Param(p, "condition")),
      "image_url" := OptStr(Param(p, "image_url")),
      "tags" := OptStr(Param(p, "tags"))]
  }

  /** Update-listing, given what updateListing answered. */
  function UpdateListingResponse(p: Params, answer: Answer<bool>): (r: Response)
    ensures ValidateListingUpdate(p).Failure? ==> r == Failed(INVALID_INPUT + ValidateListingUpdate(p).error)
    ensures ValidateListingUpdate(p).Success? && answer == Returned(false) ==>
      r == Failed("Listing could not be updated")
    ensures r.Succeeded? <==> ValidateListingUpdate(p).Success? && answer == Returned(true)
    ensures ValidateListingUpdate(p).Success? && answer.Threw? ==> r == Failed(CaughtMessage(answer.exn))
    ensures r.Succeeded? ==> r.fields == UpdatedListingFields(p, ValidateListingUpdate(p).value.listingId)
  {
    match ValidateListingUpdate(p)
    case Failure(msg) => Failed(INVALID_INPUT + msg)
    case Success(u) =>
      match answer
      case Threw(e) => Failed(CaughtMessage(e))
      case Returned(updated) =>
        if updated then Succeeded(UpdatedListingFields(p, u.listingId))
        else Failed("Listing could not be updated")
  }

  /**
   * A successful update echoes the parameters as sent, untrimmed, and null for the ones
   * not sent, next to the parsed listing id.
   */
  lemma UpdateListingEchoesRawParameters(p: Params)
    requires ValidateListingUpdate(p).Success?
    ensures UpdateListingResponse(p, Returned(true)) == Succeeded(map[
      "message" := Str("Listing updated successfully"),
      "listing_id" := Int(ValidateListingId(Param(p, "listing_id")).value),
      "seller_id" := if "seller_id" in p then Str(p["seller_id"]) else Null,
      "title" := if "title" in p then Str(p["title"]) else Null,
      "description" := if "description" in p then Str(p["description"]) else Null,
      "price" := if "price" in p then Str(p["price"]) else Null,
      "category" := if "category" in p then Str(p["category"]) else Null,
      "condition" := if "condition" in p then Str(p["condition"]) else Null,
      "image_url" := if "image_url" in p then Str(p["image_url"]) else Null,
      "tags" := if "tags" in p then Str(p["tags"]) else Null])
  {
    ValidatedUpdate(p);
  }

  /** Without a listing id the update fails on it, whatever the store would do. */
  lemma UpdateListingWithoutId(p: Params, answer: Answer<bool>)
    requires "listing_id" !in p || p["listing_id"] == ""
    ensures UpdateListingResponse(p, answer) == Failed(INVALID_INPUT + "Listing ID is required")
  {
  }

  /** A present negative price is refused before the store is asked. */
  lemma UpdateListingNegativePrice(p: Params, n: nat, answer: Answer<bool>)
    requires n > 0
    requires ValidateListingId(Param(p, "listing_id")).Success?
    requires "price" in p && p["price"] == "-" + NatToString(n)
    ensures UpdateListingResponse(p, answer) == Failed(INVALID_INPUT + "Price cannot be negative")
  {
    NegativePriceRejected(n);
  }

  /**
   * The update-listing handler against the in-memory store: a stored id is patched and
   * nothing else changes; an unknown id or a request that fails validation leaves the
   * store alone.
   */
  method HandleUpdateListing(store: MockStorage, p: Params) returns (responseMap: map<string, Value>)
    requires store.Valid()
    modifies store
    ensures store.Valid()
    ensures ValidateListingUpdate(p).Failure? ==>
      && responseMap == ResponseMap(Failed(INVALID_INPUT + ValidateListingUpdate(p).error))
      && store.listingStorage == old(store.listingStorage)
    ensures ValidateListingUpdate(p).Success? ==>
      var u := ValidateListingUpdate(p).value;
      && responseMap == ResponseMap(UpdateListingResponse(p, Returned(u.listingId in old(store.listingStorage))))
      && (u.listingId in old(store.listingStorage) ==>
            store.listingStorage == old(store.listingStorage)[u.listingId := Patched(old(store.listingStorage)[u.listingId], u.patch)])
      && (u.listingId !in old(store.listingStorage) ==> store.listingStorage == old(store.listingStorage))
    ensures store.userStorage == old(store.userStorage) && store.nextListingId == old(store.nextListingId)
  {
    var validated := ValidateListingUpdate(p);
    if validated.Failure? {
      responseMap := PutFailure(INVALID_INPUT + validated.error);
      return;
    }
    var u := validated.value;
    var updated := store.UpdateListing(u.listingId, u.patch);
    if updated {
      assert UpdateListingResponse(p, Returned(true)) == Succeeded(UpdatedListingFields(p, u.listingId));
      responseMap := PutUpdatedListing(p, u.listingId);
    } else {
      responseMap := PutFailure("Listing could not be updated");
    }
  }

  /** The puts of update-listing's success branch. */
  method PutUpdatedListing(p: Params, listingId: int) returns (responseMap: map<string, Value>)
    ensures responseMap == ResponseMap(Succeeded(UpdatedListingFields(p, listingId)))
  {
    responseMap := map[];
    responseMap := responseMap["message" := Str("Listing updated successfully")];
    responseMap := responseMap["listing_id" := Int(listingId)];
    responseMap := responseMap["seller_id" := OptStr(Param(p, "seller_id"))];
    responseMap := responseMap["title" := OptStr(Param(p, "title"))];
    responseMap := responseMap["description" := OptStr(Param(p, "description"))];
    responseMap := responseMap["price" := OptStr(Param(p, "price"))];
    responseMap := responseMap["category" := OptStr(Param(p, "category"))];
    responseMap := responseMap["condition" := OptStr(Param(p, "condition"))];
    responseMap := responseMap["image_url" := OptStr(Param(p, "image_url"))];
    responseMap := responseMap["tags" := OptStr(Param(p, "tags"))];
    responseMap := responseMap["response_type" := Str("success")];
  }

  /**
   * An update that omits `available` marks a stored listing unavailable, and a field the
   * request omits keeps its stored value.
   */
  lemma UpdateWithoutAvailable(l: ListingValue, p: Params)
    requires "available" !in p && "title" !in p
    requires ValidateListingUpdate(p).Success?
    ensures !Patched(l, ValidateListingUpdate(p).value.patch).available
    ensures Patched(l, ValidateListingUpdate(p).value.patch).title == l.title
  {
    ValidatedUpdate(p);
  }

  // --------------------------------------------------------------- get-listings

  /** The sorter names the request may carry. */
  function SorterName(s: Sorter): string {
    match s
    case PriceAsc => "PRICE_ASC"
    case PriceDesc => "PRICE_DESC"
  }

  /** The sorter if-chain: absent means no order; the two names exactly; anything else fails. */
  function DecodeSorter(sorterStr: Option<string>): (r: Result<Option<Sorter>>)
    ensures sorterStr.None? ==> r == Success(None)
    ensures r.Success? && r.value.Some? ==> sorterStr == Some(SorterName(r.value.value))
    ensures r.Failure? <==> sorterStr.Some? && sorterStr.value != "PRICE_ASC" && sorterStr.value != "PRICE_DESC"
    ensures r.Failure? ==> r.error == "Invalid input for sorter. It is either PRICE_ASC or PRICE_DESC"
  {
    if sorterStr.None? then Success(None)
    else if sorterStr.value == "PRICE_ASC" then Success(Some(PriceAsc))
    else if sorterStr.value == "PRICE_DESC" then Success(Some(PriceDesc))
    else Failure("Invalid input for sorter. It is either PRICE_ASC or PRICE_DESC")
  }

  /** Each sorter's name decodes to that sorter. */
  lemma SorterNameDecodes(s: Sorter)
    ensures DecodeSorter(Some(SorterName(s))) == Success(Some(s))
  {
  }

  /**
   * The validation part of get-listings, in the handler's order: minimum price, maximum
   * price, tags (which cannot fail), sorter. Title and category go to the store as sent.
   */
  function ValidateSearch(p: Params): Result<SearchQuery> {
    var minPrice := OptionalPrice(Param(p, "minPrice"));
    var maxPrice := OptionalPrice(Param(p, "maxPrice"));
    var sorter := DecodeSorter(Param(p, "sorter"));
    if minPrice.Failure? then Failure(minPrice.error)
    else if maxPrice.Failure? then Failure(maxPrice.error)
    else if sorter.Failure? then Failure(sorter.error)
    else
      Success(SearchQuery(Param(p, "title"), Param(p, "category"), minPrice.value, maxPrice.value,
                          Some(ParseTags(Param(p, "tags"))), sorter.value))
  }

  /**
   * What a valid search asks the store for: title and category as sent, a bound only
   * where one was given and never a negative one, the parsed tags, the decoded sorter.
   */
  lemma ValidatedSearch(p: Params)
    requires ValidateSearch(p).Success?
    ensures var q := ValidateSearch(p).value;
      && q.title == Param(p, "title") && q.category == Param(p, "category")
      && (q.minPrice.Some? <==> "minPrice" in p)
      && (q.maxPrice.Some? <==> "maxPrice" in p)
      && (q.minPrice.Some? ==> q.minPrice.value >= 0.0 && ParseFloat(p["minPrice"]) == Success(q.minPrice.value))
      && (q.maxPrice.Some? ==> q.maxPrice.value >= 0.0 && ParseFloat(p["maxPrice"]) == Success(q.maxPrice.value))
      && q.tags == Some(ParseTags(Param(p, "tags")))
      && DecodeSorter(Param(p, "sorter")) == Success(q.sorter)
  {
  }

  /** A negative minimum price is refused before the store is queried. */
  lemma SearchNegativeMinPrice(p: Params, n: nat)
    requires n > 0
    requires "minPrice" in p && p["minPrice"] == "-" + NatToString(n)
    ensures ValidateSearch(p) == Failure("Price cannot be negative")
  {
    NegativePriceRejected(n);
  }

  /** A search with no parameters at all asks for every stored listing, in storage order. */
  lemma EmptySearchHasNoFilters(p: Params)
    requires p == map[]
    ensures ValidateSearch(p) == Success(SearchQuery(None, None, None, None, Some([]), None))
  {
  }

  /** The fields of a successful get-listings response. */
  function SearchFields(res: seq<ListingValue>): map<string, Value> {
    map["result" := ListingObjs(res), "number of listings obtained" := Int(|res|)]
  }

  /** Get-listings, given what getListings answered. */
  function GetListingsResponse(p: Params, answer: Answer<seq<ListingValue>>): (r: Response)
    ensures ValidateSearch(p).Failure? ==> r == Failed(INVALID_INPUT + ValidateSearch(p).error)
    ensures r.Succeeded? <==> ValidateSearch(p).Success? && answer.Returned?
    ensures ValidateSearch(p).Success? && answer.Threw? ==> r == Failed(CaughtMessage(answer.exn))
    ensures r.Succeeded? ==>
      && r.fields.Keys == {"result", "number of listings obtained"}
      && r.fields["result"] == ListingObjs(answer.value)
      && r.fields["number of listings obtained"] == Int(|answer.value|)
  {
    match ValidateSearch(p)
    case Failure(msg) => Failed(INVALID_INPUT + msg)
    case Success(_) =>
      match answer
      case Threw(e) => Failed(CaughtMessage(e))
      case Returned(res) => Succeeded(SearchFields(res))
  }

  /**
   * The get-listings handler against the in-memory store. It only reads the store; the
   * response holds the store's search result for the validated query.
   */
  method HandleGetListings(store: MockStorage, p: Params) returns (responseMap: map<string, Value>)
    requires store.Valid()
    ensures ValidateSearch(p).Failure? ==> responseMap == ResponseMap(Failed(INVALID_INPUT + ValidateSearch(p).error))
    ensures ValidateSearch(p).Success? ==>
      responseMap == ResponseMap(GetListingsResponse(p, Returned(store.GetListings(ValidateSearch(p).value))))
  {
    var validated := ValidateSearch(p);
    if validated.Failure? {
      responseMap := PutFailure(INVALID_INPUT + validated.error);
      return;
    }
    var res := store.GetListings(validated.value);
    responseMap := PutSearchResult(res);
  }

  /** The puts of get-listings' success branch. */
  method PutSearchResult(res: seq<ListingValue>) returns (responseMap: map<string, Value>)
    ensures responseMap == ResponseMap(Succeeded(SearchFields(res)))
  {
    responseMap := map[];
    responseMap := responseMap["response_type" := Str("success")];
    responseMap := responseMap["result" := ListingObjs(res)];
    responseMap := responseMap["number of listings obtained" := Int(|res|)];
  }

  /**
   * What a successful search reports: the count is the length of the result, and the
   * result holds each stored listing that passes the filters, once.
   */
  lemma SearchResultCounted(store: MockStorage, p: Params)
    requires store.Valid()
    requires ValidateSearch(p).Success?
    ensures var res := store.GetListings(ValidateSearch(p).value);
      && GetListingsResponse(p, Returned(res)) == Succeeded(SearchFields(res))
      && forall l :: multiset(res)[l] == if l in store.listingStorage.Values && Matches(ValidateSearch(p).value, l) then 1 else 0
  {
  }

  // ---------------------------------------------------------- get-listing-by-id

  /** Get-listing-by-id, given what obtainListing answered; every exception counts as invalid input. */
  function GetListingByIdResponse(p: Params, answer: Answer<Option<ListingValue>>): (r: Response)
    ensures ValidateListingId(Param(p, "listing_id")).Failure? ==>
      r == Failed(INVALID_INPUT + ValidateListingId(Param(p, "listing_id")).error)
    ensures ValidateListingId(Param(p, "listing_id")).Success? && answer.Threw? ==>
      r == Failed(INVALID_INPUT + answer.exn.message)
    ensures ValidateListingId(Param(p, "listing_id")).Success? && answer == Returned(None) ==>
      r == Failed("Listing not found")
    ensures r.Succeeded? <==> ValidateListingId(Param(p, "listing_id")).Success? && answer.Returned? && answer.value.Some?
    ensures r.Succeeded? ==> r.fields == map["listing" := ListingObj(answer.value.value)]
  {
    match ValidateListingId(Param(p, "listing_id"))
    case Failure(msg) => Failed(INVALID_INPUT + msg)
    case Success(_) =>
      match answer
      case Threw(e) => Failed(INVALID_INPUT + e.message)
      case Returned(found) =>
        if found.Some? then Succeeded(map["listing" := ListingObj(found.value)])
        else Failed("Listing not found")
  }

  /** The get-listing-by-id handler against the in-memory store; it only reads the store. */
  method HandleGetListingById(store: MockStorage, p: Params) returns (responseMap: map<string, Value>)
    requires store.Valid()
    ensures ValidateListingId(Param(p, "listing_id")).Failure? ==>
      responseMap == ResponseMap(Failed(INVALID_INPUT + ValidateListingId(Param(p, "listing_id")).error))
    ensures ValidateListingId(Param(p, "listing_id")).Success? ==>
      responseMap == ResponseMap(GetListingByIdResponse(p,
        Returned(store.GetListingById(ValidateListingId(Param(p, "listing_id")).value))))
  {
    var validated := ValidateListingId(Param(p, "listing_id"));
    if validated.Failure? {
      responseMap := PutFailure(INVALID_INPUT + validated.error);
      return;
    }
    var listing := store.ObtainListing(validated.value);
    if listing != null {
      responseMap := map[];
      responseMap := responseMap["response_type" := Str("success")];
      responseMap := responseMap["listing" := ListingObj(listing.Value())];
    } else {
      responseMap := PutFailure("Listing not found");
    }
  }

  /** A found listing is the one stored under the id that was asked for. */
  lemma FoundListingHasRequestedId(store: MockStorage, p: Params, id: int)
    requires store.Valid()
    requires ValidateListingId(Param(p, "listing_id")) == Success(id)
    requires id in store.listingStorage
    ensures var r := GetListingByIdResponse(p, Returned(store.GetListingById(id)));
      && r.Succeeded?
      && r.fields["listing"].listing.id == id
      && r.fields["listing"].listing == store.listingStorage[id]
  {
  }

  // ------------------------------------------------------------- delete-listing

  /** Delete-listing, given what deleteListing answered. */
  function DeleteListingResponse(p: Params, answer: Answer<bool>): (r: Response)
    ensures ValidateListingId(Param(p, "listing_id")).Failure? ==>
      r == Failed(INVALID_INPUT + ValidateListingId(Param(p, "listing_id")).error)
    ensures ValidateListingId(Param(p, "listing_id")).Success? && answer.Threw? ==>
      r == Failed(CaughtMessage(answer.exn))
    ensures ValidateListingId(Param(p, "listing_id")).Success? && answer == Returned(false) ==>
      r == Failed("Listing not found")
    ensures r.Succeeded? <==> ValidateListingId(Param(p, "listing_id")).Success? && answer == Returned(true)
    ensures r.Succeeded? ==> r.fields == map["message" := Str("Listing deleted successfully")]
  {
    match ValidateListingId(Param(p, "listing_id"))
    case Failure(msg) => Failed(INVALID_INPUT + msg)
    case Success(_) =>
      match answer
      case Threw(e) => Failed(CaughtMessage(e))
      case Returned(deleted) =>
        if deleted then Succeeded(map["message" := Str("Listing deleted successfully")])
        else Failed("Listing not found")
  }

  /**
   * The delete-listing handler against the in-memory store: the named listing is gone
   * afterwards and nothing else changes; the response is a success exactly when it was
   * there.
   */
  method HandleDeleteListing(store: MockStorage, p: Params) returns (responseMap: map<string, Value>)
    requires store.Valid()
    modifies store
    ensures store.Valid()
    ensures ValidateListingId(Param(p, "listing_id")).Failure? ==>
      && responseMap == ResponseMap(Failed(INVALID_INPUT + ValidateListingId(Param(p, "listing_id")).error))
      && store.listingStorage == old(store.listingStorage)
    ensures ValidateListingId(Param(p, "listing_id")).Success? ==>
      var id := ValidateListingId(Param(p, "listing_id")).value;
      && responseMap == ResponseMap(DeleteListingResponse(p, Returned(id in old(store.listingStorage))))
      && store.listingStorage == old(store.listingStorage) - {id}
    ensures store.userStorage == old(store.userStorage) && store.nextListingId == old(store.nextListingId)
  {
    var validated := ValidateListingId(Param(p, "listing_id"));
    if validated.Failure? {
      responseMap := PutFailure(INVALID_INPUT + validated.error);
      return;
    }
    var deleted := store.DeleteListing(validated.value);
    if deleted {
      responseMap := map[];
      responseMap := responseMap["response_type" := Str("success")];
      responseMap := responseMap["message" := Str("Listing deleted successfully")];
    } else {
      responseMap := PutFailure("Listing not found");
    }
  }

  /** Sending the same delete request twice: the second one always reports "Listing not found". */
  method DeleteTwice(store: MockStorage, p: Params) returns (first: map<string, Value>, second: map<string, Value>)
    requires store.Valid()
    requires ValidateListingId(Param(p, "listing_id")).Success?
    modifies store
    ensures store.Valid()
    ensures second == ResponseMap(Failed("Listing not found"))
    ensures "response_type" in first
    ensures first["response_type"] == Str("success") <==>
      ValidateListingId(Param(p, "listing_id")).value in old(store.listingStorage)
  {
    first := HandleDeleteListing(store, p);
    second := HandleDeleteListing(store, p);
  }
}
