/**
 * The four user endpoints: add-user, update-user, get-user and get-user-listings, in
 * the same shape as the listing endpoints: a pure `...Response` function over the
 * parameters and the store's answer, and a `Handle...` method against the in-memory
 * store proved to fill the response map the function describes.
 */
module UserHandlers {
  import opened Wrappers
  import opened JavaStrings
  import opened Classes
  import opened Storage
  import opened Requests
  import opened Responses
  import opened Phone

  // ----------------------------------------------------------------- validators

  /**
   * validateEmail: present and not blank, and the lower-cased text as sent (not trimmed)
   * ends in one of the two school domains; passed on trimmed.
   */
  function ValidateEmail(email: Option<string>): (r: Result<string>)
    ensures email.None? || IsBlank(email.value) ==> r == Failure("Email is required")
    ensures r.Success? <==>
      && email.Some? && !IsBlank(email.value)
      && (EndsWith(ToLower(email.value), "@risd.edu") || EndsWith(ToLower(email.value), "@brown.edu"))
    ensures r.Success? ==> r.value == Trim(email.value)
    ensures email.Some? && !IsBlank(email.value) && r.Failure? ==>
      r.error == "Email must end with @risd.edu or @brown.edu"
  {
    if email.None? || IsBlank(email.value) then Failure("Email is required")
    else
      var lowerEmail := ToLower(email.value);
      if !EndsWith(lowerEmail, "@risd.edu") && !EndsWith(lowerEmail, "@brown.edu") then
        Failure("Email must end with @risd.edu or @brown.edu")
      else Success(Trim(email.value))
  }

  /** validateName: present, not blank, and at least two characters once trimmed. */
  function ValidateName(name: Option<string>): (r: Result<string>)
    ensures name.None? || IsBlank(name.value) ==> r == Failure("Name is required")
    ensures r.Success? <==> name.Some? && |Trim(name.value)| >= 2
    ensures r.Success? ==> r.value == Trim(name.value) && NoOuterSpace(r.value)
    ensures name.Some? && !IsBlank(name.value) && r.Failure? ==> r.error == "Name must be at least 2 characters long"
  {
    if name.None? || IsBlank(name.value) then Failure("Name is required")
    else if |Trim(name.value)| < 2 then Failure("Name must be at least 2 characters long")
    else Success(Trim(name.value))
  }

  /**
   * validatePhoneNumber: present and not blank; with every whitespace character removed
   * it must match the phone pattern; passed on trimmed.
   */
  function ValidatePhoneNumber(phoneNumber: Option<string>): (r: Result<string>)
    ensures phoneNumber.None? || IsBlank(phoneNumber.value) ==> r == Failure("Phone number is required")
    ensures r.Success? <==>
      phoneNumber.Some? && !IsBlank(phoneNumber.value) && MatchesPhonePattern(RemoveWhitespace(phoneNumber.value))
    ensures r.Success? ==> r.value == Trim(phoneNumber.value)
    ensures phoneNumber.Some? && !IsBlank(phoneNumber.value) && r.Failure? ==> r.error == "Invalid phone number format"
  {
    if phoneNumber.None? || IsBlank(phoneNumber.value) then Failure("Phone number is required")
    else if !MatchPhone(RemoveWhitespace(phoneNumber.value)) then Failure("Invalid phone number format")
    else Success(Trim(phoneNumber.value))
  }

  /** validateSchool: present, not blank, and "brown" or "RISD" in any letter case, as sent. */
  function ValidateSchool(school: Option<string>): (r: Result<string>)
    ensures school.None? || IsBlank(school.value) ==> r == Failure("School is required")
    ensures r.Success? <==>
      school.Some? && !IsBlank(school.value) && (ToLower(school.value) == "brown" || ToLower(school.value) == "risd")
    ensures r.Success? ==> r.value == Trim(school.value)
    ensures school.Some? && !IsBlank(school.value) && r.Failure? ==> r.error == "School must be Brown or RISD"
  {
    if school.None? || IsBlank(school.value) then Failure("School is required")
    else
      SchoolNamesLowered();
      if !(EqualsIgnoreCase(school.value, "brown") || EqualsIgnoreCase(school.value, "RISD")) then
        Failure("School must be Brown or RISD")
      else Success(Trim(school.value))
  }

  lemma SchoolNamesLowered()
    ensures ToLower("brown") == "brown" && ToLower("RISD") == "risd"
  {
    assert ToLower("RISD")[0] == 'r';
  }

  /** Any local part in front of "@brown.edu" is an accepted email, trimmed. */
  lemma BrownEmailAccepted(local: string)
    requires local != [] && !IsTrimSpace(local[0])
    ensures ValidateEmail(Some(local + "@brown.edu")) == Success(local + "@brown.edu")
  {
    var e := local + "@brown.edu";
    assert ToLower(e)[|e| - 10..] == "@brown.edu";
    assert e[|e| - 1] == 'u';
    TrimOfVisibleEnds(e);
  }

  /** The domain is checked before trimming: a space after it makes the email invalid. */
  lemma TrailingSpaceEmailRejected(local: string)
    requires local != [] && !IsTrimSpace(local[0])
    ensures ValidateEmail(Some(local + "@brown.edu ")) == Failure("Email must end with @risd.edu or @brown.edu")
  {
    var e := local + "@brown.edu ";
    assert e[0] == local[0];
    assert !IsBlank(e) by { TrimRemovesEnds(e); }
    var lower := ToLower(e);
    assert lower[|lower| - 1] == ' ';
    LastCharDiffers(lower, "@risd.edu");
    LastCharDiffers(lower, "@brown.edu");
  }

  /** A school that passes is one of the two names and carries no outer spaces. */
  lemma AcceptedSchool(school: string)
    requires ValidateSchool(Some(school)).Success?
    ensures ValidateSchool(Some(school)).value == school
    ensures ToLower(school) == "brown" || ToLower(school) == "risd"
  {
    assert |school| >= 4 && school[0] != ' ' && school[|school| - 1] != ' ' by {
      assert ToLower(school)[0] == ToLowerChar(school[0]);
      assert ToLower(school)[|school| - 1] == ToLowerChar(school[|school| - 1]);
    }
    assert !IsTrimSpace(school[0]) && !IsTrimSpace(school[|school| - 1]) by {
      assert ToLowerChar(school[0]) == ToLower(school)[0];
      assert ToLowerChar(school[|school| - 1]) == ToLower(school)[|school| - 1];
    }
    TrimOfVisibleEnds(school);
  }

  // ------------------------------------------------------------------ add-user

  /** The validated arguments of createUser. */
  datatype NewUser = NewUser(clerkId: Option<string>, email: string, name: string, phoneNumber: string, school: string)

  /** The message of the first add-user check that fails: email, name, phone number, school. */
  function AddUserError(p: Params): Option<string> {
    var email := ValidateEmail(Param(p, "email"));
    var name := ValidateName(Param(p, "name"));
    var phoneNumber := ValidatePhoneNumber(Param(p, "phone_number"));
    var school := ValidateSchool(Param(p, "school"));
    if email.Failure? then Some(email.error)
    else if name.Failure? then Some(name.error)
    else if phoneNumber.Failure? then Some(phoneNumber.error)
    else if school.Failure? then Some(school.error)
    else None
  }

  /** The validation part of add-user; the clerk id is taken as sent, even when absent. */
  function ValidateNewUser(p: Params): Result<NewUser> {
    match AddUserError(p)
    case Some(msg) => Failure(msg)
    case None =>
      Success(NewUser(
        Param(p, "clerk_id"),
        ValidateEmail(Param(p, "email")).value,
        ValidateName(Param(p, "name")).value,
        ValidatePhoneNumber(Param(p, "phone_number")).value,
        ValidateSchool(Param(p, "school")).value))
  }

  /** What a request that passes add-user validation carries. */
  lemma ValidatedUser(p: Params)
    requires ValidateNewUser(p).Success?
    ensures var u := ValidateNewUser(p).value;
      && u.clerkId == Param(p, "clerk_id")
      && "email" in p && u.email == Trim(p["email"])
      && (EndsWith(ToLower(p["email"]), "@risd.edu") || EndsWith(ToLower(p["email"]), "@brown.edu"))
      && "name" in p && u.name == Trim(p["name"]) && |u.name| >= 2
      && "phone_number" in p && u.phoneNumber == Trim(p["phone_number"])
      && MatchesPhonePattern(RemoveWhitespace(p["phone_number"]))
      && "school" in p && u.school == p["school"] && (ToLower(u.school) == "brown" || ToLower(u.school) == "risd")
  {
    AcceptedSchool(p["school"]);
  }

  /** The fields of a successful add-user response. */
  function AddedUserFields(userId: int, u: NewUser): map<string, Value> {
    map[
      "user_id" := Int(userId),
      "clerk_id" := OptStr(u.clerkId),
      "email" := Str(u.email),
      "name" := Str(u.name),
      "phone number" := Str(u.phoneNumber),
      "school" := Str(u.school)]
  }

  /** Add-user, given what createUser answered. */
  function AddUserResponse(p: Params, answer: Answer<int>): (r: Response)
    ensures ValidateNewUser(p).Failure? ==> r == Failed(INVALID_INPUT + ValidateNewUser(p).error)
    ensures r.Succeeded? <==> ValidateNewUser(p).Success? && answer.Returned?
    ensures ValidateNewUser(p).Success? && answer.Threw? ==> r == Failed(CaughtMessage(answer.exn))
    ensures r.Succeeded? ==> r.fields == AddedUserFields(answer.value, ValidateNewUser(p).value)
  {
    match ValidateNewUser(p)
    case Failure(msg) => Failed(INVALID_INPUT + msg)
    case Success(u) =>
      match answer
      case Threw(e) => Failed(CaughtMessage(e))
      case Returned(userId) => Succeeded(AddedUserFields(userId, u))
  }

  /**
   * A successful add-user answers the store's count and echoes the request: the clerk id
   * as sent (null when absent) and the validated, trimmed fields.
   */
  lemma AddUserEchoesRequest(p: Params, userId: int)
    requires ValidateNewUser(p).Success?
    ensures AddUserResponse(p, Returned(userId)) == Succeeded(map[
      "user_id" := Int(userId),
      "clerk_id" := if "clerk_id" in p then Str(p["clerk_id"]) else Null,
      "email" := Str(Trim(p["email"])),
      "name" := Str(Trim(p["name"])),
      "phone number" := Str(Trim(p["phone_number"])),
      "school" := Str(p["school"])])
  {
    ValidatedUser(p);
  }

  /** A request with no fields at all fails on the email first. */
  lemma AddUserEmpty(answer: Answer<int>)
    ensures AddUserResponse(map[], answer) == Failed(INVALID_INPUT + "Email is required")
  {
  }

  /** A valid email and a one-letter name: the name check speaks. */
  lemma AddUserShortName(p: Params, answer: Answer<int>)
    requires ValidateEmail(Param(p, "email")).Success?
    requires "name" in p && |Trim(p["name"])| == 1
    ensures AddUserResponse(p, answer) == Failed(INVALID_INPUT + "Name must be at least 2 characters long")
  {
  }

  /** Valid email and name, and a phone number of five digits: the phone check speaks. */
  lemma AddUserBadPhone(p: Params, answer: Answer<int>)
    requires ValidateEmail(Param(p, "email")).Success?
    requires ValidateName(Param(p, "name")).Success?
    requires "phone_number" in p && p["phone_number"] == "56723"
    ensures AddUserResponse(p, answer) == Failed(INVALID_INPUT + "Invalid phone number format")
  {
    FiveDigitPhoneRejected();
    assert AddUserError(p) == Some("Invalid phone number format");
  }

  /** Five digits are not a phone number. */
  lemma FiveDigitPhoneRejected()
    ensures ValidatePhoneNumber(Some("56723")) == Failure("Invalid phone number format")
  {
    var s := "56723";
    assert forall i :: 0 <= i < |s| ==> '0' <= s[i] <= '9';
    RemoveAllKeeps(s, REGEX_SPACES);
    FiveDigitsRejected();
    assert !IsBlank(s) by { TrimRemovesEnds(s); }
  }

  /**
   * The add-user handler against the in-memory store: a valid request stores the user
   * under its clerk id (replacing any user stored there) and answers the number of users
   * now stored; the email is not stored. An invalid request changes nothing.
   */
  method HandleAddUser(store: MockStorage, p: Params) returns (responseMap: map<string, Value>)
    requires store.Valid()
    modifies store
    ensures store.Valid()
    ensures ValidateNewUser(p).Failure? ==>
      && responseMap == ResponseMap(Failed(INVALID_INPUT + ValidateNewUser(p).error))
      && store.userStorage == old(store.userStorage)
    ensures ValidateNewUser(p).Success? ==>
      var u := ValidateNewUser(p).value;
      && store.userStorage == old(store.userStorage)[u.clerkId := UserValue(u.clerkId, u.name, u.phoneNumber, u.school)]
      && responseMap == ResponseMap(AddUserResponse(p, Returned(|store.userStorage|)))
    ensures store.listingStorage == old(store.listingStorage) && store.nextListingId == old(store.nextListingId)
  {
    var validated := ValidateNewUser(p);
    if validated.Failure? {
      responseMap := PutFailure(INVALID_INPUT + validated.error);
      return;
    }
    var u := validated.value;
    var userId := store.CreateUser(u.clerkId, u.email, u.name, u.phoneNumber, u.school);
    assert AddUserResponse(p, Returned(userId)) == Succeeded(AddedUserFields(userId, u));
    responseMap := PutAddedUser(userId, u);
  }

  /** The puts of add-user's success branch ("response_type" last; the map is a hash map). */
  method PutAddedUser(userId: int, u: NewUser) returns (responseMap: map<string, Value>)
    ensures responseMap == ResponseMap(Succeeded(AddedUserFields(userId, u)))
  {
    responseMap := map[];
    responseMap := responseMap["user_id" := Int(userId)];
    responseMap := responseMap["clerk_id" := OptStr(u.clerkId)];
    responseMap := responseMap["email" := Str(u.email)];
    responseMap := responseMap["name" := Str(u.name)];
    responseMap := responseMap["phone number" := Str(u.phoneNumber)];
    responseMap := responseMap["school" := Str(u.school)];
    responseMap := responseMap["response_type" := Str("success")];
  }

  // --------------------------------------------------------------- update-user

  /** A validator applied only when its parameter is present. */
  function IfPresent(value: Option<string>, checked: Result<string>): (r: Result<Option<string>>)
    ensures value.None? ==> r == Success(None)
    ensures value.Some? && checked.Success? ==> r == Success(Some(checked.value))
    ensures value.Some? && checked.Failure? ==> r == Failure(checked.error)
  {
    if value.None? then Success(None)
    else if checked.Failure? then Failure(checked.error)
    else Success(Some(checked.value))
  }

  /** The validation part of update-user: name, phone number and school, each only if sent. */
  function ValidateUserPatch(p: Params): Result<UserPatch> {
    var name := IfPresent(Param(p, "name"), ValidateName(Param(p, "name")));
    var phoneNumber := IfPresent(Param(p, "phone_number"), ValidatePhoneNumber(Param(p, "phone_number")));
    var school := IfPresent(Param(p, "school"), ValidateSchool(Param(p, "school")));
    if name.Failure? then Failure(name.error)
    else if phoneNumber.Failure? then Failure(phoneNumber.error)
    else if school.Failure? then Failure(school.error)
    else Success(UserPatch(name.value, phoneNumber.value, school.value))
  }

  /**
   * What a valid update asks the store for: a field is changed exactly when it was sent,
   * and then to its validated, trimmed value.
   */
  lemma ValidatedUserPatch(p: Params)
    requires ValidateUserPatch(p).Success?
    ensures var u := ValidateUserPatch(p).value;
      && (u.name.Some? <==> "name" in p)
      && (u.name.Some? ==> ValidateName(Param(p, "name")) == Success(u.name.value))
      && (u.phoneNumber.Some? <==> "phone_number" in p)
      && (u.phoneNumber.Some? ==> ValidatePhoneNumber(Param(p, "phone_number")) == Success(u.phoneNumber.value))
      && (u.school.Some? <==> "school" in p)
      && (u.school.Some? ==> ValidateSchool(Param(p, "school")) == Success(u.school.value))
  {
    var name := IfPresent(Param(p, "name"), ValidateName(Param(p, "name")));
    var phoneNumber := IfPresent(Param(p, "phone_number"), ValidatePhoneNumber(Param(p, "phone_number")));
    var school := IfPresent(Param(p, "school"), ValidateSchool(Param(p, "school")));
    assert ValidateUserPatch(p).value == UserPatch(name.value, phoneNumber.value, school.value);
  }

  /** The fields of a successful update-user response: the raw parameters, echoed. */
  function UpdatedUserFields(p: Params): map<string, Value> {
    map[
      "message" := Str("User updated successfully"),
      "clerk_id" := OptStr(Param(p, "clerk_id")),
      "name" := OptStr(Param(p, "name")),
      "phone_number" := OptStr(Param(p, "phone_number")),
      "school" := OptStr(Param(p, "school"))]
  }

  /** Update-user, given what updateUser answered. */
  function UpdateUserResponse(p: Params, answer: Answer<bool>): (r: Response)
    ensures ValidateUserPatch(p).Failure? ==> r == Failed(INVALID_INPUT + ValidateUserPatch(p).error)
    ensures ValidateUserPatch(p).Success? && answer == Returned(false) ==> r == Failed("User could not be updated")
    ensures r.Succeeded? <==> ValidateUserPatch(p).Success? && answer == Returned(true)
    ensures ValidateUserPatch(p).Success? && answer.Threw? ==> r == Failed(CaughtMessage(answer.exn))
    ensures r.Succeeded? ==> r.fields == UpdatedUserFields(p)
  {
    match ValidateUserPatch(p)
    case Failure(msg) => Failed(INVALID_INPUT + msg)
    case Success(_) =>
      match answer
      case Threw(e) => Failed(CaughtMessage(e))
      case Returned(updated) =>
        if updated then Succeeded(UpdatedUserFields(p)) else Failed("User could not be updated")
  }

  /** A successful update echoes the parameters as sent, untrimmed, and null for the ones not sent. */
  lemma UpdateUserEchoesRawParameters(p: Params)
    requires ValidateUserPatch(p).Success?
    ensures UpdateUserResponse(p, Returned(true)) == Succeeded(map[
      "message" := Str("User updated successfully"),
      "clerk_id" := if "clerk_id" in p then Str(p["clerk_id"]) else Null,
      "name" := if "name" in p then Str(p["name"]) else Null,
      "phone_number" := if "phone_number" in p then Str(p["phone_number"]) else Null,
      "school" := if "school" in p then Str(p["school"]) else Null])
  {
  }

  /** An empty phone number is refused when sent, even though the field is optional. */
  lemma UpdateUserEmptyPhone(p: Params, answer: Answer<bool>)
    requires "name" !in p
    requires "phone_number" in p && p["phone_number"] == ""
    ensures UpdateUserResponse(p, answer) == Failed(INVALID_INPUT + "Phone number is required")
  {
  }

  /** A request that sends none of the three fields asks for no change at all. */
  lemma UpdateUserNothingSent(p: Params, u: UserValue)
    requires "name" !in p && "phone_number" !in p && "school" !in p
    ensures ValidateUserPatch(p) == Success(UserPatch(None, None, None))
    ensures UserPatched(u, ValidateUserPatch(p).value) == u
  {
  }

  /**
   * The update-user handler against the in-memory store: a stored clerk id has the sent
   * fields replaced; an unknown one, or a request that fails validation, changes nothing.
   */
  method HandleUpdateUser(store: MockStorage, p: Params) returns (responseMap: map<string, Value>)
    requires store.Valid()
    modifies store
    ensures store.Valid()
    ensures ValidateUserPatch(p).Failure? ==>
      && responseMap == ResponseMap(Failed(INVALID_INPUT + ValidateUserPatch(p).error))
      && store.userStorage == old(store.userStorage)
    ensures ValidateUserPatch(p).Success? ==>
      var clerkId := Param(p, "clerk_id");
      && responseMap == ResponseMap(UpdateUserResponse(p, Returned(clerkId in old(store.userStorage))))
      && (clerkId in old(store.userStorage) ==>
            store.userStorage == old(store.userStorage)[clerkId :=
              UserPatched(old(store.userStorage)[clerkId], ValidateUserPatch(p).value)])
      && (clerkId !in old(store.userStorage) ==> store.userStorage == old(store.userStorage))
    ensures store.listingStorage == old(store.listingStorage) && store.nextListingId == old(store.nextListingId)
  {
    var validated := ValidateUserPatch(p);
    if validated.Failure? {
      responseMap := PutFailure(INVALID_INPUT + validated.error);
      return;
    }
    var updated := store.UpdateUser(Param(p, "clerk_id"), validated.value);
    if updated {
      responseMap := PutUpdatedUser(p);
    } else {
      responseMap := PutFailure("User could not be updated");
    }
  }

  /** The puts of update-user's success branch ("response_type" last; the map is a hash map). */
  method PutUpdatedUser(p: Params) returns (responseMap: map<string, Value>)
    ensures responseMap == ResponseMap(Succeeded(UpdatedUserFields(p)))
  {
    responseMap := map[];
    responseMap := responseMap["message" := Str("User updated successfully")];
    responseMap := responseMap["clerk_id" := OptStr(Param(p, "clerk_id"))];
    responseMap := responseMap["name" := OptStr(Param(p, "name"))];
    responseMap := responseMap["phone_number" := OptStr(Param(p, "phone_number"))];
    responseMap := responseMap["school" := OptStr(Param(p, "school"))];
    responseMap := responseMap["response_type" := Str("success")];
  }

  // ------------------------------------------------------------------ get-user

  /** The id check of get-user and get-user-listings: present and not blank, passed on as sent. */
  function RequireId(id: Option<string>, message: string): (r: Result<string>)
    ensures r.Success? <==> id.Some? && !IsBlank(id.value)
    ensures r.Success? ==> r.value == id.value
    ensures r.Failure? ==> r.error == message
  {
    if id.None? || IsBlank(id.value) then Failure(message) else Success(id.value)
  }

  /** Get-user, given what getUser answered. */
  function GetUserResponse(p: Params, answer: Answer<map<string, Value>>): (r: Response)
    ensures RequireId(Param(p, "clerk_id"), "Clerk ID is required").Failure? ==>
      r == Failed(INVALID_INPUT + "Clerk ID is required")
    ensures RequireId(Param(p, "clerk_id"), "Clerk ID is required").Success? && answer.Threw? ==>
      r == Failed(CaughtMessage(answer.exn))
    ensures RequireId(Param(p, "clerk_id"), "Clerk ID is required").Success? && answer == Returned(map[]) ==>
      r == Failed("User not found")
    ensures r.Succeeded? <==>
      RequireId(Param(p, "clerk_id"), "Clerk ID is required").Success? && answer.Returned? && answer.value != map[]
    ensures r.Succeeded? ==> r.fields == map["user_data" := Record(answer.value)]
  {
    match RequireId(Param(p, "clerk_id"), "Clerk ID is required")
    case Failure(msg) => Failed(INVALID_INPUT + msg)
    case Success(_) =>
      match answer
      case Threw(e) => Failed(CaughtMessage(e))
      case Returned(userData) =>
        if userData == map[] then Failed("User not found")
        else Succeeded(map["user_data" := Record(userData)])
  }

  /** The get-user handler against the in-memory store; it only reads the store. */
  method HandleGetUser(store: MockStorage, p: Params) returns (responseMap: map<string, Value>)
    requires store.Valid()
    ensures RequireId(Param(p, "clerk_id"), "Clerk ID is required").Failure? ==>
      responseMap == ResponseMap(Failed(INVALID_INPUT + "Clerk ID is required"))
    ensures RequireId(Param(p, "clerk_id"), "Clerk ID is required").Success? ==>
      responseMap == ResponseMap(GetUserResponse(p, Returned(store.GetUser(p["clerk_id"]))))
  {
    var clerkId := RequireId(Param(p, "clerk_id"), "Clerk ID is required");
    if clerkId.Failure? {
      responseMap := PutFailure(INVALID_INPUT + clerkId.error);
      return;
    }
    var userData := store.GetUser(clerkId.value);
    if userData == map[] {
      responseMap := PutFailure("User not found");
    } else {
      responseMap := map[];
      responseMap := responseMap["user_data" := Record(userData)];
      responseMap := responseMap["response_type" := Str("success")];
    }
  }

  /**
   * A user added with a clerk id can be read back under it: get-user then succeeds with
   * the name, phone number and school add-user validated.
   */
  lemma AddedUserIsFound(store: MockStorage, p: Params, clerkId: string)
    requires store.Valid()
    requires ValidateNewUser(p).Success? && ValidateNewUser(p).value.clerkId == Some(clerkId)
    requires var u := ValidateNewUser(p).value;
      Some(clerkId) in store.userStorage && store.userStorage[Some(clerkId)] == UserValue(u.clerkId, u.name, u.phoneNumber, u.school)
    requires !IsBlank(clerkId)
    ensures var r := GetUserResponse(map["clerk_id" := clerkId], Returned(store.GetUser(clerkId)));
      && r.Succeeded?
      && r.fields["user_data"].fields["name"] == Str(ValidateNewUser(p).value.name)
      && r.fields["user_data"].fields["phoneNumber"] == Str(ValidateNewUser(p).value.phoneNumber)
      && r.fields["user_data"].fields["school"] == Str(ValidateNewUser(p).value.school)
  {
  }

  // --------------------------------------------------------- get-user-listings

  /** The catch clauses of get-user-listings: a NumberFormatException has its own message. */
  function SellerListingsCaught(e: Exn): (msg: string)
    ensures e.NumberFormat? ==> msg == "Invalid seller ID format"
    ensures !e.NumberFormat? ==> msg == CaughtMessage(e)
  {
    if e.NumberFormat? then "Invalid seller ID format" else CaughtMessage(e)
  }

  /** Get-user-listings, given what getListingsBySellerId answered. */
  function GetUserListingsResponse(p: Params, answer: Answer<seq<map<string, Value>>>): (r: Response)
    ensures RequireId(Param(p, "seller_id"), "Seller ID is required").Failure? ==>
      r == Failed(INVALID_INPUT + "Seller ID is required")
    ensures RequireId(Param(p, "seller_id"), "Seller ID is required").Success? && answer.Threw? ==>
      r == Failed(SellerListingsCaught(answer.exn))
    ensures RequireId(Param(p, "seller_id"), "Seller ID is required").Success? && answer == Returned([]) ==>
      r == Failed("No listings found for the given seller ID")
    ensures r.Succeeded? <==>
      RequireId(Param(p, "seller_id"), "Seller ID is required").Success? && answer.Returned? && answer.value != []
    ensures r.Succeeded? ==> r.fields == map["listings" := Records(answer.value)]
  {
    match RequireId(Param(p, "seller_id"), "Seller ID is required")
    case Failure(msg) => Failed(INVALID_INPUT + msg)
    case Success(_) =>
      match answer
      case Threw(e) => Failed(SellerListingsCaught(e))
      case Returned(listings) =>
        if listings == [] then Failed("No listings found for the given seller ID")
        else Succeeded(map["listings" := Records(listings)])
  }

  /** The get-user-listings handler against the in-memory store; it only reads the store. */
  method HandleGetUserListings(store: MockStorage, p: Params) returns (responseMap: map<string, Value>)
    requires store.Valid()
    ensures RequireId(Param(p, "seller_id"), "Seller ID is required").Failure? ==>
      responseMap == ResponseMap(Failed(INVALID_INPUT + "Seller ID is required"))
    ensures RequireId(Param(p, "seller_id"), "Seller ID is required").Success? ==>
      responseMap == ResponseMap(GetUserListingsResponse(p, Returned(store.GetListingsBySellerId(p["seller_id"]))))
  {
    var sellerId := RequireId(Param(p, "seller_id"), "Seller ID is required");
    if sellerId.Failure? {
      responseMap := PutFailure(INVALID_INPUT + sellerId.error);
      return;
    }
    assert sellerId.value == p["seller_id"];
    var listings := store.GetListingsBySellerId(sellerId.value);
    if listings == [] {
      responseMap := PutFailure("No listings found for the given seller ID");
    } else {
      assert GetUserListingsResponse(p, Returned(listings)) == Succeeded(map["listings" := Records(listings)]);
      responseMap := map[];
      responseMap := responseMap["listings" := Records(listings)];
      responseMap := responseMap["response_type" := Str("success")];
    }
  }

  /**
   * Get-user-listings succeeds exactly when the seller has a stored listing, and then
   * lists every one of them.
   */
  lemma SellerListingsFound(store: MockStorage, sellerId: string)
    requires store.Valid()
    requires !IsBlank(sellerId)
    ensures var r := GetUserListingsResponse(map["seller_id" := sellerId], Returned(store.GetListingsBySellerId(sellerId)));
      && (r.Succeeded? <==> exists l :: l in store.listingStorage.Values && l.sellerId == sellerId)
      && (r.Succeeded? ==> forall l :: l in store.listingStorage.Values && l.sellerId == sellerId ==>
            ListingRecord(l) in r.fields["listings"].records)
  {
  }
}
