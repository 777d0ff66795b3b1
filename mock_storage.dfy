/**
 * The in-memory store behind the server: users keyed by clerk id, listings keyed by a
 * numeric id drawn from a counter, and the search over listings (filters, then an
 * optional price sort).
 *
 * Iteration over the listing map is taken to run in ascending id order; the store only
 * ever holds ids below its counter, so this is a fixed order of the stored listings.
 */
module Storage {
  import opened Wrappers
  import opened JavaStrings
  import opened Classes

  /** The requested order of search results. */
  datatype Sorter = PriceAsc | PriceDesc

  /**
   * The listing an update request builds: a None field means "leave unchanged"; the
   * `available` flag is a primitive and always carries a value.
   */
  datatype ListingPatch = ListingPatch(
    title: Option<string>,
    description: Option<string>,
    price: Option<real>,
    category: Option<string>,
    condition: Option<string>,
    imageUrl: Option<string>,
    tags: Option<seq<string>>,
    available: bool)

  /** The user an update request builds: a None field means "leave unchanged". */
  datatype UserPatch = UserPatch(name: Option<string>, phoneNumber: Option<string>, school: Option<string>)

  /** The arguments of a listing search; None switches a filter off. */
  datatype SearchQuery = SearchQuery(
    title: Option<string>,
    category: Option<string>,
    minPrice: Option<real>,
    maxPrice: Option<real>,
    tags: Option<seq<string>>,
    sorter: Option<Sorter>)

  /** A listing after an update: present fields replace, absent ones stay, availability is overwritten. */
  function Patched(l: ListingValue, p: ListingPatch): (r: ListingValue)
    ensures r.id == l.id && r.sellerId == l.sellerId
    ensures r.available == p.available
    ensures r.title == (if p.title.Some? then p.title.value else l.title)
    ensures r.description == (if p.description.Some? then p.description.value else l.description)
    ensures r.price == (if p.price.Some? then p.price.value else l.price)
    ensures r.category == (if p.category.Some? then p.category.value else l.category)
    ensures r.condition == (if p.condition.Some? then p.condition.value else l.condition)
    ensures r.imageUrl == (if p.imageUrl.Some? then p.imageUrl.value else l.imageUrl)
    ensures r.tags == (if p.tags.Some? then p.tags.value else l.tags)
  {
    l.(title := p.title.GetOr(l.title),
       description := p.description.GetOr(l.description),
       price := p.price.GetOr(l.price),
       category := p.category.GetOr(l.category),
       condition := p.condition.GetOr(l.condition),
       imageUrl := p.imageUrl.GetOr(l.imageUrl),
       tags := p.tags.GetOr(l.tags),
       available := p.available)
  }

  /** Applying the same update twice is applying it once. */
  lemma PatchIdempotent(l: ListingValue, p: ListingPatch)
    ensures Patched(Patched(l, p), p) == Patched(l, p)
  {
  }

  /** An update with no fields and the current availability changes nothing. */
  lemma EmptyPatchKeepsListing(l: ListingValue)
    ensures Patched(l, ListingPatch(None, None, None, None, None, None, None, l.available)) == l
  {
  }

  /** A user after an update: present fields replace, absent ones stay. */
  function UserPatched(u: UserValue, p: UserPatch): (r: UserValue)
    ensures r.clerkId == u.clerkId
    ensures r.name == (if p.name.Some? then p.name.value else u.name)
    ensures r.phoneNumber == (if p.phoneNumber.Some? then p.phoneNumber.value else u.phoneNumber)
    ensures r.school == (if p.school.Some? then p.school.value else u.school)
  {
    u.(name := p.name.GetOr(u.name), phoneNumber := p.phoneNumber.GetOr(u.phoneNumber), school := p.school.GetOr(u.school))
  }

  /** The search filter: every filter that is present must accept the listing. */
  predicate Matches(q: SearchQuery, l: ListingValue) {
    (q.title.None? || HasSubstring(ToLower(l.title), ToLower(q.title.value)))
    && (q.category.None? || q.category.value == l.category)
    && (q.minPrice.None? || l.price >= q.minPrice.value)
    && (q.maxPrice.None? || l.price <= q.maxPrice.value)
    && (q.tags.None? || q.tags.value == [] || exists t :: t in q.tags.value && t in l.tags)
  }

  /** `a` may come before `b` in a result sorted by `sorter`. */
  predicate InOrder(a: ListingValue, b: ListingValue, sorter: Sorter) {
    match sorter
    case PriceAsc => a.price <= b.price
    case PriceDesc => b.price <= a.price
  }

  predicate SortedBy(s: seq<ListingValue>, sorter: Sorter) {
    forall i, j :: 0 <= i < j < |s| ==> InOrder(s[i], s[j], sorter)
  }

  predicate IdsIncreasing(s: seq<ListingValue>) {
    forall i, j :: 0 <= i < j < |s| ==> s[i].id < s[j].id
  }

  /** Every listing is stored under its own id. */
  predicate KeyedById(m: map<int, ListingValue>) {
    forall k :: k in m ==> m[k].id == k
  }

  /** The listings stored under ids lo, lo+1, …, hi-1, in that order. */
  function InIdOrder(m: map<int, ListingValue>, lo: int, hi: int): (r: seq<ListingValue>)
    requires KeyedById(m)
    decreases hi - lo
    ensures forall i :: 0 <= i < |r| ==> lo <= r[i].id < hi && r[i].id in m && m[r[i].id] == r[i]
    ensures IdsIncreasing(r)
    ensures forall k :: lo <= k < hi && k in m ==> m[k] in r
  {
    if lo >= hi then []
    else
      var rest := InIdOrder(m, lo + 1, hi);
      if lo in m then
        var r := [m[lo]] + rest;
        assert forall i :: 1 <= i < |r| ==> r[i] == rest[i - 1];
        r
      else rest
  }

  /** In a sequence with increasing ids every element occurs exactly once. */
  lemma {:induction false} DistinctCount(s: seq<ListingValue>, x: ListingValue)
    requires IdsIncreasing(s)
    ensures multiset(s)[x] == if x in s then 1 else 0
  {
    if s != [] {
      var tail := s[1..];
      assert s == [s[0]] + tail;
      TailIdsIncreasing(s);
      DistinctCount(tail, x);
    }
  }

  /** The elements of `s` that `keep` accepts, in their original order. */
  function Select(s: seq<ListingValue>, keep: ListingValue -> bool): (r: seq<ListingValue>)
    ensures forall x :: multiset(r)[x] == if keep(x) then multiset(s)[x] else 0
    ensures forall x :: x in r <==> x in s && keep(x)
  {
    if s == [] then []
    else
      assert s == [s[0]] + s[1..];
      if keep(s[0]) then [s[0]] + Select(s[1..], keep) else Select(s[1..], keep)
  }

  lemma TailIdsIncreasing(s: seq<ListingValue>)
    requires IdsIncreasing(s) && s != []
    ensures IdsIncreasing(s[1..])
    ensures forall x :: x in s[1..] ==> s[0].id < x.id
  {
    var tail := s[1..];
    forall i, j | 0 <= i < j < |tail| ensures tail[i].id < tail[j].id {
      assert tail[i] == s[i + 1] && tail[j] == s[j + 1];
    }
    forall x | x in tail ensures s[0].id < x.id {
      var k :| 0 <= k < |tail| && tail[k] == x;
      assert tail[k] == s[k + 1];
    }
  }

  lemma PrependSmallerId(x: ListingValue, s: seq<ListingValue>)
    requires IdsIncreasing(s)
    requires forall y :: y in s ==> x.id < y.id
    ensures IdsIncreasing([x] + s)
  {
    var r := [x] + s;
    forall i, j | 0 <= i < j < |r| ensures r[i].id < r[j].id {
      assert r[j] == s[j - 1];
      if i > 0 {
        assert r[i] == s[i - 1];
      }
    }
  }

  /** Selecting keeps the relative order, so increasing ids stay increasing. */
  lemma {:induction false} SelectKeepsIdOrder(s: seq<ListingValue>, keep: ListingValue -> bool)
    requires IdsIncreasing(s)
    ensures IdsIncreasing(Select(s, keep))
  {
    if s != [] {
      var tail := s[1..];
      TailIdsIncreasing(s);
      SelectKeepsIdOrder(tail, keep);
      if keep(s[0]) {
        PrependSmallerId(s[0], Select(tail, keep));
      }
    }
  }

  /** Places `x` before the first element it may precede, keeping `s` sorted. */
  function Insert(x: ListingValue, s: seq<ListingValue>, sorter: Sorter): (r: seq<ListingValue>)
    requires SortedBy(s, sorter)
    ensures multiset(r) == multiset(s) + multiset{x}
    ensures SortedBy(r, sorter)
  {
    if s == [] || InOrder(x, s[0], sorter) then
      PrependInOrder(x, s, sorter);
      [x] + s
    else
      var rest := Insert(x, s[1..], sorter);
      InsertAfterHead(x, s, sorter, rest);
      [s[0]] + rest
  }

  /** An element that may precede the head of a sorted sequence may go in front of it. */
  lemma PrependInOrder(x: ListingValue, s: seq<ListingValue>, sorter: Sorter)
    requires SortedBy(s, sorter)
    requires s == [] || InOrder(x, s[0], sorter)
    ensures SortedBy([x] + s, sorter)
  {
    var r := [x] + s;
    forall i, j | 0 <= i < j < |r| ensures InOrder(r[i], r[j], sorter) {
      assert r[j] == s[j - 1];
      if i > 0 {
        assert r[i] == s[i - 1];
      }
    }
  }

  /** The step of Insert that keeps the head and inserts into the tail. */
  lemma InsertAfterHead(x: ListingValue, s: seq<ListingValue>, sorter: Sorter, rest: seq<ListingValue>)
    requires SortedBy(s, sorter) && s != [] && !InOrder(x, s[0], sorter)
    requires SortedBy(rest, sorter) && multiset(rest) == multiset(s[1..]) + multiset{x}
    ensures multiset([s[0]] + rest) == multiset(s) + multiset{x}
    ensures SortedBy([s[0]] + rest, sorter)
  {
    assert s == [s[0]] + s[1..];
    forall y | y in rest ensures InOrder(s[0], y, sorter) {
      assert multiset(rest)[y] > 0;
      if y != x {
        assert y in multiset(s[1..]);
        var k :| 0 <= k < |s[1..]| && s[1..][k] == y;
        assert s[k + 1] == y;
      }
    }
    PrependInOrder(s[0], rest, sorter);
  }

  /** A stable insertion sort on price in the direction `sorter` asks for. */
  function SortByPrice(s: seq<ListingValue>, sorter: Sorter): (r: seq<ListingValue>)
    ensures multiset(r) == multiset(s)
    ensures SortedBy(r, sorter)
  {
    if s == [] then []
    else
      assert s == [s[0]] + s[1..];
      Insert(s[0], SortByPrice(s[1..], sorter), sorter)
  }

  /** The map `getUser` returns for a stored user. */
  function UserRecord(u: UserValue): map<string, Value> {
    map["clerkId" := OptStr(u.clerkId), "name" := Str(u.name),
        "phoneNumber" := Str(u.phoneNumber), "school" := Str(u.school)]
  }

  /** The map `getListingsBySellerId` returns for one listing (the seller id is not included). */
  function ListingRecord(l: ListingValue): map<string, Value> {
    map["id" := Int(l.id), "title" := Str(l.title), "description" := Str(l.description),
        "price" := Num(l.price), "available" := Bool(l.available), "category" := Str(l.category),
        "condition" := Str(l.condition), "imageUrl" := Str(l.imageUrl), "tags" := Strs(l.tags)]
  }

  function RecordsOf(s: seq<ListingValue>): (r: seq<map<string, Value>>)
    ensures |r| == |s| && forall i :: 0 <= i < |s| ==> r[i] == ListingRecord(s[i])
  {
    if s == [] then [] else [ListingRecord(s[0])] + RecordsOf(s[1..])
  }

  /** The descriptive fields of an update, applied with the setters. */
  function PatchedText(l: ListingValue, p: ListingPatch): ListingValue {
    l.(title := p.title.GetOr(l.title),
       description := p.description.GetOr(l.description),
       price := p.price.GetOr(l.price),
       category := p.category.GetOr(l.category))
  }

  lemma PatchInTwoHalves(l: ListingValue, p: ListingPatch)
    ensures Patched(l, p) == PatchedText(l, p).(condition := p.condition.GetOr(l.condition),
                                                 imageUrl := p.imageUrl.GetOr(l.imageUrl),
                                                 tags := p.tags.GetOr(l.tags),
                                                 available := p.available)
  {
  }

  method ApplyTextFields(listing: Listing, p: ListingPatch)
    modifies listing
    ensures listing.Value() == PatchedText(old(listing.Value()), p)
  {
    if p.title.Some? {
      listing.SetTitle(p.title.value);
    }
    if p.description.Some? {
      listing.SetDescription(p.description.value);
    }
    if p.price.Some? {
      listing.SetPrice(p.price.value);
    }
    if p.category.Some? {
      listing.SetCategory(p.category.value);
    }
  }

  /** Calls the setter of every present field of `p`, and always setAvailable. */
  method ApplyPatch(listing: Listing, p: ListingPatch)
    modifies listing
    ensures listing.Value() == Patched(old(listing.Value()), p)
  {
    ghost var v0 := listing.Value();
    ApplyTextFields(listing, p);
    if p.condition.Some? {
      listing.SetCondition(p.condition.value);
    }
    if p.imageUrl.Some? {
      listing.SetImageUrl(p.imageUrl.value);
    }
    if p.tags.Some? {
      listing.SetTags(p.tags.value);
    }
    listing.SetAvailable(p.available);
    PatchInTwoHalves(v0, p);
  }

  /** Records of listings with distinct ids are distinct, since each record carries the id. */
  lemma RecordsDistinct(s: seq<ListingValue>)
    requires IdsIncreasing(s)
    ensures forall i, j :: 0 <= i < j < |s| ==> RecordsOf(s)[i] != RecordsOf(s)[j]
  {
    var r := RecordsOf(s);
    forall i, j | 0 <= i < j < |s| ensures r[i] != r[j] {
      assert r[i]["id"] == Int(s[i].id);
      assert r[j]["id"] == Int(s[j].id);
    }
  }

  lemma RecordCarriesId(a: ListingValue, b: ListingValue)
    requires ListingRecord(a) == ListingRecord(b)
    ensures a.id == b.id
  {
    assert ListingRecord(a)["id"] == Int(a.id);
    assert ListingRecord(b)["id"] == Int(b.id);
  }

  /** The records of the listings of one seller, taken from a sequence with increasing ids. */
  lemma SellerRecords(stored: set<ListingValue>, all: seq<ListingValue>, mine: seq<ListingValue>, sellerId: string)
    requires IdsIncreasing(all) && forall l :: l in all <==> l in stored
    requires IdsIncreasing(mine)
    requires forall l :: l in mine <==> l in all && l.sellerId == sellerId
    ensures var r := RecordsOf(mine);
      && (forall l :: l in stored ==> (ListingRecord(l) in r <==> l.sellerId == sellerId))
      && (forall m :: m in r ==> exists l :: l in stored && l.sellerId == sellerId && m == ListingRecord(l))
      && (forall i, j :: 0 <= i < j < |r| ==> r[i] != r[j])
      && (r == [] <==> forall l :: l in stored ==> l.sellerId != sellerId)
  {
    var r := RecordsOf(mine);
    RecordsDistinct(mine);
    forall m | m in r ensures exists l :: l in stored && l.sellerId == sellerId && m == ListingRecord(l) {
      var i :| 0 <= i < |r| && r[i] == m;
      assert mine[i] in mine;
    }
    forall l | l in stored ensures ListingRecord(l) in r <==> l.sellerId == sellerId {
      if l.sellerId == sellerId {
        assert l in mine;
        var i :| 0 <= i < |mine| && mine[i] == l;
        assert r[i] == ListingRecord(l);
      }
      if ListingRecord(l) in r {
        var i :| 0 <= i < |r| && r[i] == ListingRecord(l);
        assert mine[i] in mine;
        RecordCarriesId(mine[i], l);
        SameIdSameListing(all, mine[i], l);
      }
    }
    assert r != [] ==> mine[0] in mine;
  }

  /** In a sequence with increasing ids, an id names at most one element. */
  lemma SameIdSameListing(s: seq<ListingValue>, a: ListingValue, b: ListingValue)
    requires IdsIncreasing(s) && a in s && b in s && a.id == b.id
    ensures a == b
  {
    var i :| 0 <= i < |s| && s[i] == a;
    var j :| 0 <= j < |s| && s[j] == b;
  }

  class MockStorage {
    var userStorage: map<Option<string>, UserValue>
    var listingStorage: map<int, ListingValue>
    var nextListingId: int

    /**
     * Users are stored under their own clerk id; listings under their own id, which is
     * positive and below the counter.
     */
    ghost predicate Valid()
      reads this
    {
      nextListingId >= 1
      && KeyedById(listingStorage)
      && (forall k :: k in listingStorage ==> 1 <= k < nextListingId)
      && (forall c :: c in userStorage ==> userStorage[c].clerkId == c)
    }

    constructor ()
      ensures Valid()
      ensures userStorage == map[] && listingStorage == map[] && nextListingId == 1
    {
      userStorage := map[];
      listingStorage := map[];
      nextListingId := 1;
    }

    /** Stores a user under its clerk id (replacing any earlier one) and returns the number of users. */
    method CreateUser(clerkId: Option<string>, email: string, name: string, phoneNumber: string, school: string)
      returns (count: int)
      requires Valid()
      modifies this
      ensures Valid()
      ensures userStorage == old(userStorage)[clerkId := UserValue(clerkId, name, phoneNumber, school)]
      ensures count == |userStorage|
      ensures count == |old(userStorage)| + (if clerkId in old(userStorage) then 0 else 1)
      ensures listingStorage == old(listingStorage) && nextListingId == old(nextListingId)
    {
      var user := new User(clerkId, name, phoneNumber, school);
      userStorage := userStorage[clerkId := user.Value()];
      count := |userStorage|;
    }

    /** Applies the present fields of `updated` to a stored user; false when there is none. */
    method UpdateUser(clerkId: Option<string>, updated: UserPatch) returns (ok: bool)
      requires Valid()
      modifies this
      ensures Valid()
      ensures ok <==> clerkId in old(userStorage)
      ensures ok ==> userStorage == old(userStorage)[clerkId := UserPatched(old(userStorage)[clerkId], updated)]
      ensures !ok ==> userStorage == old(userStorage)
      ensures listingStorage == old(listingStorage) && nextListingId == old(nextListingId)
    {
      if clerkId in userStorage {
        var user := new User(clerkId, userStorage[clerkId].name, userStorage[clerkId].phoneNumber, userStorage[clerkId].school);
        if updated.name.Some? {
          user.SetName(updated.name.value);
        }
        if updated.phoneNumber.Some? {
          user.SetPhoneNumber(updated.phoneNumber.value);
        }
        if updated.school.Some? {
          user.SetSchool(updated.school.value);
        }
        userStorage := userStorage[clerkId := user.Value()];
        ok := true;
      } else {
        ok := false;
      }
    }

    /** The stored listings in ascending id order. */
    function ListingsInOrder(): (r: seq<ListingValue>)
      reads this
      requires Valid()
      ensures IdsIncreasing(r)
      ensures forall l :: l in r <==> l in listingStorage.Values
    {
      var r := InIdOrder(listingStorage, 1, nextListingId);
      assert forall l :: l in listingStorage.Values ==> l in r by {
        forall l | l in listingStorage.Values ensures l in r {
          var k :| k in listingStorage && listingStorage[k] == l;
        }
      }
      assert forall l :: l in r ==> l in listingStorage.Values by {
        forall l | l in r ensures l in listingStorage.Values {
          var i :| 0 <= i < |r| && r[i] == l;
          assert listingStorage[r[i].id] == l;
        }
      }
      r
    }

    /**
     * The search: exactly the stored listings that pass every present filter, each once,
     * sorted by price when a sorter is given and in id order otherwise.
     */
    function GetListings(q: SearchQuery): (r: seq<ListingValue>)
      reads this
      requires Valid()
      ensures forall l :: multiset(r)[l] == if l in listingStorage.Values && Matches(q, l) then 1 else 0
      ensures q.sorter.Some? ==> SortedBy(r, q.sorter.value)
      ensures q.sorter.None? ==> IdsIncreasing(r)
    {
      var all := ListingsInOrder();
      var hits := Select(all, l => Matches(q, l));
      assert forall l :: multiset(hits)[l] == if l in listingStorage.Values && Matches(q, l) then 1 else 0 by {
        forall l ensures multiset(hits)[l] == if l in listingStorage.Values && Matches(q, l) then 1 else 0 {
          DistinctCount(all, l);
        }
      }
      SelectKeepsIdOrder(all, l => Matches(q, l));
      if q.sorter.None? then hits else SortByPrice(hits, q.sorter.value)
    }

    /** Optional.ofNullable of the listing stored under `listingId`. */
    function GetListingById(listingId: int): (r: Option<ListingValue>)
      reads this
      requires Valid()
      ensures r.Some? <==> listingId in listingStorage
      ensures r.Some? ==> r.value.id == listingId && r.value in listingStorage.Values
    {
      if listingId in listingStorage then Some(listingStorage[listingId]) else None
    }

    /** The listing stored under `listingId` as an object, or null. */
    method ObtainListing(listingId: int) returns (listing: Listing?)
      requires Valid()
      ensures listing == null <==> listingId !in listingStorage
      ensures listing != null ==> fresh(listing) && Some(listing.Value()) == GetListingById(listingId)
    {
      if listingId in listingStorage {
        var l := listingStorage[listingId];
        listing := new Listing(l.id, l.sellerId, l.title, l.description, l.price, l.category,
                               l.condition, l.imageUrl, l.tags, l.available);
      } else {
        listing := null;
      }
    }

    /**
     * Stores a new listing under the current counter value and advances the counter;
     * null tags are stored as the empty list.
     */
    method CreateListing(sellerId: string, title: string, isAvailable: bool, description: string, price: real,
                         category: string, condition: string, imageUrl: string, tags: Option<seq<string>>)
      returns (id: int)
      requires Valid()
      modifies this
      ensures Valid()
      ensures id == old(nextListingId) && nextListingId == id + 1
      ensures id !in old(listingStorage)
      ensures listingStorage == old(listingStorage)[id := ListingValue(id, sellerId, title, description, price,
                                                      category, condition, imageUrl, tags.GetOr([]), isAvailable)]
      ensures GetListingById(id).Some? && GetListingById(id).value.title == title
      ensures userStorage == old(userStorage)
    {
      var tagList := if tags.Some? then tags.value else [];
      id := nextListingId;
      nextListingId := nextListingId + 1;
      var listing := new Listing(id, sellerId, title, description, price, category, condition, imageUrl, tagList, isAvailable);
      listingStorage := listingStorage[listing.id := listing.Value()];
    }

    /**
     * Applies the present fields of `updated`, and always its availability, to a stored
     * listing; false, with nothing changed, when the id is not stored.
     */
    method UpdateListing(listingId: int, updated: ListingPatch) returns (ok: bool)
      requires Valid()
      modifies this
      ensures Valid()
      ensures ok <==> listingId in old(listingStorage)
      ensures ok ==> listingStorage == old(listingStorage)[listingId := Patched(old(listingStorage)[listingId], updated)]
      ensures !ok ==> listingStorage == old(listingStorage)
      ensures userStorage == old(userStorage) && nextListingId == old(nextListingId)
    {
      if listingId in listingStorage {
        var l := listingStorage[listingId];
        var listing := new Listing(l.id, l.sellerId, l.title, l.description, l.price, l.category,
                                   l.condition, l.imageUrl, l.tags, l.available);
        ApplyPatch(listing, updated);
        listingStorage := listingStorage[listingId := listing.Value()];
        ok := true;
      } else {
        ok := false;
      }
    }

    /** Removes the listing stored under `listingId`; true exactly when there was one. */
    method DeleteListing(listingId: int) returns (deleted: bool)
      requires Valid()
      modifies this
      ensures Valid()
      ensures deleted <==> listingId in old(listingStorage)
      ensures listingStorage == old(listingStorage) - {listingId}
      ensures GetListingById(listingId).None?
      ensures userStorage == old(userStorage) && nextListingId == old(nextListingId)
    {
      deleted := listingId in listingStorage;
      listingStorage := listingStorage - {listingId};
    }

    /** The stored user's fields under fixed keys, or the empty map for an unknown clerk id. */
    function GetUser(clerkId: string): (r: map<string, Value>)
      reads this
      requires Valid()
      ensures r == map[] <==> Some(clerkId) !in userStorage
      ensures r != map[] ==> r.Keys == {"clerkId", "name", "phoneNumber", "school"}
      ensures r != map[] ==> r["clerkId"] == Str(clerkId)
      ensures r != map[] ==>
        && r["name"] == Str(userStorage[Some(clerkId)].name)
        && r["phoneNumber"] == Str(userStorage[Some(clerkId)].phoneNumber)
        && r["school"] == Str(userStorage[Some(clerkId)].school)
    {
      if Some(clerkId) in userStorage then
        var r := UserRecord(userStorage[Some(clerkId)]);
        assert "name" in r;
        r
      else map[]
    }

    /** One record per stored listing of the seller, in id order. */
    function GetListingsBySellerId(sellerId: string): (r: seq<map<string, Value>>)
      reads this
      requires Valid()
      ensures forall l :: l in listingStorage.Values ==> (ListingRecord(l) in r <==> l.sellerId == sellerId)
      ensures forall m :: m in r ==> exists l :: l in listingStorage.Values && l.sellerId == sellerId && m == ListingRecord(l)
      ensures forall i, j :: 0 <= i < j < |r| ==> r[i] != r[j]
      ensures r == [] <==> forall l :: l in listingStorage.Values ==> l.sellerId != sellerId
    {
      var all := ListingsInOrder();
      var mine := Select(all, (l: ListingValue) => l.sellerId == sellerId);
      SelectKeepsIdOrder(all, (l: ListingValue) => l.sellerId == sellerId);
      SellerRecords(listingStorage.Values, all, mine, sellerId);
      RecordsOf(mine)
    }

    /** Whether some stored listing has exactly this title. */
    function Contains(title: string): (r: bool)
      reads this
      requires Valid()
      ensures r <==> exists l :: l in listingStorage.Values && l.title == title
    {
      var hits := Select(ListingsInOrder(), (l: ListingValue) => l.title == title);
      assert hits != [] ==> hits[0] in hits;
      hits != []
    }
  }
}
