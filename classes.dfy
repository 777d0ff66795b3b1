/**
 * The two records of the marketplace, Listing and User, as mutable objects with
 * setters, plus the immutable snapshots (`ListingValue`, `UserValue`) that the store
 * keeps and that responses carry.
 */
module Classes {
  import opened Wrappers

  /** A snapshot of every field of a listing. */
  datatype ListingValue = ListingValue(
    id: int,
    sellerId: string,
    title: string,
    description: string,
    price: real,
    category: string,
    condition: string,
    imageUrl: string,
    tags: seq<string>,
    available: bool)

  /** A snapshot of every field of a user; the clerk id may be null. */
  datatype UserValue = UserValue(clerkId: Option<string>, name: string, phoneNumber: string, school: string)

  /**
   * The objects a response map holds: Java's null, booleans, longs, prices, strings,
   * string lists, whole listings, and (lists of) string-keyed maps.
   */
  datatype Value =
    | Null
    | Bool(b: bool)
    | Int(i: int)
    | Num(r: real)
    | Str(s: string)
    | Strs(items: seq<string>)
    | ListingObj(listing: ListingValue)
    | ListingObjs(listings: seq<ListingValue>)
    | Record(fields: map<string, Value>)
    | Records(records: seq<map<string, Value>>)

  /** Java's String-or-null as a response value. */
  function OptStr(s: Option<string>): (v: Value)
    ensures s.None? <==> v == Null
    ensures s.Some? ==> v == Str(s.value)
  {
    if s.Some? then Str(s.value) else Null
  }

  /**
   * A listing. `id` and `sellerId` have no setters, so they are constants fixed by the
   * constructor; the `available` flag is a primitive boolean and is never null.
   */
  class Listing {
    const id: int
    const sellerId: string
    var title: string
    var description: string
    var price: real
    var category: string
    var condition: string
    var imageUrl: string
    var tags: seq<string>
    var available: bool

    /** The current contents of every field. */
    function Value(): ListingValue
      reads this
    {
      ListingValue(id, sellerId, title, description, price, category, condition, imageUrl, tags, available)
    }

    constructor (id: int, sellerId: string, title: string, description: string, price: real,
                 category: string, condition: string, img: string, tags: seq<string>, avail: bool)
      ensures Value() == ListingValue(id, sellerId, title, description, price, category, condition, img, tags, avail)
    {
      this.id := id;
      this.sellerId := sellerId;
      this.title := title;
      this.description := description;
      this.price := price;
      this.category := category;
      this.condition := condition;
      this.imageUrl := img;
      this.tags := tags;
      this.available := avail;
    }

    method SetPrice(price: real)
      modifies this
      ensures Value() == old(Value()).(price := price)
    {
      this.price := price;
    }

    method SetTitle(title: string)
      modifies this
      ensures Value() == old(Value()).(title := title)
    {
      this.title := title;
    }

    method SetDescription(description: string)
      modifies this
      ensures Value() == old(Value()).(description := description)
    {
      this.description := description;
    }

    method SetCategory(category: string)
      modifies this
      ensures Value() == old(Value()).(category := category)
    {
      this.category := category;
    }

    method SetCondition(condition: string)
      modifies this
      ensures Value() == old(Value()).(condition := condition)
    {
      this.condition := condition;
    }

    method SetImageUrl(imageUrl: string)
      modifies this
      ensures Value() == old(Value()).(imageUrl := imageUrl)
    {
      this.imageUrl := imageUrl;
    }

    method SetAvailable(available: bool)
      modifies this
      ensures Value() == old(Value()).(available := available)
    {
      this.available := available;
    }

    method SetTags(tags: seq<string>)
      modifies this
      ensures Value() == old(Value()).(tags := tags)
    {
      this.tags := tags;
    }
  }

  /** A user. The clerk id has no setter and is fixed by the constructor. */
  class User {
    const clerkId: Option<string>
    var name: string
    var phoneNumber: string
    var school: string

    function Value(): UserValue
      reads this
    {
      UserValue(clerkId, name, phoneNumber, school)
    }

    constructor (clerkId: Option<string>, name: string, phoneNumber: string, school: string)
      ensures Value() == UserValue(clerkId, name, phoneNumber, school)
    {
      this.clerkId := clerkId;
      this.name := name;
      this.phoneNumber := phoneNumber;
      this.school := school;
    }

    method SetName(name: string)
      modifies this
      ensures Value() == old(Value()).(name := name)
    {
      this.name := name;
    }

    method SetPhoneNumber(phoneNumber: string)
      modifies this
      ensures Value() == old(Value()).(phoneNumber := phoneNumber)
    {
      this.phoneNumber := phoneNumber;
    }

    method SetSchool(school: string)
      modifies this
      ensures Value() == old(Value()).(school := school)
    {
      this.school := school;
    }
  }
}
