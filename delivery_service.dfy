/**
 * The delivery-notification pipeline of `DeliveryService`: resolve a user in
 * a read-only directory, then derive from that user's active cats a title, a
 * message, a total price and a free-gift flag.
 *
 * The directory (`data`) is read once at start-up and never written; here it
 * is the parameter `data: seq<User>` of every operation. The two exceptions
 * the service throws are the `Fail` outcomes of `Result`. Prices are integer
 * cents, so 55.50 is 5550.
 */
module DeliveryService {
  import opened UserId

  datatype Cat = Cat(name: string, subscriptionActive: bool, breed: string, pouchSize: string)

  datatype User = User(id: string, firstName: string, lastName: string, email: string, cats: seq<Cat>)

  /** `BadRequestException` and `NotFoundException`; their message text is left out. */
  datatype Failure = BadRequest | NotFound

  /** A returned value, or a thrown exception propagated to the caller. */
  datatype Result<T> = Ok(value: T) | Fail(failure: Failure) {
    predicate IsFailure() {
      Fail?
    }

    function PropagateFailure<U>(): Result<U>
      requires Fail?
    {
      Fail(failure)
    }

    function Extract(): T
      requires Ok?
    {
      value
    }
  }

  /** The object `generateUserDeliveryComms` returns; `totalPrice` is in cents. */
  datatype Comms = Comms(title: string, message: string, totalPrice: nat, freeGift: bool)

  // ---------------------------------------------------------------------
  // Lookup
  // ---------------------------------------------------------------------

  /** `data.find(user => user.id === userId)`, as the index of the first match (or |data|). */
  function FirstMatch(data: seq<User>, userId: string): (k: nat)
    ensures k <= |data|
    ensures k < |data| ==> data[k].id == userId
    ensures forall j | 0 <= j < k :: data[j].id != userId
  {
    if |data| == 0 then 0
    else if data[0].id == userId then 0
    else 1 + FirstMatch(data[1..], userId)
  }

  /**
   * `getUserDataById`: a malformed id is a bad request; a well-formed id no
   * user has is not found; otherwise the first user in directory order with
   * that id.
   */
  function GetUserDataById(data: seq<User>, userId: string): (r: Result<User>)
    ensures r == Fail(BadRequest) <==> !IsValidUserId(userId)
    ensures r == Fail(NotFound) <==> IsValidUserId(userId) && forall u | u in data :: u.id != userId
    ensures r.Ok? ==>
      r.value.id == userId &&
      exists k | 0 <= k < |data| :: data[k] == r.value && forall j | 0 <= j < k :: data[j].id != userId
  {
    if !IsValidUserId(userId) then Fail(BadRequest)
    else
      var k := FirstMatch(data, userId);
      if k == |data| then Fail(NotFound) else Ok(data[k])
  }

  /** A malformed id is rejected without looking at the directory. */
  lemma BadRequestIgnoresDirectory(data1: seq<User>, data2: seq<User>, userId: string)
    requires !IsValidUserId(userId)
    ensures GetUserDataById(data1, userId) == GetUserDataById(data2, userId) == Fail(BadRequest)
  {
  }

  /** When ids are unique in the directory, the user found is the one that has the id. */
  lemma LookupFindsUniqueUser(data: seq<User>, k: nat)
    requires k < |data| && IsValidUserId(data[k].id)
    requires forall i, j | 0 <= i < j < |data| :: data[i].id != data[j].id
    ensures GetUserDataById(data, data[k].id) == Ok(data[k])
  {
    var r := GetUserDataById(data, data[k].id);
    assert r.Ok?;
    var k' :| 0 <= k' < |data| && data[k'] == r.value && forall j | 0 <= j < k' :: data[j].id != data[k].id;
    assert k' == k;
  }

  // ---------------------------------------------------------------------
  // Active cats
  // ---------------------------------------------------------------------

  /** `cats.filter(cat => cat.subscriptionActive)`. */
  function ActiveCats(cats: seq<Cat>): (r: seq<Cat>)
    ensures |r| <= |cats|
    ensures forall c | c in r :: c in cats && c.subscriptionActive
    ensures forall c | c in cats && c.subscriptionActive :: c in r
  {
    if |cats| == 0 then []
    else (if cats[0].subscriptionActive then [cats[0]] else []) + ActiveCats(cats[1..])
  }

  /** Filtering distributes over concatenation, so it keeps the original order. */
  lemma {:induction false} ActiveCatsAppend(a: seq<Cat>, b: seq<Cat>)
    ensures ActiveCats(a + b) == ActiveCats(a) + ActiveCats(b)
  {
    if |a| == 0 {
      assert a + b == b;
    } else {
      assert (a + b)[1..] == a[1..] + b;
      ActiveCatsAppend(a[1..], b);
    }
  }

  /** An inactive cat anywhere in the list is dropped by the filter. */
  lemma InactiveCatDropped(a: seq<Cat>, c: Cat, b: seq<Cat>)
    requires !c.subscriptionActive
    ensures ActiveCats(a + [c] + b) == ActiveCats(a + b)
  {
    ActiveCatsAppend(a + [c], b);
    ActiveCatsAppend(a, [c]);
    ActiveCatsAppend(a, b);
    assert ActiveCats([c]) == [] by {
      assert [c][1..] == [];
    }
  }

  /** `.map(cat => cat.name)`. */
  function Names(cats: seq<Cat>): (r: seq<string>)
    ensures |r| == |cats|
    ensures forall i | 0 <= i < |r| :: r[i] == cats[i].name
  {
    seq(|cats|, i requires 0 <= i < |cats| => cats[i].name)
  }

  /** `.map(cat => cat.pouchSize)`. */
  function PouchSizes(cats: seq<Cat>): (r: seq<string>)
    ensures |r| == |cats|
    ensures forall i | 0 <= i < |r| :: r[i] == cats[i].pouchSize
  {
    seq(|cats|, i requires 0 <= i < |cats| => cats[i].pouchSize)
  }

  // ---------------------------------------------------------------------
  // Name formatting
  // ---------------------------------------------------------------------

  const NoActiveCats: string := "No active cats"

  /** `Array.prototype.join(sep)` on an array of strings. */
  function Join(parts: seq<string>, sep: string): string {
    if |parts| == 0 then ""
    else if |parts| == 1 then parts[0]
    else parts[0] + sep + Join(parts[1..], sep)
  }

  /** Joining one more part appends the separator and that part. */
  lemma {:induction false} JoinSnoc(parts: seq<string>, x: string, sep: string)
    requires |parts| >= 1
    ensures Join(parts + [x], sep) == Join(parts, sep) + sep + x
  {
    if |parts| == 1 {
      assert (parts + [x])[1..] == [x];
    } else {
      assert (parts + [x])[1..] == parts[1..] + [x];
      JoinSnoc(parts[1..], x, sep);
    }
  }

  /**
   * The list as `formatActiveCatNames` builds it: the sentinel for none, the
   * name alone for one, else all but the last joined by ", ", then " and "
   * and the last.
   */
  function FormatNames(names: seq<string>): string {
    if |names| == 0 then NoActiveCats
    else if |names| == 1 then names[0]
    else Join(names[..|names| - 1], ", ") + " and " + names[|names| - 1]
  }

  /**
   * Reference reading of an English list without an Oxford comma, built
   * from the front: "a", "a and b", "a, " followed by the list of the rest.
   */
  function EnglishList(names: seq<string>): string
    requires |names| >= 1
  {
    if |names| == 1 then names[0]
    else if |names| == 2 then names[0] + " and " + names[1]
    else names[0] + ", " + EnglishList(names[1..])
  }

  /** The slice-and-join construction is the English list, for every non-empty list. */
  lemma {:induction false} FormatNamesIsEnglishList(names: seq<string>)
    requires |names| >= 1
    ensures FormatNames(names) == EnglishList(names)
  {
    if |names| > 2 {
      var n := |names|;
      var rest := names[1..];
      assert names[..n - 1] == [names[0]] + rest[..n - 2];
      assert names[..n - 1][1..] == rest[..n - 2];
      assert rest[n - 2] == names[n - 1];
      FormatNamesIsEnglishList(rest);
    }
  }

  /** Adding a name at the end of a non-empty list: all the old names are joined by ", ". */
  lemma FormatNamesSnoc(names: seq<string>, x: string)
    requires |names| >= 1
    ensures FormatNames(names + [x]) == Join(names, ", ") + " and " + x
  {
    var longer := names + [x];
    assert |longer| == |names| + 1 && longer[|names|] == x;
    assert longer[..|longer| - 1] == names;
    if |names| == 1 {
      assert Join(names, ", ") == names[0];
    }
  }

  /** The names of the active cats, in their original order. */
  function ActiveCatNames(cats: seq<Cat>): (r: seq<string>)
    ensures |r| == |ActiveCats(cats)| <= |cats|
  {
    Names(ActiveCats(cats))
  }

  /** Every active name belongs to an active cat, and every active cat's name is listed. */
  lemma ActiveCatNamesMembers(cats: seq<Cat>)
    ensures forall n | n in ActiveCatNames(cats) :: exists c | c in cats :: c.subscriptionActive && c.name == n
    ensures forall c | c in cats && c.subscriptionActive :: c.name in ActiveCatNames(cats)
  {
    var a := ActiveCats(cats);
    forall c | c in cats && c.subscriptionActive
      ensures c.name in ActiveCatNames(cats)
    {
      var i :| 0 <= i < |a| && a[i] == c;
      assert ActiveCatNames(cats)[i] == c.name;
    }
  }

  /** `formatActiveCatNames`: resolves the user, then formats the active cats' names. */
  function FormatActiveCatNames(data: seq<User>, userId: string): (r: Result<string>)
    ensures r.Fail? <==> GetUserDataById(data, userId).Fail?
    ensures r.Fail? ==> r.failure == GetUserDataById(data, userId).failure
  {
    var user :- GetUserDataById(data, userId);
    Ok(FormatNames(ActiveCatNames(user.cats)))
  }

  /**
   * The cases of `formatActiveCatNames` for a resolved user, in terms of the
   * active names N: the sentinel, N[0], or the join of all but the last with
   * " and " before the last, which is also the English list of N.
   */
  lemma FormatActiveCatNamesCases(data: seq<User>, userId: string, u: User)
    requires GetUserDataById(data, userId) == Ok(u)
    ensures
      var n := ActiveCatNames(u.cats);
      var r := FormatActiveCatNames(data, userId);
      && r.Ok?
      && (|n| == 0 ==> r.value == NoActiveCats)
      && (|n| == 1 ==> r.value == n[0])
      && (|n| >= 2 ==> r.value == Join(n[..|n| - 1], ", ") + " and " + n[|n| - 1])
      && (|n| >= 1 ==> r.value == EnglishList(n))
  {
    var n := ActiveCatNames(u.cats);
    if |n| >= 1 {
      FormatNamesIsEnglishList(n);
    }
  }

  /** An inactive cat changes neither the active names nor the active pouch sizes. */
  lemma InactiveCatIgnored(a: seq<Cat>, c: Cat, b: seq<Cat>)
    requires !c.subscriptionActive
    ensures ActiveCatNames(a + [c] + b) == ActiveCatNames(a + b)
    ensures ActivePouchSizes(a + [c] + b) == ActivePouchSizes(a + b)
  {
    InactiveCatDropped(a, c, b);
  }

  // ---------------------------------------------------------------------
  // Title and message
  // ---------------------------------------------------------------------

  const TitlePrefix: string := "Your next delivery for "
  const Greeting: string := "Hey "
  const MessageMiddle: string := "! In two days' time, we'll be charging you for your next order for "
  const MessageEnd: string := "'s fresh food."

  /** `createTitle`. */
  function CreateTitle(data: seq<User>, userId: string): (r: Result<string>)
    ensures r.Fail? <==> GetUserDataById(data, userId).Fail?
    ensures r.Fail? ==> r.failure == GetUserDataById(data, userId).failure
  {
    var names :- FormatActiveCatNames(data, userId);
    Ok(TitlePrefix + names)
  }

  /**
   * The title is the fixed prefix followed by exactly the formatted names, so
   * the names can be read back from it; with no active cat it embeds the
   * sentinel.
   */
  lemma TitleDecomposes(data: seq<User>, userId: string, u: User)
    requires GetUserDataById(data, userId) == Ok(u)
    ensures
      var t := CreateTitle(data, userId);
      var names := FormatNames(ActiveCatNames(u.cats));
      && t.Ok?
      && |t.value| == |TitlePrefix| + |names|
      && t.value[..|TitlePrefix|] == TitlePrefix
      && t.value[|TitlePrefix|..] == names
      && (|ActiveCats(u.cats)| == 0 ==> t.value == TitlePrefix + NoActiveCats)
  {
    var names := FormatNames(ActiveCatNames(u.cats));
    assert (TitlePrefix + names)[|TitlePrefix|..] == names;
  }

  /** `createMessage`: resolves the user for the first name, then formats the names. */
  function CreateMessage(data: seq<User>, userId: string): (r: Result<string>)
    ensures r.Fail? <==> GetUserDataById(data, userId).Fail?
    ensures r.Fail? ==> r.failure == GetUserDataById(data, userId).failure
  {
    var user :- GetUserDataById(data, userId);
    var names := FormatActiveCatNames(data, userId).value;
    Ok(Greeting + user.firstName + MessageMiddle + names + MessageEnd)
  }

  /**
   * The message splits into the greeting, the user's first name, the fixed
   * middle text, the formatted names and the fixed ending, in that order.
   */
  lemma MessageDecomposes(data: seq<User>, userId: string, u: User)
    requires GetUserDataById(data, userId) == Ok(u)
    ensures
      var m := CreateMessage(data, userId);
      var names := FormatNames(ActiveCatNames(u.cats));
      var a := |Greeting|;
      var b := a + |u.firstName|;
      var c := b + |MessageMiddle|;
      var d := c + |names|;
      && m.Ok?
      && |m.value| == d + |MessageEnd|
      && m.value[..a] == Greeting
      && m.value[a..b] == u.firstName
      && m.value[b..c] == MessageMiddle
      && m.value[c..d] == names
      && m.value[d..] == MessageEnd
  {
    var names := FormatNames(ActiveCatNames(u.cats));
    FiveParts(Greeting, u.firstName, MessageMiddle, names, MessageEnd);
  }

  /** The five pieces of a concatenation can be sliced back out of it. */
  lemma FiveParts(p1: string, p2: string, p3: string, p4: string, p5: string)
    ensures
      var s := p1 + p2 + p3 + p4 + p5;
      var a, b, c, d := |p1|, |p1| + |p2|, |p1| + |p2| + |p3|, |p1| + |p2| + |p3| + |p4|;
      && |s| == d + |p5|
      && s[..a] == p1 && s[a..b] == p2 && s[b..c] == p3 && s[c..d] == p4 && s[d..] == p5
  {
    var s := p1 + p2 + p3 + p4 + p5;
    var a, b, c, d := |p1|, |p1| + |p2|, |p1| + |p2| + |p3|, |p1| + |p2| + |p3| + |p4|;
    assert s[..a] == p1;
    assert s[a..b] == p2;
    assert s[b..c] == p3;
    assert s[c..d] == p4;
    assert s[d..] == p5;
  }

  // ---------------------------------------------------------------------
  // Price
  // ---------------------------------------------------------------------

  /** The pouch price table, in cents. */
  const PouchPrices: map<string, nat> :=
    map["A" := 5550, "B" := 5950, "C" := 6275, "D" := 6600, "E" := 6900, "F" := 7125]

  const MaxPouchPrice: nat := 7125

  /** `pouchPrices[pouchSize] || 0`: the table price, or 0 for a size not in the table. */
  function PouchPrice(size: string): (p: nat)
    ensures p <= MaxPouchPrice
    ensures p == 0 <==> size !in PouchPrices
    ensures size in PouchPrices ==> p >= 5550
  {
    if size in PouchPrices then PouchPrices[size] else 0
  }

  /** `.map(cat => cat.pouchSize)` of the active cats. */
  function ActivePouchSizes(cats: seq<Cat>): (r: seq<string>)
    ensures |r| == |ActiveCats(cats)| <= |cats|
  {
    PouchSizes(ActiveCats(cats))
  }

  /** `sizes.reduce((total, size) => total + price(size), total)`: a left fold. */
  function ReducePrices(total: nat, sizes: seq<string>): (r: nat)
    ensures total <= r <= total + MaxPouchPrice * |sizes|
    decreases |sizes|
  {
    if |sizes| == 0 then total
    else ReducePrices(total + PouchPrice(sizes[0]), sizes[1..])
  }

  /** Reference sum of the prices of a list of sizes. */
  function PriceSum(sizes: seq<string>): nat {
    if |sizes| == 0 then 0 else PouchPrice(sizes[0]) + PriceSum(sizes[1..])
  }

  /** The fold from an initial total adds that total to the plain sum. */
  lemma {:induction false} ReduceIsSum(total: nat, sizes: seq<string>)
    ensures ReducePrices(total, sizes) == total + PriceSum(sizes)
    decreases |sizes|
  {
    if |sizes| > 0 {
      ReduceIsSum(total + PouchPrice(sizes[0]), sizes[1..]);
    }
  }

  /** The sum over a concatenation is the sum of the sums. */
  lemma {:induction false} PriceSumAppend(a: seq<string>, b: seq<string>)
    ensures PriceSum(a + b) == PriceSum(a) + PriceSum(b)
  {
    if |a| == 0 {
      assert a + b == b;
    } else {
      assert (a + b)[1..] == a[1..] + b;
      PriceSumAppend(a[1..], b);
    }
  }

  /** The sum is at most the highest price times the number of sizes. */
  lemma {:induction false} PriceSumBound(sizes: seq<string>)
    ensures PriceSum(sizes) <= MaxPouchPrice * |sizes|
  {
    if |sizes| > 0 {
      PriceSumBound(sizes[1..]);
    }
  }

  /** `calculateTotalPrice`. */
  function CalculateTotalPrice(data: seq<User>, userId: string): (r: Result<nat>)
    ensures r.Fail? <==> GetUserDataById(data, userId).Fail?
    ensures r.Fail? ==> r.failure == GetUserDataById(data, userId).failure
  {
    var user :- GetUserDataById(data, userId);
    Ok(ReducePrices(0, ActivePouchSizes(user.cats)))
  }

  /**
   * For a resolved user, the total is the sum of the table prices of the
   * active cats' pouch sizes (0 for an unknown size); it is 0 with no active
   * cat and at most 71.25 per active cat.
   */
  lemma TotalPriceSpec(data: seq<User>, userId: string, u: User)
    requires GetUserDataById(data, userId) == Ok(u)
    ensures
      var t := CalculateTotalPrice(data, userId);
      var active := ActiveCats(u.cats);
      && t.Ok?
      && t.value == PriceSum(ActivePouchSizes(u.cats))
      && (|active| == 0 ==> t.value == 0)
      && t.value <= MaxPouchPrice * |active|
  {
    ReduceIsSum(0, ActivePouchSizes(u.cats));
    PriceSumBound(ActivePouchSizes(u.cats));
  }

  /** Adding a cat at the end adds its price if it is active, and nothing otherwise. */
  lemma TotalPriceSnoc(cats: seq<Cat>, c: Cat)
    ensures PriceSum(ActivePouchSizes(cats + [c])) ==
      PriceSum(ActivePouchSizes(cats)) + (if c.subscriptionActive then PouchPrice(c.pouchSize) else 0)
  {
    ActiveCatsAppend(cats, [c]);
    var a := ActiveCats(cats);
    var tail := ActiveCats([c]);
    var sizes := if c.subscriptionActive then [c.pouchSize] else [];
    assert PouchSizes(tail) == sizes by {
      assert [c][1..] == [];
    }
    PouchSizesAppend(a, tail);
    PriceSumAppend(PouchSizes(a), sizes);
    assert PriceSum(sizes) == if c.subscriptionActive then PouchPrice(c.pouchSize) else 0 by {
      assert sizes != [] ==> sizes[1..] == [];
    }
  }

  lemma PouchSizesAppend(a: seq<Cat>, b: seq<Cat>)
    ensures PouchSizes(a + b) == PouchSizes(a) + PouchSizes(b)
  {
  }

  // ---------------------------------------------------------------------
  // Free gift
  // ---------------------------------------------------------------------

  /** 120.00, in cents. */
  const FreeGiftThreshold: nat := 12000

  /** `isEligibleForFreeGift`: the total is strictly above 120. */
  function IsEligibleForFreeGift(data: seq<User>, userId: string): (r: Result<bool>)
    ensures r.Fail? <==> GetUserDataById(data, userId).Fail?
    ensures r.Fail? ==> r.failure == GetUserDataById(data, userId).failure
    ensures r.Ok? ==> (r.value <==> CalculateTotalPrice(data, userId).value > FreeGiftThreshold)
  {
    var total :- CalculateTotalPrice(data, userId);
    Ok(total > FreeGiftThreshold)
  }

  /** The six table prices, and every sum of two of them. */
  const TablePrices: set<nat> := {5550, 5950, 6275, 6600, 6900, 7125}

  function TwoPouchTotals(): set<nat> {
    set p, q | p in TablePrices && q in TablePrices :: p + q
  }

  /**
   * Every total is 0, one table price, the sum of two table prices, or at
   * least three times the cheapest price.
   */
  lemma {:induction false} TotalKinds(sizes: seq<string>)
    ensures var t := PriceSum(sizes);
      t == 0 || t in TablePrices || t in TwoPouchTotals() || t >= 3 * 5550
  {
    if |sizes| > 0 {
      TotalKinds(sizes[1..]);
      var p := PouchPrice(sizes[0]);
      var rest := PriceSum(sizes[1..]);
      assert p == 0 || p in TablePrices;
      if p != 0 && rest in TablePrices {
        assert p + rest in TwoPouchTotals();
      }
    }
  }

  /**
   * No list of pouches costs exactly 120.00, so the strict test and a
   * non-strict one would decide every user alike.
   */
  lemma TotalNeverAtThreshold(sizes: seq<string>)
    ensures PriceSum(sizes) != FreeGiftThreshold
    ensures PriceSum(sizes) > FreeGiftThreshold <==> PriceSum(sizes) >= FreeGiftThreshold
  {
    TotalKinds(sizes);
    assert FreeGiftThreshold !in TwoPouchTotals();
  }

  /** No single pouch exceeds 120, so a free gift needs at least two active cats. */
  lemma FreeGiftNeedsTwoActiveCats(data: seq<User>, userId: string, u: User)
    requires GetUserDataById(data, userId) == Ok(u)
    requires IsEligibleForFreeGift(data, userId) == Ok(true)
    ensures |ActiveCats(u.cats)| >= 2
  {
    TotalPriceSpec(data, userId, u);
  }

  // ---------------------------------------------------------------------
  // Assembler
  // ---------------------------------------------------------------------

  /**
   * `generateUserDeliveryComms`: resolves the user first, so a bad request or
   * not found is returned before any field is computed; then each field is
   * its helper applied to the same id.
   */
  function GenerateUserDeliveryComms(data: seq<User>, userId: string): (r: Result<Comms>)
    ensures r.Fail? <==> GetUserDataById(data, userId).Fail?
    ensures r.Fail? ==> r.failure == GetUserDataById(data, userId).failure
    ensures r.Ok? ==>
      && r.value.title == CreateTitle(data, userId).value
      && r.value.message == CreateMessage(data, userId).value
      && r.value.totalPrice == CalculateTotalPrice(data, userId).value
      && r.value.freeGift == IsEligibleForFreeGift(data, userId).value
  {
    var _ :- GetUserDataById(data, userId);
    Ok(Comms(
      CreateTitle(data, userId).value,
      CreateMessage(data, userId).value,
      CalculateTotalPrice(data, userId).value,
      IsEligibleForFreeGift(data, userId).value))
  }

  /**
   * The fields of one notification agree with each other and with the
   * resolved user: the flag is the threshold test of the total, the total is
   * the active cats' price sum, and title and message embed the same names.
   */
  lemma CommsConsistent(data: seq<User>, userId: string, u: User)
    requires GetUserDataById(data, userId) == Ok(u)
    ensures
      var r := GenerateUserDeliveryComms(data, userId);
      var names := FormatNames(ActiveCatNames(u.cats));
      && r.Ok?
      && (r.value.freeGift <==> r.value.totalPrice > FreeGiftThreshold)
      && r.value.totalPrice == PriceSum(ActivePouchSizes(u.cats))
      && r.value.title == TitlePrefix + names
      && r.value.message == Greeting + u.firstName + MessageMiddle + names + MessageEnd
  {
    TotalPriceSpec(data, userId, u);
  }
}
