/**
 * The sock-shop argument generators (workload/sockshop.go): each builds
 * the form values of one sock-shop API call from random draws. Every call
 * to rand.Intn(n) is a parameter of the generator holding the value drawn,
 * with the guarantee rand.Intn gives (0 <= draw < n) as a precondition.
 * A generator's result is the list of (key, argument) pairs it adds, in
 * order and before encoding; Form applies prepareArg to each.
 */
module Sockshop {
  import opened Common
  import Registry

  type Args = seq<(string, Registry.Arg)>

  /** Every draw lies in [0, n), as rand.Intn(n) guarantees. */
  predicate DrawsBelow(draws: seq<int>, n: int)
  {
    forall i :: 0 <= i < |draws| ==> 0 <= draws[i] < n
  }

  function Keys(args: Args): (keys: seq<string>)
    ensures |keys| == |args|
  {
    seq(|args|, i requires 0 <= i < |args| => args[i].0)
  }

  // ---------------------------------------------------------------------
  // Object identifiers
  // ---------------------------------------------------------------------

  const OBJECT_ID_CHARS: string := "abcdef0123456789"
  const OBJECT_ID_LENGTH: nat := 24

  /** The draws generateObjectID takes: 24 indices into its alphabet. */
  predicate IdDraws(draws: seq<int>)
  {
    |draws| == OBJECT_ID_LENGTH && DrawsBelow(draws, |OBJECT_ID_CHARS|)
  }

  /** A MongoDB-style identifier: 24 lower-case hexadecimal characters. */
  predicate IsObjectId(s: string)
  {
    |s| == OBJECT_ID_LENGTH && forall i :: 0 <= i < |s| ==> s[i] in OBJECT_ID_CHARS
  }

  /** The identifier generateObjectID builds from its draws. */
  function ObjectIdOf(draws: seq<int>): (id: string)
    requires IdDraws(draws)
    ensures IsObjectId(id)
  {
    seq(OBJECT_ID_LENGTH, i requires 0 <= i < OBJECT_ID_LENGTH => OBJECT_ID_CHARS[draws[i]])
  }

  /** generateObjectID: one alphabet character per draw, appended in turn. */
  method GenerateObjectId(draws: seq<int>) returns (id: string)
    requires IdDraws(draws)
    ensures id == ObjectIdOf(draws)
  {
    id := "";
    for i := 0 to OBJECT_ID_LENGTH
      invariant |id| == i
      invariant forall k :: 0 <= k < i ==> id[k] == OBJECT_ID_CHARS[draws[k]]
    {
      id := id + [OBJECT_ID_CHARS[draws[i]]];
    }
  }

  /** The position of a hexadecimal character in the alphabet. */
  function HexIndex(c: char): (k: nat)
    requires c in OBJECT_ID_CHARS
    ensures k < |OBJECT_ID_CHARS| && OBJECT_ID_CHARS[k] == c
  {
    if 'a' <= c <= 'f' then (c as int) - ('a' as int) else 6 + (c as int) - ('0' as int)
  }

  /** The draws that produce a given identifier. */
  function DrawsOfId(id: string): (draws: seq<int>)
    requires IsObjectId(id)
    ensures IdDraws(draws)
  {
    seq(OBJECT_ID_LENGTH, i requires 0 <= i < OBJECT_ID_LENGTH => HexIndex(id[i]))
  }

  /** Every identifier can be generated: its own draws produce it. */
  lemma {:induction false} EveryObjectIdGenerated(id: string)
    requires IsObjectId(id)
    ensures ObjectIdOf(DrawsOfId(id)) == id
  {
  }

  /** The alphabet has no repeated character, so different draws give
      different identifiers. */
  lemma {:induction false} ObjectIdDeterminesDraws(draws: seq<int>)
    requires IdDraws(draws)
    ensures DrawsOfId(ObjectIdOf(draws)) == draws
  {
    var id := ObjectIdOf(draws);
    forall i | 0 <= i < OBJECT_ID_LENGTH
      ensures DrawsOfId(id)[i] == draws[i]
    {
      HexIndexOfAlphabet(draws[i]);
    }
  }

  lemma {:induction false} HexIndexOfAlphabet(k: int)
    requires 0 <= k < |OBJECT_ID_CHARS|
    ensures HexIndex(OBJECT_ID_CHARS[k]) == k
  {
  }

  // ---------------------------------------------------------------------
  // Shared pieces
  // ---------------------------------------------------------------------

  const SOCK_ITEMS: seq<string> := [
    "Weave special", "Nerd leg", "Crossed", "SuperSport XL", "Holy",
    "YouTube.sock", "Figueroa", "Classic", "Colourful", "Cat socks"
  ]

  const ALL_TAGS: seq<string> := [
    "brown", "geek", "formal", "blue", "skin", "red", "action", "sport",
    "black", "magic", "green"
  ]

  const ORDERS: seq<string> := ["", "name", "price", "quantity"]

  /** A session identifier that is present only when the draw exceeds
      `threshold`, and is then a fresh object identifier. */
  function SessionId(draw: int, threshold: int, idDraws: seq<int>): (s: string)
    requires IdDraws(idDraws)
    ensures s != "" <==> draw > threshold
    ensures s != "" ==> IsObjectId(s)
  {
    if draw > threshold then ObjectIdOf(idDraws) else ""
  }

  predicate IsId(v: Registry.Arg) { v.Str? && IsObjectId(v.s) }

  predicate IsItem(v: Registry.Arg) { v.Str? && v.s in SOCK_ITEMS }

  /** A session argument: empty, or an object identifier. */
  predicate IsSession(v: Registry.Arg) { v.Str? && (v.s == "" || IsObjectId(v.s)) }

  /** A generator that sends one object identifier under `key`. */
  function OneId(key: string, idDraws: seq<int>): (args: Args)
    requires IdDraws(idDraws)
    ensures Keys(args) == [key] && IsId(args[0].1)
  {
    [(key, Registry.Str(ObjectIdOf(idDraws)))]
  }

  // ---------------------------------------------------------------------
  // Cart
  // ---------------------------------------------------------------------

  /** A session identifier in about four draws out of five. */
  function GetCart(sessionDraw: int, idDraws: seq<int>): (args: Args)
    requires 0 <= sessionDraw < 100 && IdDraws(idDraws)
    ensures Keys(args) == ["sessionID"] && IsSession(args[0].1)
    ensures args[0].1.s != "" <==> sessionDraw > 20
  {
    [("sessionID", Registry.Str(SessionId(sessionDraw, 20, idDraws)))]
  }

  function DeleteCart(idDraws: seq<int>): (args: Args)
    requires IdDraws(idDraws)
    ensures Keys(args) == ["sessionID"] && IsId(args[0].1)
  {
    OneId("sessionID", idDraws)
  }

  function RemoveItem(idDraws: seq<int>, itemDraw: int): (args: Args)
    requires IdDraws(idDraws) && 0 <= itemDraw < |SOCK_ITEMS|
    ensures Keys(args) == ["sessionID", "itemID"]
    ensures IsId(args[0].1) && IsItem(args[1].1)
  {
    [("sessionID", Registry.Str(ObjectIdOf(idDraws))),
     ("itemID", Registry.Str(SOCK_ITEMS[itemDraw]))]
  }

  function AddItem(sessionDraw: int, idDraws: seq<int>, itemDraw: int): (args: Args)
    requires 0 <= sessionDraw < 100 && IdDraws(idDraws) && 0 <= itemDraw < |SOCK_ITEMS|
    ensures Keys(args) == ["sessionID", "itemID"]
    ensures IsSession(args[0].1) && (args[0].1.s != "" <==> sessionDraw > 30)
    ensures IsItem(args[1].1)
  {
    [("sessionID", Registry.Str(SessionId(sessionDraw, 30, idDraws))),
     ("itemID", Registry.Str(SOCK_ITEMS[itemDraw]))]
  }

  /** The quantity is passed as a number between 1 and 5. */
  function UpdateItem(sessionDraw: int, idDraws: seq<int>, itemDraw: int, quantityDraw: int): (args: Args)
    requires 0 <= sessionDraw < 100 && IdDraws(idDraws)
    requires 0 <= itemDraw < |SOCK_ITEMS| && 0 <= quantityDraw < 5
    ensures Keys(args) == ["sessionID", "itemID", "quantity"]
    ensures IsSession(args[0].1) && (args[0].1.s != "" <==> sessionDraw > 30)
    ensures IsItem(args[1].1)
    ensures args[2].1.Int? && 1 <= args[2].1.i <= 5
  {
    [("sessionID", Registry.Str(SessionId(sessionDraw, 30, idDraws))),
     ("itemID", Registry.Str(SOCK_ITEMS[itemDraw])),
     ("quantity", Registry.Int(quantityDraw + 1))]
  }

  // ---------------------------------------------------------------------
  // Catalogue
  // ---------------------------------------------------------------------

  /** The tags the tag draws pick, in order. */
  function TagsOf(tagDraws: seq<int>): (tags: seq<string>)
    requires DrawsBelow(tagDraws, |ALL_TAGS|)
    ensures |tags| == |tagDraws|
    ensures forall i :: 0 <= i < |tags| ==> tags[i] in ALL_TAGS
  {
    seq(|tagDraws|, i requires 0 <= i < |tagDraws| => ALL_TAGS[tagDraws[i]])
  }

  /** The draws of one ListItems call: how many tags less one, one draw per
      tag, and the order. */
  predicate ListItemsDraws(countDraw: int, tagDraws: seq<int>, orderDraw: int)
  {
    0 <= countDraw < 3 && |tagDraws| == countDraw + 1 &&
    DrawsBelow(tagDraws, |ALL_TAGS|) && 0 <= orderDraw < |ORDERS|
  }

  function ListItemsArgs(countDraw: int, tagDraws: seq<int>, orderDraw: int): Args
    requires ListItemsDraws(countDraw, tagDraws, orderDraw)
  {
    [("tags", Registry.StrList(TagsOf(tagDraws))),
     ("order", Registry.Str(ORDERS[orderDraw])),
     ("pageNum", Registry.Int(1)),
     ("pageSize", Registry.Int(20))]
  }

  /** One to three tags from the tag list, an order from the order list
      (possibly empty), the first page, twenty per page. */
  lemma {:induction false} ListItemsShape(countDraw: int, tagDraws: seq<int>, orderDraw: int)
    requires ListItemsDraws(countDraw, tagDraws, orderDraw)
    ensures var args := ListItemsArgs(countDraw, tagDraws, orderDraw);
      Keys(args) == ["tags", "order", "pageNum", "pageSize"] &&
      args[0].1.StrList? && 1 <= |args[0].1.items| <= 3 &&
      (forall t :: t in args[0].1.items ==> t in ALL_TAGS) &&
      args[1].1.Str? && args[1].1.s in ORDERS &&
      args[2].1 == Registry.Int(1) && args[3].1 == Registry.Int(20)
  {
    var tags := TagsOf(tagDraws);
    forall t | t in tags
      ensures t in ALL_TAGS
    {
      var i :| 0 <= i < |tags| && tags[i] == t;
    }
  }

  /** sockshop_ListItems: the tag slice is made with its final length and
      filled in a loop, one draw per slot. */
  method ListItems(countDraw: int, tagDraws: seq<int>, orderDraw: int) returns (args: Args)
    requires ListItemsDraws(countDraw, tagDraws, orderDraw)
    ensures args == ListItemsArgs(countDraw, tagDraws, orderDraw)
  {
    var numTags := countDraw + 1;
    var tags := new string[numTags];
    for i := 0 to numTags
      invariant forall k :: 0 <= k < i ==> tags[k] == ALL_TAGS[tagDraws[k]]
    {
      tags[i] := ALL_TAGS[tagDraws[i]];
    }
    assert tags[..] == TagsOf(tagDraws);
    args := [("tags", Registry.StrList(tags[..])),
             ("order", Registry.Str(ORDERS[orderDraw])),
             ("pageNum", Registry.Int(1)),
             ("pageSize", Registry.Int(20))];
  }

  function GetSock(itemDraw: int): (args: Args)
    requires 0 <= itemDraw < |SOCK_ITEMS|
    ensures Keys(args) == ["itemID"] && IsItem(args[0].1)
  {
    [("itemID", Registry.Str(SOCK_ITEMS[itemDraw]))]
  }

  /** Listing tags sends no form values. */
  function ListTags(): (args: Args)
    ensures |args| == 0
  {
    []
  }

  /** Loading the catalogue sends no form values. */
  function LoadCatalogue(): (args: Args)
    ensures |args| == 0
  {
    []
  }

  // ---------------------------------------------------------------------
  // Orders
  // ---------------------------------------------------------------------

  /** Four independent object identifiers. */
  function NewOrder(customer: seq<int>, address: seq<int>, card: seq<int>, cart: seq<int>): (args: Args)
    requires IdDraws(customer) && IdDraws(address) && IdDraws(card) && IdDraws(cart)
    ensures Keys(args) == ["customerID", "addressID", "cardID", "cartID"]
    ensures forall i :: 0 <= i < 4 ==> IsId(args[i].1)
  {
    [("customerID", Registry.Str(ObjectIdOf(customer))),
     ("addressID", Registry.Str(ObjectIdOf(address))),
     ("cardID", Registry.Str(ObjectIdOf(card))),
     ("cartID", Registry.Str(ObjectIdOf(cart)))]
  }

  function GetOrders(idDraws: seq<int>): (args: Args)
    requires IdDraws(idDraws)
    ensures Keys(args) == ["userID"] && IsId(args[0].1)
  {
    OneId("userID", idDraws)
  }

  function GetOrder(idDraws: seq<int>): (args: Args)
    requires IdDraws(idDraws)
    ensures Keys(args) == ["orderID"] && IsId(args[0].1)
  {
    OneId("orderID", idDraws)
  }

  // ---------------------------------------------------------------------
  // Users
  // ---------------------------------------------------------------------

  const LOGIN_USER_PREFIX: string := "sockshop_user_"
  const LOGIN_PASSWORD_PREFIX: string := "password"

  function Login(sessionDraw: int, idDraws: seq<int>, userDraw: int): (args: Args)
    requires 0 <= sessionDraw < 100 && IdDraws(idDraws) && 0 <= userDraw < 500
    ensures Keys(args) == ["sessionID", "username", "password"]
    ensures IsSession(args[0].1) && (args[0].1.s != "" <==> sessionDraw > 50)
    ensures args[1].1.Str? && args[2].1.Str?
  {
    [("sessionID", Registry.Str(SessionId(sessionDraw, 50, idDraws))),
     ("username", Registry.Str(LOGIN_USER_PREFIX + IntToString(userDraw))),
     ("password", Registry.Str(LOGIN_PASSWORD_PREFIX + IntToString(userDraw)))]
  }

  /** The user name and the password end in the same number, which reads
      back as the user drawn, one of 0..499. */
  lemma {:induction false} LoginSuffixShared(sessionDraw: int, idDraws: seq<int>, userDraw: int)
    requires 0 <= sessionDraw < 100 && IdDraws(idDraws) && 0 <= userDraw < 500
    ensures var args := Login(sessionDraw, idDraws, userDraw);
      var user := args[1].1.s;
      var password := args[2].1.s;
      StartsWith(user, LOGIN_USER_PREFIX) && StartsWith(password, LOGIN_PASSWORD_PREFIX) &&
      user[|LOGIN_USER_PREFIX|..] == password[|LOGIN_PASSWORD_PREFIX|..] &&
      ParseNat(user[|LOGIN_USER_PREFIX|..]) == Some(userDraw)
  {
    var args := Login(sessionDraw, idDraws, userDraw);
    assert args[1].1.s[|LOGIN_USER_PREFIX|..] == IntToString(userDraw);
    assert args[2].1.s[|LOGIN_PASSWORD_PREFIX|..] == IntToString(userDraw);
    NatRoundTrip(userDraw);
  }

  const REGISTER_USER_PREFIX: string := "new_user_"
  const EMAIL_DOMAIN: string := "@sockshop.com"

  function Register(sessionDraw: int, idDraws: seq<int>, userDraw: int): (args: Args)
    requires 0 <= sessionDraw < 100 && IdDraws(idDraws) && 0 <= userDraw < 10000
    ensures Keys(args) == ["sessionID", "username", "password", "email", "first", "last"]
    ensures IsSession(args[0].1) && (args[0].1.s != "" <==> sessionDraw > 50)
    ensures forall i :: 1 <= i < 6 ==> args[i].1.Str?
    ensures args[3].1.s == args[1].1.s + EMAIL_DOMAIN
  {
    var n := IntToString(userDraw);
    var username := REGISTER_USER_PREFIX + n;
    [("sessionID", Registry.Str(SessionId(sessionDraw, 50, idDraws))),
     ("username", Registry.Str(username)),
     ("password", Registry.Str("newpass" + n)),
     ("email", Registry.Str(username + EMAIL_DOMAIN)),
     ("first", Registry.Str("First" + n)),
     ("last", Registry.Str("Last" + n))]
  }

  /** The registered user name reads back as the user drawn, one of
      0..9999. */
  lemma {:induction false} RegisterUserNumber(sessionDraw: int, idDraws: seq<int>, userDraw: int)
    requires 0 <= sessionDraw < 100 && IdDraws(idDraws) && 0 <= userDraw < 10000
    ensures var user := Register(sessionDraw, idDraws, userDraw)[1].1.s;
      StartsWith(user, REGISTER_USER_PREFIX) &&
      ParseNat(user[|REGISTER_USER_PREFIX|..]) == Some(userDraw)
  {
    var user := Register(sessionDraw, idDraws, userDraw)[1].1.s;
    assert user[|REGISTER_USER_PREFIX|..] == IntToString(userDraw);
    NatRoundTrip(userDraw);
  }

  function GetUser(idDraws: seq<int>): (args: Args)
    requires IdDraws(idDraws)
    ensures Keys(args) == ["userID"] && IsId(args[0].1)
  {
    OneId("userID", idDraws)
  }

  // ---------------------------------------------------------------------
  // Addresses and cards
  // ---------------------------------------------------------------------

  function GetAddress(idDraws: seq<int>): (args: Args)
    requires IdDraws(idDraws)
    ensures Keys(args) == ["addressID"] && IsId(args[0].1)
  {
    OneId("addressID", idDraws)
  }

  const STREETS: seq<string> := ["Main St", "Oak Ave", "Pine Rd", "Elm St", "Cedar Ln"]
  const COUNTRIES: seq<string> := ["USA", "UK", "Germany", "France", "Canada"]
  const CITIES: seq<string> := ["New York", "London", "Berlin", "Paris", "Toronto"]
  /** PostAddress always sends this user, not a generated one. */
  const FIXED_USER_ID: string := "b58a67ef-dc90-4be3-97c9-ec6e2f243705"

  predicate PostAddressDraws(street: int, number: int, country: int, city: int, postCode: int)
  {
    0 <= street < |STREETS| && 0 <= number < 9999 && 0 <= country < |COUNTRIES| &&
    0 <= city < |CITIES| && 0 <= postCode < 99999
  }

  function PostAddress(street: int, number: int, country: int, city: int, postCode: int): (args: Args)
    requires PostAddressDraws(street, number, country, city, postCode)
    ensures Keys(args) == ["userID", "street", "number", "country", "city", "postCode"]
    ensures forall i :: 0 <= i < 6 ==> args[i].1.Str?
  {
    [("userID", Registry.Str(FIXED_USER_ID)),
     ("street", Registry.Str(STREETS[street])),
     ("number", Registry.Str(IntToString(number + 1))),
     ("country", Registry.Str(COUNTRIES[country])),
     ("city", Registry.Str(CITIES[city])),
     ("postCode", Registry.Str(IntToString(postCode + 10000)))]
  }

  /** The house number reads back as one of 1..9999 and the post code as
      one of 10000..109998 (the code can have six digits); street, country
      and city come from their lists. */
  lemma {:induction false} PostAddressFields(street: int, number: int, country: int, city: int, postCode: int)
    requires PostAddressDraws(street, number, country, city, postCode)
    ensures var args := PostAddress(street, number, country, city, postCode);
      args[0].1.s == FIXED_USER_ID && args[1].1.s in STREETS &&
      args[3].1.s in COUNTRIES && args[4].1.s in CITIES &&
      (exists n :: 1 <= n <= 9999 && ParseNat(args[2].1.s) == Some(n)) &&
      (exists p :: 10000 <= p <= 109998 && ParseNat(args[5].1.s) == Some(p))
  {
    NatRoundTrip(number + 1);
    NatRoundTrip(postCode + 10000);
  }

  function GetCard(idDraws: seq<int>): (args: Args)
    requires IdDraws(idDraws)
    ensures Keys(args) == ["cardID"] && IsId(args[0].1)
  {
    OneId("cardID", idDraws)
  }

  /** The digits the draws give, one strconv.Itoa(rand.Intn(10)) each. */
  function DigitsOf(draws: seq<int>): (s: string)
    requires DrawsBelow(draws, 10)
    ensures |s| == |draws| && AllDigits(s)
  {
    seq(|draws|, i requires 0 <= i < |draws| => DigitChar(draws[i]))
  }

  /** A single digit renders as one character. */
  lemma {:induction false} OneDigitText(d: int)
    requires 0 <= d < 10
    ensures IntToString(d) == [DigitChar(d)]
  {
  }

  /** Append one rendered digit per draw to `prefix`. */
  method AppendDigits(prefix: string, draws: seq<int>) returns (s: string)
    requires DrawsBelow(draws, 10)
    ensures s == prefix + DigitsOf(draws)
  {
    s := prefix;
    for i := 0 to |draws|
      invariant s == prefix + DigitsOf(draws[..i])
    {
      OneDigitText(draws[i]);
      assert DigitsOf(draws[..i + 1]) == DigitsOf(draws[..i]) + [DigitChar(draws[i])];
      s := s + IntToString(draws[i]);
    }
    assert draws[..|draws|] == draws;
  }

  /** A number of two digits renders as those two characters. */
  lemma {:induction false} TwoDigitText(n: int)
    requires 10 <= n < 100
    ensures IntToString(n) == [DigitChar(n / 10), DigitChar(n % 10)]
  {
    assert NatToString(n) == NatToString(n / 10) + [DigitChar(n % 10)];
  }

  /** The expiry date: the month zero-padded to two digits, a slash, and
      the year. */
  function Expires(monthDraw: int, yearDraw: int): (e: string)
    requires 0 <= monthDraw < 12 && 0 <= yearDraw < 10
    ensures |e| == 5 && e[2] == '/' && AllDigits(e[..2]) && AllDigits(e[3..])
  {
    var month := monthDraw + 1;
    var year := yearDraw + 24;
    TwoDigitText(year);
    if month < 10 then
      OneDigitText(month);
      "0" + IntToString(month) + "/" + IntToString(year)
    else
      TwoDigitText(month);
      IntToString(month) + "/" + IntToString(year)
  }

  /** The month reads back as one of 01..12 and the year as one of
      24..33. */
  lemma {:induction false} ExpiresFields(monthDraw: int, yearDraw: int)
    requires 0 <= monthDraw < 12 && 0 <= yearDraw < 10
    ensures var e := Expires(monthDraw, yearDraw);
      ParseNat(e[..2]) == Some(monthDraw + 1) && ParseNat(e[3..]) == Some(yearDraw + 24)
  {
    var e := Expires(monthDraw, yearDraw);
    var month := monthDraw + 1;
    NatRoundTrip(yearDraw + 24);
    TwoDigitText(yearDraw + 24);
    assert e[3..] == NatToString(yearDraw + 24);
    if month < 10 {
      OneDigitText(month);
      var mm := e[..2];
      assert mm == ['0', DigitChar(month)];
      assert mm[..1] == ['0'];
      assert DigitsValue(mm[..1]) == 0 by {
        assert mm[..1][..0] == [];
      }
      assert DigitsValue(mm) == month;
    } else {
      TwoDigitText(month);
      NatRoundTrip(month);
      assert e[..2] == NatToString(month);
    }
  }

  predicate PostCardDraws(idDraws: seq<int>, numberDraws: seq<int>, monthDraw: int, yearDraw: int, ccvDraws: seq<int>)
  {
    IdDraws(idDraws) && |numberDraws| == 15 && DrawsBelow(numberDraws, 10) &&
    0 <= monthDraw < 12 && 0 <= yearDraw < 10 && |ccvDraws| == 3 && DrawsBelow(ccvDraws, 10)
  }

  function PostCardArgs(idDraws: seq<int>, numberDraws: seq<int>, monthDraw: int, yearDraw: int, ccvDraws: seq<int>): Args
    requires PostCardDraws(idDraws, numberDraws, monthDraw, yearDraw, ccvDraws)
  {
    [("userID", Registry.Str(ObjectIdOf(idDraws))),
     ("longNum", Registry.Str("4" + DigitsOf(numberDraws))),
     ("expires", Registry.Str(Expires(monthDraw, yearDraw))),
     ("ccv", Registry.Str(DigitsOf(ccvDraws)))]
  }

  /** A card for a generated user: a 16-digit number starting with 4, an
      MM/YY expiry, and a 3-digit security code. */
  lemma {:induction false} PostCardShape(idDraws: seq<int>, numberDraws: seq<int>, monthDraw: int, yearDraw: int, ccvDraws: seq<int>)
    requires PostCardDraws(idDraws, numberDraws, monthDraw, yearDraw, ccvDraws)
    ensures var args := PostCardArgs(idDraws, numberDraws, monthDraw, yearDraw, ccvDraws);
      Keys(args) == ["userID", "longNum", "expires", "ccv"] &&
      IsId(args[0].1) &&
      |args[1].1.s| == 16 && args[1].1.s[0] == '4' && AllDigits(args[1].1.s) &&
      |args[2].1.s| == 5 && args[2].1.s[2] == '/' &&
      |args[3].1.s| == 3 && AllDigits(args[3].1.s)
  {
  }

  /** sockshop_PostCard: the card number and the security code are built
      digit by digit. */
  method PostCard(idDraws: seq<int>, numberDraws: seq<int>, monthDraw: int, yearDraw: int, ccvDraws: seq<int>)
    returns (args: Args)
    requires PostCardDraws(idDraws, numberDraws, monthDraw, yearDraw, ccvDraws)
    ensures args == PostCardArgs(idDraws, numberDraws, monthDraw, yearDraw, ccvDraws)
  {
    var userId := GenerateObjectId(idDraws);
    var longNum := AppendDigits("4", numberDraws);
    var expires := Expires(monthDraw, yearDraw);
    var ccv := AppendDigits("", ccvDraws);
    assert ccv == DigitsOf(ccvDraws);
    args := [("userID", Registry.Str(userId)),
             ("longNum", Registry.Str(longNum)),
             ("expires", Registry.Str(expires)),
             ("ccv", Registry.Str(ccv))];
  }

  // ---------------------------------------------------------------------
  // Encoding
  // ---------------------------------------------------------------------

  /** The form a generator hands back: each argument through prepareArg,
      under its own key, in the order added. */
  function Form(args: Args, isOriginal: bool, marshal: Registry.Arg -> string): (form: seq<(string, string)>)
    ensures |form| == |args|
    ensures forall i :: 0 <= i < |args| ==> form[i].0 == args[i].0
  {
    seq(|args|, i requires 0 <= i < |args| => (args[i].0, Registry.PrepareArg(args[i].1, isOriginal, marshal)))
  }

  /** In the original (unencoded) form a registered user's e-mail is the
      user name sent beside it followed by the shop's domain. */
  lemma {:induction false} RegisterFormEmail(sessionDraw: int, idDraws: seq<int>, userDraw: int, marshal: Registry.Arg -> string)
    requires 0 <= sessionDraw < 100 && IdDraws(idDraws) && 0 <= userDraw < 10000
    ensures var form := Form(Register(sessionDraw, idDraws, userDraw), true, marshal);
      form[3] == ("email", form[1].1 + EMAIL_DOMAIN) && form[1].0 == "username"
  {
    var args := Register(sessionDraw, idDraws, userDraw);
    assert Keys(args)[1] == "username" && Keys(args)[3] == "email";
  }
}
