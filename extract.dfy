/** `extract_prices_recursive` (backend/scraper.py): a depth-bounded search of
    a decoded JSON tree for dicts that carry a per-person price. */
module PriceExtraction {
  import opened Wrappers
  import opened Json
  import Text

  /** Price fields, in the order they are tried. */
  const PriceAliases: seq<string> := ["pricePerPerson", "price", "leadInPrice", "pricePP", "fromPrice"]
  const DateAliases: seq<string> := ["departureDate", "date", "outboundDate"]
  const RoomAliases: seq<string> := ["roomType", "roomDescription", "name"]
  const BoardAliases: seq<string> := ["boardBasis", "mealPlan", "board"]

  /** A price must exceed this to be accepted. */
  const PriceFloor: real := 50.0
  /** Calls at a depth above this return nothing. */
  const MaxDepth: int := 8
  /** Dates are cut to this many characters. */
  const DateWidth: nat := 10
  const DefaultRoom: string := "Standard"
  const DefaultBoard: string := "Unknown"

  /** One `{price, date, room, board}` entry of the returned list. */
  datatype PriceRecord = PriceRecord(price: real, date: string, room: string, board: string)

  /** What every returned record satisfies. */
  predicate ValidRecord(r: PriceRecord) {
    r.price > PriceFloor && |r.date| <= DateWidth && |r.room| > 2
  }

  // ---------------------------------------------------------------- aliases

  /** The test each alias loop applies to a present value. */
  datatype Rule = PriceRule | DateRule | RoomRule | BoardRule

  predicate Accepts(rule: Rule, v: Json) {
    match rule
    case PriceRule => ToFloat(v).Some? && ToFloat(v).value > PriceFloor
    case DateRule => Truthy(v)
    case RoomRule => v.JStr? && |v.s| > 2
    case BoardRule => v.JStr?
  }

  /** Key `k` is in the dict and its value passes `rule`. */
  predicate Found(fields: seq<(string, Json)>, k: string, rule: Rule) {
    Lookup(fields, k).Some? && Accepts(rule, Lookup(fields, k).value)
  }

  /** First-match-wins: the position of the first alias that is present and
      passes `rule`, if any. */
  function FirstAlias(fields: seq<(string, Json)>, keys: seq<string>, rule: Rule): (r: Option<nat>)
    ensures r.Some? ==> r.value < |keys| && Found(fields, keys[r.value], rule)
    ensures r.Some? ==> forall j :: 0 <= j < r.value ==> !Found(fields, keys[j], rule)
    ensures r.None? ==> forall j :: 0 <= j < |keys| ==> !Found(fields, keys[j], rule)
  {
    if keys == [] then None
    else if Found(fields, keys[0], rule) then Some(0)
    else match FirstAlias(fields, keys[1..], rule)
      case None => None
      case Some(i) => Some(i + 1)
  }

  /** The value of the first alias that passes `rule`. */
  function AliasValue(fields: seq<(string, Json)>, keys: seq<string>, rule: Rule): (r: Option<Json>)
    ensures r.Some? ==> Accepts(rule, r.value)
    ensures r.Some? <==> FirstAlias(fields, keys, rule).Some?
    ensures r.Some? ==> exists j :: 0 <= j < |keys| && Lookup(fields, keys[j]) == r
                                    && forall l :: 0 <= l < j ==> !Found(fields, keys[l], rule)
  {
    match FirstAlias(fields, keys, rule)
    case Some(i) => Lookup(fields, keys[i])
    case None => None
  }

  /** Python's `price and price > 50`. */
  predicate Qualifies(p: Option<real>) {
    p.Some? && p.value != 0.0 && p.value > PriceFloor
  }

  /** The price loop as written: `price` is carried from one alias to the
      next, overwritten only by a value that converts, and the loop stops
      at the first alias after which `price and price > 50` holds. */
  function PriceLoop(fields: seq<(string, Json)>, keys: seq<string>, price: Option<real>): (r: Option<real>)
    ensures r == price || exists j :: 0 <= j < |keys| && Lookup(fields, keys[j]).Some?
                                      && r == ToFloat(Lookup(fields, keys[j]).value)
  {
    if keys == [] then price
    else match Lookup(fields, keys[0])
      case None => PriceLoop(fields, keys[1..], price)
      case Some(v) =>
        var p := if ToFloat(v).Some? then ToFloat(v) else price;
        if Qualifies(p) then p else PriceLoop(fields, keys[1..], p)
  }

  /** Started from a non-qualifying `price`, the loop ends on a qualifying
      price exactly when some alias passes, and then on that alias's value:
      a failed conversion or a small value never stops the search. */
  lemma {:induction false} PriceLoopIsFirstAlias(fields: seq<(string, Json)>, keys: seq<string>, price: Option<real>)
    requires !Qualifies(price)
    ensures var first := FirstAlias(fields, keys, PriceRule);
            && (Qualifies(PriceLoop(fields, keys, price)) <==> first.Some?)
            && (first.Some? ==> PriceLoop(fields, keys, price) == ToFloat(Lookup(fields, keys[first.value]).value))
  {
    if keys != [] {
      match Lookup(fields, keys[0])
      case None =>
        PriceLoopIsFirstAlias(fields, keys[1..], price);
      case Some(v) =>
        var p := if ToFloat(v).Some? then ToFloat(v) else price;
        if !Qualifies(p) {
          PriceLoopIsFirstAlias(fields, keys[1..], p);
        }
    }
  }

  /** The price a dict is accepted with: the value of the first price alias
      that converts to a number above the floor. */
  function AcceptedPrice(fields: seq<(string, Json)>): (r: Option<real>)
    ensures r.Some? ==> r.value > PriceFloor
    ensures r.Some? <==> FirstAlias(fields, PriceAliases, PriceRule).Some?
    ensures r.Some? ==> exists j :: 0 <= j < |PriceAliases| && Lookup(fields, PriceAliases[j]).Some?
                                    && r == ToFloat(Lookup(fields, PriceAliases[j]).value)
                                    && forall l :: 0 <= l < j ==> !Found(fields, PriceAliases[l], PriceRule)
  {
    match AliasValue(fields, PriceAliases, PriceRule)
    case Some(v) => ToFloat(v)
    case None => None
  }

  // ---------------------------------------------------------------- secondary fields

  /** `str(obj[k])[:10]` for the first date alias whose value is truthy, else "". */
  function DateOf(fields: seq<(string, Json)>): (r: string)
    ensures |r| <= DateWidth
    ensures r == "" <==> AliasValue(fields, DateAliases, DateRule).None?
    ensures AliasValue(fields, DateAliases, DateRule).Some? ==>
              var text := Render(AliasValue(fields, DateAliases, DateRule).value);
              r <= text && |r| == if |text| < DateWidth then |text| else DateWidth
  {
    match AliasValue(fields, DateAliases, DateRule)
    case Some(v) =>
      var text := Render(v);
      if |text| <= DateWidth then text else text[..DateWidth]
    case None => ""
  }

  /** The first room alias holding a string longer than two characters, else "Standard". */
  function RoomOf(fields: seq<(string, Json)>): (r: string)
    ensures |r| > 2
    ensures AliasValue(fields, RoomAliases, RoomRule).None? ==> r == DefaultRoom
    ensures AliasValue(fields, RoomAliases, RoomRule).Some? ==>
              JStr(r) == AliasValue(fields, RoomAliases, RoomRule).value
  {
    match AliasValue(fields, RoomAliases, RoomRule)
    case Some(v) => v.s
    case None => DefaultRoom
  }

  /** The first board alias holding a string (of any length), else "Unknown". */
  function BoardOf(fields: seq<(string, Json)>): (r: string)
    ensures (forall j :: 0 <= j < |BoardAliases| ==> !Found(fields, BoardAliases[j], BoardRule))
            ==> r == DefaultBoard
    ensures (exists j :: 0 <= j < |BoardAliases| && Found(fields, BoardAliases[j], BoardRule))
            ==> exists j :: 0 <= j < |BoardAliases| && Lookup(fields, BoardAliases[j]) == Some(JStr(r))
                            && forall l :: 0 <= l < j ==> !Found(fields, BoardAliases[l], BoardRule)
    ensures AliasValue(fields, BoardAliases, BoardRule).None? ==> r == DefaultBoard
    ensures AliasValue(fields, BoardAliases, BoardRule).Some? ==>
              JStr(r) == AliasValue(fields, BoardAliases, BoardRule).value
  {
    match AliasValue(fields, BoardAliases, BoardRule)
    case Some(v) => v.s
    case None => DefaultBoard
  }

  // ---------------------------------------------------------------- the search

  /** `extract_prices_recursive(obj, depth)`. */
  function Extract(j: Json, depth: int): (r: seq<PriceRecord>)
    ensures forall k :: 0 <= k < |r| ==> ValidRecord(r[k])
    ensures depth > MaxDepth || !Truthy(j) ==> r == []
    ensures !j.JList? && !j.JObj? ==> r == []
    decreases j
  {
    if depth > MaxDepth || !Truthy(j) then []
    else match j
      case JObj(fields) =>
        var p := PriceLoop(fields, PriceAliases, None);
        if Qualifies(p) then [PriceRecord(p.value, DateOf(fields), RoomOf(fields), BoardOf(fields))]
        else ExtractFields(fields, depth + 1)
      case JList(items) => ExtractItems(items, depth + 1)
      case _ => []
  }

  /** `for item in obj: found.extend(extract_prices_recursive(item, depth))`. */
  function ExtractItems(items: seq<Json>, depth: int): (r: seq<PriceRecord>)
    ensures forall k :: 0 <= k < |r| ==> ValidRecord(r[k])
    ensures depth > MaxDepth ==> r == []
    decreases items
  {
    if items == [] then []
    else Extract(items[0], depth) + ExtractItems(items[1..], depth)
  }

  /** `for v in obj.values(): found.extend(extract_prices_recursive(v, depth))`. */
  function ExtractFields(fields: seq<(string, Json)>, depth: int): (r: seq<PriceRecord>)
    ensures forall k :: 0 <= k < |r| ==> ValidRecord(r[k])
    ensures depth > MaxDepth ==> r == []
    decreases fields
  {
    if fields == [] then []
    else
      assert fields[0].1 < fields[0];
      Extract(fields[0].1, depth) + ExtractFields(fields[1..], depth)
  }

  // ---------------------------------------------------------------- properties

  /** A dict within the depth cap yields exactly one record when a price alias
      qualifies (its children are not searched), and otherwise the results
      of its values, one level deeper. */
  lemma ExtractObject(fields: seq<(string, Json)>, depth: int)
    requires depth <= MaxDepth && fields != []
    ensures Extract(JObj(fields), depth) ==
              match AcceptedPrice(fields)
              case Some(p) => [PriceRecord(p, DateOf(fields), RoomOf(fields), BoardOf(fields))]
              case None => ExtractFields(fields, depth + 1)
  {
    var p := PriceLoop(fields, PriceAliases, None);
    PriceLoopIsFirstAlias(fields, PriceAliases, None);
    assert Truthy(JObj(fields));
    assert Extract(JObj(fields), depth)
           == if Qualifies(p) then [PriceRecord(p.value, DateOf(fields), RoomOf(fields), BoardOf(fields))]
              else ExtractFields(fields, depth + 1);
    var first := FirstAlias(fields, PriceAliases, PriceRule);
    if first.Some? {
      assert AliasValue(fields, PriceAliases, PriceRule) == Lookup(fields, PriceAliases[first.value]);
      assert AcceptedPrice(fields) == p;
    } else {
      assert AcceptedPrice(fields) == None;
    }
  }

  /** Results of a list are the in-order concatenation of its items' results. */
  lemma {:induction false} ExtractItemsAppend(a: seq<Json>, b: seq<Json>, depth: int)
    ensures ExtractItems(a + b, depth) == ExtractItems(a, depth) + ExtractItems(b, depth)
  {
    if a == [] {
      assert a + b == b;
    } else {
      assert (a + b)[0] == a[0];
      assert (a + b)[1..] == a[1..] + b;
      ExtractItemsAppend(a[1..], b, depth);
    }
  }

  /** Results of an unpriced dict are the in-order concatenation of its values' results. */
  lemma {:induction false} ExtractFieldsAppend(a: seq<(string, Json)>, b: seq<(string, Json)>, depth: int)
    ensures ExtractFields(a + b, depth) == ExtractFields(a, depth) + ExtractFields(b, depth)
  {
    if a == [] {
      assert a + b == b;
    } else {
      assert (a + b)[0] == a[0];
      assert (a + b)[1..] == a[1..] + b;
      ExtractFieldsAppend(a[1..], b, depth);
    }
  }

  /** `leaf` wrapped in `n` single-member dicts under a key that is no price alias. */
  function Nest(n: nat, key: string, leaf: Json): Json {
    if n == 0 then leaf else JObj([(key, Nest(n - 1, key, leaf))])
  }

  /** Each wrapping dict costs one level of the depth budget and adds nothing:
      `leaf` under `n` wrappers entered at `depth` is searched at `bottom`, which is `depth + n`. */
  lemma {:induction false} ExtractNest(n: nat, key: string, leaf: Json, depth: int, bottom: int)
    requires key !in PriceAliases && bottom == depth + n
    ensures Extract(Nest(n, key, leaf), depth) == Extract(leaf, bottom)
  {
    if n > 0 {
      NestStep(n, key, leaf, depth);
      ExtractNest(n - 1, key, leaf, depth + 1, bottom);
    }
  }

  lemma NestStep(n: nat, key: string, leaf: Json, depth: int)
    requires n > 0 && key !in PriceAliases
    ensures Extract(Nest(n, key, leaf), depth) == Extract(Nest(n - 1, key, leaf), depth + 1)
  {
    ExtractWrap(key, Nest(n - 1, key, leaf), depth);
  }

  /** One wrapping dict: its value is searched one level deeper. */
  lemma ExtractWrap(key: string, v: Json, depth: int)
    requires key !in PriceAliases
    ensures Extract(JObj([(key, v)]), depth) == Extract(v, depth + 1)
  {
    if depth <= MaxDepth {
      UnpricedSingle(key, v);
      ExtractObject([(key, v)], depth);
      ExtractFieldsSingle(key, v, depth + 1);
    }
  }

  /** A one-member dict under a key that is no price alias is not accepted. */
  lemma UnpricedSingle(key: string, v: Json)
    requires key !in PriceAliases
    ensures AcceptedPrice([(key, v)]) == None
  {
    var fields := [(key, v)];
    forall j | 0 <= j < |PriceAliases| ensures !Found(fields, PriceAliases[j], PriceRule) {
      LookupSingle(key, v, PriceAliases[j]);
    }
  }

  /** The values of a one-member dict are just its one value. */
  lemma ExtractFieldsSingle(key: string, v: Json, depth: int)
    ensures ExtractFields([(key, v)], depth) == Extract(v, depth)
  {
    assert [(key, v)][1..] == [];
  }

  /** Looking a key up in a one-member dict. */
  lemma LookupSingle(k: string, v: Json, q: string)
    ensures Lookup([(k, v)], q) == if k == q then Some(v) else None
  {
  }

  /** `{"price": 999}`. */
  const PricedLeaf: Json := JObj([("price", JInt(999))])

  lemma PricedLeafRecord()
    ensures AcceptedPrice(PricedLeaf.fields) == Some(999.0)
    ensures DateOf(PricedLeaf.fields) == ""
    ensures RoomOf(PricedLeaf.fields) == DefaultRoom
    ensures BoardOf(PricedLeaf.fields) == DefaultBoard
  {
    var f := PricedLeaf.fields;
    forall q | q in PriceAliases + DateAliases + RoomAliases + BoardAliases && q != "price"
      ensures Lookup(f, q) == None
    {
      LookupSingle("price", JInt(999), q);
    }
    LookupSingle("price", JInt(999), "price");
    assert !Found(f, PriceAliases[0], PriceRule);
    assert Found(f, PriceAliases[1], PriceRule);
    assert FirstAlias(f, PriceAliases, PriceRule) == Some(1);
    assert FirstAlias(f, DateAliases, DateRule) == None;
    assert FirstAlias(f, RoomAliases, RoomRule) == None;
    assert FirstAlias(f, BoardAliases, BoardRule) == None;
  }

  /** A dict whose first price aliases are null, unparsable text and a
      small number: none of them stops the search, and `pricePP` is taken. */
  const MixedPrices: seq<(string, Json)> :=
    [("pricePerPerson", JNull), ("price", JStr("n/a")), ("leadInPrice", JInt(40)), ("pricePP", JInt(120))]

  lemma NotANumber()
    ensures Text.ParseNumber("n/a") == None
  {
    Text.ParseNumberNonDigit("n/a");
  }

  lemma NotANumberValue()
    ensures ToFloat(JStr("n/a")) == None
  {
    NotANumber();
  }

  lemma MixedPricesLookup()
    ensures Lookup(MixedPrices, "pricePerPerson") == Some(JNull)
    ensures Lookup(MixedPrices, "price") == Some(JStr("n/a"))
    ensures Lookup(MixedPrices, "leadInPrice") == Some(JInt(40))
    ensures Lookup(MixedPrices, "pricePP") == Some(JInt(120))
  {
  }

  lemma MixedPricesNoDate()
    ensures forall q :: q in DateAliases ==> Lookup(MixedPrices, q) == None
  {
  }

  lemma MixedPricesNoRoom()
    ensures forall q :: q in RoomAliases ==> Lookup(MixedPrices, q) == None
  {
  }

  lemma MixedPricesNoBoard()
    ensures forall q :: q in BoardAliases ==> Lookup(MixedPrices, q) == None
  {
  }

  lemma MixedFirstPrice()
    ensures FirstAlias(MixedPrices, PriceAliases, PriceRule) == Some(3)
  {
    var f := MixedPrices;
    MixedPricesLookup();
    assert !Found(f, PriceAliases[1], PriceRule) by {
      NotANumberValue();
    }
    assert !Found(f, PriceAliases[0], PriceRule);
    assert !Found(f, PriceAliases[2], PriceRule);
    assert Found(f, PriceAliases[3], PriceRule);
  }

  lemma MixedNoSecondary()
    ensures DateOf(MixedPrices) == ""
    ensures RoomOf(MixedPrices) == DefaultRoom
    ensures BoardOf(MixedPrices) == DefaultBoard
  {
    MixedPricesNoDate();
    MixedPricesNoRoom();
    MixedPricesNoBoard();
    assert FirstAlias(MixedPrices, DateAliases, DateRule) == None;
    assert FirstAlias(MixedPrices, RoomAliases, RoomRule) == None;
    assert FirstAlias(MixedPrices, BoardAliases, BoardRule) == None;
  }

  lemma MixedAccepted()
    ensures AcceptedPrice(MixedPrices) == Some(120.0)
  {
    MixedFirstPrice();
    MixedPricesLookup();
    assert PriceAliases[3] == "pricePP";
    assert AliasValue(MixedPrices, PriceAliases, PriceRule) == Some(JInt(120));
  }

  lemma UnparsableAliasSkipped()
    ensures AcceptedPrice(MixedPrices) == Some(120.0)
    ensures Extract(JObj(MixedPrices), 0) == [PriceRecord(120.0, "", DefaultRoom, DefaultBoard)]
  {
    MixedAccepted();
    MixedNoSecondary();
    ExtractObject(MixedPrices, 0);
  }

  /** The depth cap as written: the priced dict under eight wrappers sits at
      depth 8 and is found; under nine wrappers it is at depth 9 and is not. */
  lemma DepthCapExample()
    ensures Extract(Nest(8, "a", PricedLeaf), 0) == [PriceRecord(999.0, "", DefaultRoom, DefaultBoard)]
    ensures Extract(Nest(9, "a", PricedLeaf), 0) == []
  {
    ExtractNest(8, "a", PricedLeaf, 0, 8);
    ExtractNest(9, "a", PricedLeaf, 0, 9);
    ExtractObject(PricedLeaf.fields, 8);
    PricedLeafRecord();
  }
}
