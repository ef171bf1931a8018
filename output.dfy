/** The "Build output" block of `main` (backend/scraper.py): the results of
    every scrape are grouped by hotel name, in order of first appearance,
    each group headed by the hotel's tracked metadata, and counted. */
module Output {
  import opened Wrappers
  import Scrape
  import Seqs

  /** One entry of `TRACKED_HOTELS`. */
  datatype HotelConfig = HotelConfig(
    name: string, slug: string, destinationPath: string, destinationLabel: string,
    stars: int, rating: real, airports: seq<string>, nights: seq<int>)

  const TrackedHotels: seq<HotelConfig> := [
    HotelConfig("Sunwing Alcudia Beach", "alcudia-beach", "balearics/majorca/alcudia", "Majorca, Spain",
                4, 4.3, ["MAN", "LBA"], [7]),
    HotelConfig("Hotel Flamingo Oasis", "flamingo-beach-resort", "spain/costa-blanca/benidorm", "Benidorm, Spain",
                4, 4.1, ["MAN"], [7]),
    HotelConfig("Zafiro Palace Alcudia", "zafiro-palace-alcudia", "balearics/majorca/alcudia", "Majorca, Spain",
                5, 4.7, ["MAN", "LBA"], [7, 10])
  ]

  /** `next((h for h in tracked if h["name"] == name), {})`: the index of the
      first configuration with that name, `None` for the empty default. */
  function FirstConfig(tracked: seq<HotelConfig>, name: string): (r: Option<nat>)
    ensures r.Some? ==> r.value < |tracked| && tracked[r.value].name == name
    ensures r.Some? ==> forall j :: 0 <= j < r.value ==> tracked[j].name != name
    ensures r.None? <==> forall j :: 0 <= j < |tracked| ==> tracked[j].name != name
  {
    if tracked == [] then None
    else if tracked[0].name == name then Some(0)
    else
      match FirstConfig(tracked[1..], name)
      case None => None
      case Some(k) => Some(k + 1)
  }

  /** One price of a hotel group: a result without its hotel name and timestamp. */
  datatype PriceEntry = PriceEntry(
    airport: string, nights: int, departureDate: string, roomType: string,
    boardBasis: string, pricePP: real, available: bool)

  /** `stars` and `rating` are `None` when the hotel is not tracked (`cfg.get` on `{}`). */
  datatype HotelEntry = HotelEntry(
    name: string, destination: string, stars: Option<int>, rating: Option<real>,
    prices: seq<PriceEntry>)

  datatype OutputDoc = OutputDoc(hotels: seq<HotelEntry>, scrapedAt: string, totalPrices: nat)

  function EntryOf(r: Scrape.ScrapeResult): PriceEntry {
    PriceEntry(r.airport, r.nights, r.departureDate, r.roomType, r.boardBasis, r.pricePP, r.available)
  }

  /** The hotel name of every result, in order. */
  function Names(all: seq<Scrape.ScrapeResult>): (r: seq<string>)
    ensures |r| == |all|
  {
    seq(|all|, i requires 0 <= i < |all| => all[i].hotelName)
  }

  /** The entries of the results for hotel `name`, in result order. */
  function PricesOf(all: seq<Scrape.ScrapeResult>, name: string): (r: seq<PriceEntry>)
    ensures |r| <= |all|
    ensures name !in Names(all) ==> r == []
  {
    if all == [] then []
    else
      var init := all[..|all| - 1];
      assert Names(all) == Names(init) + [all[|all| - 1].hotelName];
      PricesOf(init, name)
      + (if all[|all| - 1].hotelName == name then [EntryOf(all[|all| - 1])] else [])
  }

  lemma NamesSnoc(all: seq<Scrape.ScrapeResult>, r: Scrape.ScrapeResult)
    ensures Names(all + [r]) == Names(all) + [r.hotelName]
  {
    assert forall i :: 0 <= i < |all| ==> (all + [r])[i] == all[i];
  }

  lemma PricesOfSnoc(all: seq<Scrape.ScrapeResult>, r: Scrape.ScrapeResult, name: string)
    ensures PricesOf(all + [r], name)
            == PricesOf(all, name) + (if r.hotelName == name then [EntryOf(r)] else [])
  {
    assert (all + [r])[..|all|] == all;
  }

  lemma PricesOfAbsent(all: seq<Scrape.ScrapeResult>, name: string)
    requires name !in Seqs.Dedup(Names(all))
    ensures PricesOf(all, name) == []
  {
  }

  /** Filing one more result keeps every group equal to its specification. */
  lemma GroupStep(tracked: seq<HotelConfig>, all: seq<Scrape.ScrapeResult>, r: Scrape.ScrapeResult,
                  hotels: map<string, HotelEntry>)
    requires r.hotelName in hotels
    requires forall n :: n in hotels ==> hotels[n] == Group(tracked, all, n)
    ensures var e := hotels[r.hotelName];
            var h := hotels[r.hotelName := e.(prices := e.prices + [EntryOf(r)])];
            forall n :: n in h ==> h[n] == Group(tracked, all + [r], n)
  {
    forall n | n in hotels {
      PricesOfSnoc(all, r, n);
    }
  }

  /** The group header created when `name` is first seen, before any price. */
  function Header(tracked: seq<HotelConfig>, name: string): HotelEntry {
    match FirstConfig(tracked, name)
    case None => HotelEntry(name, "", None, None, [])
    case Some(k) =>
      HotelEntry(name, tracked[k].destinationLabel, Some(tracked[k].stars), Some(tracked[k].rating), [])
  }

  /** `next((h for h in TRACKED_HOTELS if h["name"] == name), {})` and the `.get`
      defaults: the header carries the metadata of the first tracked hotel of
      that name, and "", None, None when no tracked hotel has it. */
  lemma HeaderFirstMatch(tracked: seq<HotelConfig>, name: string)
    ensures Header(tracked, name).name == name && Header(tracked, name).prices == []
    ensures (forall j :: 0 <= j < |tracked| ==> tracked[j].name != name)
            ==> Header(tracked, name).destination == ""
                && Header(tracked, name).stars == None && Header(tracked, name).rating == None
    ensures (exists j :: 0 <= j < |tracked| && tracked[j].name == name)
            ==> exists k :: 0 <= k < |tracked| && tracked[k].name == name
                            && (forall j :: 0 <= j < k ==> tracked[j].name != name)
                            && Header(tracked, name).destination == tracked[k].destinationLabel
                            && Header(tracked, name).stars == Some(tracked[k].stars)
                            && Header(tracked, name).rating == Some(tracked[k].rating)
  {
  }

  /** The complete group of hotel `name`. */
  function Group(tracked: seq<HotelConfig>, all: seq<Scrape.ScrapeResult>, name: string): HotelEntry {
    Header(tracked, name).(prices := PricesOf(all, name))
  }

  /** The groups of the given names, in that order. */
  function GroupOver(tracked: seq<HotelConfig>, all: seq<Scrape.ScrapeResult>, names: seq<string>)
    : (r: seq<HotelEntry>)
    ensures |r| == |names|
    ensures forall k :: 0 <= k < |r| ==> r[k] == Group(tracked, all, names[k])
  {
    if names == [] then []
    else GroupOver(tracked, all, names[..|names| - 1]) + [Group(tracked, all, names[|names| - 1])]
  }

  /** `list(hotels.values())`: one group per distinct hotel name, in order of first appearance. */
  function Grouped(tracked: seq<HotelConfig>, all: seq<Scrape.ScrapeResult>): seq<HotelEntry> {
    GroupOver(tracked, all, Seqs.Dedup(Names(all)))
  }

  /** The dictionary built from the results `pre`: its keys in insertion order are
      the distinct hotel names in order of first appearance, and each value is the
      complete group of its key. */
  ghost predicate Filed(tracked: seq<HotelConfig>, pre: seq<Scrape.ScrapeResult>,
                        hotels: map<string, HotelEntry>, order: seq<string>)
  {
    && order == Seqs.Dedup(Names(pre))
    && (forall n :: n in hotels <==> n in order)
    && (forall n :: n in hotels ==> hotels[n] == Group(tracked, pre, n))
  }

  /** The `for r in all_results` loop: a dictionary filled result by result,
      its keys kept in insertion order (as Python's dict keeps them). */
  method FileResults(all: seq<Scrape.ScrapeResult>, tracked: seq<HotelConfig>)
    returns (hotels: map<string, HotelEntry>, order: seq<string>)
    ensures order == Seqs.Dedup(Names(all))
    ensures forall n :: n in hotels <==> n in order
    ensures forall n :: n in hotels ==> hotels[n] == Group(tracked, all, n)
  {
    hotels := map[];
    order := [];
    for i := 0 to |all|
      invariant Filed(tracked, all[..i], hotels, order)
    {
      var r := all[i];
      var name := r.hotelName;
      Seqs.PrefixSnoc(all, i);
      ghost var h0, o0 := hotels, order;
      if name !in hotels {
        hotels := hotels[name := Header(tracked, name)];
        order := order + [name];
      }
      hotels := hotels[name := hotels[name].(prices := hotels[name].prices + [EntryOf(r)])];
      FileStep(tracked, all[..i], r, h0, o0, hotels, order);
    }
    assert all[..|all|] == all;
  }

  /** One pass of the filing loop keeps the dictionary equal to its specification. */
  lemma FileStep(tracked: seq<HotelConfig>, pre: seq<Scrape.ScrapeResult>, r: Scrape.ScrapeResult,
                 hotels: map<string, HotelEntry>, order: seq<string>,
                 hotels': map<string, HotelEntry>, order': seq<string>)
    requires Filed(tracked, pre, hotels, order)
    requires order' == if r.hotelName in hotels then order else order + [r.hotelName]
    requires var h := if r.hotelName in hotels then hotels
                      else hotels[r.hotelName := Header(tracked, r.hotelName)];
             hotels' == h[r.hotelName := h[r.hotelName].(prices := h[r.hotelName].prices + [EntryOf(r)])]
    ensures Filed(tracked, pre + [r], hotels', order')
  {
    FileStepKeys(tracked, pre, r, hotels, order, order');
    var name := r.hotelName;
    var h := if name in hotels then hotels else hotels[name := Header(tracked, name)];
    if name !in hotels {
      PricesOfAbsent(pre, name);
    }
    assert forall n :: n in h ==> h[n] == Group(tracked, pre, n);
    GroupStep(tracked, pre, r, h);
    assert forall n :: n in hotels' <==> n in order';
  }

  /** The key half of `FileStep`: the new name is appended exactly when it is unseen. */
  lemma FileStepKeys(tracked: seq<HotelConfig>, pre: seq<Scrape.ScrapeResult>, r: Scrape.ScrapeResult,
                     hotels: map<string, HotelEntry>, order: seq<string>, order': seq<string>)
    requires Filed(tracked, pre, hotels, order)
    requires order' == if r.hotelName in hotels then order else order + [r.hotelName]
    ensures order' == Seqs.Dedup(Names(pre + [r]))
  {
    NamesSnoc(pre, r);
    Seqs.DedupSnoc(Names(pre), r.hotelName);
  }

  /** `list(hotels.values())`, the values in key-insertion order. */
  method ListGroups(hotels: map<string, HotelEntry>, order: seq<string>) returns (list: seq<HotelEntry>)
    requires forall n :: n in order ==> n in hotels
    ensures |list| == |order|
    ensures forall k :: 0 <= k < |list| ==> list[k] == hotels[order[k]]
  {
    list := [];
    for j := 0 to |order|
      invariant |list| == j
      invariant forall k :: 0 <= k < j ==> list[k] == hotels[order[k]]
    {
      list := list + [hotels[order[j]]];
    }
  }

  /** The "Build output" block, given the clock reading `now`. */
  method BuildOutput(all: seq<Scrape.ScrapeResult>, tracked: seq<HotelConfig>, now: string)
    returns (out: OutputDoc)
    ensures out == OutputDoc(Grouped(tracked, all), now, |all|)
  {
    var hotels, order := FileResults(all, tracked);
    var list := ListGroups(hotels, order);
    assert list == Grouped(tracked, all);
    out := OutputDoc(list, now, |all|);
  }

  // ---------------------------------------------------------------- properties of the grouping

  /** The groups are headed by the distinct hotel names, in order. */
  lemma GroupedHeads(tracked: seq<HotelConfig>, all: seq<Scrape.ScrapeResult>)
    ensures |Grouped(tracked, all)| == |Seqs.Dedup(Names(all))|
    ensures forall k :: 0 <= k < |Grouped(tracked, all)| ==>
              Grouped(tracked, all)[k].name == Seqs.Dedup(Names(all))[k]
  {
    var d := Seqs.Dedup(Names(all));
    forall k | 0 <= k < |d| ensures Grouped(tracked, all)[k].name == d[k] {
      assert Grouped(tracked, all)[k] == Group(tracked, all, d[k]);
    }
  }

  /** Every hotel name of the results heads exactly one group, in order of first appearance. */
  lemma GroupedNames(tracked: seq<HotelConfig>, all: seq<Scrape.ScrapeResult>)
    ensures var g := Grouped(tracked, all);
            && (forall k, l :: 0 <= k < l < |g| ==> g[k].name != g[l].name)
            && (forall i :: 0 <= i < |all| ==> exists k :: 0 <= k < |g| && g[k].name == all[i].hotelName)
            && (forall k :: 0 <= k < |g| ==> g[k].name in Names(all))
            && (forall k, l :: 0 <= k < l < |g| ==>
                  Seqs.IndexOf(Names(all), g[k].name) < Seqs.IndexOf(Names(all), g[l].name))
  {
    var d := Seqs.Dedup(Names(all));
    var g := Grouped(tracked, all);
    GroupedHeads(tracked, all);
    Seqs.DedupOrder(Names(all));
    forall i | 0 <= i < |all| ensures exists k :: 0 <= k < |g| && g[k].name == all[i].hotelName {
      assert Names(all)[i] == all[i].hotelName;
      var k := Seqs.IndexOf(d, all[i].hotelName);
      assert g[k].name == d[k];
    }
  }

  /** A group's metadata comes from the first tracked hotel of that name,
      and is empty when the hotel is not tracked. */
  lemma GroupedMetadata(tracked: seq<HotelConfig>, all: seq<Scrape.ScrapeResult>, k: nat)
    requires k < |Grouped(tracked, all)|
    ensures var h := Grouped(tracked, all)[k];
            match FirstConfig(tracked, h.name)
            case None => h.destination == "" && h.stars == None && h.rating == None
            case Some(c) =>
              && h.destination == tracked[c].destinationLabel
              && h.stars == Some(tracked[c].stars) && h.rating == Some(tracked[c].rating)
  {
  }

  /** Tracked and untracked hotels get the configured or the empty metadata. */
  lemma TrackedHeaders()
    ensures Header(TrackedHotels, "Zafiro Palace Alcudia")
            == HotelEntry("Zafiro Palace Alcudia", "Majorca, Spain", Some(5), Some(4.7), [])
    ensures Header(TrackedHotels, "Hotel Flamingo Oasis")
            == HotelEntry("Hotel Flamingo Oasis", "Benidorm, Spain", Some(4), Some(4.1), [])
    ensures Header(TrackedHotels, "Elsewhere") == HotelEntry("Elsewhere", "", None, None, [])
  {
    assert FirstConfig(TrackedHotels, "Zafiro Palace Alcudia") == Some(2);
    assert FirstConfig(TrackedHotels, "Hotel Flamingo Oasis") == Some(1);
    assert FirstConfig(TrackedHotels, "Elsewhere") == None;
  }

  /** Every result is filed, as its entry, under its own hotel's group. */
  lemma ResultFiled(tracked: seq<HotelConfig>, all: seq<Scrape.ScrapeResult>, i: nat)
    requires i < |all|
    ensures exists k :: 0 <= k < |Grouped(tracked, all)|
                        && Grouped(tracked, all)[k].name == all[i].hotelName
                        && EntryOf(all[i]) in Grouped(tracked, all)[k].prices
  {
    var d := Seqs.Dedup(Names(all));
    assert Names(all)[i] == all[i].hotelName;
    var k := Seqs.IndexOf(d, all[i].hotelName);
    PricesOfHas(all, i);
    assert Grouped(tracked, all)[k] == Group(tracked, all, d[k]);
  }

  lemma {:induction false} PricesOfHas(all: seq<Scrape.ScrapeResult>, i: nat)
    requires i < |all|
    ensures EntryOf(all[i]) in PricesOf(all, all[i].hotelName)
  {
    var init := all[..|all| - 1];
    if i < |all| - 1 {
      assert init[i] == all[i];
      PricesOfHas(init, i);
    }
  }

  /** A group holds only entries of results for its own hotel. */
  lemma {:induction false} PricesOfOwn(all: seq<Scrape.ScrapeResult>, name: string, k: nat)
    requires k < |PricesOf(all, name)|
    ensures exists i :: 0 <= i < |all| && all[i].hotelName == name && PricesOf(all, name)[k] == EntryOf(all[i])
  {
    var init := all[..|all| - 1];
    var last := all[|all| - 1];
    if k < |PricesOf(init, name)| {
      PricesOfOwn(init, name, k);
      var i :| 0 <= i < |init| && init[i].hotelName == name && PricesOf(init, name)[k] == EntryOf(init[i]);
      assert all[i] == init[i];
    } else {
      assert PricesOf(all, name)[k] == EntryOf(last) && last.hotelName == name;
    }
  }

  // ---------------------------------------------------------------- counting

  /** The number of prices over a list of groups. */
  function SumPrices(hs: seq<HotelEntry>): nat {
    if hs == [] then 0 else SumPrices(hs[..|hs| - 1]) + |hs[|hs| - 1].prices|
  }

  /** How many of the results for each of the given names. */
  function SizeSum(names: seq<string>, all: seq<Scrape.ScrapeResult>): nat {
    if names == [] then 0 else SizeSum(names[..|names| - 1], all) + |PricesOf(all, names[|names| - 1])|
  }

  function Occ(names: seq<string>, x: string): nat {
    if names == [] then 0 else Occ(names[..|names| - 1], x) + (if names[|names| - 1] == x then 1 else 0)
  }

  lemma {:induction false} OccZero(names: seq<string>, x: string)
    requires x !in names
    ensures Occ(names, x) == 0
  {
    if names != [] {
      OccZero(names[..|names| - 1], x);
    }
  }

  lemma {:induction false} OccOne(names: seq<string>, x: string)
    requires Seqs.NoDup(names) && x in names
    ensures Occ(names, x) == 1
  {
    var init := names[..|names| - 1];
    if names[|names| - 1] == x {
      assert x !in init;
      OccZero(init, x);
    } else {
      assert x in init;
      OccOne(init, x);
    }
  }

  /** One more result adds one price to each name equal to its hotel. */
  lemma {:induction false} SizeSumSnoc(names: seq<string>, all: seq<Scrape.ScrapeResult>, r: Scrape.ScrapeResult)
    ensures SizeSum(names, all + [r]) == SizeSum(names, all) + Occ(names, r.hotelName)
  {
    assert (all + [r])[..|all|] == all;
    if names != [] {
      SizeSumSnoc(names[..|names| - 1], all, r);
    }
  }

  /** Distinct names covering every result count every result once. */
  lemma {:induction false} SizeSumCovers(names: seq<string>, all: seq<Scrape.ScrapeResult>)
    requires Seqs.NoDup(names)
    requires forall i :: 0 <= i < |all| ==> all[i].hotelName in names
    ensures SizeSum(names, all) == |all|
  {
    if all == [] {
      SizeSumEmpty(names);
    } else {
      var init := all[..|all| - 1];
      var r := all[|all| - 1];
      assert all == init + [r];
      SizeSumCovers(names, init);
      SizeSumSnoc(names, init, r);
      OccOne(names, r.hotelName);
    }
  }

  lemma {:induction false} SizeSumEmpty(names: seq<string>)
    ensures SizeSum(names, []) == 0
  {
    if names != [] {
      SizeSumEmpty(names[..|names| - 1]);
    }
  }

  lemma {:induction false} SumGroupOver(tracked: seq<HotelConfig>, all: seq<Scrape.ScrapeResult>, names: seq<string>)
    ensures SumPrices(GroupOver(tracked, all, names)) == SizeSum(names, all)
  {
    if names != [] {
      var g := GroupOver(tracked, all, names);
      assert g[..|g| - 1] == GroupOver(tracked, all, names[..|names| - 1]);
      SumGroupOver(tracked, all, names[..|names| - 1]);
    }
  }

  /** The groups partition the results: their prices add up to `total_prices`. */
  lemma GroupedTotal(tracked: seq<HotelConfig>, all: seq<Scrape.ScrapeResult>)
    ensures SumPrices(Grouped(tracked, all)) == |all|
  {
    var d := Seqs.Dedup(Names(all));
    forall i | 0 <= i < |all| ensures all[i].hotelName in d {
      assert Names(all)[i] == all[i].hotelName;
    }
    SizeSumCovers(d, all);
    SumGroupOver(tracked, all, d);
  }
}
