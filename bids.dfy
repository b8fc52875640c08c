/** The bid-text parser `analyze_bids` and the data half of the bid chart
    `create_bid_visualization`: free text holding several bid blocks becomes
    one record per block, sorted by total price. */
module Bids {

  import opened Wrappers
  import opened Text
  import opened Numbers

  /** One bid block: the block's text with its marker, the vendor named on
      its first line, its total price and its lead-time line. A field is
      `None` where the source dictionary has no such key. */
  datatype BidRecord = BidRecord(
    rawText: string,
    vendor: Option<string>,
    price: Option<real>,
    deliveryTime: Option<string>)

  /** The marker every bid block begins with. */
  const BidMarker := "Bid"
  /** The label of the line that carries a bid's total price. */
  const CostMarker := "Total Cost:"
  /** The label of the line that carries a bid's lead time. */
  const LeadMarker := "Lead Time:"

  /** A chunk that `not bid.strip()` skips. */
  predicate IsBlank(chunk: string) {
    Strip(chunk) == []
  }

  /** `chunk.split("\n")`. */
  function Lines(chunk: string): (r: seq<string>)
    ensures |r| >= 1
  {
    Split(chunk, "\n")
  }

  /** The text before the first line break of `chunk`. */
  function FirstLine(chunk: string): string {
    chunk[..Find(chunk, '\n', 0)]
  }

  /** `bid.split("\n")[0]` is the text before the first line break. */
  lemma LinesHead(chunk: string)
    ensures Lines(chunk)[0] == FirstLine(chunk)
  {
    FindIsIndexOf(chunk, '\n', 0);
    SplitHead(chunk, "\n");
  }

  /** The vendor label: `first.split(":")[1].strip()` when the first line
      holds a colon. */
  function VendorOf(first: string): Option<string> {
    if ':' in first then
      SplitSecondField(first, ':');
      Some(Strip(Split(first, ":")[1]))
    else None
  }

  /** The `try` block on the first `Total Cost:` line: the text after the
      first `$` up to the next one, commas removed, read by `float`; a
      missing `$` (an `IndexError`) or a failed `float` (a `ValueError`)
      gives 0. */
  function PriceOf(line: string): real {
    var parts := Split(line, "$");
    if |parts| < 2 then 0.0
    else ParseFloat(Without(parts[1], ',')).GetOr(0.0)
  }

  /** The record the loop body of `analyze_bids` builds for one non-blank
      chunk. No chunk makes it fail. */
  function ParseChunk(chunk: string): BidRecord {
    var lines := Lines(chunk);
    var priceLines := LinesWith(lines, CostMarker);
    var deliveryLines := LinesWith(lines, LeadMarker);
    BidRecord(
      BidMarker + chunk,
      VendorOf(lines[0]),
      if |priceLines| > 0 then Some(PriceOf(Strip(priceLines[0]))) else None,
      if |deliveryLines| > 0 then Some(Strip(deliveryLines[0])) else None)
  }

  /** The chunks the loop keeps, in order. */
  function Kept(chunks: seq<string>): (r: seq<string>)
    ensures |r| <= |chunks|
    ensures forall c :: c in r ==> c in chunks && !IsBlank(c)
    ensures forall c :: c in chunks && !IsBlank(c) ==> c in r
  {
    if chunks == [] then []
    else
      var init, last := chunks[..|chunks| - 1], chunks[|chunks| - 1];
      assert chunks == init + [last];
      Kept(init) + (if IsBlank(last) then [] else [last])
  }

  /** Every non-blank chunk is kept as often as it occurs, and no blank one. */
  lemma {:induction false} KeptCounts(chunks: seq<string>)
    ensures forall c :: multiset(Kept(chunks))[c] == if IsBlank(c) then 0 else multiset(chunks)[c]
  {
    if chunks != [] {
      var init, last := chunks[..|chunks| - 1], chunks[|chunks| - 1];
      KeptCounts(init);
      assert chunks == init + [last];
      KeptSnoc(init, last);
    }
  }

  /** Keeping commutes with concatenation, so the kept chunks keep their
      order. */
  lemma {:induction false} KeptConcat(a: seq<string>, b: seq<string>)
    ensures Kept(a + b) == Kept(a) + Kept(b)
    decreases |b|
  {
    if b == [] {
      assert a + b == a;
    } else {
      var init, last := b[..|b| - 1], b[|b| - 1];
      var tail := if IsBlank(last) then [] else [last];
      KeptConcat(a, init);
      SnocConcat(a, b);
      KeptSnoc(a + init, last);
      KeptSnoc(init, last);
      Assoc3(Kept(a), Kept(init), tail);
    }
  }

  lemma SnocConcat<T>(a: seq<T>, b: seq<T>)
    requires b != []
    ensures a + b == (a + b[..|b| - 1]) + [b[|b| - 1]]
    ensures b == b[..|b| - 1] + [b[|b| - 1]]
  {
  }

  lemma Assoc3<T>(x: seq<T>, y: seq<T>, z: seq<T>)
    ensures (x + y) + z == x + (y + z)
  {
  }

  /** A single chunk is kept exactly when it is not blank. */
  lemma KeptOne(c: string)
    ensures Kept([c]) == if IsBlank(c) then [] else [c]
  {
    KeptSnoc([], c);
    assert [] + [c] == [c];
  }

  /** The `bids` list after the loop has seen `chunks`. */
  function Records(chunks: seq<string>): seq<BidRecord> {
    if chunks == [] then []
    else
      var init, last := chunks[..|chunks| - 1], chunks[|chunks| - 1];
      Records(init) + (if IsBlank(last) then [] else [ParseChunk(last)])
  }

  /** After a blank piece, chunks none of which is blank yield one record
      each, in order. */
  lemma RecordsOfClean(lead: string, chunks: seq<string>, recs: seq<BidRecord>)
    requires IsBlank(lead) && |chunks| == |recs|
    requires forall k :: 0 <= k < |chunks| ==> !IsBlank(chunks[k])
    requires forall k :: 0 <= k < |chunks| ==> ParseChunk(chunks[k]) == recs[k]
    ensures Records([lead] + chunks) == recs
  {
    KeptNonBlank(lead, chunks);
    RecordsMatch([lead] + chunks, chunks, recs);
  }

  /** When the kept chunks parse to `recs`, the loop yields `recs`. */
  lemma RecordsMatch(chunks: seq<string>, kept: seq<string>, recs: seq<BidRecord>)
    requires Kept(chunks) == kept && |kept| == |recs|
    requires forall k :: 0 <= k < |kept| ==> ParseChunk(kept[k]) == recs[k]
    ensures Records(chunks) == recs
  {
    RecordsOfKept(chunks);
  }

  lemma EmptyIsBlank()
    ensures IsBlank("")
  {
    StripEmptyIff("");
  }

  /** After a leading blank piece, chunks none of which is blank are all kept. */
  lemma {:induction false} KeptNonBlank(lead: string, chunks: seq<string>)
    requires IsBlank(lead)
    requires forall k :: 0 <= k < |chunks| ==> !IsBlank(chunks[k])
    ensures Kept([lead] + chunks) == chunks
    decreases |chunks|
  {
    if chunks == [] {
      KeptSnoc([], lead);
      assert [] + [lead] == [lead] + chunks;
    } else {
      var n := |chunks| - 1;
      KeptNonBlank(lead, chunks[..n]);
      KeptSnoc([lead] + chunks[..n], chunks[n]);
      SplitLast(lead, chunks);
    }
  }

  lemma SplitLast(lead: string, chunks: seq<string>)
    requires chunks != []
    ensures [lead] + chunks == [lead] + chunks[..|chunks| - 1] + [chunks[|chunks| - 1]]
    ensures chunks == chunks[..|chunks| - 1] + [chunks[|chunks| - 1]]
  {
  }

  lemma KeptSnoc(chunks: seq<string>, c: string)
    ensures Kept(chunks + [c]) == Kept(chunks) + (if IsBlank(c) then [] else [c])
  {
    assert (chunks + [c])[..|chunks|] == chunks;
  }

  /** The loop appends exactly one record per non-blank chunk, in order. */
  lemma {:induction false} RecordsOfKept(chunks: seq<string>)
    ensures |Records(chunks)| == |Kept(chunks)|
    ensures forall k :: 0 <= k < |Kept(chunks)| ==> Records(chunks)[k] == ParseChunk(Kept(chunks)[k])
  {
    if chunks != [] {
      var init, last := chunks[..|chunks| - 1], chunks[|chunks| - 1];
      RecordsOfKept(init);
      assert Records(chunks) == Records(init) + (if IsBlank(last) then [] else [ParseChunk(last)]);
      assert Kept(chunks) == Kept(init) + (if IsBlank(last) then [] else [last]);
    }
  }

  /** A blank chunk yields no record, so whitespace between the blocks (and
      before the first marker) is ignored. */
  lemma {:induction false} RecordsSkipBlank(init: seq<string>, c: string)
    requires AllSpace(c)
    ensures Records(init + [c]) == Records(init)
  {
    assert (init + [c])[..|init|] == init;
    StripEmptyIff(c);
  }

  /** Each record keeps its block's text with the marker put back. */
  lemma RawTextOfChunk(chunk: string)
    ensures ParseChunk(chunk).rawText == "Bid" + chunk
  {
  }

  /** The vendor is present exactly when the first line has a colon, and is
      then the trimmed text between its first and its second colon. */
  lemma VendorField(chunk: string)
    ensures ParseChunk(chunk).vendor.Some? <==> ':' in FirstLine(chunk)
    ensures ':' in FirstLine(chunk) ==>
      ParseChunk(chunk).vendor == Some(Strip(SecondField(FirstLine(chunk), ':')))
  {
    LinesHead(chunk);
    if ':' in FirstLine(chunk) {
      SplitSecondField(FirstLine(chunk), ':');
    }
  }

  /** The price is absent exactly when no line holds `Total Cost:`, and is
      otherwise read from the first line that does. */
  lemma PriceField(chunk: string)
    ensures var lines := Lines(chunk);
      && (ParseChunk(chunk).price.None? <==> forall k :: 0 <= k < |lines| ==> !Contains(lines[k], CostMarker))
      && (ParseChunk(chunk).price.Some? ==>
            var k := FirstLineIndex(lines, CostMarker, 0);
            k < |lines| && ParseChunk(chunk).price.value == PriceOf(Strip(lines[k])))
  {
    LinesWithFirst(Lines(chunk), CostMarker);
  }

  /** The lead time is absent exactly when no line holds `Lead Time:`, and is
      otherwise the first line that does, trimmed. */
  lemma DeliveryField(chunk: string)
    ensures var lines := Lines(chunk);
      && (ParseChunk(chunk).deliveryTime.None? <==> forall k :: 0 <= k < |lines| ==> !Contains(lines[k], LeadMarker))
      && (ParseChunk(chunk).deliveryTime.Some? ==>
            var k := FirstLineIndex(lines, LeadMarker, 0);
            k < |lines| && ParseChunk(chunk).deliveryTime.value == Strip(lines[k]))
  {
    LinesWithFirst(Lines(chunk), LeadMarker);
  }

  /** A price line without `$` degrades to 0; with one, the text between the
      first and second `$` is read, commas dropped, and an unreadable text
      degrades to 0 as well. */
  lemma PriceOfCases(line: string)
    ensures '$' !in line ==> PriceOf(line) == 0.0
    ensures '$' in line ==> PriceOf(line) == ParseFloat(Without(SecondField(line, '$'), ',')).GetOr(0.0)
  {
    if '$' in line {
      SplitSecondField(line, '$');
    } else {
      ContainsChar(line, '$');
      SplitWithout(line, "$");
    }
  }

  /** Every character of `Grouped(n)` is a digit or a comma. */
  lemma {:induction false} GroupedChars(n: nat)
    ensures forall i :: 0 <= i < |Grouped(n)| ==> IsDigit(Grouped(n)[i]) || Grouped(n)[i] == ','
  {
    if n >= 1000 {
      GroupedChars(n / 1000);
    }
  }

  /** A line such as `Total Cost: $125,000` is read as the amount it shows. */
  lemma PriceOfAmount(prefix: string, n: nat)
    requires '$' !in prefix
    ensures PriceOf(prefix + "$" + Grouped(n)) == n as real
  {
    GroupedChars(n);
    DollarField(prefix, Grouped(n));
    PriceOfCases(prefix + "$" + Grouped(n));
    ParseFloatGrouped(n);
  }

  /** The field after the only `$` of a line is the rest of the line. */
  lemma DollarField(prefix: string, g: string)
    requires '$' !in prefix && '$' !in g
    ensures '$' in prefix + "$" + g && SecondField(prefix + "$" + g, '$') == g
  {
    var line := prefix + "$" + g;
    assert line[|prefix|] == '$';
    assert forall k :: 0 <= k < |prefix| ==> line[k] == prefix[k];
    FindUnique(line, '$', 0, |prefix|);
    assert forall k :: |prefix| < k < |line| ==> line[k] == g[k - |prefix| - 1];
    FindUnique(line, '$', |prefix| + 1, |line|);
    assert line[|prefix| + 1..] == g;
  }

  /** Python's `x.get("price", float("inf"))` compared with `<=`: an absent
      price counts as larger than every present one. */
  predicate PriceLe(a: Option<real>, b: Option<real>) {
    b.None? || (a.Some? && a.value <= b.value)
  }

  predicate SortedByPrice(bids: seq<BidRecord>) {
    forall i, j :: 0 <= i < j < |bids| ==> PriceLe(bids[i].price, bids[j].price)
  }

  /** Put `b` in front of the first record whose price is not below its own. */
  function Insert(b: BidRecord, bids: seq<BidRecord>): (r: seq<BidRecord>)
    ensures |r| == |bids| + 1
  {
    if bids == [] || PriceLe(b.price, bids[0].price) then [b] + bids
    else [bids[0]] + Insert(b, bids[1..])
  }

  /** Inserting adds exactly `b`. */
  lemma {:induction false} InsertPermutes(b: BidRecord, bids: seq<BidRecord>)
    ensures multiset(Insert(b, bids)) == multiset(bids) + multiset{b}
  {
    if bids != [] && !PriceLe(b.price, bids[0].price) {
      InsertPermutes(b, bids[1..]);
      assert bids == [bids[0]] + bids[1..];
    }
  }

  /** Inserting into a sorted list keeps it sorted. */
  lemma {:induction false} InsertSorted(b: BidRecord, bids: seq<BidRecord>)
    requires SortedByPrice(bids)
    ensures SortedByPrice(Insert(b, bids))
  {
    if bids == [] || PriceLe(b.price, bids[0].price) {
      ConsSorted(b, bids);
    } else {
      var head, tail := bids[0], bids[1..];
      var rest := Insert(b, tail);
      assert bids == [head] + tail;
      InsertSorted(b, tail);
      InsertPermutes(b, tail);
      CheaperThanAll(head, b, tail, rest);
      ConsSorted(head, rest);
    }
  }

  /** A record priced at most `b` and the records of a sorted tail is priced
      at most any arrangement of them. */
  lemma CheaperThanAll(head: BidRecord, b: BidRecord, tail: seq<BidRecord>, rest: seq<BidRecord>)
    requires SortedByPrice([head] + tail) && !PriceLe(b.price, head.price)
    requires multiset(rest) == multiset(tail) + multiset{b}
    ensures forall k :: 0 <= k < |rest| ==> PriceLe(head.price, rest[k].price)
  {
    forall k | 0 <= k < |rest| ensures PriceLe(head.price, rest[k].price) {
      assert rest[k] in multiset(tail) + multiset{b};
      if rest[k] != b {
        var m :| 0 <= m < |tail| && tail[m] == rest[k];
        assert ([head] + tail)[0] == head && ([head] + tail)[m + 1] == rest[k];
      }
    }
  }

  lemma ConsSorted(head: BidRecord, rest: seq<BidRecord>)
    requires SortedByPrice(rest) && forall k :: 0 <= k < |rest| ==> PriceLe(head.price, rest[k].price)
    ensures SortedByPrice([head] + rest)
  {
    var r := [head] + rest;
    assert forall j :: 0 < j < |r| ==> r[j] == rest[j - 1];
  }

  /** `sorted(bids, key=price or inf)`: insertion sort from the back, so
      that equal keys keep their order. */
  function SortByPrice(bids: seq<BidRecord>): (r: seq<BidRecord>)
    ensures |r| == |bids|
    ensures SortedByPrice(r)
    ensures multiset(r) == multiset(bids)
  {
    if bids == [] then []
    else
      var tail := SortByPrice(bids[1..]);
      InsertPermutes(bids[0], tail);
      InsertSorted(bids[0], tail);
      assert bids == [bids[0]] + bids[1..];
      Insert(bids[0], tail)
  }

  /** The records whose price key is `p`, in order. */
  function WithPrice(bids: seq<BidRecord>, p: Option<real>): seq<BidRecord> {
    if bids == [] then []
    else (if bids[0].price == p then [bids[0]] else []) + WithPrice(bids[1..], p)
  }

  lemma {:induction false} InsertStable(b: BidRecord, bids: seq<BidRecord>, p: Option<real>)
    ensures WithPrice(Insert(b, bids), p) == (if b.price == p then [b] else []) + WithPrice(bids, p)
  {
    if bids == [] || PriceLe(b.price, bids[0].price) {
      assert Insert(b, bids) == [b] + bids;
      WithPriceCons(b, bids, p);
    } else {
      var head, tail := bids[0], bids[1..];
      var rest := Insert(b, tail);
      assert Insert(b, bids) == [head] + rest;
      InsertStable(b, tail, p);
      WithPriceCons(head, rest, p);
      assert bids == [head] + tail;
      WithPriceCons(head, tail, p);
    }
  }

  lemma WithPriceCons(x: BidRecord, xs: seq<BidRecord>, p: Option<real>)
    ensures WithPrice([x] + xs, p) == (if x.price == p then [x] else []) + WithPrice(xs, p)
  {
    assert ([x] + xs)[1..] == xs;
  }

  /** The sort is stable: records with the same price key keep their input
      order (together with sortedness this fixes the output). */
  lemma {:induction false} SortStable(bids: seq<BidRecord>, p: Option<real>)
    ensures WithPrice(SortByPrice(bids), p) == WithPrice(bids, p)
  {
    if bids != [] {
      SortStable(bids[1..], p);
      InsertStable(bids[0], SortByPrice(bids[1..]), p);
    }
  }

  /** `analyze_bids`: split the text on every `Bid`, skip blank chunks, build
      one record per remaining chunk field by field, then sort by price. */
  method AnalyzeBids(bidData: string) returns (bids: seq<BidRecord>)
    ensures bids == SortByPrice(Records(Split(bidData, BidMarker)))
    ensures SortedByPrice(bids)
    ensures multiset(bids) == multiset(Records(Split(bidData, BidMarker)))
    ensures |bids| == |Kept(Split(bidData, BidMarker))|
  {
    var chunks := Split(bidData, BidMarker);
    var found: seq<BidRecord> := [];
    for i := 0 to |chunks|
      invariant found == Records(chunks[..i])
    {
      RecordsPrefix(chunks, i);
      var bid := chunks[i];
      if Strip(bid) == [] {
        continue;
      }
      var lines := Split(bid, "\n");
      var vendor: Option<string> := None;
      if ':' in lines[0] {
        SplitSecondField(lines[0], ':');
        vendor := Some(Strip(Split(lines[0], ":")[1]));
      }
      var price: Option<real> := None;
      var priceLines := LinesWith(lines, CostMarker);
      if |priceLines| > 0 {
        price := Some(PriceOf(Strip(priceLines[0])));
      }
      var deliveryTime: Option<string> := None;
      var deliveryLines := LinesWith(lines, LeadMarker);
      if |deliveryLines| > 0 {
        deliveryTime := Some(Strip(deliveryLines[0]));
      }
      found := found + [BidRecord(BidMarker + bid, vendor, price, deliveryTime)];
    }
    assert chunks[..|chunks|] == chunks;
    RecordsOfKept(chunks);
    bids := SortByPrice(found);
  }

  /** One more chunk of the prefix adds its record unless it is blank. */
  lemma RecordsPrefix(chunks: seq<string>, i: nat)
    requires i < |chunks|
    ensures Records(chunks[..i + 1]) ==
      Records(chunks[..i]) + (if IsBlank(chunks[i]) then [] else [ParseChunk(chunks[i])])
  {
    assert chunks[..i + 1][..i] == chunks[..i];
  }

  /** The two aligned series of the bid bar chart. */
  datatype Chart = Chart(vendors: seq<string>, prices: seq<real>)

  /** The data part of `create_bid_visualization`: no chart for an empty list
      or when some record lacks a vendor or a price; otherwise the vendors
      and prices in list order. */
  function ChartData(bids: seq<BidRecord>): (r: Option<Chart>)
    ensures r.Some? <==> |bids| > 0 && forall b :: b in bids ==> b.vendor.Some? && b.price.Some?
    ensures r.Some? ==>
      && |r.value.vendors| == |bids| && |r.value.prices| == |bids|
      && forall i :: 0 <= i < |bids| ==>
           Some(r.value.vendors[i]) == bids[i].vendor && Some(r.value.prices[i]) == bids[i].price
  {
    if |bids| == 0 || !(forall i :: 0 <= i < |bids| ==> bids[i].vendor.Some? && bids[i].price.Some?) then None
    else
      Some(Chart(
        seq(|bids|, i requires 0 <= i < |bids| => bids[i].vendor.GetOr("Vendor " + NatString(i + 1))),
        seq(|bids|, i requires 0 <= i < |bids| => bids[i].price.GetOr(0.0))))
  }

  /** The bid-evaluation view: analyse the stage input and draw the chart
      when there are bids and the chart has data. Its prices ascend. */
  method BidChart(input: string) returns (chart: Option<Chart>)
    ensures chart == ChartData(SortByPrice(Records(Split(input, BidMarker))))
    ensures chart.Some? ==> forall i, j :: 0 <= i < j < |chart.value.prices| ==>
      chart.value.prices[i] <= chart.value.prices[j]
  {
    var bids := AnalyzeBids(input);
    if |bids| > 0 {
      chart := ChartData(bids);
      ChartAscends(bids);
    } else {
      chart := None;
    }
  }

  /** The chart of a sorted list has ascending prices. */
  lemma ChartAscends(bids: seq<BidRecord>)
    requires SortedByPrice(bids)
    ensures var c := ChartData(bids);
      c.Some? ==> forall i, j :: 0 <= i < j < |c.value.prices| ==> c.value.prices[i] <= c.value.prices[j]
  {
    var c := ChartData(bids);
    if c.Some? {
      forall i, j | 0 <= i < j < |c.value.prices| ensures c.value.prices[i] <= c.value.prices[j] {
        assert PriceLe(bids[i].price, bids[j].price);
      }
    }
  }
}
