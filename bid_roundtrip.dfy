/** Bid text written in the layout the sample data uses (`Bid n: vendor`,
    then `Total Cost: $amount` with thousands separators) parses back to the
    vendors and amounts it was written from, and `analyze_bids` lists them
    cheapest first. */
module BidRoundTrip {

  import opened Wrappers
  import opened Text
  import opened Numbers
  import opened Bids

  /** What one bid block states. */
  datatype Offer = Offer(vendor: string, amount: nat)

  /** A vendor name the block layout can carry: trimmed, on one line, free
      of the colon (so of `Total Cost:` and `Lead Time:` too) and not
      containing `Bid`. */
  predicate PlainVendor(v: string) {
    && (v == [] || (!IsSpace(v[0]) && !IsSpace(v[|v| - 1])))
    && (forall i :: 0 <= i < |v| ==> v[i] != ':' && v[i] != '\n')
    && !Contains(v, BidMarker)
  }

  /** What precedes the vendor on the first line of block number `num`. */
  function VendorPrefix(num: nat): string {
    " " + NatString(num) + ":" + " "
  }

  function VendorLine(num: nat, vendor: string): string {
    VendorPrefix(num) + vendor
  }

  function CostLine(amount: nat): string {
    CostMarker + " " + "$" + Grouped(amount)
  }

  /** What follows the marker in block number `num`. */
  function BlockBody(num: nat, o: Offer): string {
    VendorLine(num, o.vendor) + "\n" + CostLine(o.amount) + "\n"
  }

  /** The bid text for `offers`, numbered from 1. */
  function BidText(offers: seq<Offer>): string {
    if offers == [] then []
    else BidText(offers[..|offers| - 1]) + BidMarker + BlockBody(|offers|, offers[|offers| - 1])
  }

  /** The chunks `split("Bid")` cuts `BidText(offers)` into. */
  function Bodies(offers: seq<Offer>): (r: seq<string>)
    ensures |r| == |offers|
  {
    if offers == [] then []
    else Bodies(offers[..|offers| - 1]) + [BlockBody(|offers|, offers[|offers| - 1])]
  }

  /** The record block number `num` should parse to. */
  function Record(num: nat, o: Offer): BidRecord {
    BidRecord(BidMarker + BlockBody(num, o), Some(o.vendor), Some(o.amount as real), None)
  }

  /** The records the parser should produce, in text order. */
  function Expected(offers: seq<Offer>): (r: seq<BidRecord>)
    ensures |r| == |offers|
  {
    if offers == [] then []
    else
      Expected(offers[..|offers| - 1]) + [Record(|offers|, offers[|offers| - 1])]
  }

  lemma {:induction false} GroupedShape(n: nat)
    ensures |Grouped(n)| > 0 && IsDigit(Grouped(n)[|Grouped(n)| - 1])
    ensures forall i :: 0 <= i < |Grouped(n)| ==> IsDigit(Grouped(n)[i]) || Grouped(n)[i] == ','
  {
    GroupedChars(n);
  }

  lemma {:induction false} JoinSnoc(parts: seq<string>, sep: string, x: string)
    requires |parts| >= 1
    ensures Join(parts + [x], sep) == Join(parts, sep) + sep + x
    decreases |parts|
  {
    if |parts| == 1 {
      assert (parts + [x])[1..] == [x];
    } else {
      assert (parts + [x])[1..] == parts[1..] + [x];
      JoinSnoc(parts[1..], sep, x);
    }
  }

  lemma SplitOnColon(a: string, b: string)
    requires ':' !in a && ':' !in b
    ensures Split(a + ":" + b, ":") == [a, b]
  {
    ContainsChar(a, ':');
    ContainsChar(b, ':');
    OneCharIsBorderFree(':');
    SplitUnique(a + ":" + b, ":", [a, b]);
  }

  lemma LinesOf(lines: seq<string>, text: string)
    requires forall k :: 0 <= k < |lines| ==> '\n' !in lines[k]
    requires |lines| >= 1 && Join(lines, "\n") == text
    ensures Lines(text) == lines
  {
    forall k | 0 <= k < |lines| ensures !Contains(lines[k], "\n") {
      ContainsChar(lines[k], '\n');
    }
    OneCharIsBorderFree('\n');
    SplitUnique(text, "\n", lines);
  }

  lemma NotInDigits(s: string, c: char)
    requires AllDigits(s) && !IsDigit(c)
    ensures c !in s
  {
  }

  lemma NotInGrouped(n: nat, c: char)
    requires !IsDigit(c) && c != ','
    ensures c !in Grouped(n)
  {
    GroupedShape(n);
  }

  lemma NotInVendor(v: string, c: char)
    requires PlainVendor(v) && (c == ':' || c == '\n')
    ensures c !in v
  {
  }

  lemma NotInPrefix(num: nat, c: char)
    requires !IsDigit(c) && c != ' ' && c != ':'
    ensures c !in VendorPrefix(num)
  {
    NotInDigits(NatString(num), c);
  }

  /** The vendor names of the sample bid text can all be carried, though
      they contain the letters of `Total Cost:` and `Lead Time:`. */
  lemma TechSolutionsIsPlain()
    ensures PlainVendor("Tech Solutions Ltd.")
  {
    VendorIsPlain("Tech Solutions Ltd.");
  }

  lemma ApexIsPlain()
    ensures PlainVendor("Apex Computers")
  {
    VendorIsPlain("Apex Computers");
  }

  lemma DigitalEdgeIsPlain()
    ensures PlainVendor("Digital Edge")
  {
    VendorIsPlain("Digital Edge");
  }

  lemma VendorIsPlain(v: string)
    requires v != [] && IsLetterOrDot(v[0]) && IsLetterOrDot(v[|v| - 1])
    requires forall i :: 0 <= i < |v| ==> v[i] != ':' && v[i] != '\n' && v[i] != 'B'
    ensures PlainVendor(v)
  {
    MissingFirstChar(v, BidMarker);
  }

  predicate IsLetterOrDot(c: char) {
    ('a' <= c <= 'z') || ('A' <= c <= 'Z') || c == '.'
  }

  lemma VendorLineFacts(num: nat, v: string)
    requires PlainVendor(v)
    ensures var l := VendorLine(num, v);
      && '\n' !in l && !Contains(l, CostMarker) && !Contains(l, LeadMarker)
      && VendorOf(l) == Some(v)
  {
    NotInVendorLine(num, v);
    VendorLineUnmarked(num, v, CostMarker);
    VendorLineUnmarked(num, v, LeadMarker);
    VendorLineParsed(num, v);
  }

  /** A marker that starts with a letter and ends with the colon cannot occur
      on a vendor line: it cannot start in the prefix, and the vendor has no
      colon. */
  lemma VendorLineUnmarked(num: nat, v: string, marker: string)
    requires PlainVendor(v) && (marker == CostMarker || marker == LeadMarker)
    ensures !Contains(VendorLine(num, v), marker)
  {
    NotInPrefix(num, marker[0]);
    NotInVendor(v, ':');
    MissingAfterPrefix(VendorPrefix(num), v, marker, |marker| - 1);
  }

  lemma NotInVendorLine(num: nat, v: string)
    requires PlainVendor(v)
    ensures '\n' !in VendorLine(num, v)
  {
    NotInPrefix(num, '\n');
    NotInVendor(v, '\n');
  }

  /** The vendor field of a vendor line is the vendor. */
  lemma VendorLineParsed(num: nat, v: string)
    requires PlainVendor(v)
    ensures VendorOf(VendorLine(num, v)) == Some(v)
  {
    VendorLineSplit(num, v);
    StripSpaceVendor(v);
  }

  lemma VendorLineSplit(num: nat, v: string)
    requires PlainVendor(v)
    ensures ':' in VendorLine(num, v)
    ensures Split(VendorLine(num, v), ":") == [" " + NatString(num), " " + v]
  {
    var d := NatString(num);
    NotInDigits(d, ':');
    NotInVendor(v, ':');
    assert VendorLine(num, v) == (" " + d) + ":" + (" " + v);
    assert VendorLine(num, v)[|d| + 1] == ':';
    SplitOnColon(" " + d, " " + v);
  }

  lemma StripSpaceVendor(v: string)
    requires PlainVendor(v)
    ensures Strip(" " + v) == v
  {
    if v == [] {
      assert AllSpace(" " + v);
    } else {
      assert (" " + v)[1..] == v;
      StripUnpadded(v);
    }
  }

  lemma CostLineChars(amount: nat)
    ensures '\n' !in CostLine(amount) && 'B' !in CostLine(amount)
    ensures !Contains(CostLine(amount), LeadMarker)
  {
    NotInCostLine(amount, '\n');
    NotInCostLine(amount, 'B');
    NotInCostLine(amount, 'L');
    MissingFirstChar(CostLine(amount), LeadMarker);
  }

  lemma NotInCostLine(amount: nat, c: char)
    requires c !in CostMarker + " " + "$" && !IsDigit(c) && c != ','
    ensures c !in CostLine(amount)
  {
    NotInGrouped(amount, c);
  }

  lemma CostLineMarked(amount: nat)
    ensures Contains(CostLine(amount), CostMarker)
  {
    var l := CostLine(amount);
    assert l[..|CostMarker|] == CostMarker;
    assert OccursAt(l, CostMarker, 0);
  }

  /** The price the parser reads off the cost line is the amount. */
  lemma CostLinePrice(amount: nat)
    ensures PriceOf(Strip(CostLine(amount))) == amount as real
  {
    CostLineUnpadded(amount);
    CostLineRead(amount);
  }

  lemma CostLineRead(amount: nat)
    ensures PriceOf(CostLine(amount)) == amount as real
  {
    PriceOfAmount(CostMarker + " ", amount);
  }

  lemma CostLineUnpadded(amount: nat)
    ensures Strip(CostLine(amount)) == CostLine(amount)
  {
    var l, g := CostLine(amount), Grouped(amount);
    GroupedShape(amount);
    assert l[|l| - 1] == g[|g| - 1];
    DigitIsNotSpace(g[|g| - 1]);
    assert l[0] == 'T';
    StripUnpadded(l);
  }

  /** A block body has three lines: the vendor line, the cost line and the
      empty text after the final line break. */
  lemma BlockLines(num: nat, o: Offer)
    requires PlainVendor(o.vendor)
    ensures Lines(BlockBody(num, o)) == [VendorLine(num, o.vendor), CostLine(o.amount), ""]
  {
    VendorLineFacts(num, o.vendor);
    CostLineChars(o.amount);
    TwoLines(VendorLine(num, o.vendor), CostLine(o.amount), "");
  }

  /** Two lines, each ended by a line break, split into the two and the
      empty text after the last break. */
  lemma TwoLines(a: string, b: string, e: string)
    requires '\n' !in a && '\n' !in b && e == []
    ensures Lines(a + "\n" + b + "\n") == [a, b, e]
  {
    var lines := [a, b, e];
    assert lines[1..] == [b, e] && lines[1..][1..] == [e];
    assert Join(lines[1..], "\n") == b + "\n";
    assert Join(lines, "\n") == a + "\n" + (b + "\n");
    LinesOf(lines, a + "\n" + b + "\n");
  }

  /** Only the cost line carries `Total Cost:` and no line `Lead Time:`. */
  lemma BlockMarkers(num: nat, o: Offer)
    requires PlainVendor(o.vendor)
    ensures var lines := [VendorLine(num, o.vendor), CostLine(o.amount), ""];
      LinesWith(lines, CostMarker) == [CostLine(o.amount)] && LinesWith(lines, LeadMarker) == []
  {
    var lines := [VendorLine(num, o.vendor), CostLine(o.amount), ""];
    VendorLineFacts(num, o.vendor);
    CostLineChars(o.amount);
    CostLineMarked(o.amount);
    MissingFirstChar("", CostMarker);
    MissingFirstChar("", LeadMarker);
    assert lines[1..] == [CostLine(o.amount), ""] && lines[1..][1..] == [""] && lines[1..][1..][1..] == [];
    assert LinesWith([""], CostMarker) == [];
    assert LinesWith(lines[1..], CostMarker) == [CostLine(o.amount)] + [];
    assert LinesWith([""], LeadMarker) == [];
    assert LinesWith(lines[1..], LeadMarker) == [];
  }

  /** A block body parses to its vendor and amount, with no lead time. */
  lemma BlockRecord(num: nat, o: Offer)
    requires PlainVendor(o.vendor)
    ensures ParseChunk(BlockBody(num, o)) == Record(num, o)
  {
    BlockLines(num, o);
    BlockMarkers(num, o);
    VendorLineFacts(num, o.vendor);
    CostLinePrice(o.amount);
  }

  lemma BodyHasNoMarker(num: nat, o: Offer)
    requires PlainVendor(o.vendor)
    ensures !Contains(BlockBody(num, o), BidMarker) && !IsBlank(BlockBody(num, o))
  {
    BodyUnmarked(num, o);
    BodyNotBlank(num, o);
  }

  /** `Bid` could occur in a block body only inside the vendor name: neither
      the prefix nor the cost line holds any of its letters. */
  lemma BodyUnmarked(num: nat, o: Offer)
    requires PlainVendor(o.vendor)
    ensures !Contains(BlockBody(num, o), BidMarker)
  {
    var p, q := VendorPrefix(num), "\n" + CostLine(o.amount) + "\n";
    BidLettersAbsent(num, o.amount);
    assert BlockBody(num, o) == p + o.vendor + q;
    MissingInside(p, o.vendor, q, BidMarker);
  }

  lemma BidLettersAbsent(num: nat, amount: nat)
    ensures forall k :: 0 <= k < |BidMarker| ==>
      BidMarker[k] !in VendorPrefix(num) && BidMarker[k] !in "\n" + CostLine(amount) + "\n"
  {
    forall k | 0 <= k < |BidMarker|
      ensures BidMarker[k] !in VendorPrefix(num) && BidMarker[k] !in "\n" + CostLine(amount) + "\n"
    {
      var c := BidMarker[k];
      assert c == 'B' || c == 'i' || c == 'd';
      NotInPrefix(num, c);
      NotInCostLine(amount, c);
    }
  }

  lemma BodyNotBlank(num: nat, o: Offer)
    ensures !IsBlank(BlockBody(num, o))
  {
    var b := BlockBody(num, o);
    var d := NatString(num);
    assert b[1] == d[0];
    DigitIsNotSpace(d[0]);
    StripEmptyIff(b);
  }

  /** `split("Bid")` cuts the text into an empty piece and the block bodies. */
  lemma {:induction false} SplitBidText(offers: seq<Offer>)
    requires forall i :: 0 <= i < |offers| ==> PlainVendor(offers[i].vendor)
    ensures Split(BidText(offers), BidMarker) == [""] + Bodies(offers)
  {
    JoinBodies(offers);
    BidIsBorderFree();
    PiecesHaveNoMarker(offers);
    SplitUnique(BidText(offers), BidMarker, [""] + Bodies(offers));
  }

  lemma {:induction false} PiecesHaveNoMarker(offers: seq<Offer>)
    requires forall i :: 0 <= i < |offers| ==> PlainVendor(offers[i].vendor)
    ensures forall k :: 0 <= k < |[""] + Bodies(offers)| ==> !Contains(([""] + Bodies(offers))[k], BidMarker)
  {
    forall k | 0 <= k < |offers| ensures !Contains(Bodies(offers)[k], BidMarker) {
      BodyAt(offers, k);
      BodyHasNoMarker(k + 1, offers[k]);
    }
    MissingFirstChar("", BidMarker);
    ConsFree("", Bodies(offers), BidMarker);
  }

  lemma {:induction false} ConsFree(lead: string, pieces: seq<string>, pat: string)
    requires !Contains(lead, pat)
    requires forall k :: 0 <= k < |pieces| ==> !Contains(pieces[k], pat)
    ensures forall k :: 0 <= k < |[lead] + pieces| ==> !Contains(([lead] + pieces)[k], pat)
  {
    forall k | 0 <= k < |[lead] + pieces| ensures !Contains(([lead] + pieces)[k], pat) {
      if k > 0 {
        assert ([lead] + pieces)[k] == pieces[k - 1];
      }
    }
  }

  lemma {:induction false} BodyAt(offers: seq<Offer>, k: nat)
    requires k < |offers|
    ensures k < |Bodies(offers)| && Bodies(offers)[k] == BlockBody(k + 1, offers[k])
    decreases |offers|
  {
    if k < |offers| - 1 {
      BodyAt(offers[..|offers| - 1], k);
    }
  }

  lemma {:induction false} JoinBodies(offers: seq<Offer>)
    ensures Join([""] + Bodies(offers), BidMarker) == BidText(offers)
  {
    if offers != [] {
      var init := offers[..|offers| - 1];
      JoinBodies(init);
      assert [""] + Bodies(offers) == ([""] + Bodies(init)) + [BlockBody(|offers|, offers[|offers| - 1])];
      JoinSnoc([""] + Bodies(init), BidMarker, BlockBody(|offers|, offers[|offers| - 1]));
    }
  }

  /** Round trip: every block comes back as one record with its vendor and
      its amount, in text order. */
  lemma {:induction false} ParseBidText(offers: seq<Offer>)
    requires forall i :: 0 <= i < |offers| ==> PlainVendor(offers[i].vendor)
    ensures Records(Split(BidText(offers), BidMarker)) == Expected(offers)
  {
    SplitBidText(offers);
    EmptyIsBlank();
    RecordsOfBodies("", offers);
  }

  lemma {:induction false} RecordsOfBodies(lead: string, offers: seq<Offer>)
    requires IsBlank(lead)
    requires forall i :: 0 <= i < |offers| ==> PlainVendor(offers[i].vendor)
    ensures Records([lead] + Bodies(offers)) == Expected(offers)
  {
    BodiesNotBlank(offers);
    BodiesParse(offers);
    RecordsOfClean(lead, Bodies(offers), Expected(offers));
  }

  lemma {:induction false} BodiesParse(offers: seq<Offer>)
    requires forall i :: 0 <= i < |offers| ==> PlainVendor(offers[i].vendor)
    ensures forall k :: 0 <= k < |offers| ==> ParseChunk(Bodies(offers)[k]) == Expected(offers)[k]
  {
    forall k | 0 <= k < |offers| ensures ParseChunk(Bodies(offers)[k]) == Expected(offers)[k] {
      BodyParses(offers, k);
    }
  }

  lemma {:induction false} BodiesNotBlank(offers: seq<Offer>)
    requires forall i :: 0 <= i < |offers| ==> PlainVendor(offers[i].vendor)
    ensures forall k :: 0 <= k < |offers| ==> !IsBlank(Bodies(offers)[k])
  {
    forall k | 0 <= k < |offers| ensures !IsBlank(Bodies(offers)[k]) {
      BodyParses(offers, k);
    }
  }

  lemma {:induction false} BodyParses(offers: seq<Offer>, k: nat)
    requires k < |offers| && PlainVendor(offers[k].vendor)
    ensures k < |Bodies(offers)| && k < |Expected(offers)|
    ensures !IsBlank(Bodies(offers)[k]) && ParseChunk(Bodies(offers)[k]) == Expected(offers)[k]
  {
    BodyAt(offers, k);
    ExpectedAt(offers, k);
    BodyHasNoMarker(k + 1, offers[k]);
    BlockRecord(k + 1, offers[k]);
  }

  lemma {:induction false} ExpectedAt(offers: seq<Offer>, k: nat)
    requires k < |offers|
    ensures k < |Expected(offers)| && Expected(offers)[k] == Record(k + 1, offers[k])
    decreases |offers|
  {
    if k < |offers| - 1 {
      ExpectedAt(offers[..|offers| - 1], k);
    }
  }

  /** Sorting two records whose prices are out of order swaps them. */
  lemma SortSwap(x: BidRecord, y: BidRecord)
    requires !PriceLe(x.price, y.price)
    ensures SortByPrice([x, y]) == [y, x]
  {
    assert [x, y][1..] == [y] && [y][1..] == [];
    assert SortByPrice([y]) == [y];
    assert Insert(x, [y])[1..] == Insert(x, []);
  }

  lemma {:induction false} ExpectedTwo(x: Offer, y: Offer, offers: seq<Offer>)
    requires offers == [x, y]
    ensures Expected(offers) == [Record(1, x), Record(2, y)]
  {
    assert offers[..1] == [x] && [x][..0] == [];
  }

  lemma {:induction false} PlainTwo(x: Offer, y: Offer, offers: seq<Offer>)
    requires offers == [x, y] && PlainVendor(x.vendor) && PlainVendor(y.vendor)
    ensures forall i :: 0 <= i < |offers| ==> PlainVendor(offers[i].vendor)
  {
  }

  /** Two bids with the dearer one first: the parser lists the cheaper one
      first and keeps both vendors and prices. */
  lemma {:induction false} TwoBids(x: Offer, y: Offer)
    requires PlainVendor(x.vendor) && PlainVendor(y.vendor) && y.amount < x.amount
    ensures SortByPrice(Records(Split(BidText([x, y]), BidMarker))) == [Record(2, y), Record(1, x)]
  {
    ParsedTwo(x, y, [x, y]);
    SortSwap(Record(1, x), Record(2, y));
  }

  lemma {:induction false} ParsedTwo(x: Offer, y: Offer, offers: seq<Offer>)
    requires offers == [x, y] && PlainVendor(x.vendor) && PlainVendor(y.vendor)
    ensures Records(Split(BidText(offers), BidMarker)) == [Record(1, x), Record(2, y)]
  {
    PlainTwo(x, y, offers);
    ParseBidText(offers);
    ExpectedTwo(x, y, offers);
  }
}
