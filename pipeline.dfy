/** The stage pipeline of the procurement front end: seven stages chosen by
    buttons, a `progress` map holding each stage's last result, input boxes
    pre-filled from the results of earlier stages, and the guarded write of a
    stage's result. The language model behind a stage is a function parameter
    that may fail. */
module Pipeline {

  import opened Wrappers

  datatype Stage =
    | BusinessToTechnical
    | RfpGeneration
    | VendorMatching
    | TenderEmail
    | BidEvaluation
    | NegotiationStrategy
    | RiskContract

  /** The key a stage goes by in the session state and in the template table. */
  function Key(s: Stage): string {
    match s
    case BusinessToTechnical => "business_to_technical_req"
    case RfpGeneration => "rfp_generation"
    case VendorMatching => "vendor_matching"
    case TenderEmail => "tender_email"
    case BidEvaluation => "bid_evaluation"
    case NegotiationStrategy => "negotiation_strategy"
    case RiskContract => "risk_contract"
  }

  /** The stage a key names, if any. */
  function StageOf(key: string): (r: Option<Stage>)
    ensures r.Some? ==> Key(r.value) == key
  {
    if key == "business_to_technical_req" then Some(BusinessToTechnical)
    else if key == "rfp_generation" then Some(RfpGeneration)
    else if key == "vendor_matching" then Some(VendorMatching)
    else if key == "tender_email" then Some(TenderEmail)
    else if key == "bid_evaluation" then Some(BidEvaluation)
    else if key == "negotiation_strategy" then Some(NegotiationStrategy)
    else if key == "risk_contract" then Some(RiskContract)
    else None
  }

  /** Every stage is found again from its key, so no two stages share one. */
  lemma KeyRoundTrip(s: Stage)
    ensures StageOf(Key(s)) == Some(s)
  {
  }

  /** The stage buttons, in the order the sidebar shows them. */
  const Stages: seq<Stage> :=
    [BusinessToTechnical, RfpGeneration, VendorMatching, TenderEmail,
     BidEvaluation, NegotiationStrategy, RiskContract]

  /** The button list names each stage exactly once. */
  lemma StagesListed()
    ensures |Stages| == 7
    ensures forall s: Stage :: s in Stages
    ensures forall i, j :: 0 <= i < j < |Stages| ==> Stages[i] != Stages[j]
  {
    forall s: Stage ensures s in Stages {
      match s
      case BusinessToTechnical => assert Stages[0] == s;
      case RfpGeneration => assert Stages[1] == s;
      case VendorMatching => assert Stages[2] == s;
      case TenderEmail => assert Stages[3] == s;
      case BidEvaluation => assert Stages[4] == s;
      case NegotiationStrategy => assert Stages[5] == s;
      case RiskContract => assert Stages[6] == s;
    }
  }

  /** A prompt template: its text and the variables the chain fills in. */
  datatype PromptTemplate = PromptTemplate(template: string, inputVariables: seq<string>)

  /** `get_prompt_template(key)`: the template table holds one body per stage
      key, `body(s)` for stage `s`; a key outside the table gets the
      business-to-technical template. */
  function GetPromptTemplate(key: string, body: Stage -> string): (t: PromptTemplate)
    ensures t.inputVariables == ["context", "question"]
    ensures StageOf(key).Some? ==> t.template == body(StageOf(key).value)
    ensures StageOf(key).None? ==> t.template == body(BusinessToTechnical)
  {
    var s := StageOf(key).GetOr(BusinessToTechnical);
    PromptTemplate(body(s), ["context", "question"])
  }

  /** Each stage gets its own template, whatever the other bodies are. */
  lemma TemplateOfStage(s: Stage, body: Stage -> string)
    ensures GetPromptTemplate(Key(s), body).template == body(s)
  {
    KeyRoundTrip(s);
  }

  /** The stages whose results pre-fill a stage's input. */
  function Predecessors(s: Stage): set<Stage> {
    match s
    case RfpGeneration => {BusinessToTechnical}
    case VendorMatching => {RfpGeneration}
    case TenderEmail => {RfpGeneration, VendorMatching}
    case NegotiationStrategy => {BidEvaluation}
    case RiskContract => {BidEvaluation, NegotiationStrategy}
    case _ => {}
  }

  /** The indentation inside the two f-strings that combine earlier results. */
  const Indent: string := "            "

  /** The f-string that puts two labelled results one under the other. */
  function Combined(label1: string, first: string, label2: string, second: string): string {
    Opening(label1) + first + Middle(label2) + second + Closing
  }

  function Opening(label1: string): string {
    "\n" + Indent + label1 + "\n" + Indent
  }

  function Middle(label2: string): string {
    "\n" + Indent + "\n" + Indent + label2 + "\n" + Indent
  }

  const Closing: string := "\n" + Indent

  /** The text the "Load Sample Business Requirements" button stores. */
  const SampleRequirements: string :=
    "\n"
    + "        TransGlobal Industries needs to procure 100 high-performance laptops for the engineering department with the following business requirements:\n"
    + "        1. The laptops must support complex CAD software and engineering applications\n"
    + "        2. They should have sufficient battery life for day-long use\n"
    + "        3. They must be compatible with our existing network infrastructure\n"
    + "        4. The procurement must be completed within the next 8 weeks\n"
    + "        5. The budget is approximately $120,000 for the entire purchase\n"
    + "        6. We require a minimum 3-year warranty with onsite support\n"
    + "        "

  /** The text the "Use Sample Bid Data" checkbox puts in the bid box. */
  const SampleBids: string :=
    "\n"
    + "            Bid 1: Tech Solutions Ltd.\n"
    + "            Technical Proposal:\n"
    + "            Processor: Intel Core i7 (11th Gen)\n"
    + "            RAM: 16GB DDR4\n"
    + "            Storage: 512GB SSD\n"
    + "            Financial Proposal:\n"
    + "            Unit Price: $1,200 per laptop\n"
    + "            Total Cost: $125,000\n"
    + "            \n"
    + "            Bid 2: Apex Computers\n"
    + "            Technical Proposal:\n"
    + "            Processor: AMD Ryzen 7 (5000 series)\n"
    + "            RAM: 16GB DDR4\n"
    + "            Storage: 1TB SSD\n"
    + "            Financial Proposal:\n"
    + "            Unit Price: $1,150 per laptop\n"
    + "            Total Cost: $119,000\n"
    + "            \n"
    + "            Bid 3: Digital Edge\n"
    + "            Technical Proposal:\n"
    + "            Processor: AMD Ryzen 7 (4000 series)\n"
    + "            RAM: 16GB DDR4\n"
    + "            Storage: 512GB SSD\n"
    + "            Financial Proposal:\n"
    + "            Unit Price: $1,100 per laptop\n"
    + "            Total Cost: $114,500\n"
    + "            "

  /** The text an input box starts with when stage `s` is shown: `sample` is
      what `sample_input` holds, `useSampleBids` whether the sample-bid box is
      ticked. An empty text area starts with "". */
  function Seed(s: Stage, progress: map<Stage, string>, sample: Option<string>, useSampleBids: bool): string {
    match s
    case BusinessToTechnical => sample.GetOr("")
    case RfpGeneration =>
      if BusinessToTechnical in progress then progress[BusinessToTechnical] else ""
    case VendorMatching =>
      if RfpGeneration in progress then progress[RfpGeneration] else ""
    case TenderEmail =>
      if VendorMatching in progress && RfpGeneration in progress then
        Combined("RFP Document:", progress[RfpGeneration], "Selected Vendors:", progress[VendorMatching])
      else ""
    case BidEvaluation => if useSampleBids then SampleBids else ""
    case NegotiationStrategy =>
      if BidEvaluation in progress then progress[BidEvaluation] else ""
    case RiskContract =>
      if NegotiationStrategy in progress && BidEvaluation in progress then
        Combined("Bid Information:", progress[BidEvaluation], "Negotiation Strategy:", progress[NegotiationStrategy])
      else ""
  }

  /** Bid evaluation starts with the sample bid text exactly when the
      sample-bid box is ticked, whatever earlier stages stored. */
  lemma SeedBidSample(progress: map<Stage, string>, sample: Option<string>, useSampleBids: bool)
    ensures Seed(BidEvaluation, progress, sample, useSampleBids) == SampleBids <==> useSampleBids
  {
    assert |SampleBids| > 0 by { assert SampleBids[0] == '\n'; }
  }

  /** `p` and `q` hold the same results for every stage in `stages`. */
  predicate AgreeOn(p: map<Stage, string>, q: map<Stage, string>, stages: set<Stage>) {
    forall t :: t in stages ==> (t in p <==> t in q) && (t in p ==> p[t] == q[t])
  }

  /** A seed reads `progress` only at the stage's predecessors. */
  lemma SeedReadsPredecessors(s: Stage, p: map<Stage, string>, q: map<Stage, string>,
                              sample: Option<string>, useSampleBids: bool)
    requires AgreeOn(p, q, Predecessors(s))
    ensures Seed(s, p, sample, useSampleBids) == Seed(s, q, sample, useSampleBids)
  {
    match s
    case RfpGeneration => assert BusinessToTechnical in Predecessors(s);
    case VendorMatching => assert RfpGeneration in Predecessors(s);
    case TenderEmail => assert RfpGeneration in Predecessors(s) && VendorMatching in Predecessors(s);
    case NegotiationStrategy => assert BidEvaluation in Predecessors(s);
    case RiskContract => assert BidEvaluation in Predecessors(s) && NegotiationStrategy in Predecessors(s);
    case _ =>
  }

  /** A stage with predecessors starts empty unless all of them have a
      result; the first stage and bid evaluation never look at `progress`. */
  lemma SeedNeedsPredecessors(s: Stage, progress: map<Stage, string>, sample: Option<string>, useSampleBids: bool)
    ensures Predecessors(s) != {} && !(Predecessors(s) <= progress.Keys) ==> Seed(s, progress, sample, useSampleBids) == ""
  {
    if !(Predecessors(s) <= progress.Keys) {
      var t :| t in Predecessors(s) && t !in progress;
    }
  }

  /** Exactly two stages have no predecessors: the first one and bid
      evaluation, which starts from the sample bids. */
  lemma EntryStages(s: Stage)
    ensures Predecessors(s) == {} <==> s == BusinessToTechnical || s == BidEvaluation
  {
    match s
    case RfpGeneration => assert BusinessToTechnical in Predecessors(s);
    case VendorMatching => assert RfpGeneration in Predecessors(s);
    case TenderEmail => assert RfpGeneration in Predecessors(s);
    case NegotiationStrategy => assert BidEvaluation in Predecessors(s);
    case RiskContract => assert BidEvaluation in Predecessors(s);
    case _ =>
  }

  /** A stage with one predecessor starts with that stage's result, verbatim. */
  lemma SeedCopiesPredecessor(s: Stage, pred: Stage, progress: map<Stage, string>, sample: Option<string>, useSampleBids: bool)
    requires Predecessors(s) == {pred} && pred in progress
    ensures Seed(s, progress, sample, useSampleBids) == progress[pred]
  {
    assert pred in Predecessors(s);
  }

  lemma SliceFive(a: string, b: string, c: string, d: string, e: string)
    ensures (a + b + c + d + e)[|a|..|a| + |b|] == b
    ensures (a + b + c + d + e)[|a| + |b| + |c|..|a| + |b| + |c| + |d|] == d
  {
    var s := a + b + c + d + e;
    assert s == a + (b + (c + (d + e)));
    assert s[|a|..] == b + (c + (d + e));
    assert s[|a| + |b| + |c|..] == d + e;
  }

  /** The combined text holds both results verbatim at fixed places: the first
      after the opening, the second after the first and the middle. */
  lemma CombinedHoldsBoth(label1: string, first: string, label2: string, second: string)
    ensures var r, o := Combined(label1, first, label2, second), |Opening(label1)|;
      && r[o..o + |first|] == first
      && r[o + |first| + |Middle(label2)|..o + |first| + |Middle(label2)| + |second|] == second
      && |r| == o + |first| + |Middle(label2)| + |second| + |Closing|
  {
    SliceFive(Opening(label1), first, Middle(label2), second, Closing);
  }

  /** Tender email and risk assessment start with both predecessors' results
      under their labels, in the order the f-strings give. */
  lemma CombinedSeeds(progress: map<Stage, string>, sample: Option<string>, useSampleBids: bool)
    ensures RfpGeneration in progress && VendorMatching in progress ==>
      Seed(TenderEmail, progress, sample, useSampleBids)
        == Opening("RFP Document:") + progress[RfpGeneration] + Middle("Selected Vendors:") + progress[VendorMatching] + Closing
    ensures BidEvaluation in progress && NegotiationStrategy in progress ==>
      Seed(RiskContract, progress, sample, useSampleBids)
        == Opening("Bid Information:") + progress[BidEvaluation] + Middle("Negotiation Strategy:") + progress[NegotiationStrategy] + Closing
  {
  }

  /** The last stage whose button reads as pressed, or `prev` when none does;
      `pressed[i]` is the button for `Stages[i]`. */
  function LastPressed(pressed: seq<bool>, prev: Option<Stage>): (r: Option<Stage>)
    requires |pressed| <= |Stages|
    ensures (forall k :: 0 <= k < |pressed| ==> !pressed[k]) ==> r == prev
    ensures (exists k :: 0 <= k < |pressed| && pressed[k]) ==>
      exists j :: 0 <= j < |pressed| && pressed[j] && r == Some(Stages[j])
        && forall k :: j < k < |pressed| ==> !pressed[k]
  {
    if pressed == [] then prev
    else if pressed[|pressed| - 1] then Some(Stages[|pressed| - 1])
    else
      var init := pressed[..|pressed| - 1];
      var r := LastPressed(init, prev);
      assert (exists k :: 0 <= k < |pressed| && pressed[k]) ==>
        exists j :: 0 <= j < |pressed| && pressed[j] && r == Some(Stages[j])
          && forall k :: j < k < |pressed| ==> !pressed[k]
      by {
        if exists k :: 0 <= k < |pressed| && pressed[k] {
          var k :| 0 <= k < |pressed| && pressed[k];
          assert init[k] == pressed[k];
          var j :| 0 <= j < |init| && init[j] && r == Some(Stages[j])
            && forall k :: j < k < |init| ==> !init[k];
          assert pressed[j] == init[j];
          forall k | j < k < |pressed| ensures !pressed[k] {
            if k < |init| { assert init[k] == pressed[k]; }
          }
        }
      }
      assert (forall k :: 0 <= k < |pressed| ==> !pressed[k]) ==> r == prev by {
        if forall k :: 0 <= k < |pressed| ==> !pressed[k] {
          forall k | 0 <= k < |init| ensures !init[k] { assert init[k] == pressed[k]; }
        }
      }
      r
  }

  /** The result shown under stage `s`, if it has one. */
  function Displayed(progress: map<Stage, string>, current: Option<Stage>): (r: Option<string>)
    ensures r.Some? <==> current.Some? && current.value in progress
    ensures r.Some? ==> r.value == progress[current.value]
  {
    if current.Some? && current.value in progress then Some(progress[current.value]) else None
  }

  /** What one press of "Process" does to `progress`: with a stage shown, the
      button pressed and a non-empty input, the model's answer for that
      stage's template is stored under the stage; a failed call stores
      nothing. */
  function AfterProcess(progress: map<Stage, string>, current: Option<Stage>, pressed: bool, input: string,
                        body: Stage -> string, run: (PromptTemplate, string) -> Option<string>): map<Stage, string>
  {
    if current.Some? && pressed && input != [] then
      match run(GetPromptTemplate(Key(current.value), body), input)
      case Some(result) => progress[current.value := result]
      case None => progress
    else progress
  }

  /** A successful press overwrites the current stage's result and leaves
      every other stage's as it was; nothing is ever removed. */
  lemma ProcessUpdates(progress: map<Stage, string>, current: Option<Stage>, pressed: bool, input: string,
                       body: Stage -> string, run: (PromptTemplate, string) -> Option<string>)
    ensures var after := AfterProcess(progress, current, pressed, input, body, run);
      && progress.Keys <= after.Keys
      && (forall t :: t in progress && (current.None? || t != current.value) ==> t in after && after[t] == progress[t])
      && (forall t :: t in after && (current.None? || t != current.value) ==> t in progress)
  {
  }

  /** The press stores exactly the model's answer, and only when it has one. */
  lemma ProcessStores(progress: map<Stage, string>, current: Option<Stage>, pressed: bool, input: string,
                      body: Stage -> string, run: (PromptTemplate, string) -> Option<string>)
    ensures var after := AfterProcess(progress, current, pressed, input, body, run);
      after != progress ==>
        && current.Some? && pressed && input != []
        && run(GetPromptTemplate(Key(current.value), body), input) == Some(after[current.value])
    ensures current.Some? && pressed && input != [] && run(GetPromptTemplate(Key(current.value), body), input).Some? ==>
      Displayed(AfterProcess(progress, current, pressed, input, body, run), current)
        == run(GetPromptTemplate(Key(current.value), body), input)
  {
  }

  /** The session state: which stage is shown, each stage's last result and
      the loaded sample requirements. */
  class Session {
    var current: Option<Stage>
    var progress: map<Stage, string>
    var sample: Option<string>

    /** The first run of the script: no stage chosen, no results. */
    constructor ()
      ensures current == None && progress == map[] && sample == None
    {
      current := None;
      progress := map[];
      sample := None;
    }

    /** The loop over the stage buttons: every pressed button sets the current
        stage, so the last pressed one wins. */
    method SelectFromButtons(pressed: seq<bool>)
      requires |pressed| == |Stages|
      modifies this`current
      ensures current == LastPressed(pressed, old(current))
    {
      var prev := current;
      for i := 0 to |Stages|
        invariant current == LastPressed(pressed[..i], prev)
      {
        assert pressed[..i + 1][..i] == pressed[..i];
        if pressed[i] {
          current := Some(Stages[i]);
        }
      }
      assert pressed[..|Stages|] == pressed;
    }

    /** The "Load Sample Business Requirements" button. */
    method LoadSampleRequirements()
      modifies this`sample
      ensures sample == Some(SampleRequirements)
    {
      sample := Some(SampleRequirements);
    }

    /** The "Process" button: runs the current stage's chain on `input` and
        stores the answer; `stored` is what was stored, if anything. */
    method Process(pressed: bool, input: string, body: Stage -> string,
                   run: (PromptTemplate, string) -> Option<string>) returns (stored: Option<string>)
      modifies this`progress
      ensures progress == AfterProcess(old(progress), current, pressed, input, body, run)
      ensures stored.Some? ==> current.Some? && progress == old(progress)[current.value := stored.value]
      ensures stored.None? ==> progress == old(progress)
    {
      stored := None;
      if current.Some? && pressed && input != [] {
        var stage := current.value;
        var answer := run(GetPromptTemplate(Key(stage), body), input);
        if answer.Some? {
          progress := progress[stage := answer.value];
          stored := answer;
        }
      }
    }
  }
}
