/**
 * The retail routing workflow: a classifier agent labels a query, and the
 * label picks the agents that answer it. Each agent is one call of an opaque
 * chat function, identified here by the agent and the data it is given.
 */
module RetailRouting {
  import opened Text

  /** One agent call and the data it is given. */
  datatype Call =
    | Classify(query: string)
    | Research(query: string)
    | Analyze(query: string)
    | Price(query: string, productData: string, customerData: string)

  /** The answer and the agent calls made to reach it, in order. */
  datatype Routed = Routed(result: string, calls: seq<Call>)

  const ProductResearch: string := "product research"
  const CustomerAnalysis: string := "customer analysis"
  const PricingStrategy: string := "pricing strategy"

  const Apology: string :=
    "Sorry, I couldn't determine the appropriate agent for this query."

  /** The three labels the router dispatches on. */
  predicate Known(taskType: string) {
    taskType == ProductResearch || taskType == CustomerAnalysis || taskType == PricingStrategy
  }

  /** The classifier's reply with surrounding whitespace removed. */
  function TaskType(reply: string): string {
    Strip(reply, IsSpace)
  }

  /**
   * `routing_agent`: classify, then dispatch on the exact label. A pricing
   * query first asks the researcher and the analyzer, and hands both replies
   * to the pricing strategist.
   */
  function RoutingAgent(query: string, llm: Call -> string): (r: Routed)
    ensures |r.calls| >= 1 && r.calls[0] == Classify(query)
    ensures |r.calls| == 1 <==> !Known(TaskType(llm(Classify(query))))
    ensures |r.calls| == 1 ==> r.result == Apology
    ensures |r.calls| > 1 ==> r.result == llm(r.calls[|r.calls| - 1])
  {
    var classify := Classify(query);
    var taskType := TaskType(llm(classify));
    if taskType == ProductResearch then
      Routed(llm(Research(query)), [classify, Research(query)])
    else if taskType == CustomerAnalysis then
      Routed(llm(Analyze(query)), [classify, Analyze(query)])
    else if taskType == PricingStrategy then
      var productData := llm(Research(query));
      var customerData := llm(Analyze(query));
      var pricing := Price(query, productData, customerData);
      Routed(llm(pricing), [classify, Research(query), Analyze(query), pricing])
    else
      Routed(Apology, [classify])
  }

  /** "product research" runs the researcher alone and returns its reply. */
  lemma RouteProductResearch(query: string, llm: Call -> string)
    requires TaskType(llm(Classify(query))) == ProductResearch
    ensures RoutingAgent(query, llm).calls == [Classify(query), Research(query)]
    ensures RoutingAgent(query, llm).result == llm(Research(query))
  {
  }

  /** "customer analysis" runs the analyzer alone and returns its reply. */
  lemma RouteCustomerAnalysis(query: string, llm: Call -> string)
    requires TaskType(llm(Classify(query))) == CustomerAnalysis
    ensures RoutingAgent(query, llm).calls == [Classify(query), Analyze(query)]
    ensures RoutingAgent(query, llm).result == llm(Analyze(query))
  {
    assert CustomerAnalysis != ProductResearch by {
      assert |CustomerAnalysis| == 17 && |ProductResearch| == 16;
    }
  }

  /**
   * "pricing strategy" runs the researcher, then the analyzer, then the
   * strategist on both replies, and returns the strategist's reply.
   */
  lemma RoutePricingStrategy(query: string, llm: Call -> string)
    requires TaskType(llm(Classify(query))) == PricingStrategy
    ensures var productData, customerData := llm(Research(query)), llm(Analyze(query));
      && RoutingAgent(query, llm).calls
         == [Classify(query), Research(query), Analyze(query), Price(query, productData, customerData)]
      && RoutingAgent(query, llm).result == llm(Price(query, productData, customerData))
  {
    LabelsDistinct();
  }

  lemma LabelsDistinct()
    ensures ProductResearch != CustomerAnalysis && ProductResearch != PricingStrategy
    ensures CustomerAnalysis != PricingStrategy
  {
    assert |CustomerAnalysis| == 17 && |ProductResearch| == 16 && |PricingStrategy| == 16;
    assert ProductResearch[0] == 'p' && PricingStrategy[1] == 'r' && ProductResearch[1] == 'r';
    assert ProductResearch[2] == 'o' && PricingStrategy[2] == 'i';
  }

  /**
   * The shape every run has: the classifier is called exactly once, first;
   * every call is about the query; no call is repeated; and the strategist
   * is called only right after the researcher and the analyzer, on their
   * replies.
   */
  predicate Orderly(query: string, llm: Call -> string, calls: seq<Call>) {
    && |calls| >= 1 && calls[0] == Classify(query)
    && (forall i :: 1 <= i < |calls| ==> !calls[i].Classify?)
    && (forall i :: 0 <= i < |calls| ==> calls[i].query == query)
    && (forall i, j :: 0 <= i < j < |calls| ==> calls[i] != calls[j])
    && (forall i :: 0 <= i < |calls| && calls[i].Price? ==>
          && i >= 2
          && calls[i - 2] == Research(query)
          && calls[i - 1] == Analyze(query)
          && calls[i] == Price(query, llm(calls[i - 2]), llm(calls[i - 1])))
  }

  lemma OrderlySingle(query: string, llm: Call -> string, agent: Call)
    requires agent == Research(query) || agent == Analyze(query)
    ensures Orderly(query, llm, [Classify(query)])
    ensures Orderly(query, llm, [Classify(query), agent])
  {
  }

  lemma OrderlyPricing(query: string, llm: Call -> string)
    ensures Orderly(query, llm, [Classify(query), Research(query), Analyze(query),
                                 Price(query, llm(Research(query)), llm(Analyze(query)))])
  {
    var calls := [Classify(query), Research(query), Analyze(query),
                  Price(query, llm(Research(query)), llm(Analyze(query)))];
    forall i | 0 <= i < |calls| && calls[i].Price?
      ensures i == 3
    {
    }
  }

  /** Whatever the label, the run has the orderly shape. */
  lemma RoutingOrderly(query: string, llm: Call -> string)
    ensures Orderly(query, llm, RoutingAgent(query, llm).calls)
  {
    var taskType := TaskType(llm(Classify(query)));
    if taskType == ProductResearch {
      RouteProductResearch(query, llm);
      OrderlySingle(query, llm, Research(query));
    } else if taskType == CustomerAnalysis {
      RouteCustomerAnalysis(query, llm);
      OrderlySingle(query, llm, Analyze(query));
    } else if taskType == PricingStrategy {
      RoutePricingStrategy(query, llm);
      OrderlyPricing(query, llm);
    } else {
      RouteUnknown(query, llm);
      OrderlySingle(query, llm, Research(query));
    }
  }

  /** Any other label runs no agent at all and returns the apology. */
  lemma RouteUnknown(query: string, llm: Call -> string)
    requires !Known(TaskType(llm(Classify(query))))
    ensures RoutingAgent(query, llm) == Routed(Apology, [Classify(query)])
  {
  }

  /** The labels have no capitals. */
  lemma LabelsLowerCase(name: string)
    ensures Known(name) ==> Lower(name) == name
  {
    if Known(name) {
      assert forall i :: 0 <= i < |name| ==> !IsUpper(name[i]);
      LowerUnchanged(name);
    }
  }

  /**
   * Matching is case-sensitive: a label that only lowers to a known one,
   * such as "Product Research", is not known and gets the apology.
   */
  lemma CaseVariantUnknown(query: string, llm: Call -> string)
    requires var taskType := TaskType(llm(Classify(query)));
      Known(Lower(taskType)) && Lower(taskType) != taskType
    ensures RoutingAgent(query, llm) == Routed(Apology, [Classify(query)])
  {
    var taskType := TaskType(llm(Classify(query)));
    LabelsLowerCase(taskType);
  }

  /** The classifier answering "Product Research", capitalised, gets the apology. */
  lemma CapitalisedLabelUnknown(query: string, llm: Call -> string)
    requires TaskType(llm(Classify(query))) == "Product Research"
    ensures RoutingAgent(query, llm) == Routed(Apology, [Classify(query)])
  {
    var taskType := TaskType(llm(Classify(query)));
    assert taskType[0] == 'P' && |taskType| == 16;
    assert ProductResearch[0] == 'p' && PricingStrategy[0] == 'p' && |CustomerAnalysis| == 17;
  }

  /**
   * Only the stripped label matters: replies that agree after stripping,
   * from models that agree on every other call, route the same way.
   */
  lemma RoutingIgnoresPadding(query: string, llm: Call -> string, other: Call -> string)
    requires TaskType(llm(Classify(query))) == TaskType(other(Classify(query)))
    requires forall c: Call :: !c.Classify? ==> llm(c) == other(c)
    ensures RoutingAgent(query, llm) == RoutingAgent(query, other)
  {
  }
}
