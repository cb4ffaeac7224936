/** Running an LLM node: composing the user message from the connected inputs,
    the mock response that stands in for a model call, and the `isLoading` /
    `output` transitions around the run. */
module LLMNode {
  import opened Seqs
  import opened Decimal
  import opened Workflow

  const Separator := "\n\n"
  const ContextMarker := "\n\nContext:\n"

  // ---------------------------------------------------------------- prompt composition

  function NonEmptyTexts(texts: seq<string>): seq<string> {
    Filter((s: string) => s != "", texts)
  }

  /** `texts.filter(Boolean).join('\n\n')`. */
  function CombinedText(texts: seq<string>): (r: string)
    ensures texts == [] ==> r == ""
    ensures |texts| == 1 ==> r == texts[0]
  {
    Join(NonEmptyTexts(texts), Separator)
  }

  /** The combined text is empty exactly when every text is empty (in particular for no texts). */
  lemma CombinedTextEmpty(texts: seq<string>)
    ensures CombinedText(texts) == "" <==> forall i :: 0 <= i < |texts| ==> texts[i] == ""
  {
    var parts := NonEmptyTexts(texts);
    if forall i :: 0 <= i < |texts| ==> texts[i] == "" {
      FilterDropsAll((s: string) => s != "", texts);
    } else {
      var i :| 0 <= i < |texts| && texts[i] != "";
      assert texts[i] in parts;
      assert parts[0] in parts;
    }
  }

  /** Adding one text: an empty one changes nothing; a non-empty one is appended after a blank line,
      or stands alone when everything before it was empty. */
  lemma CombinedTextAppend(texts: seq<string>, s: string)
    ensures CombinedText(texts + [s]) ==
      if s == "" then CombinedText(texts)
      else if CombinedText(texts) == "" then s
      else CombinedText(texts) + Separator + s
  {
    var p := (x: string) => x != "";
    FilterAppend(p, texts, [s]);
    var parts := NonEmptyTexts(texts);
    CombinedTextEmpty(texts);
    if s == "" {
      assert NonEmptyTexts(texts + [s]) == parts + [];
      assert parts + [] == parts;
    } else {
      assert NonEmptyTexts(texts + [s]) == parts + [s];
      if parts == [] {
        assert parts + [s] == [s];
      } else {
        JoinAppend(parts, Separator, s);
        assert parts[0] in parts;
      }
    }
  }

  /** `userPrompt ? `${userPrompt}\n\nContext:\n${combinedText}` : combinedText`. */
  function UserMessage(userPrompt: Option<string>, combinedText: string): (r: string)
    ensures EndsWith(r, combinedText)
    ensures Truthy(userPrompt) ==> (StartsWith(r, userPrompt.value + ContextMarker)
                                    && |r| == |userPrompt.value| + |ContextMarker| + |combinedText|)
    ensures !Truthy(userPrompt) ==> r == combinedText
    ensures r == "" <==> !Truthy(userPrompt) && combinedText == ""
  {
    if Truthy(userPrompt) then userPrompt.value + ContextMarker + combinedText else combinedText
  }

  // ---------------------------------------------------------------- mock response

  const Header := "**Analysis Complete**\n\nBased on the provided inputs"
  const ImagesOpen := " and "
  const ImagesClose := " image(s)"
  const RequestOpen := "Your request: \""
  const QuoteClose := "...\""
  const NoPrompt := "No specific prompt provided."
  const SystemOpen := "\nSystem context applied: \""
  const Footer := "\n\n---\n\n*Connect to Lovable Cloud to enable real AI processing with Google Gemini.*"
  const QuotesOpen := ":\n\n"

  /** ` and ${n} image(s)` when there are images, nothing otherwise. */
  function ImagesClause(count: nat): (r: string)
    ensures r == "" <==> count == 0
    ensures count > 0 ==> StartsWith(r, ImagesOpen) && EndsWith(r, ImagesClose)
                          && |r| == |ImagesOpen| + |NatToString(count)| + |ImagesClose|
                          && AllDigits(r[|ImagesOpen|..|r| - |ImagesClose|])
                          && ParseNat(r[|ImagesOpen|..|r| - |ImagesClose|]) == count
  {
    if count > 0 then
      var r := ImagesOpen + NatToString(count) + ImagesClose;
      assert r[|ImagesOpen|..|r| - |ImagesClose|] == NatToString(count);
      ParseNatToString(count);
      r
    else ""
  }

  /** The quoted request: at most the first 100 characters of a non-empty message. */
  function RequestClause(userMessage: string): (r: string)
    ensures userMessage == "" ==> r == NoPrompt
    ensures userMessage != "" ==> StartsWith(r, RequestOpen) && EndsWith(r, QuoteClose)
                                  && |r| == |RequestOpen| + |Prefix(userMessage, 100)| + |QuoteClose|
                                  && r[|RequestOpen|..|r| - |QuoteClose|] == Prefix(userMessage, 100)
                                  && |r| <= |RequestOpen| + 100 + |QuoteClose|
  {
    if userMessage != "" then
      var r := RequestOpen + Prefix(userMessage, 100) + QuoteClose;
      assert r[|RequestOpen|..|r| - |QuoteClose|] == Prefix(userMessage, 100);
      r
    else NoPrompt
  }

  /** The quoted system context: at most the first 50 characters of a truthy system prompt. */
  function SystemClause(systemPrompt: Option<string>): (r: string)
    ensures r == "" <==> !Truthy(systemPrompt)
    ensures Truthy(systemPrompt) ==> StartsWith(r, SystemOpen) && EndsWith(r, QuoteClose)
                                     && |r| == |SystemOpen| + |Prefix(systemPrompt.value, 50)| + |QuoteClose|
                                     && r[|SystemOpen|..|r| - |QuoteClose|] == Prefix(systemPrompt.value, 50)
                                     && |r| <= |SystemOpen| + 50 + |QuoteClose|
  {
    if Truthy(systemPrompt) then
      var r := SystemOpen + Prefix(systemPrompt.value, 50) + QuoteClose;
      assert r[|SystemOpen|..|r| - |QuoteClose|] == Prefix(systemPrompt.value, 50);
      r
    else ""
  }

  /** The request and system clauses, after the colon that ends the first line. */
  function Quotes(userMessage: string, systemPrompt: Option<string>): (r: string)
    ensures StartsWith(r, QuotesOpen + RequestClause(userMessage))
    ensures EndsWith(r, Separator + SystemClause(systemPrompt))
    ensures |r| == 3 + |RequestClause(userMessage)| + |Separator| + |SystemClause(systemPrompt)|
  {
    var head := QuotesOpen + RequestClause(userMessage);
    var tail := Separator + SystemClause(systemPrompt);
    assert (head + tail)[..|head|] == head && (head + tail)[|head + tail| - |tail|..] == tail;
    head + tail
  }

  /** Everything between the header and the footer of the mock response. */
  function MockBody(imageCount: nat, userMessage: string, systemPrompt: Option<string>): (r: string)
    ensures StartsWith(r, ImagesClause(imageCount) + (QuotesOpen + RequestClause(userMessage)))
    ensures EndsWith(r, Separator + SystemClause(systemPrompt))
    ensures |r| == |ImagesClause(imageCount)| + |QuotesOpen| + |RequestClause(userMessage)| + |Separator|
                   + |SystemClause(systemPrompt)|
  {
    var images := ImagesClause(imageCount);
    var quotes := Quotes(userMessage, systemPrompt);
    StartsWithAppend(images, quotes, QuotesOpen + RequestClause(userMessage));
    EndsWithAppend(images, quotes, Separator + SystemClause(systemPrompt));
    images + quotes
  }

  /** The mock response of a run. */
  function MockResponse(imageCount: nat, userMessage: string, systemPrompt: Option<string>): (r: string)
    ensures StartsWith(r, Header) && EndsWith(r, Footer)
    ensures |r| == |Header| + |MockBody(imageCount, userMessage, systemPrompt)| + |Footer|
    ensures r[|Header|..|r| - |Footer|] == MockBody(imageCount, userMessage, systemPrompt)
  {
    var body := MockBody(imageCount, userMessage, systemPrompt);
    Framed(Header, body, Footer);
    Header + body + Footer
  }

  /** Right after the header, the body mentions the image count when there are images, and
      goes straight to ":" otherwise. */
  lemma MockBodyImages(imageCount: nat, userMessage: string, systemPrompt: Option<string>)
    ensures var body := MockBody(imageCount, userMessage, systemPrompt);
            if imageCount == 0 then body[0] == ':' else StartsWith(body, ImagesClause(imageCount))
  {
    var images := ImagesClause(imageCount);
    var body := MockBody(imageCount, userMessage, systemPrompt);
    assert body[..|images|] == images;
  }

  /** The response depends on the message only through its first 100 characters (and whether it is
      empty), and on the system prompt only through its first 50 (and whether it is truthy). */
  lemma MockResponseQuotesPrefixes(n: nat, u: string, u': string, s: Option<string>, s': Option<string>)
    requires (u == "") == (u' == "") && Prefix(u, 100) == Prefix(u', 100)
    requires Truthy(s) == Truthy(s') && (Truthy(s) ==> Prefix(s.value, 50) == Prefix(s'.value, 50))
    ensures MockResponse(n, u, s) == MockResponse(n, u', s')
  {
  }

  /** The response text a successful run writes, from the inputs read and the node's own data. */
  function RunReply(inputs: Inputs, data: NodeData): (r: string)
    ensures StartsWith(r, Header) && EndsWith(r, Footer)
    ensures |r| == |Header| + |MockBody(|inputs.images|, UserMessage(data.userPrompt, CombinedText(inputs.texts)), inputs.systemPrompt)| + |Footer|
    ensures r[|Header|..|r| - |Footer|]
         == MockBody(|inputs.images|, UserMessage(data.userPrompt, CombinedText(inputs.texts)), inputs.systemPrompt)
  {
    MockResponse(|inputs.images|, UserMessage(data.userPrompt, CombinedText(inputs.texts)), inputs.systemPrompt)
  }

  // ---------------------------------------------------------------- run transitions

  /** `{ isLoading: true, output: '' }`, written when a run starts. */
  const StartPatch := NoData.(isLoading := Some(true), output := Some(""))

  /** `{ output: mockResponse, isLoading: false }`, written on success. */
  function SuccessPatch(response: string): NodeData {
    NoData.(output := Some(response), isLoading := Some(false))
  }

  /** `{ isLoading: false }`, written when the run throws. */
  const FailurePatch := NoData.(isLoading := Some(false))

  /** What a whole run leaves in the node: not loading, and the response, or '' after a failure. */
  function RunOutcome(ns: seq<Node>, es: seq<Edge>, id: string, data: NodeData, fails: bool): (r: NodeData)
    ensures r.isLoading == Some(false)
    ensures fails ==> r.output == Some("")
    ensures !fails ==> r.output.Some? && StartsWith(r.output.value, Header) && EndsWith(r.output.value, Footer)
    ensures r.(isLoading := None, output := None) == NoData
  {
    var started := UpdateNodes(ns, id, StartPatch);
    NoData.(isLoading := Some(false),
            output := Some(if fails then "" else RunReply(ConnectedInputs(started, es, id), data)))
  }

  /** Start followed by success or failure is a single write of the outcome. */
  lemma RunComposes(ns: seq<Node>, es: seq<Edge>, id: string, data: NodeData, fails: bool)
    ensures var started := UpdateNodes(ns, id, StartPatch);
            var last := if fails then FailurePatch else SuccessPatch(RunReply(ConnectedInputs(started, es, id), data));
            UpdateNodes(started, id, last) == UpdateNodes(ns, id, RunOutcome(ns, es, id, data, fails))
  {
    var started := UpdateNodes(ns, id, StartPatch);
    var last := if fails then FailurePatch else SuccessPatch(RunReply(ConnectedInputs(started, es, id), data));
    UpdateTwice(ns, id, StartPatch, last);
    assert Merge(StartPatch, last) == RunOutcome(ns, es, id, data, fails);
  }

  /** The start write matters to what the run reads only through a self-loop: without one, the
      response is composed from the inputs as they were before the run. */
  lemma RunInputsIgnoreStart(ns: seq<Node>, es: seq<Edge>, id: string, data: NodeData)
    requires forall k :: 0 <= k < |es| ==> !(es[k].source == id && es[k].target == id)
    ensures RunOutcome(ns, es, id, data, false).output == Some(RunReply(ConnectedInputs(ns, es, id), data))
  {
    ConnectedInputsAfterOwnUpdate(ns, es, id, StartPatch);
  }

  /** After a run every node with the run's id is not loading and holds the response (or '' after a
      failure), keeps every other data field, and every other node is untouched. */
  lemma RunResult(ns: seq<Node>, es: seq<Edge>, id: string, data: NodeData, fails: bool)
    ensures var after := UpdateNodes(ns, id, RunOutcome(ns, es, id, data, fails));
            |after| == |ns|
            && (forall i :: 0 <= i < |ns| && ns[i].id != id ==> after[i] == ns[i])
            && forall i :: 0 <= i < |ns| && ns[i].id == id ==>
                 && after[i].data.isLoading == Some(false)
                 && (fails ==> after[i].data.output == Some(""))
                 && (!fails ==> after[i].data.output.Some? && StartsWith(after[i].data.output.value, Header))
                 && after[i].data.(isLoading := None, output := None) == ns[i].data.(isLoading := None, output := None)
  {
  }

  /** The LLM node component: its id, the store it writes, and its local `isLoading` state. */
  class LLMNodeComponent {
    const id: string
    const store: WorkflowStore
    var isLoading: bool

    constructor (id: string, store: WorkflowStore)
      ensures this.id == id && this.store == store && !isLoading
    {
      this.id := id;
      this.store := store;
      isLoading := false;
    }

    /** The Run button is enabled exactly when no run of this component is in flight. */
    predicate RunEnabled()
      reads this
    {
      !isLoading
    }

    /** The synchronous part of `handleRun` before the await: mark the node as running, then read the
        connected inputs (after that write) and compose the user message from them and from `data`,
        the node's props as last rendered. The run's response is built from what this returns. */
    method Start(data: NodeData) returns (imageCount: nat, userMessage: string, systemPrompt: Option<string>)
      requires RunEnabled()
      modifies this, store
      ensures isLoading && !RunEnabled()
      ensures store.nodes == UpdateNodes(old(store.nodes), id, StartPatch)
      ensures store.edges == old(store.edges)
      ensures var inputs := ConnectedInputs(store.nodes, store.edges, id);
              imageCount == |inputs.images| && systemPrompt == inputs.systemPrompt
              && userMessage == UserMessage(data.userPrompt, CombinedText(inputs.texts))
    {
      isLoading := true;
      store.UpdateNodeData(id, StartPatch);
      var texts, images, prompt := store.GetConnectedInputs(id);
      var combinedText := CombinedText(texts);
      userMessage := UserMessage(data.userPrompt, combinedText);
      imageCount, systemPrompt := |images|, prompt;
    }

    /** The part of `handleRun` after the await: commit the mock response composed from what `Start`
        read, or, when the run throws (`fails`), only clear the loading flag; `finally` re-enables Run. */
    method Finish(imageCount: nat, userMessage: string, systemPrompt: Option<string>, fails: bool)
      requires isLoading
      modifies this, store
      ensures RunEnabled()
      ensures store.edges == old(store.edges)
      ensures store.nodes == UpdateNodes(old(store.nodes), id,
                if fails then FailurePatch else SuccessPatch(MockResponse(imageCount, userMessage, systemPrompt)))
    {
      if fails {
        store.UpdateNodeData(id, FailurePatch);
      } else {
        var mockResponse := MockResponse(imageCount, userMessage, systemPrompt);
        store.UpdateNodeData(id, SuccessPatch(mockResponse));
      }
      isLoading := false;
    }

    /** `handleRun`, with the awaited delay as the point between the two steps. */
    method HandleRun(data: NodeData, fails: bool)
      requires RunEnabled()
      modifies this, store
      ensures RunEnabled()
      ensures store.edges == old(store.edges)
      ensures store.nodes == UpdateNodes(old(store.nodes), id, RunOutcome(old(store.nodes), old(store.edges), id, data, fails))
    {
      var imageCount, userMessage, systemPrompt := Start(data);
      Finish(imageCount, userMessage, systemPrompt, fails);
      RunComposes(old(store.nodes), old(store.edges), id, data, fails);
    }
  }
}
