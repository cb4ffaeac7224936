# Workflow builder core, modelled in Dafny

The system is a browser-based visual workflow builder. The user places three kinds of node on a canvas:

- text input (`textInput`);
- image upload (`imageUpload`);
- LLM (`llmNode`).

Edges wire node outputs into LLM-node inputs. A store holds the node and edge lists. Components edit a node's data through the store. Running an LLM node reads its direct predecessors, composes a prompt, and writes a response back into the node. A server-side `generate` function validates a prompt-plus-images request, builds the multimodal message list for an AI gateway, and maps the gateway's answer to an HTTP reply.

This project models that core, file by file:

- `seqs.dfy` (module `Seqs`): the JavaScript array and string operations the core relies on. These are `filter`, `map`, `join`, `startsWith`, `slice(0, n)`, and absent-or-present properties (`Option`, with JavaScript truthiness). `EndsWith` is only used to state properties of the composed texts.
- `decimal.dfy` (module `Decimal`): `${n}` for non-negative integers below 10^21 (the values the core formats), as the decimal numeral, and its inverse.
- `workflow.dfy` (module `Workflow`):
  - The store is a class `WorkflowStore` with `seq` fields `nodes` and `edges`.
  - Each store action is a method. It is specified by a value function on the lists: `UpdateNodes`, `NodesWithout`, `EdgesWithout` and `ConnectedInputs`.
  - Lemmas about those functions state what the actions promise: the spread merge, the cascade on delete, which inputs are read, and the sample graph.
- `llm_node.dfy` (module `LLMNode`): the LLM node's `handleRun`. This covers:
  - the combined text;
  - the user message;
  - the mock response text;
  - the `isLoading` / `output` writes around the run.

  The component is a class whose local `isLoading` state enables the Run button.
- `image_upload.dfy` (module `ImageUpload`): the image node's handlers. These are:
  - the MIME filter on drop;
  - reading files and appending them to the captured list, one `updateNodeData` per finished read;
  - removing the image at an index.
- `node_sidebar.dfy` (module `NodeSidebar`): adding a node from the palette (its id, label and staggered position) and the open/closed category list.
- `generate.dfy` (module `Generate`): the `generate` edge function without its HTTP plumbing. This covers:
  - validation;
  - the API-key check;
  - `data:` URL normalisation of image references (RFC 2397 syntax, as the function's regular expression accepts it);
  - the content and messages arrays;
  - the status mapping of the gateway's answer and the fallback completion text.

Modelling conventions:
- An optional property of a JavaScript object is an `Option` field. `None` means the key is absent.
- A `Partial<NodeData>` patch is a `NodeData` whose `None` fields are keys the patch does not have. `Workflow.Merge` is the object spread `{ ...base, ...patch }`.
- The field `label` is named `labelText` in the model.
- The clock (`Date.now()`), the API key, the gateway's response, and the order in which `FileReader` reads finish are parameters.

Facts about the code that the model follows:
- Inputs are collected one level deep. The code has no recursive resolution of upstream LLM nodes and no visited set.
- The code has no global set of running nodes and no error flag on a node.
- No `Error: ` output is written on failure.
- The code has no fallback prompt for an empty message.
- The LLM node never calls `generate`; it composes a mock response.

## Model

| member | source | states |
|---|---|---|
| Seqs.Filter | src/stores/workflowStore.ts:89-92 | the filtered list is no longer than the input, holds only elements of the input that pass the predicate, and holds every element that passes |
| Seqs.FilterAppend | src/stores/workflowStore.ts:102 | filtering distributes over concatenation, so survivors keep their relative order |
| Seqs.FilterKeepsAll | src/components/workflow/NodeSidebar.tsx:97 | a filter every element passes returns the list unchanged (used by CloseAbsent) |
| Seqs.FilterDropsAll | src/stores/workflowStore.ts:102 | a filter no element passes returns the empty list |
| Seqs.Map | src/stores/workflowStore.ts:79-83 | `map` keeps the length and applies the function to each element in place |
| Seqs.MapAppend | supabase/functions/generate/index.ts:52-71 | mapping distributes over concatenation |
| Seqs.MapAfter | supabase/functions/generate/index.ts:65-70 | after any prefix, the i-th element of a mapped list is the function applied to the i-th input |
| Seqs.Join | src/components/workflow/LLMNode.tsx:23 | joining no parts gives "", joining one part gives that part; the result starts with the first part; with two parts or more it is at least as long as the first two parts and one separator (with JoinAppend this fixes the joined string for every list) |
| Seqs.JoinAppend | src/components/workflow/LLMNode.tsx:23 | joining one more part appends exactly a separator and that part |
| Seqs.Prefix | src/components/workflow/LLMNode.tsx:36-38 | `slice(0, n)` is a prefix of the string, of length min(length, n) |
| Seqs.StartsWithAppend | src/components/workflow/LLMNode.tsx:32-42 | a prefix of the second part of a concatenation extends the first part into a prefix of the whole |
| Seqs.EndsWithAppend | src/components/workflow/LLMNode.tsx:32-42 | a suffix of the second part of a concatenation is a suffix of the whole |
| Decimal.NatToString | src/components/workflow/NodeSidebar.tsx:53 | `${n}` is a non-empty string of digits with no leading zero unless n is 0 |
| Decimal.ParseNatToString | src/components/workflow/NodeSidebar.tsx:53 | reading the rendered digits back gives the number (round trip) |
| Decimal.NatToStringInjective | src/components/workflow/NodeSidebar.tsx:53 | distinct numbers render to distinct strings |
| Workflow.Merge | src/stores/workflowStore.ts:81 | `{ ...base, ...patch }`: every key present in the patch wins and every absent key keeps the base's value; an empty patch changes nothing and an empty base gives the patch (with MergeTwice) |
| Workflow.MergeTwice | src/stores/workflowStore.ts:81 | spreading two patches in turn equals spreading the second over the first once (the spread is associative) |
| Workflow.FindNode | src/stores/workflowStore.ts:105 | `find` returns nothing exactly when no node has the id, and otherwise the first node with that id |
| Workflow.FindUnique | src/stores/workflowStore.ts:105 | with distinct ids, looking up a node's id finds that node |
| Workflow.UpdateNodes | src/stores/workflowStore.ts:77-85 | every node keeps its id, type and position; nodes with other ids are unchanged; a node with the id gets its data merged with the patch |
| Workflow.UpdateAbsent | src/stores/workflowStore.ts:77-85 | updating an id no node has changes nothing |
| Workflow.UpdateTwice | src/stores/workflowStore.ts:77-85 | two updates of one id equal one update with the merged patch |
| Workflow.NodesWithout | src/stores/workflowStore.ts:89 | the surviving nodes are exactly the nodes without the id, none added (with DeleteCascades and DeletePreservesShape) |
| Workflow.EdgesWithout | src/stores/workflowStore.ts:90-92 | the surviving edges are exactly those whose source and target both differ from the id |
| Workflow.UpdatePreservesShape | src/stores/workflowStore.ts:77-85 | an update keeps the ids distinct and keeps every edge's endpoints present |
| Workflow.DeleteCascades | src/stores/workflowStore.ts:87-94 | after deleting an id, no node has it and no edge touches it; every other node and every untouched edge survives |
| Workflow.DeletePreservesShape | src/stores/workflowStore.ts:87-94 | delete keeps the ids distinct and leaves no dangling edge |
| Workflow.UniqueFilter | src/stores/workflowStore.ts:89 | filtering a node list with distinct ids keeps them distinct |
| Workflow.AddPreservesShape | src/stores/workflowStore.ts:71-75 | appending a node keeps the ids distinct exactly when its id is new, and keeps every edge well-formed |
| Workflow.Incoming | src/stores/workflowStore.ts:102 | the incoming edges are exactly the edges whose target is the node (with IncomingAppend for their order) |
| Workflow.Absorb | src/stores/workflowStore.ts:105-118 | one edge adds nothing when its source is missing; otherwise it only appends to the texts (at most one) and to the images, and changes the system prompt only when it is a system-prompt edge, in which case texts and images stay (with AbsorbContribution, AbsorbSystemPrompt and AbsorbSameSource) |
| Workflow.AbsorbCombine | src/stores/workflowStore.ts:104-119 | absorbing an edge after two combined runs only extends the later run |
| Workflow.Gather | src/stores/workflowStore.ts:104-119 | the `forEach` over edges yields at most one text per edge (with GatherAppend, GatherBounds, GatherNoSystemPrompt and GatherLastSystemPrompt) |
| Workflow.GatherStep | src/stores/workflowStore.ts:104-119 | one more edge of the list is absorbed into what the earlier edges collected |
| Workflow.ConnectedInputs | src/stores/workflowStore.ts:96-122 | the node's inputs hold at most one text per incoming edge (with ConnectedInputsTexts, ConnectedInputsAddEdge and NoIncomingNoInputs) |
| Workflow.AbsorbContribution | src/stores/workflowStore.ts:105-118 | for an edge whose source exists, exactly what it adds by source type: a text input's content (empty when unset) as a text, or as the system prompt on the `system_prompt` handle; an image node's images (none when unset); an LLM node's output (empty when unset) as a text; nothing for any other type |
| Workflow.AbsorbTexts | src/stores/workflowStore.ts:104-119 | one edge appends to the texts exactly its text when it is a text-adding edge, and nothing otherwise |
| Workflow.GatherTexts | src/stores/workflowStore.ts:104-119 | the texts gathered over a list of edges are exactly the texts of its text-adding edges, in edge order |
| Workflow.ConnectedInputsTexts | src/stores/workflowStore.ts:96-122 | a node's texts are exactly the texts of its incoming text-adding edges, in edge order |
| Workflow.IncomingAppend | src/stores/workflowStore.ts:102 | the incoming edges of a concatenated edge list are the incoming edges of each part, in order |
| Workflow.GatherAppend | src/stores/workflowStore.ts:104-119 | collecting over two runs of edges concatenates the texts and the images, and the later system prompt wins |
| Workflow.GatherBounds | src/stores/workflowStore.ts:104-119 | there are never more texts than incoming edges, and an edge whose source is missing adds nothing |
| Workflow.AbsorbSystemPrompt | src/stores/workflowStore.ts:108-113 | one edge sets the system prompt exactly when it comes from a text node into the `system_prompt` handle, and otherwise leaves it alone |
| Workflow.GatherNoSystemPrompt | src/stores/workflowStore.ts:104-119 | the system prompt is absent exactly when no incoming edge is a text-to-`system_prompt` edge |
| Workflow.GatherLastSystemPrompt | src/stores/workflowStore.ts:108-113 | with several system-prompt edges, the last one in edge order wins |
| Workflow.ConnectedInputsAddEdge | src/stores/workflowStore.ts:96-122 | appending an edge into another node leaves a node's inputs unchanged; appending one into the node extends its inputs by exactly what that edge contributes, after the earlier edges |
| Workflow.NoIncomingNoInputs | src/stores/workflowStore.ts:96-122 | a node with no incoming edge has no texts, no images and no system prompt |
| Workflow.FindNodeAfterUpdate | src/stores/workflowStore.ts:77-85 | updating one id does not change what a lookup of another id finds |
| Workflow.AbsorbSameSource | src/stores/workflowStore.ts:105-118 | what an edge contributes depends on the node list only through the lookup of its source |
| Workflow.GatherAfterUpdate | src/stores/workflowStore.ts:96-122 | updating a node that sources none of the edges does not change what they collect |
| Workflow.ConnectedInputsAfterOwnUpdate | src/stores/workflowStore.ts:96-122 | without a self-loop, a node's own data never reaches its inputs |
| Workflow.SampleUniqueIds | src/stores/workflowStore.ts:129-197 | the eight sample nodes have distinct ids |
| Workflow.SampleWellFormed | src/stores/workflowStore.ts:199-207 | each of the seven sample edges joins two sample nodes |
| Workflow.WorkflowStore.constructor | src/stores/workflowStore.ts:46-48 | the store starts with no nodes and no edges |
| Workflow.WorkflowStore.AddNode | src/stores/workflowStore.ts:71-75 | the node is appended, with no id check, and the edges are unchanged |
| Workflow.WorkflowStore.UpdateNodeData | src/stores/workflowStore.ts:77-85 | the new node list is the shallow merge of the patch into every node with the id (nothing changes when there is none); the edges are unchanged |
| Workflow.WorkflowStore.DeleteNode | src/stores/workflowStore.ts:87-94 | the node is removed and every edge touching it is dropped |
| Workflow.WorkflowStore.GetConnectedInputs | src/stores/workflowStore.ts:96-122 | the loop over incoming edges returns exactly the connected inputs of the node, reading only direct predecessors, with at most one text per incoming edge; what each edge adds is AbsorbContribution, and the texts in closed form are ConnectedInputsTexts |
| Workflow.WorkflowStore.ResetWorkflow | src/stores/workflowStore.ts:124-126 | both lists become empty |
| Workflow.WorkflowStore.LoadSampleWorkflow | src/stores/workflowStore.ts:128-210 | both lists become the sample graph: 8 nodes with distinct ids and 7 edges with both ends present |
| LLMNode.CombinedTextEmpty | src/components/workflow/LLMNode.tsx:23 | the combined text is empty exactly when every text is empty |
| LLMNode.CombinedTextAppend | src/components/workflow/LLMNode.tsx:23 | an empty text adds nothing; a non-empty one follows a blank line, or stands alone when everything before it was empty |
| LLMNode.CombinedText | src/components/workflow/LLMNode.tsx:23 | no texts give "" and a single text gives itself, empty or not (with CombinedTextEmpty and CombinedTextAppend) |
| LLMNode.UserMessage | src/components/workflow/LLMNode.tsx:24-26 | the message ends with the combined text; with a truthy user prompt it starts with the prompt and the `Context:` marker; otherwise it is the combined text; it is empty exactly when both are |
| LLMNode.ImagesClause | src/components/workflow/LLMNode.tsx:34 | no clause without images; otherwise the image count can be read back from the clause |
| LLMNode.RequestClause | src/components/workflow/LLMNode.tsx:36 | an empty message gives the no-prompt sentence; otherwise the quote is the message's first 100 characters |
| LLMNode.SystemClause | src/components/workflow/LLMNode.tsx:38 | empty exactly when the system prompt is not truthy; otherwise it quotes its first 50 characters |
| LLMNode.Quotes | src/components/workflow/LLMNode.tsx:34-38 | the part after the inputs line is the closing colon and a blank line, then the request clause, then a blank line and the system clause, and nothing else |
| LLMNode.MockResponse | src/components/workflow/LLMNode.tsx:32-42 | the response starts with the `Analysis Complete` header, ends with the Cloud footer, and holds exactly the body between them |
| LLMNode.MockBody | src/components/workflow/LLMNode.tsx:34-38 | the body starts with the image clause, the colon, a blank line and the request clause, ends with a blank line and the system clause, and has exactly the length of those parts, so nothing else lies between (with MockBodyImages) |
| LLMNode.RunReply | src/components/workflow/LLMNode.tsx:20-42 | the response composed from the inputs read starts with the header and ends with the footer, and what lies between is exactly the mock body for the image count, the user message composed from the prompt and the combined texts, and the system prompt (with RunInputsIgnoreStart) |
| LLMNode.RunOutcome | src/components/workflow/LLMNode.tsx:15-53 | a finished run leaves `isLoading: false` and the response framed by the header and footer, or '' after a failure, and sets no other key (with RunComposes and RunResult) |
| LLMNode.MockBodyImages | src/components/workflow/LLMNode.tsx:34 | right after the header comes the image clause when there are images, and the colon otherwise |
| LLMNode.MockResponseQuotesPrefixes | src/components/workflow/LLMNode.tsx:36-38 | the response depends on the message only through its first 100 characters and on the system prompt only through its first 50 |
| LLMNode.RunComposes | src/components/workflow/LLMNode.tsx:15-53 | the start write followed by the success or failure write is one write of the run's outcome |
| LLMNode.RunInputsIgnoreStart | src/components/workflow/LLMNode.tsx:16-20 | without a self-loop, the inputs the run reads after its start write are those from before the run |
| LLMNode.RunResult | src/components/workflow/LLMNode.tsx:15-53 | after a run the node is not loading and holds the response (or '' after a failure), keeps its other fields, and every other node is untouched |
| LLMNode.LLMNodeComponent.constructor | src/components/workflow/LLMNode.tsx:13 | a component starts not loading |
| LLMNode.LLMNodeComponent.Start | src/components/workflow/LLMNode.tsx:15-26 | the component is loading, and the node gets `isLoading: true` and an empty output; after that write it reads the node's connected inputs and returns their image count, their system prompt and the user message composed from the prompt and the combined texts |
| LLMNode.LLMNodeComponent.Finish | src/components/workflow/LLMNode.tsx:30-52 | the node gets the mock response built from what `Start` returned and `isLoading: false`, or only `isLoading: false` when the run throws; the Run button is enabled again |
| LLMNode.LLMNodeComponent.HandleRun | src/components/workflow/LLMNode.tsx:15-53 | a whole run is one update of the node with the run's outcome, leaves the edges alone and re-enables Run |
| ImageUpload.ImagesPatchOnlyImages | src/components/workflow/ImageUploadNode.tsx:23-25 | an images patch replaces the images and keeps every other data field |
| ImageUpload.DroppedImages | src/components/workflow/ImageUploadNode.tsx:15-17 | the files read after a drop are exactly the dropped files with an `image/` MIME type |
| ImageUpload.Finished | src/components/workflow/ImageUploadNode.tsx:19-28 | one data URL per finished read: the k-th URL is the data URL of the k-th file to finish |
| ImageUpload.AfterLoads | src/components/workflow/ImageUploadNode.tsx:19-28 | the finished reads' writes, applied in finishing order, keep the number of nodes |
| ImageUpload.LastLoadWins | src/components/workflow/ImageUploadNode.tsx:19-28 | whatever finished before, the state equals a single write of the captured list plus the last URL to finish |
| ImageUpload.LoadsGrowByOne | src/components/workflow/ImageUploadNode.tsx:19-28 | however many reads finish, the node ends up with exactly one image more than the captured list, and its other fields unchanged |
| ImageUpload.StaleClosureLosesImages | src/components/workflow/ImageUploadNode.tsx:19-28 | with two or more finished reads the node does not end up with all of them appended |
| ImageUpload.AppendImage | src/components/workflow/ImageUploadNode.tsx:21-25 | corrected write: the URL is appended to the node's current images and nothing else changes |
| ImageUpload.AfterAppends | src/components/workflow/ImageUploadNode.tsx:19-28 | corrected writes in finishing order keep the node count and every id (with AppendsKeepAll for the images) |
| ImageUpload.AppendsKeepAll | src/components/workflow/ImageUploadNode.tsx:19-28 | corrected writes keep every loaded image after the stored ones, in finishing order, and change nothing else |
| ImageUpload.RemoveAt | src/components/workflow/ImageUploadNode.tsx:53-54 | `splice(index, 1)` drops exactly the element at the index and shifts the rest down; past the end it changes nothing |
| ImageUpload.RemoveAtReinsert | src/components/workflow/ImageUploadNode.tsx:53-54 | putting the removed element back at its index restores the list |
| ImageUpload.ImageUploadComponent.constructor | src/components/workflow/ImageUploadNode.tsx:6 | the component is bound to its node id and the store |
| ImageUpload.ImageUploadComponent.ReadFiles | src/components/workflow/ImageUploadNode.tsx:19-28 | each finished read writes the captured list plus its URL; the result is the last such write, or no change when no read finished |
| ImageUpload.ImageUploadComponent.HandleDrop | src/components/workflow/ImageUploadNode.tsx:11-31 | only dropped files with an `image/` MIME type are read, in drop order |
| ImageUpload.ImageUploadComponent.HandleFileChange | src/components/workflow/ImageUploadNode.tsx:33-49 | every picked file is read, with no type filter |
| ImageUpload.ImageUploadComponent.RemoveImage | src/components/workflow/ImageUploadNode.tsx:51-58 | the node's images become the rendered list with the image at the index removed |
| NodeSidebar.LabelFor | src/components/workflow/NodeSidebar.tsx:60 | `Text Input` exactly for `textInput`, `Image Upload` exactly for `imageUpload`, `LLM Node` for every other type |
| NodeSidebar.NewNodeId | src/components/workflow/NodeSidebar.tsx:53 | a new id starts with the type and a hyphen, and the rest is exactly the canonical decimal numeral of the timestamp |
| NodeSidebar.LastHyphen | src/components/workflow/NodeSidebar.tsx:53 | finds the last '-' of an id, or reports that there is none |
| NodeSidebar.SplitNewNodeId | src/components/workflow/NodeSidebar.tsx:53 | a new id determines its type and timestamp, even for a type that contains hyphens |
| NodeSidebar.NewPosition | src/components/workflow/NodeSidebar.tsx:54-59 | the position lies on the diagonal x - y = 100 from (300, 200), 20 units per node already in the store |
| NodeSidebar.PositionsStagger | src/components/workflow/NodeSidebar.tsx:54-59 | each further node is placed strictly further down and to the right |
| NodeSidebar.NewNode | src/components/workflow/NodeSidebar.tsx:52-61 | the new node has the given type, the id exactly `<type>-` followed by the timestamp's decimal numeral (which reads back as the type and the timestamp), the staggered position for the node count, the label for its type and no other data |
| NodeSidebar.ToggleCategory | src/components/workflow/NodeSidebar.tsx:93-98 | after the toggle the category is listed exactly when it was opened, the other categories keep their membership; opening appends exactly the category at the end, closing never lengthens the list |
| NodeSidebar.CloseAbsent | src/components/workflow/NodeSidebar.tsx:97 | closing a category that is not open leaves the list exactly as it was |
| NodeSidebar.OpenThenClose | src/components/workflow/NodeSidebar.tsx:93-98 | opening and then closing a category is the same as closing it |
| NodeSidebar.Sidebar.constructor | src/components/workflow/NodeSidebar.tsx:50 | the `Inputs` and `Logic` categories start open |
| NodeSidebar.Sidebar.HandleAddNode | src/components/workflow/NodeSidebar.tsx:52-62 | exactly one node is appended, with the new id, the type, the label for the type, and the position for the current node count |
| NodeSidebar.Sidebar.OnOpenChange | src/components/workflow/NodeSidebar.tsx:93-98 | opening appends the category; closing removes every occurrence of it |
| Generate.IndexOfSemicolon | supabase/functions/generate/index.ts:58 | the position of the first ';', or the end of the string when there is none |
| Generate.Rejected | supabase/functions/generate/index.ts:30 | a request is rejected exactly when the prompt is absent or empty and the image list is absent or empty |
| Generate.MatchDataUrl | supabase/functions/generate/index.ts:57-62 | a match yields a non-empty MIME type without ';' and a non-empty payload without line terminators that rebuild the input |
| Generate.MatchDataUrlComplete | supabase/functions/generate/index.ts:57-62 | every well-formed data URL matches, with its own MIME type and payload |
| Generate.ImagePartsRejoin | supabase/functions/generate/index.ts:54-63 | for a matching reference, the MIME type and payload the loop settles on are valid and rebuild the reference; otherwise they are `image/jpeg` and the whole reference |
| Generate.NormalizeImage | supabase/functions/generate/index.ts:53-69 | the URL sent is always a `data:` URL: the reference itself when it matches, otherwise the reference as a JPEG payload |
| Generate.NormalizeImageIdempotent | supabase/functions/generate/index.ts:53-69 | for a non-empty reference without line breaks, the URL sent matches the pattern and normalising it again changes nothing |
| Generate.SplitImage | supabase/functions/generate/index.ts:54-63 | the loop body settles on the pattern's MIME type and payload for a matching data URL, else `image/jpeg` and the whole reference, so the URL it builds is the normalised one |
| Generate.ExpectedContent | supabase/functions/generate/index.ts:42-72 | the content has one part for a truthy prompt, placed first, plus one part per image, and nothing else (with ExpectedContentImages for each image part) |
| Generate.ExpectedContentImages | supabase/functions/generate/index.ts:50-72 | after the prompt part (if any), the i-th part is the i-th image as its normalised data URL |
| Generate.ExpectedContentStep | supabase/functions/generate/index.ts:52-70 | one more image appends exactly its normalised image part |
| Generate.BuildContent | supabase/functions/generate/index.ts:42-72 | the loop builds exactly the expected content: the prompt part when the prompt is truthy, then every image in order |
| Generate.ExpectedMessages | supabase/functions/generate/index.ts:75-81 | two messages when the system instruction is truthy, the system message first, otherwise one; the last is the user message with the expected content |
| Generate.CompletionText | supabase/functions/generate/index.ts:118-119 | the reply text is never empty: the completion when it is a non-empty string, else the fallback sentence |
| Generate.FailedStatusReply | supabase/functions/generate/index.ts:97-116 | a failed gateway status 429 gives 429 with the rate-limit message, 402 gives 402 with the credits message, and exactly those; every other status gives 500 with `AI Gateway error: ` followed by exactly the status's decimal numeral, with no leading zeros |
| Generate.GatewayReply | supabase/functions/generate/index.ts:97-133 | the reply status is 200, 402, 429 or 500; it is 200 exactly when the gateway answered 2xx with a parseable body, and then carries the completion text; a failed status gets its FailedStatusReply; an unreachable gateway or an unparsable body gives 500 carrying the thrown message |
| Generate.Handle | supabase/functions/generate/index.ts:21-133 | 400 with `Prompt or images required` exactly when there is neither prompt nor image; 500 with the missing-key message for a missing key; a request is sent exactly when neither applies, carrying ExpectedMessages (the system message first when the instruction is truthy, the user message last); the reply is then GatewayReply, bodies included |

## Left out

- Rendering, styling, icons and the toast notifications are presentation only and carry no state the core reads.
- `onNodesChange`, `onEdgesChange` and `onConnect` hand the lists to reactflow's `applyNodeChanges`, `applyEdgeChanges` and `addEdge`. Their source is not part of this model.
- The edge styling that `onConnect` and the sample edges add (`defaultEdgeOptions`) is left out, and so are the extra node attributes reactflow keeps (selection, measured size). Edges keep id, source, target and handle.
- `duplicateNode` is read from the store by the text input node (TextInputNode.tsx:10, 25) and by the image node (ImageUploadNode.tsx:9, 73), but the store defines no such action, so there is nothing to model.
- The canvas (drop-to-add), the navbar (save, export, reset button), the text input node and the animated edge are outside this core. The navbar's reset calls `ResetWorkflow` and then `LoadSampleWorkflow`, both modelled.
- The 1.5 s delay in `handleRun` is the point between `Start` and `Finish`. `Start` does the loading write, reads the connected inputs and composes the user message, all before the await. `Finish` does the response write. Interleavings of other events during the delay (a second run, an edit, a deletion) are not modelled; the response is built from what `Start` read.
- `HandleRun`'s `fails` parameter stands for an exception thrown inside the `try`. Nothing in the modelled code throws, so it is an input.
- `FileReader` reads complete asynchronously. Which reads finish, and in what order, is the `order` parameter. A read that errors never calls `onload` and is simply absent from `order`.
- `Date.now()` is the `now` parameter, a non-negative integer.
- Decimal.NatToString: models `${n}` as the plain decimal numeral of an unbounded integer. A JavaScript number is a double: it loses integer precision above 2^53 and prints in exponent notation (`1e+21`) from 10^21 up. Neither limit is modelled, because the three values the core formats (`Date.now()` in NodeSidebar.tsx:53, `images.length` in LLMNode.tsx:34 and the gateway's `response.status` in supabase/functions/generate/index.ts:115) stay far below 2^53.
- Positions are integers. The source's numbers are floating point, but only small integer offsets occur.
- Strings are sequences of Unicode scalar values. JavaScript's `slice(0, 100)` counts UTF-16 code units, so for text with characters outside the Basic Multilingual Plane the prefixes can differ.
- In `generate`, several things are not modelled:
  - the Deno server, the CORS preflight (`OPTIONS`) and the response headers;
  - `req.json()` failures;
  - the environment lookup, which is the `apiKey` parameter;
  - the `fetch`, which is the `gateway` parameter;
  - the logging;
  - reading the gateway's error text, which is only logged;
  - the model name and URL.
- Generate.Handle: a request field of the wrong JSON type is not modelled. The fields are typed as optional strings and lists. The `'Unknown error'` branch for a non-`Error` throw is not modelled either.
- Generate.GatewayReply: a gateway body that parses to `null` or a non-object cannot be written as a `GatewayBody`. There, reading `data.choices` throws and the source replies 500 with the thrown message.
- Generate.CompletionText: a non-string `choices[0].message.content` (for example an array of parts) is not modelled; the content is an optional string.
- ImageUpload.ImageUploadComponent.RemoveImage: the index is required to be in range. The remove buttons are rendered one per stored image, so the UI only calls it that way. `RemoveAt` itself also covers an index past the end.

## Findings

| source | as written | input that shows it | evidently intended | confidence | as-written member | corrected member |
|---|---|---|---|---|---|---|
| src/components/workflow/ImageUploadNode.tsx:19-28 | every `onload` writes `[...(data.images \|\| []), base64]` from the list captured when the node last rendered, so each finished read overwrites the previous one | drop (or pick, the input is `multiple`) two image files onto a node with no images: after both reads finish the node holds one image, the one whose read finished last | every dropped image is appended, in the order the reads finish | not executed | ImageUpload.StaleClosureLosesImages | ImageUpload.AppendsKeepAll |
