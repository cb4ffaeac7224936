/** The workflow graph store: the node and edge lists, their mutators, and the
    one-level query that collects what a node's direct predecessors feed into it. */
module Workflow {
  import opened Seqs

  datatype Position = Position(x: int, y: int)

  /** A node's payload. Every key is optional; `None` is an absent key. The
      same record serves as a `Partial<NodeData>` patch for `updateNodeData`. */
  datatype NodeData = NodeData(
    labelText: Option<string>,
    content: Option<string>,
    images: Option<seq<string>>,
    systemPrompt: Option<string>,
    userPrompt: Option<string>,
    output: Option<string>,
    isLoading: Option<bool>)

  /** The empty payload `{}`. */
  const NoData := NodeData(None, None, None, None, None, None, None)

  /** `kind` is the node's `type` string: "textInput", "imageUpload", "llmNode" or any other. */
  datatype Node = Node(id: string, kind: string, position: Position, data: NodeData)

  datatype Edge = Edge(id: string, source: string, target: string, targetHandle: Option<string>)

  /** The result of `getConnectedInputs`. */
  datatype Inputs = Inputs(texts: seq<string>, images: seq<string>, systemPrompt: Option<string>)

  const NoInputs := Inputs([], [], None)

  // ---------------------------------------------------------------- payload merge

  function Override<T>(base: Option<T>, patch: Option<T>): Option<T> {
    if patch.Some? then patch else base
  }

  /** `{ ...base, ...patch }`: keys present in `patch` win, every other key of `base` is kept. */
  function Merge(base: NodeData, patch: NodeData): (r: NodeData)
    ensures patch == NoData ==> r == base
    ensures base == NoData ==> r == patch
    ensures (patch.labelText.Some? ==> r.labelText == patch.labelText) && (patch.labelText.None? ==> r.labelText == base.labelText)
    ensures (patch.content.Some? ==> r.content == patch.content) && (patch.content.None? ==> r.content == base.content)
    ensures (patch.images.Some? ==> r.images == patch.images) && (patch.images.None? ==> r.images == base.images)
    ensures (patch.systemPrompt.Some? ==> r.systemPrompt == patch.systemPrompt)
            && (patch.systemPrompt.None? ==> r.systemPrompt == base.systemPrompt)
    ensures (patch.userPrompt.Some? ==> r.userPrompt == patch.userPrompt) && (patch.userPrompt.None? ==> r.userPrompt == base.userPrompt)
    ensures (patch.output.Some? ==> r.output == patch.output) && (patch.output.None? ==> r.output == base.output)
    ensures (patch.isLoading.Some? ==> r.isLoading == patch.isLoading) && (patch.isLoading.None? ==> r.isLoading == base.isLoading)
  {
    NodeData(
      Override(base.labelText, patch.labelText),
      Override(base.content, patch.content),
      Override(base.images, patch.images),
      Override(base.systemPrompt, patch.systemPrompt),
      Override(base.userPrompt, patch.userPrompt),
      Override(base.output, patch.output),
      Override(base.isLoading, patch.isLoading))
  }

  /** Two merges in a row are one merge with the merged patch. */
  lemma MergeTwice(d: NodeData, p: NodeData, q: NodeData)
    ensures Merge(Merge(d, p), q) == Merge(d, Merge(p, q))
  {
  }

  // ---------------------------------------------------------------- node and edge lists

  predicate HasNode(ns: seq<Node>, id: string) {
    exists i :: 0 <= i < |ns| && ns[i].id == id
  }

  predicate UniqueIds(ns: seq<Node>) {
    forall i, j :: 0 <= i < j < |ns| ==> ns[i].id != ns[j].id
  }

  /** No edge dangles: both endpoints of every edge name a node. */
  predicate WellFormed(ns: seq<Node>, es: seq<Edge>) {
    forall k :: 0 <= k < |es| ==> HasNode(ns, es[k].source) && HasNode(ns, es[k].target)
  }

  /** `nodes.find(n => n.id === id)`: the first node with that id. */
  function FindNode(ns: seq<Node>, id: string): (r: Option<Node>)
    ensures r.None? <==> !HasNode(ns, id)
    ensures r.Some? ==> exists i :: 0 <= i < |ns| && ns[i] == r.value && r.value.id == id
                                    && forall j :: 0 <= j < i ==> ns[j].id != id
  {
    if ns == [] then None
    else if ns[0].id == id then Some(ns[0])
    else
      var r := FindNode(ns[1..], id);
      assert HasNode(ns, id) ==> HasNode(ns[1..], id) by {
        if HasNode(ns, id) {
          var i :| 0 <= i < |ns| && ns[i].id == id;
          assert ns[1..][i - 1].id == id;
        }
      }
      if r.Some? then
        var i :| 0 <= i < |ns[1..]| && ns[1..][i] == r.value && r.value.id == id
                 && forall j :: 0 <= j < i ==> ns[1..][j].id != id;
        assert ns[i + 1] == r.value && forall j :: 0 <= j < i + 1 ==> ns[j].id != id;
        r
      else r
  }

  /** The node after `updateNodeData(id, patch)` touched it (or not). */
  function UpdateNode(n: Node, id: string, patch: NodeData): Node {
    if n.id == id then n.(data := Merge(n.data, patch)) else n
  }

  /** `nodes.map(node => node.id === id ? { ...node, data: { ...node.data, ...patch } } : node)`. */
  function UpdateNodes(ns: seq<Node>, id: string, patch: NodeData): (r: seq<Node>)
    ensures |r| == |ns|
    ensures forall i :: 0 <= i < |ns| ==> r[i].id == ns[i].id && r[i].kind == ns[i].kind
                                          && r[i].position == ns[i].position
    ensures forall i :: 0 <= i < |ns| && ns[i].id != id ==> r[i] == ns[i]
    ensures forall i :: 0 <= i < |ns| && ns[i].id == id ==> r[i].data == Merge(ns[i].data, patch)
  {
    Map((n: Node) => UpdateNode(n, id, patch), ns)
  }

  /** `nodes.filter(node => node.id !== id)`. */
  function NodesWithout(ns: seq<Node>, id: string): (r: seq<Node>)
    ensures |r| <= |ns|
    ensures forall n :: n in r <==> n in ns && n.id != id
  {
    Filter((n: Node) => n.id != id, ns)
  }

  /** `edges.filter(edge => edge.source !== id && edge.target !== id)`. */
  function EdgesWithout(es: seq<Edge>, id: string): (r: seq<Edge>)
    ensures |r| <= |es|
    ensures forall e :: e in r <==> e in es && e.source != id && e.target != id
  {
    Filter((e: Edge) => e.source != id && e.target != id, es)
  }

  /** `edges.filter(edge => edge.target === id)`. */
  function Incoming(es: seq<Edge>, id: string): (r: seq<Edge>)
    ensures |r| <= |es|
    ensures forall e :: e in r <==> e in es && e.target == id
  {
    Filter((e: Edge) => e.target == id, es)
  }

  // ---------------------------------------------------------------- update and delete

  /** An update with an id no node has leaves the list as it was. */
  lemma {:induction false} UpdateAbsent(ns: seq<Node>, id: string, patch: NodeData)
    requires !HasNode(ns, id)
    ensures UpdateNodes(ns, id, patch) == ns
  {
    var r := UpdateNodes(ns, id, patch);
    forall i | 0 <= i < |ns| ensures r[i] == ns[i] {
      assert ns[i].id != id;
    }
  }

  /** Two updates of the same id are one update with the merged patch. */
  lemma UpdateTwice(ns: seq<Node>, id: string, p: NodeData, q: NodeData)
    ensures UpdateNodes(UpdateNodes(ns, id, p), id, q) == UpdateNodes(ns, id, Merge(p, q))
  {
    var a := UpdateNodes(UpdateNodes(ns, id, p), id, q);
    var b := UpdateNodes(ns, id, Merge(p, q));
    forall i | 0 <= i < |ns| ensures a[i] == b[i] {
      if ns[i].id == id {
        MergeTwice(ns[i].data, p, q);
      }
    }
  }

  /** Updating payloads keeps every id in place, so it keeps ids unique and edges attached. */
  lemma UpdatePreservesShape(ns: seq<Node>, es: seq<Edge>, id: string, patch: NodeData)
    ensures UniqueIds(ns) ==> UniqueIds(UpdateNodes(ns, id, patch))
    ensures WellFormed(ns, es) ==> WellFormed(UpdateNodes(ns, id, patch), es)
  {
    var r := UpdateNodes(ns, id, patch);
    forall x | HasNode(ns, x) ensures HasNode(r, x) {
      var i :| 0 <= i < |ns| && ns[i].id == x;
      assert r[i].id == x;
    }
  }

  /** After a delete no node has the id and no edge touches it; every other node and edge survives. */
  lemma DeleteCascades(ns: seq<Node>, es: seq<Edge>, id: string)
    ensures !HasNode(NodesWithout(ns, id), id)
    ensures forall e :: e in EdgesWithout(es, id) ==> e.source != id && e.target != id
    ensures forall n :: n in ns && n.id != id ==> n in NodesWithout(ns, id)
    ensures forall e :: e in es && e.source != id && e.target != id ==> e in EdgesWithout(es, id)
  {
    var r := NodesWithout(ns, id);
    forall i | 0 <= i < |r| ensures r[i].id != id {
      assert r[i] in r;
    }
  }

  /** Deleting a node (with its edges) never leaves a dangling edge and keeps ids unique. */
  lemma DeletePreservesShape(ns: seq<Node>, es: seq<Edge>, id: string)
    ensures WellFormed(ns, es) ==> WellFormed(NodesWithout(ns, id), EdgesWithout(es, id))
    ensures UniqueIds(ns) ==> UniqueIds(NodesWithout(ns, id))
  {
    var nr := NodesWithout(ns, id);
    var er := EdgesWithout(es, id);
    forall x | HasNode(ns, x) && x != id ensures HasNode(nr, x) {
      var i :| 0 <= i < |ns| && ns[i].id == x;
      assert ns[i] in nr;
      var j :| 0 <= j < |nr| && nr[j] == ns[i];
    }
    if WellFormed(ns, es) {
      forall k | 0 <= k < |er| ensures HasNode(nr, er[k].source) && HasNode(nr, er[k].target) {
        assert er[k] in er;
        var m :| 0 <= m < |es| && es[m] == er[k];
      }
    }
    if UniqueIds(ns) {
      UniqueFilter(ns, (n: Node) => n.id != id);
    }
  }

  /** Filtering a node list keeps its ids unique. */
  lemma {:induction false} UniqueFilter(ns: seq<Node>, p: Node -> bool)
    requires UniqueIds(ns)
    ensures UniqueIds(Filter(p, ns))
  {
    if ns != [] {
      UniqueFilter(ns[1..], p);
      var rest := Filter(p, ns[1..]);
      forall n | n in rest ensures n.id != ns[0].id {
        var j :| 0 <= j < |ns[1..]| && ns[1..][j] == n;
        assert ns[j + 1] == n;
      }
      if p(ns[0]) {
        var r := [ns[0]] + rest;
        forall i, j | 0 <= i < j < |r| ensures r[i].id != r[j].id {
          if i == 0 {
            assert r[j] in rest;
          } else {
            assert r[i] == rest[i - 1] && r[j] == rest[j - 1];
          }
        }
      }
    }
  }

  /** Appending a node keeps edges attached, and keeps ids unique exactly when its id is new. */
  lemma AddPreservesShape(ns: seq<Node>, es: seq<Edge>, n: Node)
    ensures WellFormed(ns, es) ==> WellFormed(ns + [n], es)
    ensures UniqueIds(ns) ==> (UniqueIds(ns + [n]) <==> !HasNode(ns, n.id))
  {
    var r := ns + [n];
    forall x | HasNode(ns, x) ensures HasNode(r, x) {
      var i :| 0 <= i < |ns| && ns[i].id == x;
      assert r[i].id == x;
    }
    if UniqueIds(ns) && HasNode(ns, n.id) {
      var i :| 0 <= i < |ns| && ns[i].id == n.id;
      assert r[i].id == r[|ns|].id;
    }
  }

  // ---------------------------------------------------------------- connected inputs

  /** A `textInput` source wired to the `system_prompt` handle. */
  predicate IsSystemPromptEdge(ns: seq<Node>, e: Edge) {
    var src := FindNode(ns, e.source);
    src.Some? && src.value.kind == "textInput" && e.targetHandle == Some("system_prompt")
  }

  /** What one incoming edge adds, by the kind of its source node and the edge's handle. */
  function Absorb(acc: Inputs, ns: seq<Node>, e: Edge): (r: Inputs)
    ensures !HasNode(ns, e.source) ==> r == acc
    ensures |acc.texts| <= |r.texts| <= |acc.texts| + 1 && r.texts[..|acc.texts|] == acc.texts
    ensures |acc.images| <= |r.images| && r.images[..|acc.images|] == acc.images
    ensures r.systemPrompt != acc.systemPrompt ==> IsSystemPromptEdge(ns, e)
    ensures IsSystemPromptEdge(ns, e) ==> r.texts == acc.texts && r.images == acc.images
  {
    match FindNode(ns, e.source)
    case None => acc
    case Some(src) =>
      if src.kind == "textInput" then
        if e.targetHandle == Some("system_prompt") then acc.(systemPrompt := Some(src.data.content.GetOr("")))
        else acc.(texts := acc.texts + [src.data.content.GetOr("")])
      else if src.kind == "imageUpload" then acc.(images := acc.images + src.data.images.GetOr([]))
      else if src.kind == "llmNode" then acc.(texts := acc.texts + [src.data.output.GetOr("")])
      else acc
  }

  /** The `forEach` over the incoming edges, in edge order. */
  function Gather(ns: seq<Node>, es: seq<Edge>): (r: Inputs)
    ensures |r.texts| <= |es|
    decreases |es|
  {
    if es == [] then NoInputs else Absorb(Gather(ns, es[..|es| - 1]), ns, es[|es| - 1])
  }

  /** `getConnectedInputs(id)` on the state (`ns`, `es`). */
  function ConnectedInputs(ns: seq<Node>, es: seq<Edge>, id: string): (r: Inputs)
    ensures |r.texts| <= |Incoming(es, id)| <= |es|
  {
    Gather(ns, Incoming(es, id))
  }

  /** Collecting one more edge of a list absorbs that edge. */
  lemma GatherStep(ns: seq<Node>, es: seq<Edge>, i: nat)
    requires i < |es|
    ensures Gather(ns, es[..i + 1]) == Absorb(Gather(ns, es[..i]), ns, es[i])
  {
    assert es[..i + 1][..i] == es[..i];
  }

  /** Results of two consecutive runs of edges combine: lists concatenate, the later system prompt wins. */
  function Combine(a: Inputs, b: Inputs): Inputs {
    Inputs(a.texts + b.texts, a.images + b.images, Override(a.systemPrompt, b.systemPrompt))
  }

  /** Absorbing an edge after a combined result only touches the later half. */
  lemma AbsorbCombine(x: Inputs, y: Inputs, ns: seq<Node>, e: Edge)
    ensures Absorb(Combine(x, y), ns, e) == Combine(x, Absorb(y, ns, e))
  {
    match FindNode(ns, e.source)
    case None =>
    case Some(src) =>
      assert x.texts + (y.texts + [src.data.content.GetOr("")]) == (x.texts + y.texts) + [src.data.content.GetOr("")];
      assert x.texts + (y.texts + [src.data.output.GetOr("")]) == (x.texts + y.texts) + [src.data.output.GetOr("")];
      assert x.images + (y.images + src.data.images.GetOr([])) == (x.images + y.images) + src.data.images.GetOr([]);
  }

  /** Collecting over `a + b` is collecting over `a`, then over `b`. */
  lemma {:induction false} GatherAppend(ns: seq<Node>, a: seq<Edge>, b: seq<Edge>)
    ensures Gather(ns, a + b) == Combine(Gather(ns, a), Gather(ns, b))
    decreases |b|
  {
    if b == [] {
      assert a + b == a;
    } else {
      var b' := b[..|b| - 1];
      assert (a + b)[..|a + b| - 1] == a + b';
      assert (a + b)[|a + b| - 1] == b[|b| - 1];
      GatherAppend(ns, a, b');
      AbsorbCombine(Gather(ns, a), Gather(ns, b'), ns, b[|b| - 1]);
    }
  }

  /** Each edge adds at most one text, so there are never more texts than incoming edges;
      an edge whose source is not in the store adds nothing. */
  lemma {:induction false} GatherBounds(ns: seq<Node>, es: seq<Edge>)
    ensures |Gather(ns, es).texts| <= |es|
    ensures forall k :: 0 <= k < |es| ==> (!HasNode(ns, es[k].source) ==>
              Gather(ns, es[..k + 1]) == Gather(ns, es[..k]))
    decreases |es|
  {
    if es != [] {
      GatherBounds(ns, es[..|es| - 1]);
      forall k | 0 <= k < |es| ensures !HasNode(ns, es[k].source) ==> Gather(ns, es[..k + 1]) == Gather(ns, es[..k]) {
        assert es[..k + 1][..k] == es[..k];
      }
    }
  }

  /** One edge sets the system prompt exactly when it is a system-prompt edge, and leaves it alone otherwise. */
  lemma AbsorbSystemPrompt(acc: Inputs, ns: seq<Node>, e: Edge)
    ensures Absorb(acc, ns, e).systemPrompt ==
      if IsSystemPromptEdge(ns, e) then Some(FindNode(ns, e.source).value.data.content.GetOr(""))
      else acc.systemPrompt
  {
  }

  /** What one edge from an existing source adds, by the source's kind: a text node adds its content
      (missing reads as "") as one text, or sets the system prompt on the `system_prompt` handle; an
      image node adds all its images in stored order; an LLM node adds its output (missing reads as "")
      as one text; any other kind adds nothing. Empty strings are kept. */
  lemma AbsorbContribution(acc: Inputs, ns: seq<Node>, e: Edge, src: Node)
    requires FindNode(ns, e.source) == Some(src)
    ensures src.kind == "textInput" && e.targetHandle != Some("system_prompt") ==>
              Absorb(acc, ns, e) == acc.(texts := acc.texts + [src.data.content.GetOr("")])
    ensures src.kind == "textInput" && e.targetHandle == Some("system_prompt") ==>
              Absorb(acc, ns, e) == acc.(systemPrompt := Some(src.data.content.GetOr("")))
    ensures src.kind == "imageUpload" ==> Absorb(acc, ns, e) == acc.(images := acc.images + src.data.images.GetOr([]))
    ensures src.kind == "llmNode" ==> Absorb(acc, ns, e) == acc.(texts := acc.texts + [src.data.output.GetOr("")])
    ensures src.kind != "textInput" && src.kind != "imageUpload" && src.kind != "llmNode" ==> Absorb(acc, ns, e) == acc
  {
  }

  /** An edge that adds a text: from an existing text node off the system-prompt handle, or from an LLM node. */
  predicate AddsText(ns: seq<Node>, e: Edge) {
    var src := FindNode(ns, e.source);
    src.Some? && ((src.value.kind == "textInput" && e.targetHandle != Some("system_prompt")) || src.value.kind == "llmNode")
  }

  /** The text such an edge adds: the source's content for a text node, its output otherwise. */
  function TextOf(ns: seq<Node>, e: Edge): string {
    match FindNode(ns, e.source)
    case None => ""
    case Some(src) => if src.kind == "textInput" then src.data.content.GetOr("") else src.data.output.GetOr("")
  }

  /** One edge's texts, in the closed form: its text when it adds one, nothing otherwise. */
  lemma AbsorbTexts(acc: Inputs, ns: seq<Node>, e: Edge)
    ensures Absorb(acc, ns, e).texts
         == acc.texts + Map((e: Edge) => TextOf(ns, e), Filter((e: Edge) => AddsText(ns, e), [e]))
  {
    var p := (e: Edge) => AddsText(ns, e);
    assert [e][1..] == [];
    if AddsText(ns, e) {
      AbsorbContribution(acc, ns, e, FindNode(ns, e.source).value);
      assert Filter(p, [e]) == [e];
    } else {
      assert Filter(p, [e]) == [];
      if FindNode(ns, e.source).Some? {
        AbsorbContribution(acc, ns, e, FindNode(ns, e.source).value);
      }
    }
  }

  /** Closed form of the collected texts: the text of every text-adding edge, in edge order. */
  lemma {:induction false} GatherTexts(ns: seq<Node>, es: seq<Edge>)
    ensures Gather(ns, es).texts == Map((e: Edge) => TextOf(ns, e), Filter((e: Edge) => AddsText(ns, e), es))
    decreases |es|
  {
    if es != [] {
      var p := (e: Edge) => AddsText(ns, e);
      var f := (e: Edge) => TextOf(ns, e);
      var init, last := es[..|es| - 1], es[|es| - 1];
      GatherTexts(ns, init);
      assert es == init + [last];
      FilterAppend(p, init, [last]);
      MapAppend(f, Filter(p, init), Filter(p, [last]));
      AbsorbTexts(Gather(ns, init), ns, last);
    }
  }

  /** The texts a node reads: the text of every text-adding edge into it, in edge order. */
  lemma ConnectedInputsTexts(ns: seq<Node>, es: seq<Edge>, id: string)
    ensures ConnectedInputs(ns, es, id).texts
         == Map((e: Edge) => TextOf(ns, e), Filter((e: Edge) => AddsText(ns, e), Incoming(es, id)))
  {
    GatherTexts(ns, Incoming(es, id));
  }

  /** The system prompt is absent exactly when no incoming edge is a system-prompt edge. */
  lemma {:induction false} GatherNoSystemPrompt(ns: seq<Node>, es: seq<Edge>)
    ensures Gather(ns, es).systemPrompt.None? <==> forall k :: 0 <= k < |es| ==> !IsSystemPromptEdge(ns, es[k])
    decreases |es|
  {
    if es != [] {
      var init := es[..|es| - 1];
      var last := es[|es| - 1];
      GatherNoSystemPrompt(ns, init);
      AbsorbSystemPrompt(Gather(ns, init), ns, last);
      assert forall k :: 0 <= k < |init| ==> init[k] == es[k];
      if IsSystemPromptEdge(ns, last) {
        assert Gather(ns, es).systemPrompt.Some?;
      } else if Gather(ns, init).systemPrompt.Some? {
        var k :| 0 <= k < |init| && IsSystemPromptEdge(ns, init[k]);
        assert IsSystemPromptEdge(ns, es[k]);
      }
    }
  }

  /** Last writer wins: the system prompt is the content of the source of the LAST system-prompt
      edge (missing content reads as ""), never a concatenation. */
  lemma {:induction false} GatherLastSystemPrompt(ns: seq<Node>, es: seq<Edge>, k: nat)
    requires k < |es| && IsSystemPromptEdge(ns, es[k])
    requires forall m :: k < m < |es| ==> !IsSystemPromptEdge(ns, es[m])
    ensures Gather(ns, es).systemPrompt == Some(FindNode(ns, es[k].source).value.data.content.GetOr(""))
    decreases |es|
  {
    var init := es[..|es| - 1];
    var last := es[|es| - 1];
    AbsorbSystemPrompt(Gather(ns, init), ns, last);
    if k < |es| - 1 {
      assert init[k] == es[k];
      assert forall m :: k < m < |init| ==> init[m] == es[m];
      GatherLastSystemPrompt(ns, init, k);
      assert !IsSystemPromptEdge(ns, last);
    }
  }

  /** Only edges into the queried node matter, and they are taken in edge-list order. */
  lemma ConnectedInputsAddEdge(ns: seq<Node>, es: seq<Edge>, e: Edge, id: string)
    ensures e.target != id ==> ConnectedInputs(ns, es + [e], id) == ConnectedInputs(ns, es, id)
    ensures e.target == id ==> ConnectedInputs(ns, es + [e], id) == Absorb(ConnectedInputs(ns, es, id), ns, e)
  {
    FilterAppend((x: Edge) => x.target == id, es, [e]);
    var inc := Incoming(es, id);
    if e.target != id {
      assert Incoming(es + [e], id) == inc + [];
      assert inc + [] == inc;
    } else {
      assert Incoming(es + [e], id) == inc + [e];
      assert (inc + [e])[..|inc|] == inc;
    }
  }

  /** A node with no incoming edges has no inputs. */
  lemma {:induction false} NoIncomingNoInputs(ns: seq<Node>, es: seq<Edge>, id: string)
    requires forall k :: 0 <= k < |es| ==> es[k].target != id
    ensures ConnectedInputs(ns, es, id) == NoInputs
  {
    FilterDropsAll((e: Edge) => e.target == id, es);
  }

  /** Updating one id's payload does not change what a lookup of another id finds. */
  lemma {:induction false} FindNodeAfterUpdate(ns: seq<Node>, id: string, patch: NodeData, x: string)
    requires x != id
    ensures FindNode(UpdateNodes(ns, id, patch), x) == FindNode(ns, x)
  {
    if ns != [] {
      var r := UpdateNodes(ns, id, patch);
      assert r[1..] == UpdateNodes(ns[1..], id, patch);
      FindNodeAfterUpdate(ns[1..], id, patch, x);
    }
  }

  /** What an edge contributes depends on the node list only through the lookup of its source. */
  lemma AbsorbSameSource(acc: Inputs, ns: seq<Node>, ns': seq<Node>, e: Edge)
    requires FindNode(ns, e.source) == FindNode(ns', e.source)
    ensures Absorb(acc, ns, e) == Absorb(acc, ns', e)
  {
  }

  /** Updating the payload of a node that sources none of the edges does not change what they collect. */
  lemma {:induction false} GatherAfterUpdate(ns: seq<Node>, es: seq<Edge>, id: string, patch: NodeData)
    requires forall k :: 0 <= k < |es| ==> es[k].source != id
    ensures Gather(UpdateNodes(ns, id, patch), es) == Gather(ns, es)
    decreases |es|
  {
    if es != [] {
      var init, last := es[..|es| - 1], es[|es| - 1];
      var ns' := UpdateNodes(ns, id, patch);
      GatherAfterUpdate(ns, init, id, patch);
      FindNodeAfterUpdate(ns, id, patch, last.source);
      AbsorbSameSource(Gather(ns, init), ns', ns, last);
    }
  }

  /** A node's own payload matters to its inputs only through a self-loop. */
  lemma ConnectedInputsAfterOwnUpdate(ns: seq<Node>, es: seq<Edge>, id: string, patch: NodeData)
    requires forall k :: 0 <= k < |es| ==> !(es[k].source == id && es[k].target == id)
    ensures ConnectedInputs(UpdateNodes(ns, id, patch), es, id) == ConnectedInputs(ns, es, id)
  {
    var inc := Incoming(es, id);
    forall k | 0 <= k < |inc| ensures inc[k].source != id {
      assert inc[k] in inc;
    }
    GatherAfterUpdate(ns, inc, id, patch);
  }

  /** With distinct ids, looking up a node's own id finds that node. */
  lemma FindUnique(ns: seq<Node>, i: nat)
    requires UniqueIds(ns) && i < |ns|
    ensures FindNode(ns, ns[i].id) == Some(ns[i])
  {
    var r := FindNode(ns, ns[i].id);
    assert HasNode(ns, ns[i].id);
    var j :| 0 <= j < |ns| && ns[j] == r.value && r.value.id == ns[i].id
             && forall k :: 0 <= k < j ==> ns[k].id != ns[i].id;
  }

  /** The edges into a node, split at any point of the edge list. */
  lemma IncomingAppend(a: seq<Edge>, b: seq<Edge>, id: string)
    ensures Incoming(a + b, id) == Incoming(a, id) + Incoming(b, id)
  {
    FilterAppend((e: Edge) => e.target == id, a, b);
  }

  // ---------------------------------------------------------------- sample workflow

  const AnalystPrompt := "You are a professional product analyst. Analyze images and provide detailed product descriptions."
  const ProductSpecs := "Product: Premium Wireless Headphones\nBrand: AudioMax Pro\nFeatures: Active Noise Cancellation, 40hr battery"
  const AnalyzeRequest := "Analyze the product images and specs, then create a comprehensive product analysis."
  const AmazonRequest := "Based on the analysis, write a compelling Amazon product listing with bullet points."
  const InstagramRequest := "Based on the analysis, write an engaging Instagram caption with relevant hashtags."
  const SeoRequest := "Based on the analysis, write an SEO-optimized meta description under 160 characters."

  function SampleNodes(): seq<Node> {
    [ Node("image-1", "imageUpload", Position(50, 50), NoData.(labelText := Some("Product Photo 1"))),
      Node("image-2", "imageUpload", Position(50, 220), NoData.(labelText := Some("Product Photo 2"))),
      Node("text-system", "textInput", Position(50, 390),
           NoData.(labelText := Some("System Prompt"), content := Some(AnalystPrompt))),
      Node("text-specs", "textInput", Position(50, 560),
           NoData.(labelText := Some("Product Specs"), content := Some(ProductSpecs))),
      Node("llm-analyze", "llmNode", Position(400, 200),
           NoData.(labelText := Some("Analyze Product"), systemPrompt := Some(""), userPrompt := Some(AnalyzeRequest))),
      Node("llm-amazon", "llmNode", Position(750, 50),
           NoData.(labelText := Some("Amazon Listing"), userPrompt := Some(AmazonRequest))),
      Node("llm-instagram", "llmNode", Position(750, 250),
           NoData.(labelText := Some("Instagram Caption"), userPrompt := Some(InstagramRequest))),
      Node("llm-seo", "llmNode", Position(750, 450),
           NoData.(labelText := Some("SEO Description"), userPrompt := Some(SeoRequest)))
    ]
  }

  function SampleEdges(): seq<Edge> {
    [ Edge("e1", "image-1", "llm-analyze", Some("images")),
      Edge("e2", "image-2", "llm-analyze", Some("images")),
      Edge("e3", "text-system", "llm-analyze", Some("system_prompt")),
      Edge("e4", "text-specs", "llm-analyze", Some("user_message")),
      Edge("e5", "llm-analyze", "llm-amazon", Some("user_message")),
      Edge("e6", "llm-analyze", "llm-instagram", Some("user_message")),
      Edge("e7", "llm-analyze", "llm-seo", Some("user_message"))
    ]
  }

  /** Characters 5 and 6 of each sample node's id. */
  const SampleIdTags := [['-', '1'], ['-', '2'], ['s', 'y'], ['s', 'p'], ['n', 'a'], ['m', 'a'], ['n', 's'], ['e', 'o']]

  /** Each sample id carries its tag; `ns` is the sample node list. */
  lemma SampleIdsTagged(ns: seq<Node>)
    requires ns == SampleNodes()
    ensures |ns| == 8 && forall i :: 0 <= i < 8 ==> |ns[i].id| > 6 && [ns[i].id[5], ns[i].id[6]] == SampleIdTags[i]
  {
    forall i | 0 <= i < 8 ensures |ns[i].id| > 6 && [ns[i].id[5], ns[i].id[6]] == SampleIdTags[i] {
    }
  }

  /** The sample graph's node ids are distinct: their tags already differ. */
  lemma SampleUniqueIds()
    ensures |SampleNodes()| == 8 && UniqueIds(SampleNodes())
  {
    var ns := SampleNodes();
    SampleIdsTagged(ns);
    forall i, j | 0 <= i < j < 8 ensures ns[i].id != ns[j].id {
      assert SampleIdTags[i] != SampleIdTags[j];
    }
  }

  /** Every sample edge joins two sample nodes. */
  lemma SampleWellFormed()
    ensures |SampleEdges()| == 7 && WellFormed(SampleNodes(), SampleEdges())
  {
    var ns := SampleNodes();
    var es := SampleEdges();
    var from := [0, 1, 2, 3, 4, 4, 4];
    var to := [4, 4, 4, 4, 5, 6, 7];
    forall k | 0 <= k < 7 ensures HasNode(ns, es[k].source) && HasNode(ns, es[k].target) {
      assert es[k].source == ns[from[k]].id && es[k].target == ns[to[k]].id;
    }
  }

  // ---------------------------------------------------------------- the store

  class WorkflowStore {
    var nodes: seq<Node>
    var edges: seq<Edge>

    constructor ()
      ensures nodes == [] && edges == []
    {
      nodes := [];
      edges := [];
    }

    /** `addNode`: append, without checking the id. */
    method AddNode(node: Node)
      modifies this
      ensures nodes == old(nodes) + [node]
      ensures |nodes| == |old(nodes)| + 1 && nodes[..|old(nodes)|] == old(nodes)
      ensures edges == old(edges)
    {
      nodes := nodes + [node];
      assert nodes[..|old(nodes)|] == old(nodes);
    }

    /** `updateNodeData`: shallow-merge `patch` into every node with that id. */
    method UpdateNodeData(id: string, patch: NodeData)
      modifies this
      ensures nodes == UpdateNodes(old(nodes), id, patch)
      ensures !HasNode(old(nodes), id) ==> nodes == old(nodes)
      ensures edges == old(edges)
    {
      if !HasNode(nodes, id) {
        UpdateAbsent(nodes, id, patch);
      }
      nodes := UpdateNodes(nodes, id, patch);
    }

    /** `deleteNode`: drop the node and cascade to every edge touching it. */
    method DeleteNode(id: string)
      modifies this
      ensures nodes == NodesWithout(old(nodes), id) && edges == EdgesWithout(old(edges), id)
      ensures !HasNode(nodes, id)
      ensures forall e :: e in edges ==> e.source != id && e.target != id
    {
      DeleteCascades(nodes, edges, id);
      nodes, edges := NodesWithout(nodes, id), EdgesWithout(edges, id);
    }

    /** `getConnectedInputs`: one pass over the incoming edges, reading only direct predecessors. */
    method GetConnectedInputs(id: string) returns (texts: seq<string>, images: seq<string>, systemPrompt: Option<string>)
      ensures Inputs(texts, images, systemPrompt) == ConnectedInputs(nodes, edges, id)
      ensures |texts| <= |Incoming(edges, id)|
    {
      var incoming := Incoming(edges, id);
      texts, images, systemPrompt := [], [], None;
      var i := 0;
      while i < |incoming|
        invariant 0 <= i <= |incoming|
        invariant Inputs(texts, images, systemPrompt) == Gather(nodes, incoming[..i])
      {
        var edge := incoming[i];
        GatherStep(nodes, incoming, i);
        var sourceNode := FindNode(nodes, edge.source);
        if sourceNode.Some? {
          var src := sourceNode.value;
          if src.kind == "textInput" {
            if edge.targetHandle == Some("system_prompt") {
              systemPrompt := Some(src.data.content.GetOr(""));
            } else {
              texts := texts + [src.data.content.GetOr("")];
            }
          } else if src.kind == "imageUpload" {
            images := images + src.data.images.GetOr([]);
          } else if src.kind == "llmNode" {
            texts := texts + [src.data.output.GetOr("")];
          }
        }
        i := i + 1;
      }
      assert incoming[..i] == incoming;
    }

    /** `resetWorkflow`: empty both lists. */
    method ResetWorkflow()
      modifies this
      ensures nodes == [] && edges == []
    {
      nodes, edges := [], [];
    }

    /** `loadSampleWorkflow`: replace both lists with the sample graph. */
    method LoadSampleWorkflow()
      modifies this
      ensures nodes == SampleNodes() && edges == SampleEdges()
      ensures |nodes| == 8 && |edges| == 7 && UniqueIds(nodes) && WellFormed(nodes, edges)
    {
      SampleUniqueIds();
      SampleWellFormed();
      nodes, edges := SampleNodes(), SampleEdges();
    }
  }
}
