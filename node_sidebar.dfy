/** The node palette: adding a node of a chosen type at a staggered position,
    and the list of open categories. */
module NodeSidebar {
  import opened Seqs
  import opened Decimal
  import opened Workflow

  /** The label a new node of type `kind` gets. */
  function LabelFor(kind: string): (r: string)
    ensures r == "Text Input" <==> kind == "textInput"
    ensures r == "Image Upload" <==> kind == "imageUpload"
    ensures r == "LLM Node" <==> kind != "textInput" && kind != "imageUpload"
  {
    if kind == "textInput" then "Text Input"
    else if kind == "imageUpload" then "Image Upload"
    else "LLM Node"
  }

  /** `${type}-${Date.now()}`, with the clock reading as an input. */
  function NewNodeId(kind: string, now: nat): (r: string)
    ensures StartsWith(r, kind + "-")
    ensures r[|kind| + 1..] == NatToString(now)
  {
    var r := kind + "-" + NatToString(now);
    assert r[..|kind + "-"|] == kind + "-";
    assert r[|kind| + 1..] == NatToString(now);
    r
  }

  /** The position of the last '-' in `s`, if any. */
  function LastHyphen(s: string): (r: Option<nat>)
    ensures r.Some? ==> r.value < |s| && s[r.value] == '-' && forall j :: r.value < j < |s| ==> s[j] != '-'
    ensures r.None? ==> forall j :: 0 <= j < |s| ==> s[j] != '-'
  {
    if s == [] then None
    else if s[|s| - 1] == '-' then Some(|s| - 1)
    else LastHyphen(s[..|s| - 1])
  }

  /** Reads a node id back as its type and timestamp: the type is everything before the last '-'. */
  function SplitNodeId(id: string): Option<(string, nat)> {
    match LastHyphen(id)
    case None => None
    case Some(i) =>
      var digits := id[i + 1..];
      if digits != [] && AllDigits(digits) then Some((id[..i], ParseNat(digits))) else None
  }

  /** A new node's id determines its type and timestamp, even when the type holds hyphens. */
  lemma SplitNewNodeId(kind: string, now: nat)
    ensures SplitNodeId(NewNodeId(kind, now)) == Some((kind, now))
  {
    var digits := NatToString(now);
    var id := NewNodeId(kind, now);
    assert id == kind + "-" + digits;
    assert id[|kind|] == '-';
    forall j | |kind| < j < |id| ensures id[j] != '-' {
      assert id[j] == digits[j - |kind| - 1];
    }
    assert LastHyphen(id) == Some(|kind|);
    assert id[|kind| + 1..] == digits;
    assert id[..|kind|] == kind;
    ParseNatToString(now);
  }

  /** `(300 + 20n, 200 + 20n)` for `n` nodes already in the store. */
  function NewPosition(count: nat): (p: Position)
    ensures p.x - p.y == 100 && p.x >= 300 && p.y >= 200
    ensures (p.x - 300) % 20 == 0 && (p.x - 300) / 20 == count
  {
    var offset := count * 20;
    Position(300 + offset, 200 + offset)
  }

  /** Each additional node moves the next one further down the same diagonal. */
  lemma PositionsStagger(m: nat, n: nat)
    requires m < n
    ensures NewPosition(m).x < NewPosition(n).x && NewPosition(m).y < NewPosition(n).y
  {
  }

  /** The node `handleAddNode` adds. */
  function NewNode(kind: string, now: nat, count: nat): (n: Node)
    ensures n.kind == kind && SplitNodeId(n.id) == Some((kind, now))
    ensures n.id == kind + "-" + NatToString(now)
    ensures n.position == NewPosition(count)
    ensures n.data.labelText == Some(LabelFor(kind)) && n.data.(labelText := None) == NoData
  {
    SplitNewNodeId(kind, now);
    Node(NewNodeId(kind, now), kind, NewPosition(count), NoData.(labelText := Some(LabelFor(kind))))
  }

  /** `onOpenChange(open)` for one category: append its name, or drop every occurrence of it. */
  function ToggleCategory(openCategories: seq<string>, category: string, open: bool): (r: seq<string>)
    ensures category in r <==> open
    ensures forall c :: c != category ==> (c in r <==> c in openCategories)
    ensures open ==> |r| == |openCategories| + 1 && r[..|openCategories|] == openCategories
    ensures open ==> r[|openCategories|] == category
    ensures !open ==> |r| <= |openCategories|
  {
    if open then openCategories + [category]
    else Filter((c: string) => c != category, openCategories)
  }

  /** Closing a category that is not open leaves the list exactly as it was. */
  lemma CloseAbsent(openCategories: seq<string>, category: string)
    requires category !in openCategories
    ensures ToggleCategory(openCategories, category, false) == openCategories
  {
    FilterKeepsAll((c: string) => c != category, openCategories);
  }

  /** Opening and then closing a category is the same as closing it. */
  lemma OpenThenClose(openCategories: seq<string>, category: string)
    ensures ToggleCategory(ToggleCategory(openCategories, category, true), category, false)
         == ToggleCategory(openCategories, category, false)
  {
    var p := (c: string) => c != category;
    FilterAppend(p, openCategories, [category]);
    assert Filter(p, [category]) == [];
    assert Filter(p, openCategories) + [] == Filter(p, openCategories);
  }

  /** The sidebar: the store it adds to and its open categories. */
  class Sidebar {
    const store: WorkflowStore
    var openCategories: seq<string>

    /** Both categories start open. */
    constructor (store: WorkflowStore)
      ensures this.store == store && openCategories == ["Inputs", "Logic"]
    {
      this.store := store;
      openCategories := ["Inputs", "Logic"];
    }

    /** `handleAddNode`: add exactly one node, placed by the current node count. */
    method HandleAddNode(kind: string, now: nat)
      modifies store
      ensures store.nodes == old(store.nodes) + [NewNode(kind, now, |old(store.nodes)|)]
      ensures store.edges == old(store.edges)
    {
      var id := NewNodeId(kind, now);
      var offset := |store.nodes| * 20;
      store.AddNode(Node(id, kind, Position(300 + offset, 200 + offset), NoData.(labelText := Some(LabelFor(kind)))));
    }

    /** `onOpenChange` of one category's collapsible. */
    method OnOpenChange(category: string, open: bool)
      modifies this
      ensures openCategories == ToggleCategory(old(openCategories), category, open)
    {
      if open {
        openCategories := openCategories + [category];
      } else {
        openCategories := Filter((c: string) => c != category, openCategories);
      }
    }
  }
}
