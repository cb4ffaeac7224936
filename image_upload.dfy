/** The image-upload node's edits of its `images` list: reading picked or
    dropped files and appending them, and removing one image. Every write goes
    through `updateNodeData` with the `images` key only. */
module ImageUpload {
  import opened Seqs
  import opened Workflow

  /** A picked or dropped file: its MIME type and the data URL `readAsDataURL` yields for it. */
  datatype ImageFile = ImageFile(mimeType: string, dataUrl: string)

  /** `file.type.startsWith('image/')`. */
  predicate IsImageFile(f: ImageFile) {
    StartsWith(f.mimeType, "image/")
  }

  /** The files a drop reads: only those with an `image/` MIME type, in drop order. */
  function DroppedImages(files: seq<ImageFile>): (r: seq<ImageFile>)
    ensures |r| <= |files|
    ensures forall f :: f in r <==> f in files && IsImageFile(f)
  {
    Filter((f: ImageFile) => IsImageFile(f), files)
  }

  /** `{ images }`: a patch that writes the `images` key and nothing else. */
  function ImagesPatch(images: seq<string>): NodeData {
    NoData.(images := Some(images))
  }

  /** `data.images || []`. */
  function StoredImages(data: NodeData): seq<string> {
    data.images.GetOr([])
  }

  /** An images patch replaces the images and keeps every other data field. */
  lemma ImagesPatchOnlyImages(d: NodeData, images: seq<string>)
    ensures Merge(d, ImagesPatch(images)) == d.(images := Some(images))
  {
  }

  /** The read files that finished, in finishing order, as their data URLs. */
  function Finished(toRead: seq<ImageFile>, order: seq<nat>): (urls: seq<string>)
    requires forall k :: 0 <= k < |order| ==> order[k] < |toRead|
    ensures |urls| == |order|
    ensures forall k :: 0 <= k < |order| ==> urls[k] == toRead[order[k]].dataUrl
  {
    seq(|order|, k requires 0 <= k < |order| => toRead[order[k]].dataUrl)
  }

  /** The nodes after each finished read wrote `base + [its URL]`, in turn: every callback closes
      over the same `base`, the list as it was when the component last rendered. */
  function AfterLoads(ns: seq<Node>, id: string, base: seq<string>, urls: seq<string>): (r: seq<Node>)
    ensures |r| == |ns|
    decreases |urls|
  {
    if urls == [] then ns
    else UpdateNodes(AfterLoads(ns, id, base, urls[..|urls| - 1]), id, ImagesPatch(base + [urls[|urls| - 1]]))
  }

  /** The stale-closure effect: whatever finished before, only the last read to finish survives. */
  lemma {:induction false} LastLoadWins(ns: seq<Node>, id: string, base: seq<string>, urls: seq<string>)
    requires urls != []
    ensures AfterLoads(ns, id, base, urls) == UpdateNodes(ns, id, ImagesPatch(base + [urls[|urls| - 1]]))
    decreases |urls|
  {
    var init := urls[..|urls| - 1];
    if init != [] {
      LastLoadWins(ns, id, base, init);
      UpdateTwice(ns, id, ImagesPatch(base + [init[|init| - 1]]), ImagesPatch(base + [urls[|urls| - 1]]));
    }
  }

  /** However many files finish, a node whose stored images are the captured list ends up with that
      list plus one image, the last to finish, and every other data field as before. */
  lemma LoadsGrowByOne(ns: seq<Node>, id: string, base: seq<string>, urls: seq<string>, i: nat)
    requires urls != [] && i < |ns| && ns[i].id == id && StoredImages(ns[i].data) == base
    ensures var after := AfterLoads(ns, id, base, urls);
            |after| == |ns|
            && after[i].data.images == Some(base + [urls[|urls| - 1]])
            && |StoredImages(after[i].data)| == |StoredImages(ns[i].data)| + 1
            && after[i].data.(images := None) == ns[i].data.(images := None)
  {
    LastLoadWins(ns, id, base, urls);
  }

  /** The stale closure loses images: once two or more reads finish, the node does not end up with
      the captured list plus every loaded image. */
  lemma StaleClosureLosesImages(ns: seq<Node>, id: string, base: seq<string>, urls: seq<string>, i: nat)
    requires |urls| >= 2 && i < |ns| && ns[i].id == id && StoredImages(ns[i].data) == base
    ensures AfterLoads(ns, id, base, urls)[i].data.images != Some(base + urls)
  {
    LoadsGrowByOne(ns, id, base, urls, i);
  }

  /** One `onload` that appends to the images the store holds when it runs, rather than to the
      list captured at render time. */
  function AppendImage(ns: seq<Node>, id: string, url: string): (r: seq<Node>)
    ensures |r| == |ns|
    ensures forall i :: 0 <= i < |ns| && ns[i].id != id ==> r[i] == ns[i]
    ensures forall i :: 0 <= i < |ns| && ns[i].id == id ==>
              r[i] == ns[i].(data := ns[i].data.(images := Some(StoredImages(ns[i].data) + [url])))
  {
    Map((n: Node) => if n.id == id then n.(data := n.data.(images := Some(StoredImages(n.data) + [url]))) else n, ns)
  }

  /** The nodes after each finished read appended its URL to the current list, in turn. */
  function AfterAppends(ns: seq<Node>, id: string, urls: seq<string>): (r: seq<Node>)
    ensures |r| == |ns|
    ensures forall i :: 0 <= i < |ns| ==> r[i].id == ns[i].id
    decreases |urls|
  {
    if urls == [] then ns else AppendImage(AfterAppends(ns, id, urls[..|urls| - 1]), id, urls[|urls| - 1])
  }

  /** Appending to the current list keeps every loaded image, in finishing order, after the images
      already stored; no other field and no other node changes. */
  lemma {:induction false} AppendsKeepAll(ns: seq<Node>, id: string, urls: seq<string>)
    ensures var after := AfterAppends(ns, id, urls);
            |after| == |ns|
            && (forall i :: 0 <= i < |ns| && ns[i].id != id ==> after[i] == ns[i])
            && forall i :: 0 <= i < |ns| && ns[i].id == id ==>
                 && StoredImages(after[i].data) == StoredImages(ns[i].data) + urls
                 && after[i].(data := after[i].data.(images := None)) == ns[i].(data := ns[i].data.(images := None))
    decreases |urls|
  {
    if urls != [] {
      var init := urls[..|urls| - 1];
      AppendsKeepAll(ns, id, init);
      assert init + [urls[|urls| - 1]] == urls;
    }
  }

  /** `splice(index, 1)` for a non-negative index: drop that element, or nothing past the end. */
  function RemoveAt(s: seq<string>, index: nat): (r: seq<string>)
    ensures index < |s| ==> (|r| == |s| - 1
                             && (forall j :: 0 <= j < index ==> r[j] == s[j])
                             && (forall j :: index <= j < |r| ==> r[j] == s[j + 1]))
    ensures index >= |s| ==> r == s
  {
    if index < |s| then s[..index] + s[index + 1..] else s
  }

  /** Putting the removed element back where it was gives the original list. */
  lemma RemoveAtReinsert(s: seq<string>, index: nat)
    requires index < |s|
    ensures RemoveAt(s, index)[..index] + [s[index]] + RemoveAt(s, index)[index..] == s
  {
    var r := RemoveAt(s, index);
    assert r[..index] == s[..index];
    assert r[index..] == s[index + 1..];
    assert s == s[..index] + [s[index]] + s[index + 1..];
  }

  /** The image-upload node component: its id and the store it writes. */
  class ImageUploadComponent {
    const id: string
    const store: WorkflowStore

    constructor (id: string, store: WorkflowStore)
      ensures this.id == id && this.store == store
    {
      this.id := id;
      this.store := store;
    }

    /** The `onload` callbacks of the files in `toRead`: `order` lists the reads that finished, in
        the order they finished. `data` is the node's data as last rendered. */
    method ReadFiles(data: NodeData, toRead: seq<ImageFile>, order: seq<nat>)
      requires forall k :: 0 <= k < |order| ==> order[k] < |toRead|
      modifies store
      ensures store.edges == old(store.edges)
      ensures store.nodes == AfterLoads(old(store.nodes), id, StoredImages(data), Finished(toRead, order))
      ensures order == [] ==> store.nodes == old(store.nodes)
      ensures order != [] ==> store.nodes == UpdateNodes(old(store.nodes), id,
                                ImagesPatch(StoredImages(data) + [toRead[order[|order| - 1]].dataUrl]))
    {
      var base := StoredImages(data);
      ghost var urls := Finished(toRead, order);
      var k := 0;
      while k < |order|
        invariant 0 <= k <= |order|
        invariant store.edges == old(store.edges)
        invariant store.nodes == AfterLoads(old(store.nodes), id, base, urls[..k])
      {
        var result := toRead[order[k]].dataUrl;
        assert urls[..k + 1][..k] == urls[..k];
        store.UpdateNodeData(id, ImagesPatch(base + [result]));
        k := k + 1;
      }
      assert urls[..k] == urls;
      if order != [] {
        LastLoadWins(old(store.nodes), id, base, urls);
      }
    }

    /** `handleDrop`: read only the dropped files whose type is `image/…`. */
    method HandleDrop(data: NodeData, files: seq<ImageFile>, order: seq<nat>)
      requires forall k :: 0 <= k < |order| ==> order[k] < |DroppedImages(files)|
      modifies store
      ensures store.edges == old(store.edges)
      ensures store.nodes == AfterLoads(old(store.nodes), id, StoredImages(data), Finished(DroppedImages(files), order))
      ensures forall k :: 0 <= k < |order| ==> IsImageFile(DroppedImages(files)[order[k]])
    {
      var toRead := DroppedImages(files);
      forall k | 0 <= k < |order| ensures IsImageFile(toRead[order[k]]) {
        assert toRead[order[k]] in toRead;
      }
      ReadFiles(data, toRead, order);
    }

    /** `handleFileChange`: read every picked file, whatever its type. */
    method HandleFileChange(data: NodeData, files: seq<ImageFile>, order: seq<nat>)
      requires forall k :: 0 <= k < |order| ==> order[k] < |files|
      modifies store
      ensures store.edges == old(store.edges)
      ensures store.nodes == AfterLoads(old(store.nodes), id, StoredImages(data), Finished(files, order))
    {
      ReadFiles(data, files, order);
    }

    /** `removeImage`: copy the rendered list, splice out one element, write it back. The remove
        buttons are rendered one per stored image, so the index is in range. */
    method RemoveImage(data: NodeData, index: nat)
      requires index < |StoredImages(data)|
      modifies store
      ensures store.edges == old(store.edges)
      ensures store.nodes == UpdateNodes(old(store.nodes), id, ImagesPatch(RemoveAt(StoredImages(data), index)))
    {
      var newImages := StoredImages(data);
      newImages := RemoveAt(newImages, index);
      store.UpdateNodeData(id, ImagesPatch(newImages));
    }
  }
}
