/** The artifacts viewer (src/components/artifacts-viewer.tsx): a directory
    navigator over the catalogue, one level at a time, with a history of the
    levels it came from, a selected file, and a page cursor for the open
    document.

    The navigation levels are immutable values linked through `previous`
    (each `setNode` call installs a freshly built level), so they are a
    datatype; the component's four pieces of state are the fields of a class
    whose methods are its event handlers. */
module Viewer {
  import opened Wrappers
  import opened Types

  // ---------------------------------------------------------------------------
  // The stack of levels

  /** The level entered from `n` by opening a folder whose entries are `files`. */
  function Pushed(n: ArtifactsNode, files: seq<TreeContent>): (r: ArtifactsNode)
    ensures r.artifacts == files
    ensures Popped(r) == n
    ensures Depth(r) == Depth(n) + 1
    ensures Root(r) == Root(n)
  {
    ArtifactsNode(files, Some(n))
  }

  /** The level Back leads to: `previous` when there is one, `n` itself otherwise. */
  function Popped(n: ArtifactsNode): (r: ArtifactsNode)
    ensures n.previous.None? ==> r == n
    ensures n.previous.Some? ==> Depth(r) == Depth(n) - 1
    ensures Root(r) == Root(n)
  {
    match n.previous
    case Some(p) => p
    case None => n
  }

  /** The number of levels below `n`, that is, of folders opened since the root. */
  function Depth(n: ArtifactsNode): nat {
    match n.previous
    case None => 0
    case Some(p) => 1 + Depth(p)
  }

  /** The entries of the bottom level, the one the viewer started from. */
  function Root(n: ArtifactsNode): seq<TreeContent> {
    match n.previous
    case None => n.artifacts
    case Some(p) => Root(p)
  }

  /** The level reached from `n` by opening, in order, folders whose entries
      are `levels[0]`, `levels[1]`, ... */
  function DescendAll(n: ArtifactsNode, levels: seq<seq<TreeContent>>): ArtifactsNode {
    if levels == [] then n
    else Pushed(DescendAll(n, levels[..|levels| - 1]), levels[|levels| - 1])
  }

  /** The level reached from `n` by pressing Back `k` times. */
  function BackN(n: ArtifactsNode, k: nat): ArtifactsNode {
    if k == 0 then n else BackN(Popped(n), k - 1)
  }

  /** Stack discipline: opening any number of folders and then pressing Back
      as many times returns to the starting level. */
  lemma {:induction false} DescendThenBack(n: ArtifactsNode, levels: seq<seq<TreeContent>>)
    ensures Depth(DescendAll(n, levels)) == Depth(n) + |levels|
    ensures Root(DescendAll(n, levels)) == Root(n)
    ensures BackN(DescendAll(n, levels), |levels|) == n
  {
    if levels != [] {
      var init := levels[..|levels| - 1];
      DescendThenBack(n, init);
    }
  }

  /** Pressing Back at least as often as there are levels below ends at the
      bottom level, which has no previous level. */
  lemma {:induction false} BackToRoot(n: ArtifactsNode, k: nat)
    requires Depth(n) <= k
    ensures BackN(n, k) == ArtifactsNode(Root(n), None)
  {
    if k > 0 {
      BackToRoot(Popped(n), k - 1);
    }
  }

  function Max(a: int, b: int): int {
    if a < b then b else a
  }

  // ---------------------------------------------------------------------------
  // The component

  class ArtifactsViewer {
    /** The catalogue the component was given. */
    const artifacts: seq<TreeContent>
    /** The level on show, linked to the levels it was reached from. */
    var node: ArtifactsNode
    /** The selected file, handed to the document renderer. */
    var file: Option<TreeContent>
    /** The page count of the last document the renderer loaded. */
    var numPages: nat
    /** The page on show. */
    var page: int

    /** The bottom of the history is the catalogue itself, and the page
        cursor stays within the document (page 1 when there is none). */
    ghost predicate Valid()
      reads this
    {
      && Root(node) == artifacts
      && 1 <= page <= Max(1, numPages)
    }

    constructor (artifacts: seq<TreeContent>)
      ensures Valid()
      ensures this.artifacts == artifacts
      ensures node == ArtifactsNode(artifacts, None) && Depth(node) == 0
      ensures file == None && numPages == 0 && page == 1
    {
      this.artifacts := artifacts;
      node := ArtifactsNode(artifacts, None);
      file := None;
      numPages := 0;
      page := 1;
    }

    /** The Back button is disabled exactly when there is no previous level. */
    predicate BackDisabled()
      reads this
      ensures BackDisabled() <==> Depth(node) == 0
    {
      node.previous.None?
    }

    /** The Previous Page button is disabled on the first page. */
    predicate PreviousPageDisabled()
      reads this
      ensures Valid() ==> (PreviousPageDisabled() <==> page - 1 < 1)
    {
      page == 1
    }

    /** The Next Page button is disabled with no pages or on the last page. */
    predicate NextPageDisabled()
      reads this
      ensures Valid() ==> (NextPageDisabled() <==> page + 1 > Max(1, numPages))
    {
      numPages == 0 || page == numPages
    }

    /** `handleTraverseForward`: an entry with `files` (even none) is opened as
        a new level; any other entry becomes the selected file. */
    method TraverseForward(artifact: TreeContent)
      requires Valid()
      modifies this
      ensures Valid()
      ensures artifact.files.Present? ==>
                node == Pushed(old(node), artifact.files.nodes) && file == old(file)
      ensures artifact.files.Absent? ==> node == old(node) && file == Some(artifact)
      ensures Depth(node) == if artifact.files.Present? then old(Depth(node)) + 1 else old(Depth(node))
      ensures numPages == old(numPages) && page == old(page)
    {
      match artifact.files
      case Present(files) =>
        node := Pushed(node, files);
      case Absent =>
        file := Some(artifact);
    }

    /** `handleTraverseBackward`: the previous level, when there is one, is
        restored; otherwise nothing happens. */
    method TraverseBackward()
      requires Valid()
      modifies this
      ensures Valid()
      ensures node == Popped(old(node))
      ensures old(BackDisabled()) ==> node == old(node)
      ensures !old(BackDisabled()) ==> node == old(node).previous.value && Depth(node) == old(Depth(node)) - 1
      ensures file == old(file) && numPages == old(numPages) && page == old(page)
    {
      if node.previous.Some? {
        node := node.previous.value;
      }
    }

    /** `onDocumentLoadSuccess`: the renderer reports the page count of the
        document it loaded, and the cursor returns to the first page. */
    method OnDocumentLoadSuccess(pages: nat)
      requires Valid()
      modifies this
      ensures Valid()
      ensures numPages == pages && page == 1
      ensures node == old(node) && file == old(file)
    {
      numPages := pages;
      page := 1;
    }

    /** A press on Previous Page; a disabled button does not react. */
    method PreviousPage()
      requires Valid()
      modifies this
      ensures Valid()
      ensures page == if old(PreviousPageDisabled()) then old(page) else old(page) - 1
      ensures node == old(node) && file == old(file) && numPages == old(numPages)
    {
      if !PreviousPageDisabled() {
        page := page - 1;
      }
    }

    /** A press on Next Page; a disabled button does not react. */
    method NextPage()
      requires Valid()
      modifies this
      ensures Valid()
      ensures page == if old(NextPageDisabled()) then old(page) else old(page) + 1
      ensures node == old(node) && file == old(file) && numPages == old(numPages)
    {
      if !NextPageDisabled() {
        page := page + 1;
      }
    }
  }

  /** A browsing session over a catalogue with folders A (holding x.pdf) and
      B (empty) and a file doc.pdf: opening A, choosing x.pdf and going back
      shows the catalogue again, with x.pdf still selected. */
  method BrowseSession()
  {
    var x := TreeContent(File, "x.pdf", "/artifacts/A/x.pdf", Absent);
    var a := TreeContent(Folder, "A", "/artifacts", Present([x]));
    var b := TreeContent(Folder, "B", "/artifacts", Present([]));
    var doc := TreeContent(File, "doc.pdf", "/artifacts/doc.pdf", Absent);
    var v := new ArtifactsViewer([a, b, doc]);
    assert v.BackDisabled();
    v.TraverseBackward();
    assert v.node == ArtifactsNode([a, b, doc], None);
    v.TraverseForward(a);
    assert v.node.artifacts == [x] && !v.BackDisabled();
    v.TraverseForward(x);
    assert v.file == Some(x) && v.node.artifacts == [x];
    v.OnDocumentLoadSuccess(3);
    v.NextPage();
    v.NextPage();
    assert v.page == 3 && v.NextPageDisabled();
    v.NextPage();
    assert v.page == 3;
    v.TraverseBackward();
    assert v.node == ArtifactsNode([a, b, doc], None) && v.file == Some(x) && v.page == 3;
    v.TraverseForward(b);
    assert v.node.artifacts == [] && Depth(v.node) == 1;
  }
}
