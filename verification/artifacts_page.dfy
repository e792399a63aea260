/** The artifact catalogue builder of the artifacts page
    (src/app/artifacts/page.tsx): a recursive walk over the public artifacts
    directory that keeps sub-directories and `.pdf` files and turns them into
    `folder` and `file` catalogue entries.

    The file system is an input value: a directory entry carries what reading
    that directory yields, so the walk is a function over a finite tree. */
module ArtifactsPage {
  import opened Wrappers
  import opened Types

  // ---------------------------------------------------------------------------
  // The directory listing read by `fs.readdir(path, {withFileTypes: true})`

  /** One listed entry. `DirEntry` is an entry whose `isDirectory()` holds and
      carries what reading `parentPath + '/' + name` yields; `FileEntry` is
      every other kind (regular file, symbolic link, socket, ...). */
  datatype Dirent =
    | DirEntry(name: string, parentPath: string, listing: Listing)
    | FileEntry(name: string, parentPath: string)

  /** The outcome of reading one directory: its entries in the order the
      storage enumerates them, or a failure (missing, not readable). */
  datatype Listing = Unreadable | Entries(entries: seq<Dirent>)

  /** `startingPath`: the prefix removed from every catalogue path, built
      by plain concatenation. */
  function StartingPath(cwd: string): string {
    cwd + "/public"
  }

  /** The directory the page catalogues, `path.join(process.cwd(),
      '/public/artifacts')`, for a working directory in the normalised form
      the process reports: the join drops the separator that would be doubled
      when the working directory is the file-system root "/". */
  function ArtifactsRoot(cwd: string): (r: string)
    ensures !EndsWith(cwd, "/") ==> r == StartingPath(cwd) + "/artifacts"
    ensures EndsWith(cwd, "/") ==> r == cwd + "public/artifacts"
  {
    assert "/public" + "/artifacts" == "/public/artifacts";
    if EndsWith(cwd, "/") then
      assert cwd == cwd[..|cwd| - 1] + "/";
      cwd[..|cwd| - 1] + "/public/artifacts"
    else cwd + "/public/artifacts"
  }

  // ---------------------------------------------------------------------------
  // String operations used by the walk

  /** `s.endsWith(suffix)`; the comparison is exact, so ".PDF" does not end in ".pdf". */
  predicate EndsWith(s: string, suffix: string) {
    |suffix| <= |s| && s[|s| - |suffix|..] == suffix
  }

  /** `pat` occurs in `s` starting at index `i`. */
  predicate OccursAt(s: string, pat: string, i: nat) {
    i + |pat| <= |s| && s[i..i + |pat|] == pat
  }

  /** The first index at or after `from` where `pat` occurs in `s`. */
  function IndexOf(s: string, pat: string, from: nat): (r: Option<nat>)
    ensures r.Some? ==> from <= r.value && OccursAt(s, pat, r.value)
    ensures r.Some? ==> forall j :: from <= j < r.value ==> !OccursAt(s, pat, j)
    ensures r.None? ==> forall j :: from <= j ==> !OccursAt(s, pat, j)
    decreases |s| - from
  {
    if from + |pat| > |s| then None
    else if OccursAt(s, pat, from) then Some(from)
    else IndexOf(s, pat, from + 1)
  }

  /** `s.replace(pat, '')` with a string pattern: only the first occurrence of
      `pat` is removed, and `s` is returned as it is when `pat` does not occur. */
  function RemoveFirst(s: string, pat: string): (r: string)
    ensures r == s || |r| + |pat| == |s|
  {
    match IndexOf(s, pat, 0)
    case None => s
    case Some(i) => s[..i] + s[i + |pat|..]
  }

  /** What `replace` removes: the first occurrence of `pat` and nothing
      else, and the string is left unchanged exactly when a non-empty `pat`
      does not occur in it. */
  lemma RemoveFirstOccurrence(s: string, pat: string)
    ensures (forall j: nat :: !OccursAt(s, pat, j)) ==> RemoveFirst(s, pat) == s
    ensures forall i: nat :: OccursAt(s, pat, i) && (forall j :: 0 <= j < i ==> !OccursAt(s, pat, j)) ==>
              RemoveFirst(s, pat) == s[..i] + s[i + |pat|..]
    ensures |pat| > 0 ==> (RemoveFirst(s, pat) == s <==> forall j: nat :: !OccursAt(s, pat, j))
  {
    match IndexOf(s, pat, 0)
    case None =>
    case Some(k) =>
      forall i: nat | OccursAt(s, pat, i) && (forall j :: 0 <= j < i ==> !OccursAt(s, pat, j))
        ensures RemoveFirst(s, pat) == s[..i] + s[i + |pat|..]
      {
        assert !(i < k) && !(k < i);
      }
      if |pat| > 0 {
        assert |RemoveFirst(s, pat)| == |s| - |pat|;
      }
  }

  /** A path that starts with `prefix` loses exactly that prefix. */
  lemma RemoveLeading(prefix: string, rest: string)
    ensures RemoveFirst(prefix + rest, prefix) == rest
  {
    var s := prefix + rest;
    assert OccursAt(s, prefix, 0) by { assert s[0..|prefix|] == prefix; }
    assert IndexOf(s, prefix, 0) == Some(0);
    assert s[|prefix|..] == rest;
  }

  /** A path in which `pat` does not occur is returned unchanged. */
  lemma RemoveAbsent(s: string, pat: string)
    requires forall j: nat :: !OccursAt(s, pat, j)
    ensures RemoveFirst(s, pat) == s
  {
  }

  // ---------------------------------------------------------------------------
  // The walk

  /** The listing filter: directories are kept, other entries only when their
      name ends in ".pdf". */
  predicate Kept(d: Dirent) {
    d.DirEntry? || EndsWith(d.name, ".pdf")
  }

  /** The kept entries, in listing order. */
  function Keep(es: seq<Dirent>): (r: seq<Dirent>)
    ensures |r| <= |es|
    ensures forall d :: d in r <==> d in es && Kept(d)
  {
    if es == [] then []
    else (if Kept(es[0]) then [es[0]] else []) + Keep(es[1..])
  }

  /** The filter keeps listing order: filtering a concatenation gives the
      concatenation of the filtered parts. */
  lemma {:induction false} KeepAppend(a: seq<Dirent>, b: seq<Dirent>)
    ensures Keep(a + b) == Keep(a) + Keep(b)
  {
    if a == [] {
      assert a + b == b;
    } else {
      assert (a + b)[0] == a[0];
      assert (a + b)[1..] == a[1..] + b;
      KeepAppend(a[1..], b);
    }
  }

  /** `getArtifactsTree(path)`, where `listing` is what reading `path` yields
      and `cwd` is the process working directory. A failed read anywhere in
      the walk rejects the whole `Promise.all`, so the result is `None`. */
  function GetArtifactsTree(cwd: string, listing: Listing): (r: Option<seq<TreeContent>>)
    ensures listing.Unreadable? ==> r.None?
    ensures r.Some? ==> |r.value| <= |listing.entries|
    decreases listing
  {
    match listing
    case Unreadable => None
    case Entries(es) => BuildEntries(cwd, es)
  }

  /** The filtered entries mapped to catalogue nodes and awaited together. */
  function BuildEntries(cwd: string, es: seq<Dirent>): (r: Option<seq<TreeContent>>)
    ensures r.Some? ==> |r.value| <= |es|
    decreases es
  {
    if es == [] then Some([])
    else if !Kept(es[0]) then BuildEntries(cwd, es[1..])
    else
      match (BuildNode(cwd, es[0]), BuildEntries(cwd, es[1..]))
      case (Some(n), Some(ns)) => Some([n] + ns)
      case _ => None
  }

  /** One kept entry: a folder carries the catalogue of the directory it
      names and the path of its parent; a file carries its own path. */
  function BuildNode(cwd: string, d: Dirent): (r: Option<TreeContent>)
    ensures d.FileEntry? ==> r.Some?
    ensures r.Some? ==> r.value.name == d.name
    ensures r.Some? ==> (r.value.kind == Folder <==> d.DirEntry?)
    ensures r.Some? ==> (r.value.files.Present? <==> d.DirEntry?)
    decreases d
  {
    match d
    case DirEntry(name, parentPath, listing) =>
      (match GetArtifactsTree(cwd, listing)
       case None => None
       case Some(files) =>
         Some(TreeContent(Folder, name, RemoveFirst(parentPath, StartingPath(cwd)), Present(files))))
    case FileEntry(name, parentPath) =>
      Some(TreeContent(File, name, RemoveFirst(parentPath, StartingPath(cwd)) + "/" + name, Absent))
  }

  /** The artifacts page: the catalogue of the public artifacts directory,
      given what reading that directory yields. */
  function Artifacts(cwd: string, root: Listing): (r: Option<seq<TreeContent>>)
    ensures r.Some? <==> Readable(root)
    ensures r.Some? ==> WellFormed(r.value)
  {
    BuildSucceedsIffReadable(cwd, root);
    CatalogueWellFormed(cwd, root);
    GetArtifactsTree(cwd, root)
  }

  // ---------------------------------------------------------------------------
  // What the catalogue is

  /** `n` is the node the page makes of the kept entry `d`. */
  ghost predicate Describes(cwd: string, n: TreeContent, d: Dirent) {
    && n.name == d.name
    && (d.DirEntry? ==>
          && n.kind == Folder
          && n.path == RemoveFirst(d.parentPath, StartingPath(cwd))
          && n.files.Present?
          && GetArtifactsTree(cwd, d.listing) == Some(n.files.nodes))
    && (d.FileEntry? ==>
          && n.kind == File
          && n.path == RemoveFirst(d.parentPath, StartingPath(cwd)) + "/" + d.name
          && n.files == Absent)
  }

  /** The node made of an entry describes that entry. */
  lemma NodeDescribesEntry(cwd: string, d: Dirent)
    requires BuildNode(cwd, d).Some?
    ensures Describes(cwd, BuildNode(cwd, d).value, d)
  {
  }

  /** Exactly one node per kept entry, in listing order. */
  lemma {:induction false} OneNodePerKeptEntry(cwd: string, es: seq<Dirent>)
    ensures BuildEntries(cwd, es).Some? ==>
              var ns := BuildEntries(cwd, es).value;
              |ns| == |Keep(es)| && forall i :: 0 <= i < |ns| ==> Describes(cwd, ns[i], Keep(es)[i])
  {
    if es != [] && BuildEntries(cwd, es).Some? {
      OneNodePerKeptEntry(cwd, es[1..]);
      var ns := BuildEntries(cwd, es).value;
      var rest := BuildEntries(cwd, es[1..]).value;
      if Kept(es[0]) {
        var n := BuildNode(cwd, es[0]).value;
        assert ns == [n] + rest;
        assert Keep(es) == [es[0]] + Keep(es[1..]);
        NodeDescribesEntry(cwd, es[0]);
        forall i | 1 <= i < |ns|
          ensures Describes(cwd, ns[i], Keep(es)[i])
        {
          assert ns[i] == rest[i - 1] && Keep(es)[i] == Keep(es[1..])[i - 1];
        }
      } else {
        assert Keep(es) == Keep(es[1..]);
      }
    }
  }

  /** Every directory reachable through the listing can be read. */
  ghost predicate Readable(l: Listing)
    decreases l
  {
    && l.Entries?
    && forall i :: 0 <= i < |l.entries| && l.entries[i].DirEntry? ==> Readable(l.entries[i].listing)
  }

  /** The walk succeeds exactly when every directory it reaches can be read. */
  lemma {:induction false} BuildSucceedsIffReadable(cwd: string, l: Listing)
    ensures GetArtifactsTree(cwd, l).Some? <==> Readable(l)
    decreases l
  {
    if l.Entries? {
      EntriesSucceedIffReadable(cwd, l.entries);
    }
  }

  lemma {:induction false} EntriesSucceedIffReadable(cwd: string, es: seq<Dirent>)
    ensures BuildEntries(cwd, es).Some? <==>
              forall i :: 0 <= i < |es| && es[i].DirEntry? ==> Readable(es[i].listing)
    decreases es
  {
    if es != [] {
      EntriesSucceedIffReadable(cwd, es[1..]);
      if es[0].DirEntry? {
        BuildSucceedsIffReadable(cwd, es[0].listing);
      }
      forall i | 1 <= i < |es|
        ensures es[i] == es[1..][i - 1]
      {
      }
    }
  }

  /** The catalogue's shape at every depth: folders carry `files`, files carry
      none, and every file is a PDF. */
  ghost predicate WellFormedNode(n: TreeContent)
    decreases n
  {
    && (n.kind == Folder <==> n.files.Present?)
    && (n.kind == File ==> EndsWith(n.name, ".pdf"))
    && (n.files.Present? ==> forall i :: 0 <= i < |n.files.nodes| ==> WellFormedNode(n.files.nodes[i]))
  }

  ghost predicate WellFormed(ns: seq<TreeContent>) {
    forall i :: 0 <= i < |ns| ==> WellFormedNode(ns[i])
  }

  /** Every file node anywhere in the catalogue names a PDF, and only
      folders carry children. */
  lemma {:induction false} CatalogueWellFormed(cwd: string, l: Listing)
    ensures GetArtifactsTree(cwd, l).Some? ==> WellFormed(GetArtifactsTree(cwd, l).value)
    decreases l
  {
    if l.Entries? && GetArtifactsTree(cwd, l).Some? {
      var es := l.entries;
      var ns := GetArtifactsTree(cwd, l).value;
      OneNodePerKeptEntry(cwd, es);
      forall i | 0 <= i < |ns|
        ensures WellFormedNode(ns[i])
      {
        var d := Keep(es)[i];
        assert d in es && Kept(d);
        if d.DirEntry? {
          CatalogueWellFormed(cwd, d.listing);
        }
      }
    }
  }

  /** The listing `l` is what reading `dir` yields: every entry names `dir` as
      its parent, and a sub-directory's listing is that of `dir + '/' + name`. */
  ghost predicate ListingAt(l: Listing, dir: string)
    decreases l
  {
    l.Entries? ==>
      forall i :: 0 <= i < |l.entries| ==>
        && l.entries[i].parentPath == dir
        && (l.entries[i].DirEntry? ==>
              ListingAt(l.entries[i].listing, dir + "/" + l.entries[i].name))
  }

  /** The catalogue's paths, relative to the public directory, for a node
      listed in a level whose own relative path is `rel`: a file is at
      `rel + '/' + name`; a folder carries `rel` and its children are listed
      at `rel + '/' + name`. */
  ghost predicate PathUnder(n: TreeContent, rel: string)
    decreases n
  {
    && (n.kind == File ==> n.path == rel + "/" + n.name)
    && (n.kind == Folder ==>
          && n.path == rel
          && n.files.Present?
          && forall i :: 0 <= i < |n.files.nodes| ==> PathUnder(n.files.nodes[i], rel + "/" + n.name))
  }

  ghost predicate PathsUnder(ns: seq<TreeContent>, rel: string) {
    forall i :: 0 <= i < |ns| ==> PathUnder(ns[i], rel)
  }

  /** For a listing read from a directory below the public directory, every
      file node's path is its location relative to that directory, and every
      folder node's path is its parent's. */
  lemma {:induction false} PathsRelativeToPublic(cwd: string, l: Listing, rel: string)
    requires ListingAt(l, StartingPath(cwd) + rel)
    ensures GetArtifactsTree(cwd, l).Some? ==> PathsUnder(GetArtifactsTree(cwd, l).value, rel)
    decreases l
  {
    if l.Entries? && GetArtifactsTree(cwd, l).Some? {
      var es := l.entries;
      var ns := GetArtifactsTree(cwd, l).value;
      OneNodePerKeptEntry(cwd, es);
      RemoveLeading(StartingPath(cwd), rel);
      forall i | 0 <= i < |ns|
        ensures PathUnder(ns[i], rel)
      {
        var d := Keep(es)[i];
        assert d in es;
        assert d.parentPath == StartingPath(cwd) + rel;
        if d.DirEntry? {
          assert StartingPath(cwd) + rel + "/" + d.name == StartingPath(cwd) + (rel + "/" + d.name);
          PathsRelativeToPublic(cwd, d.listing, rel + "/" + d.name);
        }
      }
    }
  }

  /** On the page, every file of the catalogue is served at
      "/artifacts/.../<name>.pdf". */
  lemma ArtifactsPaths(cwd: string, root: Listing)
    requires !EndsWith(cwd, "/")
    requires ListingAt(root, ArtifactsRoot(cwd))
    ensures Artifacts(cwd, root).Some? ==> PathsUnder(Artifacts(cwd, root).value, "/artifacts")
  {
    PathsRelativeToPublic(cwd, root, "/artifacts");
  }

  /** "//public" does not occur in "/public/artifacts": no two separators
      there are adjacent. */
  lemma NoDoubleSeparator(j: nat)
    ensures !OccursAt("/public/artifacts", "//public", j)
  {
    var dir := "/public/artifacts";
    if j + 8 <= |dir| {
      var w := dir[j..j + 8];
      assert w[0] == dir[j] && w[1] == dir[j + 1];
      assert dir[j] != '/' || dir[j + 1] != '/';
    }
  }

  /** With the file-system root as working directory, `startingPath` is
      "//public", which the joined artifacts path "/public/artifacts" does not
      contain, so catalogue paths keep their "/public" prefix. */
  lemma RootWorkingDirectoryKeepsPublic(cwd: string, name: string)
    requires cwd == "/"
    ensures ArtifactsRoot(cwd) == "/public/artifacts"
    ensures BuildNode(cwd, FileEntry(name, ArtifactsRoot(cwd)))
              == Some(TreeContent(File, name, "/public/artifacts/" + name, Absent))
  {
    RootJoin();
    assert StartingPath(cwd) == "//public";
    StartingPathAbsentAtRoot();
    assert "/public/artifacts" + "/" + name == "/public/artifacts/" + name;
  }

  /** `path.join("/", '/public/artifacts')` has a single leading separator. */
  lemma RootJoin()
    ensures ArtifactsRoot("/") == "/public/artifacts"
  {
    assert EndsWith("/", "/");
  }

  /** `replace("//public", '')` leaves "/public/artifacts" as it is. */
  lemma StartingPathAbsentAtRoot()
    ensures RemoveFirst("/public/artifacts", "//public") == "/public/artifacts"
  {
    forall j: nat
      ensures !OccursAt("/public/artifacts", "//public", j)
    {
      NoDoubleSeparator(j);
    }
    RemoveAbsent("/public/artifacts", "//public");
  }

  /** The filter compares extensions exactly: an upper-case ".PDF" file is dropped. */
  lemma UpperCasePdfDropped(parentPath: string)
    ensures !Kept(FileEntry("scan.PDF", parentPath))
    ensures Kept(FileEntry("scan.pdf", parentPath))
  {
    assert "scan.PDF"[4..] != ".pdf" by { assert "scan.PDF"[5] == 'P'; }
  }

  /** A kept entry in front of the rest adds its node in front of theirs. */
  lemma KeptInFront(cwd: string, d: Dirent, rest: seq<Dirent>, n: TreeContent, ns: seq<TreeContent>)
    requires Kept(d) && BuildNode(cwd, d) == Some(n) && BuildEntries(cwd, rest) == Some(ns)
    ensures BuildEntries(cwd, [d] + rest) == Some([n] + ns)
  {
    assert ([d] + rest)[0] == d;
    assert ([d] + rest)[1..] == rest;
  }

  /** A dropped entry in front of the rest adds nothing. */
  lemma DroppedInFront(cwd: string, d: Dirent, rest: seq<Dirent>)
    requires !Kept(d)
    ensures BuildEntries(cwd, [d] + rest) == BuildEntries(cwd, rest)
  {
    assert ([d] + rest)[0] == d;
    assert ([d] + rest)[1..] == rest;
  }

  /** Of the example's files, only doc.pdf passes the filter. */
  lemma ExampleFilter(dir: string)
    ensures Kept(FileEntry("doc.pdf", dir))
    ensures !Kept(FileEntry("notes.txt", dir)) && !Kept(FileEntry("scan.PDF", dir))
  {
    assert !Kept(FileEntry("notes.txt", dir)) by { assert "notes.txt"[6] == 't'; }
    UpperCasePdfDropped(dir);
  }

  /** The files of the example below: only doc.pdf is catalogued. */
  lemma {:induction false} ExampleFiles(cwd: string, dir: string)
    requires dir == StartingPath(cwd) + "/artifacts"
    ensures
      BuildEntries(cwd, [FileEntry("doc.pdf", dir), FileEntry("notes.txt", dir), FileEntry("scan.PDF", dir)])
        == Some([TreeContent(File, "doc.pdf", "/artifacts/doc.pdf", Absent)])
  {
    var doc, notes, scan := FileEntry("doc.pdf", dir), FileEntry("notes.txt", dir), FileEntry("scan.PDF", dir);
    ExampleFilter(dir);
    FileNodeAt(cwd, "/artifacts", "doc.pdf");
    assert "/artifacts" + "/" + "doc.pdf" == "/artifacts/doc.pdf";
    var docNode := TreeContent(File, "doc.pdf", "/artifacts/doc.pdf", Absent);
    assert BuildEntries(cwd, []) == Some([]);
    DroppedInFront(cwd, scan, []);
    DroppedInFront(cwd, notes, [scan] + []);
    KeptInFront(cwd, doc, [notes] + ([scan] + []), docNode, []);
    assert [doc] + ([notes] + ([scan] + [])) == [doc, notes, scan];
    assert [docNode] + [] == [docNode];
  }

  /** A file listed in the directory `StartingPath(cwd) + rel` is catalogued at `rel + '/' + name`. */
  lemma FileNodeAt(cwd: string, rel: string, name: string)
    ensures BuildNode(cwd, FileEntry(name, StartingPath(cwd) + rel)) == Some(TreeContent(File, name, rel + "/" + name, Absent))
  {
    RemoveLeading(StartingPath(cwd), rel);
  }

  /** A directory holding one PDF is catalogued as that one file. */
  lemma {:induction false} SinglePdfListing(cwd: string, rel: string, name: string)
    requires EndsWith(name, ".pdf")
    ensures GetArtifactsTree(cwd, Entries([FileEntry(name, StartingPath(cwd) + rel)]))
              == Some([TreeContent(File, name, rel + "/" + name, Absent)])
  {
    var x := FileEntry(name, StartingPath(cwd) + rel);
    var xNode := TreeContent(File, name, rel + "/" + name, Absent);
    FileNodeAt(cwd, rel, name);
    assert BuildEntries(cwd, [x][1..]) == Some([]);
    assert BuildEntries(cwd, [x]) == Some([xNode] + []);
    assert [xNode] + [] == [xNode];
  }

  /** A readable directory listed in `StartingPath(cwd) + rel` becomes a
      folder at `rel` carrying its own catalogue. */
  lemma FolderNodeAt(cwd: string, rel: string, name: string, l: Listing)
    requires GetArtifactsTree(cwd, l).Some?
    ensures BuildNode(cwd, DirEntry(name, StartingPath(cwd) + rel, l))
              == Some(TreeContent(Folder, name, rel, Present(GetArtifactsTree(cwd, l).value)))
  {
    RemoveLeading(StartingPath(cwd), rel);
  }

  /** The first folder of the example below: A holds x.pdf. */
  lemma {:induction false} ExampleFolderA(cwd: string)
    requires !EndsWith(cwd, "/")
    ensures
      var dir := ArtifactsRoot(cwd);
      BuildNode(cwd, DirEntry("A", dir, Entries([FileEntry("x.pdf", dir + "/A")])))
        == Some(TreeContent(Folder, "A", "/artifacts", Present([TreeContent(File, "x.pdf", "/artifacts/A/x.pdf", Absent)])))
  {
    var sp := StartingPath(cwd);
    assert ArtifactsRoot(cwd) + "/A" == sp + "/artifacts/A";
    assert EndsWith("x.pdf", ".pdf");
    SinglePdfListing(cwd, "/artifacts/A", "x.pdf");
    assert "/artifacts/A" + "/" + "x.pdf" == "/artifacts/A/x.pdf";
    FolderNodeAt(cwd, "/artifacts", "A", Entries([FileEntry("x.pdf", sp + "/artifacts/A")]));
  }

  /** The second folder of the example below: B is empty and still a folder. */
  lemma {:induction false} ExampleFolderB(cwd: string)
    requires !EndsWith(cwd, "/")
    ensures
      var dir := ArtifactsRoot(cwd);
      BuildNode(cwd, DirEntry("B", dir, Entries([]))) == Some(TreeContent(Folder, "B", "/artifacts", Present([])))
  {
    var dir := ArtifactsRoot(cwd);
    var sp := StartingPath(cwd);
    assert dir == sp + "/artifacts";
    RemoveLeading(sp, "/artifacts");
    assert GetArtifactsTree(cwd, Entries([])) == Some([]);
  }

  /** A public artifacts directory holding folders A (with x.pdf) and B
      (empty) and the files doc.pdf, notes.txt and scan.PDF is catalogued as
      A, B and doc.pdf, in that order. */
  lemma {:induction false} CatalogueExample(cwd: string)
    requires !EndsWith(cwd, "/")
    ensures
      var dir := ArtifactsRoot(cwd);
      var root := Entries([
        DirEntry("A", dir, Entries([FileEntry("x.pdf", dir + "/A")])),
        DirEntry("B", dir, Entries([])),
        FileEntry("doc.pdf", dir),
        FileEntry("notes.txt", dir),
        FileEntry("scan.PDF", dir)]);
      Artifacts(cwd, root) == Some([
        TreeContent(Folder, "A", "/artifacts", Present([TreeContent(File, "x.pdf", "/artifacts/A/x.pdf", Absent)])),
        TreeContent(Folder, "B", "/artifacts", Present([])),
        TreeContent(File, "doc.pdf", "/artifacts/doc.pdf", Absent)])
  {
    var dir := ArtifactsRoot(cwd);
    var a := DirEntry("A", dir, Entries([FileEntry("x.pdf", dir + "/A")]));
    var b := DirEntry("B", dir, Entries([]));
    var files := [FileEntry("doc.pdf", dir), FileEntry("notes.txt", dir), FileEntry("scan.PDF", dir)];
    ExampleFiles(cwd, dir);
    ExampleFolderA(cwd);
    ExampleFolderB(cwd);
    var aNode := TreeContent(Folder, "A", "/artifacts", Present([TreeContent(File, "x.pdf", "/artifacts/A/x.pdf", Absent)]));
    var bNode := TreeContent(Folder, "B", "/artifacts", Present([]));
    var docNode := TreeContent(File, "doc.pdf", "/artifacts/doc.pdf", Absent);
    KeptInFront(cwd, b, files, bNode, [docNode]);
    KeptInFront(cwd, a, [b] + files, aNode, [bNode] + [docNode]);
    assert [a] + ([b] + files) == [a, b, files[0], files[1], files[2]];
    assert [aNode] + ([bNode] + [docNode]) == [aNode, bNode, docNode];
  }
}
