/**
 * The track-tree flattener: walks the nested folder/file tree the tracks
 * endpoint returns and appends, in pre-order, one file entry per admitted
 * item, numbered densely from a caller-supplied start and carrying the
 * "/"-joined titles of its enclosing folders.
 */
module Tracks {
  import opened Util
  import opened Settings

  /**
   * One node of the tracks tree. `kind` is the `type` key (absent: None); a
   * missing `size` reads as 0. A `children` key that is absent or null is the
   * empty list here: the flattener does nothing for either.
   */
  datatype Node = Node(
    kind: Option<string>,
    title: string,
    children: seq<Node>,
    size: int,
    url: Option<string>)

  /** One flattened file entry (the display-formatted size is not modelled). */
  datatype FileEntry = FileEntry(
    index: int,
    filename: string,
    url: Option<string>,
    kind: string,
    size: int,
    folderPath: string)

  /** The size above which audio counts as high quality whatever its extension: 50 MiB. */
  const HqSizeThreshold: int := 50 * 1024 * 1024

  /** A lossless or high-bitrate extension (case-insensitive), or a size above 50 MiB. */
  predicate IsHq(title: string, size: int)
  {
    var t := Lower(title);
    EndsWith(t, ".flac") || EndsWith(t, ".wav") || EndsWith(t, ".mp3") || size > HqSizeThreshold
  }

  predicate IsFolder(n: Node)
  {
    n.kind == Some("folder")
  }

  /** A non-folder item is kept when its type is allowed and it passes the HQ-audio filter. */
  predicate Admitted(n: Node, c: Config)
  {
    && n.kind.Some?
    && n.kind.value != "folder"
    && n.kind.value in AllowedTypes(c)
    && !(HqOnly(c) && n.kind.value == "audio" && !IsHq(n.title, n.size))
  }

  function MakeEntry(n: Node, path: seq<string>, index: int): FileEntry
  {
    FileEntry(index, n.title, n.url, n.kind.GetOr(""), n.size, Join(path, "/"))
  }

  /** The entries the flattener appends for `nodes` under `path`, numbered from `start`. */
  function Flatten(nodes: seq<Node>, path: seq<string>, start: int, c: Config): seq<FileEntry>
    decreases nodes, 1
  {
    if nodes == [] then []
    else
      var head := FlattenNode(nodes[0], path, start, c);
      head + Flatten(nodes[1..], path, start + |head|, c)
  }

  /** The entries one node contributes: a folder's subtree, an admitted item, or nothing. */
  function FlattenNode(n: Node, path: seq<string>, start: int, c: Config): seq<FileEntry>
    decreases n, 0
  {
    if IsFolder(n) then Flatten(n.children, path + [n.title], start, c)
    else if Admitted(n, c) then [MakeEntry(n, path, start)]
    else []
  }

  // ----- An independent description: pre-order leaves, filtered, then numbered -----

  /** A non-folder node together with the titles of the folders enclosing it. */
  datatype Leaf = Leaf(node: Node, path: seq<string>)

  /** Every non-folder node of the forest, in pre-order, with its folder path. */
  function Leaves(nodes: seq<Node>, path: seq<string>): seq<Leaf>
    decreases nodes, 1
  {
    if nodes == [] then [] else NodeLeaves(nodes[0], path) + Leaves(nodes[1..], path)
  }

  function NodeLeaves(n: Node, path: seq<string>): seq<Leaf>
    decreases n, 0
  {
    if IsFolder(n) then Leaves(n.children, path + [n.title]) else [Leaf(n, path)]
  }

  /** The leaves the filters keep, in order. */
  function Admit(ls: seq<Leaf>, c: Config): seq<Leaf>
  {
    if ls == [] then []
    else (if Admitted(ls[0].node, c) then [ls[0]] else []) + Admit(ls[1..], c)
  }

  /** The filter keeps only leaves of its input, and only admitted ones. */
  lemma {:induction false} AdmitKeeps(ls: seq<Leaf>, c: Config)
    ensures forall l :: l in Admit(ls, c) ==> l in ls && Admitted(l.node, c)
  {
    if ls != [] {
      AdmitFirst(ls, c);
      AdmitKeeps(ls[1..], c);
    }
  }

  /** Numbers admitted leaves consecutively from `start`. */
  function Number(ls: seq<Leaf>, start: int): (r: seq<FileEntry>)
    ensures |r| == |ls|
  {
    seq(|ls|, i requires 0 <= i < |ls| => MakeEntry(ls[i].node, ls[i].path, start + i))
  }

  lemma {:induction false} AdmitAppend(a: seq<Leaf>, b: seq<Leaf>, c: Config)
    ensures Admit(a + b, c) == Admit(a, c) + Admit(b, c)
  {
    if a != [] {
      var head := if Admitted(a[0].node, c) then [a[0]] else [];
      AdmitFirst(a, c);
      AdmitFirst(a + b, c);
      assert (a + b)[1..] == a[1..] + b;
      AdmitAppend(a[1..], b, c);
      assert head + (Admit(a[1..], c) + Admit(b, c)) == (head + Admit(a[1..], c)) + Admit(b, c);
    } else {
      assert a + b == b;
    }
  }

  /** One step of the filter: the first leaf, if admitted, then the filtered rest. */
  lemma AdmitFirst(ls: seq<Leaf>, c: Config)
    requires ls != []
    ensures Admit(ls, c) == (if Admitted(ls[0].node, c) then [ls[0]] else []) + Admit(ls[1..], c)
  {
  }

  /**
   * The flattener is exactly "take the pre-order leaves, keep the admitted
   * ones, number them from `start`": folders never consume an index, and
   * every other skipped item leaves the numbering untouched.
   */
  lemma {:induction false} FlattenIsNumberedLeaves(nodes: seq<Node>, path: seq<string>, start: int, c: Config)
    ensures Flatten(nodes, path, start, c) == Number(Admit(Leaves(nodes, path), c), start)
    decreases nodes, 1
  {
    if nodes != [] {
      var a := Admit(NodeLeaves(nodes[0], path), c);
      var b := Admit(Leaves(nodes[1..], path), c);
      var head := FlattenNode(nodes[0], path, start, c);
      assert head == Number(a, start) && |head| == |a| by {
        FlattenNodeIsNumberedLeaves(nodes[0], path, start, c);
      }
      FlattenFirst(nodes, path, start, c);
      FlattenIsNumberedLeaves(nodes[1..], path, start + |a|, c);
      NumberedLeavesFirst(nodes, path, start, c);
    }
  }

  /** One step of the flattener: the first node's entries, then the rest numbered after them. */
  lemma FlattenFirst(nodes: seq<Node>, path: seq<string>, start: int, c: Config)
    requires nodes != []
    ensures var head := FlattenNode(nodes[0], path, start, c);
      Flatten(nodes, path, start, c) == head + Flatten(nodes[1..], path, start + |head|, c)
  {
  }

  /** The numbered admitted leaves of a forest: its first tree's, then the rest's numbered after them. */
  lemma NumberedLeavesFirst(nodes: seq<Node>, path: seq<string>, start: int, c: Config)
    requires nodes != []
    ensures var a := Admit(NodeLeaves(nodes[0], path), c);
      Number(Admit(Leaves(nodes, path), c), start)
      == Number(a, start) + Number(Admit(Leaves(nodes[1..], path), c), start + |a|)
  {
    var first, rest := NodeLeaves(nodes[0], path), Leaves(nodes[1..], path);
    assert Leaves(nodes, path) == first + rest;
    NumberAdmitAppend(first, rest, start, c);
  }

  /** Filtering then numbering a concatenation: the first part's entries, then the second's numbered after them. */
  lemma NumberAdmitAppend(x: seq<Leaf>, y: seq<Leaf>, start: int, c: Config)
    ensures var a := Admit(x, c);
      Number(Admit(x + y, c), start) == Number(a, start) + Number(Admit(y, c), start + |a|)
  {
    AdmitAppend(x, y, c);
    NumberAppend(Admit(x, c), Admit(y, c), start);
  }

  lemma NumberAppend(a: seq<Leaf>, b: seq<Leaf>, start: int)
    ensures Number(a + b, start) == Number(a, start) + Number(b, start + |a|)
  {
    assert forall i :: 0 <= i < |a + b| ==> (a + b)[i] == if i < |a| then a[i] else b[i - |a|];
  }

  lemma {:induction false} FlattenNodeIsNumberedLeaves(n: Node, path: seq<string>, start: int, c: Config)
    ensures FlattenNode(n, path, start, c) == Number(Admit(NodeLeaves(n, path), c), start)
    decreases n, 0
  {
    if IsFolder(n) {
      FlattenIsNumberedLeaves(n.children, path + [n.title], start, c);
    }
  }

  /** Appended entries carry the indices `start, start + 1, …` in order. */
  lemma FlattenDenseIndices(nodes: seq<Node>, path: seq<string>, start: int, c: Config)
    ensures var r := Flatten(nodes, path, start, c);
      forall k :: 0 <= k < |r| ==> r[k].index == start + k
  {
    FlattenIsNumberedLeaves(nodes, path, start, c);
  }

  /**
   * Every entry's type is allowed by the configuration, and with the HQ
   * switch on every audio entry has an HQ extension or is over 50 MiB.
   */
  lemma FlattenOnlyAdmitted(nodes: seq<Node>, path: seq<string>, start: int, c: Config)
    ensures forall e :: e in Flatten(nodes, path, start, c) ==>
      && e.kind in AllowedTypes(c)
      && e.kind != "folder"
      && (HqOnly(c) && e.kind == "audio" ==> IsHq(e.filename, e.size))
  {
    FlattenIsNumberedLeaves(nodes, path, start, c);
    var ls := Admit(Leaves(nodes, path), c);
    AdmitKeeps(Leaves(nodes, path), c);
    forall e | e in Flatten(nodes, path, start, c)
      ensures e.kind in AllowedTypes(c) && e.kind != "folder"
      ensures HqOnly(c) && e.kind == "audio" ==> IsHq(e.filename, e.size)
    {
      var k :| 0 <= k < |ls| && e == Number(ls, start)[k];
      assert ls[k] in ls;
    }
  }

  /**
   * Under the built-in default of audio files only (no `default_file_types`
   * configured), every entry is audio, and every top-level audio item that
   * passes the HQ filter is listed with its own name, URL and size.
   */
  lemma FlattenDefaultAudioOnly(nodes: seq<Node>, path: seq<string>, start: int, c: Config)
    requires c.defaultFileTypes.None?
    ensures forall e :: e in Flatten(nodes, path, start, c) ==> e.kind == "audio"
    ensures forall n :: n in nodes && n.kind == Some("audio") && (HqOnly(c) ==> IsHq(n.title, n.size)) ==>
              exists e :: e in Flatten(nodes, path, start, c) && e.filename == n.title && e.url == n.url && e.size == n.size
  {
    FlattenOnlyAdmitted(nodes, path, start, c);
    forall n | n in nodes && n.kind == Some("audio") && (HqOnly(c) ==> IsHq(n.title, n.size))
      ensures exists e :: e in Flatten(nodes, path, start, c) && e.filename == n.title && e.url == n.url && e.size == n.size
    {
      assert Admitted(n, c);
      var k := FlattenListsItem(nodes, path, start, c, n);
      assert Flatten(nodes, path, start, c)[k] in Flatten(nodes, path, start, c);
    }
  }

  /** An admitted top-level item is listed: at some position `k`, numbered `start + k`. */
  lemma FlattenListsItem(nodes: seq<Node>, path: seq<string>, start: int, c: Config, n: Node) returns (k: nat)
    requires n in nodes && !IsFolder(n) && Admitted(n, c)
    ensures k < |Flatten(nodes, path, start, c)| && Flatten(nodes, path, start, c)[k] == MakeEntry(n, path, start + k)
  {
    var ls := Admit(Leaves(nodes, path), c);
    LeafOfItem(nodes, path, n);
    AdmitKeepsAdmitted(Leaves(nodes, path), c, Leaf(n, path));
    k :| 0 <= k < |ls| && ls[k] == Leaf(n, path);
    FlattenIsNumberedLeaves(nodes, path, start, c);
  }

  /** A non-folder item of the forest is one of its leaves, with the forest's path. */
  lemma {:induction false} LeafOfItem(nodes: seq<Node>, path: seq<string>, n: Node)
    requires n in nodes && !IsFolder(n)
    ensures Leaf(n, path) in Leaves(nodes, path)
  {
    if nodes[0] == n {
      assert NodeLeaves(n, path) == [Leaf(n, path)];
    } else {
      LeafOfItem(nodes[1..], path, n);
    }
  }

  /** The filter drops no admitted leaf. */
  lemma {:induction false} AdmitKeepsAdmitted(ls: seq<Leaf>, c: Config, l: Leaf)
    requires l in ls && Admitted(l.node, c)
    ensures l in Admit(ls, c)
  {
    AdmitFirst(ls, c);
    if ls[0] != l {
      AdmitKeepsAdmitted(ls[1..], c, l);
    }
  }

  /** Each entry records the "/"-join of the titles of the folders enclosing its item. */
  lemma FlattenFolderPaths(nodes: seq<Node>, path: seq<string>, start: int, c: Config)
    ensures var r := Flatten(nodes, path, start, c);
      var ls := Admit(Leaves(nodes, path), c);
      |r| == |ls| &&
      forall k :: 0 <= k < |r| ==>
        && r[k].folderPath == Join(ls[k].path, "/")
        && r[k].filename == ls[k].node.title
        && r[k].size == ls[k].node.size
  {
    FlattenIsNumberedLeaves(nodes, path, start, c);
  }

  /**
   * The accumulator the flattener appends to (`all_files`): append-only,
   * entries already in it are never changed.
   */
  class FileList {
    var files: seq<FileEntry>

    constructor ()
      ensures files == []
    {
      files := [];
    }

    /**
     * `recursively_transform_data_v2`: appends the entries for `data` under
     * `folderPath`, numbered from `indexStart`, and returns the next free index.
     */
    method Transform(data: seq<Node>, folderPath: seq<string>, indexStart: int, c: Config) returns (next: int)
      modifies this
      ensures files == old(files) + Flatten(data, folderPath, indexStart, c)
      ensures next == indexStart + |Flatten(data, folderPath, indexStart, c)|
      decreases data
    {
      var current := indexStart;
      var i := 0;
      while i < |data|
        invariant 0 <= i <= |data|
        invariant files + Flatten(data[i..], folderPath, current, c)
                  == old(files) + Flatten(data, folderPath, indexStart, c)
        invariant current + |Flatten(data[i..], folderPath, current, c)|
                  == indexStart + |Flatten(data, folderPath, indexStart, c)|
      {
        var item := data[i];
        assert data[i..][1..] == data[i + 1..];
        if item.kind == Some("folder") {
          var newPath := folderPath + [item.title];
          current := Transform(item.children, newPath, current, c);
        } else if item.kind.Some? && item.kind.value in AllowedTypes(c) {
          var isHq := IsHq(item.title, item.size);
          if !(HqOnly(c) && item.kind.value == "audio" && !isHq) {
            files := files + [MakeEntry(item, folderPath, current)];
            current := current + 1;
          }
        }
        i := i + 1;
      }
      next := current;
    }
  }
}
