/** Collecting what a finished workflow wrote (`is_an_output_file` and the first half of
    `process_output_images`, src/rp_handler.py): the output-file descriptors are gathered from
    every slot of every node of the history record's `outputs`, turned into paths under the
    output directory, and followed by the text sidecars that exist beside them. */
module Collection {
  import opened Py

  /** `is_an_output_file`: a dict that has a `filename` key and whose `type` is "output". Any
      other value is no output file, and the `in` tests never raise on it, since they only
      run on a dict. */
  predicate IsAnOutputFile(v: Value)
    ensures IsAnOutputFile(v) <==> (v.Dict? && Contains(v, "filename") == Returned(true)
      && Contains(v, "type") == Returned(true) && DictGet(v.entries, "type") == Str("output"))
  {
    v.Dict? && "filename" in Keys(v.entries) && Lookup(v.entries, "type") == Some(Str("output"))
  }

  /** The output files of a list, in list order. */
  function Kept(items: seq<Value>): seq<Value> {
    if items == [] then []
    else Kept(items[..|items| - 1]) + (if IsAnOutputFile(items[|items| - 1]) then [items[|items| - 1]] else [])
  }

  /** What one slot contributes: the output files of a list, a single descriptor that is an
      output file, and nothing otherwise. */
  function SlotFiles(slot: Value): seq<Value> {
    if slot.List? then Kept(slot.items)
    else if slot.Dict? && IsAnOutputFile(slot) then [slot]
    else []
  }

  /** What one node contributes: its slots' output files, in slot order. */
  function NodeFiles(slots: seq<(string, Value)>): seq<Value> {
    if slots == [] then []
    else NodeFiles(slots[..|slots| - 1]) + SlotFiles(slots[|slots| - 1].1)
  }

  /** Every node's output is a dict, so that its slots can be walked. */
  predicate NodesAreDicts(nodes: seq<(string, Value)>) {
    nodes == [] || (NodesAreDicts(nodes[..|nodes| - 1]) && nodes[|nodes| - 1].1.Dict?)
  }

  /** Every node's output is a dict. */
  lemma {:induction false} NodesAreDictsAll(nodes: seq<(string, Value)>)
    ensures NodesAreDicts(nodes) <==> forall n :: 0 <= n < |nodes| ==> nodes[n].1.Dict?
  {
    if nodes != [] {
      var p := nodes[..|nodes| - 1];
      NodesAreDictsAll(p);
      assert forall n :: 0 <= n < |p| ==> p[n] == nodes[n];
    }
  }

  /** All nodes' output files, in node order (a node that is not a dict has none to give). */
  function AllFiles(nodes: seq<(string, Value)>): seq<Value> {
    if nodes == [] then []
    else
      var node := nodes[|nodes| - 1].1;
      AllFiles(nodes[..|nodes| - 1]) + (if node.Dict? then NodeFiles(node.entries) else [])
  }

  /** The inner loop over one node's `.items()`: a list slot contributes its output files, a
      dict slot itself when it is an output file, and any other slot nothing. */
  method CollectNodeFiles(slots: seq<(string, Value)>) returns (files: seq<Value>)
    ensures files == NodeFiles(slots)
  {
    files := [];
    for s := 0 to |slots|
      invariant files == NodeFiles(slots[..s])
    {
      assert slots[..s + 1][..s] == slots[..s];
      assert NodeFiles(slots[..s + 1]) == NodeFiles(slots[..s]) + SlotFiles(slots[s].1);
      var slot := slots[s].1;
      if slot.List? {
        files := files + Kept(slot.items);
      } else if slot.Dict? {
        if IsAnOutputFile(slot) {
          files := files + [slot];
        }
      }
    }
    assert slots[..|slots|] == slots;
  }

  /** The position of the first node whose output is not a dict, or the number of nodes. */
  function FirstNonDict(nodes: seq<(string, Value)>): (k: nat)
    ensures k <= |nodes|
    ensures forall i :: 0 <= i < k ==> nodes[i].1.Dict?
    ensures k < |nodes| ==> !nodes[k].1.Dict?
  {
    if nodes == [] || !nodes[0].1.Dict? then 0
    else
      assert forall i :: 0 < i < |nodes| ==> nodes[i] == nodes[1..][i - 1];
      1 + FirstNonDict(nodes[1..])
  }

  /** When the first n nodes are dicts and node n is not (or there is none), n is the first non-dict. */
  lemma FirstNonDictAt(nodes: seq<(string, Value)>, n: nat)
    requires n <= |nodes| && NodesAreDicts(nodes[..n])
    requires n < |nodes| ==> !nodes[n].1.Dict?
    ensures FirstNonDict(nodes) == n
  {
    NodesAreDictsAll(nodes[..n]);
    assert forall i :: 0 <= i < n ==> nodes[..n][i] == nodes[i];
  }

  /** What walking `outputs` gives: `.items()` raises on a non-dict `outputs`, or on the first
      node whose output is not a dict; otherwise every output-file descriptor, in node order
      and slot order. */
  function OutputFiles(outputs: Value): (r: Outcome<seq<Value>>)
    ensures !outputs.Dict? ==> r == Raised(NoAttribute(outputs, "items"))
    ensures outputs.Dict? ==> (r.Returned? <==> forall n :: 0 <= n < |outputs.entries| ==> outputs.entries[n].1.Dict?)
    ensures outputs.Dict? && r.Raised? ==> (FirstNonDict(outputs.entries) < |outputs.entries|
      && r.error == NoAttribute(outputs.entries[FirstNonDict(outputs.entries)].1, "items"))
    ensures r.Returned? ==> (outputs.Dict? && r.value == AllFiles(outputs.entries)
      && forall i :: 0 <= i < |r.value| ==> IsAnOutputFile(r.value[i]))
  {
    if !outputs.Dict? then Raised(NoAttribute(outputs, "items"))
    else
      var nodes := outputs.entries;
      var k := FirstNonDict(nodes);
      if k < |nodes| then Raised(NoAttribute(nodes[k].1, "items"))
      else
        AllFilesAreOutputFiles(nodes);
        Returned(AllFiles(nodes))
  }

  lemma AllFilesAreOutputFiles(nodes: seq<(string, Value)>)
    ensures forall i :: 0 <= i < |AllFiles(nodes)| ==> IsAnOutputFile(AllFiles(nodes)[i])
  {
    forall i | 0 <= i < |AllFiles(nodes)| {
      AllFilesExactly(nodes, AllFiles(nodes)[i]);
    }
  }

  /** The loop over `outputs.items()` and, inside it, over each node's `.items()`. */
  method CollectOutputFiles(outputs: Value) returns (r: Outcome<seq<Value>>)
    ensures r == OutputFiles(outputs)
  {
    if !outputs.Dict? {
      return Raised(NoAttribute(outputs, "items"));
    }
    var nodes := outputs.entries;
    var files: seq<Value> := [];
    for n := 0 to |nodes|
      invariant NodesAreDicts(nodes[..n])
      invariant files == AllFiles(nodes[..n])
    {
      var node := nodes[n].1;
      if !node.Dict? {
        FirstNonDictAt(nodes, n);
        return Raised(NoAttribute(node, "items"));
      }
      var nodeFiles := CollectNodeFiles(node.entries);
      assert nodes[..n + 1][..n] == nodes[..n];
      files := files + nodeFiles;
    }
    assert nodes[..|nodes|] == nodes;
    FirstNonDictAt(nodes, |nodes|);
    return Returned(files);
  }

  /** A list keeps exactly its output files. */
  lemma {:induction false} KeptExactly(items: seq<Value>)
    ensures forall v :: v in Kept(items) <==> v in items && IsAnOutputFile(v)
    ensures |Kept(items)| <= |items|
  {
    if items != [] {
      var p := items[..|items| - 1];
      KeptExactly(p);
      assert items == p + [items[|items| - 1]];
    }
  }

  /** `v` sits in a slot: it is the slot's value, or an item of the slot's list. */
  predicate InSlot(v: Value, slot: Value) {
    slot == v || (slot.List? && v in slot.items)
  }

  /** `v` sits in some slot of a node. */
  predicate InNode(v: Value, slots: seq<(string, Value)>) {
    exists s :: 0 <= s < |slots| && InSlot(v, slots[s].1)
  }

  lemma SlotFilesExactly(slot: Value, v: Value)
    ensures v in SlotFiles(slot) <==> IsAnOutputFile(v) && InSlot(v, slot)
  {
    if slot.List? {
      KeptExactly(slot.items);
    }
  }

  lemma InNodeSplit(slots: seq<(string, Value)>, v: Value)
    requires slots != []
    ensures InNode(v, slots) <==> InNode(v, slots[..|slots| - 1]) || InSlot(v, slots[|slots| - 1].1)
  {
    var p := slots[..|slots| - 1];
    if InNode(v, p) {
      var s :| 0 <= s < |p| && InSlot(v, p[s].1);
      assert slots[s] == p[s];
    }
    if InNode(v, slots) {
      var s :| 0 <= s < |slots| && InSlot(v, slots[s].1);
      if s < |p| {
        assert p[s] == slots[s];
      }
    }
  }

  lemma {:induction false} NodeFilesExactly(slots: seq<(string, Value)>, v: Value)
    ensures v in NodeFiles(slots) <==> IsAnOutputFile(v) && InNode(v, slots)
  {
    if slots != [] {
      var p := slots[..|slots| - 1];
      NodeFilesExactly(p, v);
      SlotFilesExactly(slots[|slots| - 1].1, v);
      InNodeSplit(slots, v);
    }
  }

  /** `v` sits in some slot of some node. */
  predicate InOutputs(v: Value, nodes: seq<(string, Value)>) {
    exists n :: 0 <= n < |nodes| && nodes[n].1.Dict? && InNode(v, nodes[n].1.entries)
  }

  lemma InOutputsSplit(nodes: seq<(string, Value)>, v: Value)
    requires nodes != []
    ensures InOutputs(v, nodes) <==> (InOutputs(v, nodes[..|nodes| - 1])
      || (nodes[|nodes| - 1].1.Dict? && InNode(v, nodes[|nodes| - 1].1.entries)))
  {
    var p := nodes[..|nodes| - 1];
    if InOutputs(v, p) {
      var n :| 0 <= n < |p| && p[n].1.Dict? && InNode(v, p[n].1.entries);
      assert nodes[n] == p[n];
    }
    if InOutputs(v, nodes) {
      var n :| 0 <= n < |nodes| && nodes[n].1.Dict? && InNode(v, nodes[n].1.entries);
      if n < |p| {
        assert p[n] == nodes[n];
      }
    }
  }

  /** The collection keeps exactly the output-file descriptors found in some slot of some
      node, whether they appear on their own or inside a list. */
  lemma {:induction false} AllFilesExactly(nodes: seq<(string, Value)>, v: Value)
    ensures v in AllFiles(nodes) <==> IsAnOutputFile(v) && InOutputs(v, nodes)
  {
    if nodes != [] {
      AllFilesExactly(nodes[..|nodes| - 1], v);
      InOutputsSplit(nodes, v);
      var node := nodes[|nodes| - 1].1;
      if node.Dict? {
        NodeFilesExactly(node.entries, v);
      }
    }
  }

  /** The TypeError `os.path.join` raises for a component that is not a string. */
  function JoinTypeError(v: Value): string {
    "join() argument must be str, bytes, or os.PathLike object, not '" + TypeName(v) + "'"
  }

  /** `os.path.join(root, output["subfolder"], output["filename"])`: both lookups come before
      the join, so a missing key raises a KeyError naming it, subfolder first; then a
      component that is not a string raises a TypeError, subfolder first; otherwise the
      joined path. */
  function DescriptorPath(root: string, d: Value): (r: Outcome<string>)
    requires d.Dict?
    ensures Lookup(d.entries, "subfolder").None? ==> r == Raised("'subfolder'")
    ensures Lookup(d.entries, "subfolder").Some? && Lookup(d.entries, "filename").None? ==> r == Raised("'filename'")
    ensures Lookup(d.entries, "subfolder").Some? && Lookup(d.entries, "filename").Some? ==>
      var sub, file := DictGet(d.entries, "subfolder"), DictGet(d.entries, "filename");
      && (!sub.Str? ==> r == Raised(JoinTypeError(sub)))
      && (sub.Str? && !file.Str? ==> r == Raised(JoinTypeError(file)))
    ensures r.Returned? <==> (DictGet(d.entries, "subfolder").Str? && DictGet(d.entries, "filename").Str?)
    ensures r.Returned? ==>
      r.value == PathJoin(root, DictGet(d.entries, "subfolder").s, DictGet(d.entries, "filename").s)
  {
    match (Lookup(d.entries, "subfolder"), Lookup(d.entries, "filename"))
    case (None, _) => Raised("'subfolder'")
    case (_, None) => Raised("'filename'")
    case (Some(sub), Some(file)) =>
      if !sub.Str? then Raised(JoinTypeError(sub))
      else if !file.Str? then Raised(JoinTypeError(file))
      else Returned(PathJoin(root, sub.s, file.s))
  }

  predicate AllDicts(files: seq<Value>) {
    forall i :: 0 <= i < |files| ==> files[i].Dict?
  }

  /** `[os.path.join(...) for output in output_files]`: one path per descriptor, in order,
      or the exception of the first descriptor that cannot be joined. */
  function ImagePaths(root: string, files: seq<Value>): (r: Outcome<seq<string>>)
    requires AllDicts(files)
    ensures r.Returned? <==> forall i :: 0 <= i < |files| ==> DescriptorPath(root, files[i]).Returned?
    ensures r.Returned? ==> (|r.value| == |files|
      && forall i :: 0 <= i < |files| ==> r.value[i] == DescriptorPath(root, files[i]).value)
  {
    if files == [] then Returned([])
    else
      match DescriptorPath(root, files[0])
      case Raised(e) => Raised(e)
      case Returned(path) =>
        assert forall i :: 0 < i < |files| ==> files[i] == files[1..][i - 1];
        match ImagePaths(root, files[1..])
        case Raised(e) => Raised(e)
        case Returned(rest) => Returned([path] + rest)
  }

  /** A comprehension that raises raises the exception of its first descriptor that cannot
      be joined. */
  lemma {:induction false} ImagePathsFirstFailure(root: string, files: seq<Value>)
    requires AllDicts(files)
    ensures ImagePaths(root, files).Raised? ==> exists k :: (0 <= k < |files|
      && (forall i :: 0 <= i < k ==> DescriptorPath(root, files[i]).Returned?)
      && DescriptorPath(root, files[k]) == Raised(ImagePaths(root, files).error))
  {
    if files != [] && DescriptorPath(root, files[0]).Returned? {
      var rest := files[1..];
      assert forall i :: 0 < i < |files| ==> files[i] == rest[i - 1];
      ImagePathsFirstFailure(root, rest);
      if ImagePaths(root, rest).Raised? {
        var k :| 0 <= k < |rest|
          && (forall i :: 0 <= i < k ==> DescriptorPath(root, rest[i]).Returned?)
          && DescriptorPath(root, rest[k]) == Raised(ImagePaths(root, rest).error);
        assert DescriptorPath(root, files[k + 1]) == Raised(ImagePaths(root, files).error);
      }
    }
  }

  /** `".".join(path.split(".")[:-1]) + ".txt"`: the path without its last "."-segment, plus ".txt". */
  function SidecarPath(path: string): (txt: string)
    ensures |txt| >= 4 && txt[|txt| - 4..] == ".txt"
  {
    AllButLastSegment(path, '.') + ".txt"
  }

  /** The k-th character counted from the end. */
  function FromEnd(s: string, k: nat): char
    requires k < |s|
  {
    s[|s| - 1 - k]
  }

  /** Two ways of cutting a string at a "." with no "." after the cut cut it at the same place. */
  lemma LastDotUnique(p: string, a: string, l: string, stem: string, ext: string)
    requires p == a + "." + l && p == stem + "." + ext
    requires '.' !in l && '.' !in ext
    ensures |l| == |ext|
  {
    assert forall k :: 0 <= k < |ext| ==> FromEnd(p, k) == FromEnd(ext, k);
    assert forall k :: 0 <= k < |l| ==> FromEnd(p, k) == FromEnd(l, k);
    assert FromEnd(p, |l|) == '.' && FromEnd(p, |ext|) == '.';
  }

  /** A path with an extension has the sidecar that swaps it for "txt"; a path with no "."
      at all has the bare ".txt" as its sidecar. */
  lemma SidecarReplacesExtension(stem: string, ext: string)
    requires '.' !in ext
    ensures SidecarPath(stem + "." + ext) == stem + ".txt"
    ensures '.' !in stem ==> SidecarPath(stem) == ".txt"
  {
    var p := stem + "." + ext;
    LastSegmentSplit(p, '.');
    LastSegmentSplit(stem, '.');
    var a, l := AllButLastSegment(p, '.'), LastSegment(p, '.');
    assert p == a + "." + l;
    LastDotUnique(p, a, l, stem, ext);
    assert a == p[..|a|];
    assert stem == p[..|stem|];
  }

  /** The sidecars of `paths` that exist, in the order of their image paths. */
  function ExistingSidecars(paths: seq<string>, fs: set<string>): seq<string> {
    if paths == [] then []
    else
      ExistingSidecars(paths[..|paths| - 1], fs)
      + (if SidecarPath(paths[|paths| - 1]) in fs then [SidecarPath(paths[|paths| - 1])] else [])
  }

  /** The `output_text_paths` loop: each image path's sidecar, kept when it exists. */
  method SidecarPaths(paths: seq<string>, fs: set<string>) returns (sidecars: seq<string>)
    ensures sidecars == ExistingSidecars(paths, fs)
  {
    sidecars := [];
    for i := 0 to |paths|
      invariant sidecars == ExistingSidecars(paths[..i], fs)
    {
      assert paths[..i + 1][..i] == paths[..i];
      var txtPath := SidecarPath(paths[i]);
      if txtPath in fs {
        sidecars := sidecars + [txtPath];
      }
    }
    assert paths[..|paths|] == paths;
  }

  /** There is at most one sidecar per image path, each one exists, and each one existing
      sidecar of an image path is there. */
  lemma {:induction false} ExistingSidecarsExactly(paths: seq<string>, fs: set<string>)
    ensures |ExistingSidecars(paths, fs)| <= |paths|
    ensures forall t :: t in ExistingSidecars(paths, fs) <==>
      (t in fs && exists i :: 0 <= i < |paths| && t == SidecarPath(paths[i]))
  {
    if paths != [] {
      var p := paths[..|paths| - 1];
      ExistingSidecarsExactly(p, fs);
      assert forall i :: 0 <= i < |p| ==> p[i] == paths[i];
      forall t | t in fs && (exists i :: 0 <= i < |paths| && t == SidecarPath(paths[i]))
        ensures t in ExistingSidecars(paths, fs)
      {
        var i :| 0 <= i < |paths| && t == SidecarPath(paths[i]);
        if i < |p| {
          assert t == SidecarPath(p[i]);
        }
      }
    }
  }
}
