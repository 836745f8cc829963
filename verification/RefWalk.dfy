/** `find_unresolved_openapi_refs`: the walk over a document, against occurrences counted by position. */
module RefWalk {
  import opened Common
  import opened Text
  import opened Json
  import opened JsonPointer

  // ----- an independent notion of occurrence -----

  /** The children of a node by position, with the label the walk gives them. */
  function Children(node: Value): (children: Fields)
  {
    match node
    case Obj(fields) => fields
    case Arr(items) => seq(|items|, i requires 0 <= i < |items| => Entry(Digits(i, 10), items[i]))
    case _ => []
  }

  /** A child of a mapping has its key, a child of a list the decimal numeral of its position. */
  lemma ChildIs(node: Value, i: nat)
    requires i < |Children(node)|
    ensures node.Obj? ==> |Children(node)| == |node.fields| && Children(node)[i] == node.fields[i]
    ensures node.Arr? ==>
              |Children(node)| == |node.items| && Children(node)[i].value == node.items[i] && Spells(Children(node)[i].key, 10, i)
  {
    DigitsValue(i, 10);
  }

  /** A place in a document: child positions from the root. */
  type Path = seq<nat>

  function NodeAt(node: Value, path: Path): Option<Value>
  {
    if path == [] then Some(node)
    else if path[0] < |Children(node)| then NodeAt(Children(node)[path[0]].value, path[1..])
    else None
  }

  /** The place holds a mapping whose reference does not resolve in spec. */
  ghost predicate Dangling(spec: Value, node: Value, path: Path)
  {
    match NodeAt(node, path)
    case None => false
    case Some(found) => RefOf(found).Some? && !Resolves(spec, RefOf(found).value)
  }

  function Message(pointer: string, ref: string): string
  {
    pointer + ": unresolved $ref -> " + ref
  }

  function Under(pointer: string, key: string): string
  {
    pointer + "/" + key
  }

  /** The line the walk reports for a place. */
  function Line(node: Value, pointer: string, path: Path): string
    requires NodeAt(node, path).Some? && RefOf(NodeAt(node, path).value).Some?
  {
    if path == [] then Message(pointer, RefOf(node).value)
    else
      var child := Children(node)[path[0]];
      Line(child.value, Under(pointer, child.key), path[1..])
  }

  /** The keys and positions from a node down to a place. */
  function Labels(node: Value, path: Path): seq<string>
    requires NodeAt(node, path).Some?
  {
    if path == [] then [] else
    var child := Children(node)[path[0]];
    [child.key] + Labels(child.value, path[1..])
  }

  function Slashed(labels: seq<string>): string
  {
    if labels == [] then "" else "/" + labels[0] + Slashed(labels[1..])
  }

  lemma OneLabelOn(pointer: string, slash: string, key: string, rest: string)
    ensures pointer + slash + key + rest == pointer + (slash + key + rest)
  {
  }

  lemma SlashedStep(pointer: string, key: string, labels: seq<string>)
    ensures Under(pointer, key) + Slashed(labels) == pointer + Slashed([key] + labels)
  {
    assert ([key] + labels)[1..] == labels;
    OneLabelOn(pointer, "/", key, Slashed(labels));
  }

  lemma {:induction false} LineIsMessage(node: Value, pointer: string, path: Path)
    requires NodeAt(node, path).Some? && RefOf(NodeAt(node, path).value).Some?
    ensures Line(node, pointer, path) == Message(pointer + Slashed(Labels(node, path)), RefOf(NodeAt(node, path).value).value)
  {
    if path == [] {
      assert pointer + "" == pointer;
    } else {
      var child := Children(node)[path[0]];
      LineIsMessage(child.value, Under(pointer, child.key), path[1..]);
      SlashedStep(pointer, child.key, Labels(child.value, path[1..]));
    }
  }

  /** A line names the place by the labels on the way there, each after a slash, and the reference found. */
  lemma LineText(node: Value, path: Path)
    requires NodeAt(node, path).Some? && RefOf(NodeAt(node, path).value).Some?
    ensures Line(node, "", path) == Slashed(Labels(node, path)) + ": unresolved $ref -> " + RefOf(NodeAt(node, path).value).value
  {
    LineIsMessage(node, "", path);
    assert "" + Slashed(Labels(node, path)) == Slashed(Labels(node, path));
  }

  // ----- the walk -----

  function Own(spec: Value, node: Value, pointer: string): seq<string>
  {
    if RefOf(node).Some? && !Resolves(spec, RefOf(node).value) then [Message(pointer, RefOf(node).value)] else []
  }

  /** What the walk reports below a node: its own reference first, then its children in order. */
  function Report(spec: Value, node: Value, pointer: string): seq<string>
    decreases node, 0
  {
    Own(spec, node, pointer) + ReportChildren(spec, node, pointer, |Children(node)|)
  }

  function ReportChildren(spec: Value, node: Value, pointer: string, n: nat): seq<string>
    requires n <= |Children(node)|
    decreases node, 0, n
  {
    if n == 0 then [] else
    var child := Children(node)[n - 1];
    ChildSmaller(node, n - 1);
    ReportChildren(spec, node, pointer, n - 1) + Report(spec, child.value, Under(pointer, child.key))
  }

  lemma ChildSmaller(node: Value, i: nat)
    requires i < |Children(node)|
    ensures Children(node)[i].value < node
  {
    if node.Obj? {
      assert node.fields[i] in node.fields && node.fields[i].value < node.fields[i];
    } else {
      assert node.items[i] in node.items;
    }
  }

  lemma OneMoreChild(spec: Value, node: Value, pointer: string, i: nat)
    requires i < |Children(node)|
    ensures var child := Children(node)[i];
            ReportChildren(spec, node, pointer, i + 1)
            == ReportChildren(spec, node, pointer, i) + Report(spec, child.value, Under(pointer, child.key))
  {
  }

  lemma Regroup(a: seq<string>, b: seq<string>, c: seq<string>)
    ensures (a + b) + c == a + (b + c)
  {
  }

  class Walker {
    const spec: Value
    var errors: seq<string>

    constructor (spec: Value)
      ensures this.spec == spec && errors == []
    {
      this.spec := spec;
      errors := [];
    }

    /** `_walk`: appends to the shared list. */
    method Walk(node: Value, pointer: string)
      modifies this
      ensures errors == old(errors) + Report(spec, node, pointer)
      decreases node, 1
    {
      CheckOwn(node, pointer);
      WalkChildren(node, pointer);
      Regroup(old(errors), Own(spec, node, pointer), ReportChildren(spec, node, pointer, |Children(node)|));
    }

    method WalkChildren(node: Value, pointer: string)
      modifies this
      ensures errors == old(errors) + ReportChildren(spec, node, pointer, |Children(node)|)
      decreases node, 0, 1
    {
      var children := Children(node);
      for i := 0 to |children|
        invariant errors == old(errors) + ReportChildren(spec, node, pointer, i)
      {
        ghost var sofar := ReportChildren(spec, node, pointer, i);
        WalkChild(node, i, children[i], pointer);
        OneMoreChild(spec, node, pointer, i);
        Regroup(old(errors), sofar, Report(spec, children[i].value, Under(pointer, children[i].key)));
      }
    }

    method WalkChild(node: Value, i: nat, child: Entry, pointer: string)
      requires i < |Children(node)| && child == Children(node)[i]
      modifies this
      ensures errors == old(errors) + Report(spec, child.value, Under(pointer, child.key))
      decreases node, 0, 0
    {
      ChildSmaller(node, i);
      Walk(child.value, Under(pointer, child.key));
    }

    method CheckOwn(node: Value, pointer: string)
      modifies this
      ensures errors == old(errors) + Own(spec, node, pointer)
    {
      var ref := RefOf(node);
      if ref.Some? {
        var target := ResolveLocalRef(spec, ref.value);
        if target.None? {
          errors := errors + [Message(pointer, ref.value)];
        }
      }
    }
  }

  method FindUnresolved(spec: Value) returns (errors: seq<string>)
    ensures errors == Report(spec, spec, "")
  {
    var walker := new Walker(spec);
    walker.Walk(spec, "");
    errors := walker.errors;
  }

  // ----- sound and complete -----

  /** A list of places behind a list of lines: the same length, each line that of its place. */
  ghost predicate Explains(spec: Value, node: Value, pointer: string, lines: seq<string>, paths: seq<Path>)
  {
    && |paths| == |lines|
    && forall k :: 0 <= k < |paths| ==> Dangling(spec, node, paths[k]) && lines[k] == Line(node, pointer, paths[k])
  }

  ghost predicate NoRepeats(paths: seq<Path>)
  {
    forall i, j :: 0 <= i < j < |paths| ==> paths[i] != paths[j]
  }

  function Prefixed(i: nat, paths: seq<Path>): (r: seq<Path>)
    ensures |r| == |paths| && forall k :: 0 <= k < |r| ==> r[k] == [i] + paths[k]
  {
    if paths == [] then [] else [[i] + paths[0]] + Prefixed(i, paths[1..])
  }

  /** Places below one child, seen from the node. */
  lemma ChildExplains(spec: Value, node: Value, pointer: string, i: nat, lines: seq<string>, below: seq<Path>)
    requires i < |Children(node)|
    requires Explains(spec, Children(node)[i].value, Under(pointer, Children(node)[i].key), lines, below)
    ensures Explains(spec, node, pointer, lines, Prefixed(i, below))
  {
    var added := Prefixed(i, below);
    forall k | 0 <= k < |added| ensures Dangling(spec, node, added[k]) && lines[k] == Line(node, pointer, added[k]) {
      assert added[k][1..] == below[k];
    }
  }

  lemma ExplainsConcat(spec: Value, node: Value, pointer: string, l1: seq<string>, p1: seq<Path>, l2: seq<string>, p2: seq<Path>)
    requires Explains(spec, node, pointer, l1, p1) && Explains(spec, node, pointer, l2, p2)
    ensures Explains(spec, node, pointer, l1 + l2, p1 + p2)
  {
    var lines, paths := l1 + l2, p1 + p2;
    forall k | 0 <= k < |paths| ensures Dangling(spec, node, paths[k]) && lines[k] == Line(node, pointer, paths[k]) {
      if k < |p1| {
        assert paths[k] == p1[k] && lines[k] == l1[k];
      } else {
        assert paths[k] == p2[k - |p1|] && lines[k] == l2[k - |p1|];
      }
    }
  }

  /** Every path starts below n. */
  ghost predicate Below(paths: seq<Path>, n: nat)
  {
    forall k :: 0 <= k < |paths| ==> paths[k] != [] && paths[k][0] < n
  }

  lemma PrefixedApart(before: seq<Path>, i: nat, below: seq<Path>)
    requires NoRepeats(before) && Below(before, i) && NoRepeats(below)
    ensures NoRepeats(before + Prefixed(i, below)) && Below(before + Prefixed(i, below), i + 1)
  {
    var added := Prefixed(i, below);
    forall x, y | 0 <= x < y < |added| ensures added[x] != added[y] {
      assert added[x][1..] == below[x] && added[y][1..] == below[y];
    }
  }

  /** The list holds the dangling places below the first n children. */
  ghost predicate Covers(spec: Value, node: Value, n: nat, paths: seq<Path>)
  {
    forall path: Path :: path != [] && path[0] < n && Dangling(spec, node, path) ==> path in paths
  }

  lemma PrefixedCovers(spec: Value, node: Value, i: nat, before: seq<Path>, below: seq<Path>)
    requires i < |Children(node)| && Covers(spec, node, i, before)
    requires forall path: Path :: Dangling(spec, Children(node)[i].value, path) ==> path in below
    ensures Covers(spec, node, i + 1, before + Prefixed(i, below))
  {
    var added := Prefixed(i, below);
    forall path: Path | path != [] && path[0] < i + 1 && Dangling(spec, node, path) ensures path in before + added {
      if path[0] == i {
        assert Dangling(spec, Children(node)[i].value, path[1..]);
        var k :| 0 <= k < |below| && below[k] == path[1..];
        assert path == [i] + path[1..];
        assert added[k] == path;
      }
    }
  }

  lemma ChildAdded(spec: Value, node: Value, pointer: string, i: nat,
                   sofar: seq<string>, before: seq<Path>, lines: seq<string>, below: seq<Path>)
    requires i < |Children(node)|
    requires Explains(spec, node, pointer, sofar, before) && NoRepeats(before) && Below(before, i) && Covers(spec, node, i, before)
    requires Explains(spec, Children(node)[i].value, Under(pointer, Children(node)[i].key), lines, below) && NoRepeats(below)
    requires forall path: Path :: Dangling(spec, Children(node)[i].value, path) ==> path in below
    ensures var paths := before + Prefixed(i, below);
            Explains(spec, node, pointer, sofar + lines, paths) && NoRepeats(paths) && Below(paths, i + 1) && Covers(spec, node, i + 1, paths)
  {
    ChildExplains(spec, node, pointer, i, lines, below);
    ExplainsConcat(spec, node, pointer, sofar, before, lines, Prefixed(i, below));
    PrefixedApart(before, i, below);
    PrefixedCovers(spec, node, i, before, below);
  }

  /** The first n children are reported by these lines, for these places. */
  ghost predicate PartTold(spec: Value, node: Value, pointer: string, n: nat, lines: seq<string>, paths: seq<Path>)
  {
    Explains(spec, node, pointer, lines, paths) && NoRepeats(paths) && Below(paths, n) && Covers(spec, node, n, paths)
  }

  lemma OneMoreTold(spec: Value, node: Value, pointer: string, i: nat, before: seq<Path>, below: seq<Path>)
    requires i < |Children(node)| && PartTold(spec, node, pointer, i, ReportChildren(spec, node, pointer, i), before)
    requires var child := Children(node)[i];
             Explains(spec, child.value, Under(pointer, child.key), Report(spec, child.value, Under(pointer, child.key)), below)
    requires NoRepeats(below) && forall path: Path :: Dangling(spec, Children(node)[i].value, path) ==> path in below
    ensures PartTold(spec, node, pointer, i + 1, ReportChildren(spec, node, pointer, i + 1), before + Prefixed(i, below))
  {
    var child := Children(node)[i];
    OneMoreChild(spec, node, pointer, i);
    ChildAdded(spec, node, pointer, i, ReportChildren(spec, node, pointer, i), before, Report(spec, child.value, Under(pointer, child.key)), below);
  }

  lemma {:induction false} ChildrenExplained(spec: Value, node: Value, pointer: string, n: nat) returns (paths: seq<Path>)
    requires n <= |Children(node)|
    ensures PartTold(spec, node, pointer, n, ReportChildren(spec, node, pointer, n), paths)
    decreases node, 0, n
  {
    if n == 0 {
      paths := [];
    } else {
      var before := ChildrenExplained(spec, node, pointer, n - 1);
      var child := Children(node)[n - 1];
      ChildSmaller(node, n - 1);
      var below := ReportExplained(spec, child.value, Under(pointer, child.key));
      OneMoreTold(spec, node, pointer, n - 1, before, below);
      paths := before + Prefixed(n - 1, below);
    }
  }

  lemma OwnExplained(spec: Value, node: Value, pointer: string)
    ensures Explains(spec, node, pointer, Own(spec, node, pointer), if Dangling(spec, node, []) then [[]] else [])
  {
  }

  lemma InsideChildren(spec: Value, node: Value, path: Path)
    requires Dangling(spec, node, path) && path != []
    ensures path[0] < |Children(node)|
  {
  }

  /** The report lists every dangling place below a node, each once, and nothing else. */
  lemma {:induction false} ReportExplained(spec: Value, node: Value, pointer: string) returns (paths: seq<Path>)
    ensures Explains(spec, node, pointer, Report(spec, node, pointer), paths) && NoRepeats(paths)
    ensures forall path: Path :: Dangling(spec, node, path) ==> path in paths
    decreases node, 0
  {
    var n := |Children(node)|;
    var below := ChildrenExplained(spec, node, pointer, n);
    var own: seq<Path> := if Dangling(spec, node, []) then [[]] else [];
    OwnExplained(spec, node, pointer);
    ExplainsConcat(spec, node, pointer, Own(spec, node, pointer), own, ReportChildren(spec, node, pointer, n), below);
    paths := own + below;
    forall path: Path | Dangling(spec, node, path) ensures path in paths {
      if path != [] {
        InsideChildren(spec, node, path);
        assert path in below;
      } else {
        assert path in own;
      }
    }
  }

  /** The report is empty exactly when every reference at every depth resolves. */
  lemma EmptyIffResolved(spec: Value)
    ensures Report(spec, spec, "") == [] <==> forall path: Path :: !Dangling(spec, spec, path)
  {
    var paths := ReportExplained(spec, spec, "");
    if Report(spec, spec, "") != [] {
      assert paths[0] in paths;
    }
  }

  // ----- the same by sets of references -----

  lemma {:induction false} RefsOfItemsMember(items: seq<Value>, ref: string)
    ensures ref in RefsOfItems(items) <==> exists i :: 0 <= i < |items| && ref in Refs(items[i])
  {
    if items != [] {
      RefsOfItemsMember(items[1..], ref);
      assert forall i :: 1 <= i < |items| ==> items[i] == items[1..][i - 1];
    }
  }

  lemma {:induction false} RefsOfFieldsMember(fields: Fields, ref: string)
    ensures ref in RefsOfFields(fields) <==> exists i :: 0 <= i < |fields| && ref in Refs(fields[i].value)
  {
    if fields != [] {
      RefsOfFieldsMember(fields[1..], ref);
      assert forall i :: 1 <= i < |fields| ==> fields[i] == fields[1..][i - 1];
    }
  }

  /** A reference is in the set of a node if it is its own or in the set of a child. */
  lemma RefsByChildren(node: Value, ref: string)
    ensures ref in Refs(node) <==>
            RefOf(node) == Some(ref) || exists i :: 0 <= i < |Children(node)| && ref in Refs(Children(node)[i].value)
  {
    match node
    case Obj(fields) =>
      RefsOfFieldsMember(fields, ref);
      assert Children(node) == fields;
    case Arr(items) =>
      RefsOfItemsMember(items, ref);
      assert forall i :: 0 <= i < |items| ==> Children(node)[i].value == items[i];
    case _ =>
  }

  lemma {:induction false} PlacedRef(node: Value, ref: string) returns (path: Path)
    requires ref in Refs(node)
    ensures NodeAt(node, path).Some? && RefOf(NodeAt(node, path).value) == Some(ref)
    decreases node
  {
    RefsByChildren(node, ref);
    if RefOf(node) == Some(ref) {
      path := [];
    } else {
      var i :| 0 <= i < |Children(node)| && ref in Refs(Children(node)[i].value);
      ChildSmaller(node, i);
      var rest := PlacedRef(Children(node)[i].value, ref);
      path := [i] + rest;
      assert path[1..] == rest;
    }
  }

  lemma {:induction false} PlaceInRefs(node: Value, path: Path)
    requires NodeAt(node, path).Some? && RefOf(NodeAt(node, path).value).Some?
    ensures RefOf(NodeAt(node, path).value).value in Refs(node)
    decreases |path|
  {
    var ref := RefOf(NodeAt(node, path).value).value;
    RefsByChildren(node, ref);
    if path != [] {
      PlaceInRefs(Children(node)[path[0]].value, path[1..]);
    }
  }

  /** A document passes the check exactly when every reference it contains resolves in it. */
  lemma CleanIffAllResolve(spec: Value)
    ensures Report(spec, spec, "") == [] <==> forall ref :: ref in Refs(spec) ==> Resolves(spec, ref)
  {
    EmptyIffResolved(spec);
    if Report(spec, spec, "") == [] {
      forall ref | ref in Refs(spec) ensures Resolves(spec, ref) {
        var path := PlacedRef(spec, ref);
        assert !Dangling(spec, spec, path);
      }
    }
    if forall ref :: ref in Refs(spec) ==> Resolves(spec, ref) {
      forall path: Path ensures !Dangling(spec, spec, path) {
        if Dangling(spec, spec, path) {
          PlaceInRefs(spec, path);
        }
      }
    }
  }
}
