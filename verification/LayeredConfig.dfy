/**
  Layered configuration: nested dicts merged from the lowest layer to the
  highest. Dicts merge key by key; anything else is replaced whole.
 */
module LayeredConfig {
  import opened Wrappers

  type Key = string
  type Path = seq<Key>
  type Dict = map<Key, Node>

  // A configuration value: a nested dict, or a scalar or list taken whole.
  datatype Node = Sub(dict: map<Key, Node>) | Leaf(data: string)

  function Merge(base: Dict, over: Dict): Dict
    decreases Sub(over)
  {
    map k | k in base.Keys + over.Keys ::
      if k !in over then base[k]
      else if over[k].Sub? && k in base && base[k].Sub? then Sub(Merge(base[k].dict, over[k].dict))
      else over[k]
  }

  // ---------------------------------------------------------------------------
  // Path semantics

  // What a walk along a path meets: the end of a dict's knowledge, a non-dict on the way,
  // a dict, or a leaf.
  datatype Status = Absent | Hidden | IsDict | IsLeaf(data: string)

  function At(d: Dict, p: Path): Status
    decreases |p|
  {
    if p == [] then IsDict
    else if p[0] !in d then Absent
    else match d[p[0]]
      case Leaf(x) => if |p| == 1 then IsLeaf(x) else Hidden
      case Sub(s) => At(s, p[1..])
  }

  // What can be read at a path; a missing key and a non-dict on the way read the same.
  function Seen(d: Dict, p: Path): Status {
    if At(d, p) == Hidden then Absent else At(d, p)
  }

  // The higher operand of a merge decides every path it says anything about: with a leaf,
  // with a dict, or by hiding it behind a non-dict.
  lemma {:induction false} MergeAt(base: Dict, over: Dict, p: Path)
    ensures Seen(Merge(base, over), p) == if At(over, p) == Absent then Seen(base, p) else Seen(over, p)
    decreases |p|
  {
    if p != [] && p[0] in over && over[p[0]].Sub? {
      if p[0] in base && base[p[0]].Sub? {
        MergeAt(base[p[0]].dict, over[p[0]].dict, p[1..]);
      } else if |p| > 1 {
        assert Merge(base, over)[p[0]] == over[p[0]];
      }
    }
  }

  lemma SeenAtKey(d: Dict, k: Key)
    ensures Seen(d, [k]) == if k !in d then Absent else match d[k] case Leaf(x) => IsLeaf(x) case Sub(_) => IsDict
  {
    var p: Path := [k];
    if k in d && d[k].Sub? {
      assert At(d[k].dict, p[1..]) == IsDict;
    }
    assert At(d, p) != Hidden;
  }

  // Dicts that read the same at every path are equal, so the lemma above pins Merge down completely.
  lemma {:induction false} PathsDetermineDict(a: Dict, b: Dict)
    requires forall p :: Seen(a, p) == Seen(b, p)
    ensures a == b
    decreases Sub(a)
  {
    forall k: Key
      ensures k in a <==> k in b
      ensures k in a && k in b ==> a[k] == b[k]
    {
      SeenAtKey(a, k);
      SeenAtKey(b, k);
      assert Seen(a, [k]) == Seen(b, [k]);
      if k in a && k in b && a[k].Sub? {
        forall p: Path
          ensures Seen(a[k].dict, p) == Seen(b[k].dict, p)
        {
          assert ([k] + p)[1..] == p;
          assert Seen(a, [k] + p) == Seen(b, [k] + p);
        }
        PathsDetermineDict(a[k].dict, b[k].dict);
      }
    }
  }

  // Layers are listed from the lowest to the highest.
  function MergeAll(layers: seq<Dict>): Dict {
    if layers == [] then map[] else Merge(MergeAll(layers[..|layers| - 1]), layers[|layers| - 1])
  }

  // Reference definition: the highest layer that does not leave the path open decides it.
  function Decide(layers: seq<Dict>, p: Path): Status {
    if layers == [] then Seen(map[], p)
    else if At(layers[|layers| - 1], p) == Absent then Decide(layers[..|layers| - 1], p)
    else Seen(layers[|layers| - 1], p)
  }

  lemma {:induction false} HighestLayerDecides(layers: seq<Dict>, p: Path)
    ensures Seen(MergeAll(layers), p) == Decide(layers, p)
  {
    if layers != [] {
      HighestLayerDecides(layers[..|layers| - 1], p);
      MergeAt(MergeAll(layers[..|layers| - 1]), layers[|layers| - 1], p);
    }
  }

  // ---------------------------------------------------------------------------
  // Algebra

  lemma MergeIdentity(d: Dict)
    ensures Merge(map[], d) == d && Merge(d, map[]) == d
  {
    assert Merge(map[], d).Keys == d.Keys;
    assert Merge(d, map[]).Keys == d.Keys;
  }

  lemma {:induction false} MergeIdempotent(d: Dict)
    ensures Merge(d, d) == d
    decreases Sub(d)
  {
    forall k | k in d
      ensures Merge(d, d)[k] == d[k]
    {
      if d[k].Sub? {
        MergeIdempotent(d[k].dict);
      }
    }
    assert Merge(d, d).Keys == d.Keys;
  }

  // Everything of `x` is overridden by `y`.
  ghost predicate Covered(x: Dict, y: Dict)
    decreases Sub(x)
  {
    forall k | k in x :: k in y && (x[k].Sub? && y[k].Sub? ==> Covered(x[k].dict, y[k].dict))
  }

  lemma {:induction false} CoveredIffMergeIsOver(x: Dict, y: Dict)
    ensures Merge(x, y) == y <==> Covered(x, y)
    decreases Sub(x)
  {
    forall k | k in x
      ensures (k in y && Merge(x, y)[k] == y[k]) <==>
        (k in y && (x[k].Sub? && y[k].Sub? ==> Covered(x[k].dict, y[k].dict)))
    {
      if k in y && x[k].Sub? && y[k].Sub? {
        CoveredIffMergeIsOver(x[k].dict, y[k].dict);
      }
    }
    if Covered(x, y) {
      assert Merge(x, y).Keys == y.Keys;
    } else if Merge(x, y) == y {
      assert Merge(x, y).Keys == y.Keys;
      assert forall k | k in x :: k in Merge(x, y).Keys;
    }
  }

  // The shapes on which a middle layer does not cut a lower dict off from a higher one:
  // wherever dict, non-dict, dict meet at a key, the lower dict must be overridden anyway.
  ghost predicate Compatible(a: Dict, b: Dict, c: Dict)
    decreases Sub(a)
  {
    forall k | k in a && k in b && k in c && a[k].Sub? && c[k].Sub? ::
      if b[k].Sub? then Compatible(a[k].dict, b[k].dict, c[k].dict) else Covered(a[k].dict, c[k].dict)
  }

  lemma {:induction false} AssociativeAtKey(a: Dict, b: Dict, c: Dict, k: Key)
    requires k in a.Keys + b.Keys + c.Keys
    ensures Merge(Merge(a, b), c)[k] == Merge(a, Merge(b, c))[k] <==>
      (k in a && k in b && k in c && a[k].Sub? && c[k].Sub? ==>
        if b[k].Sub? then Compatible(a[k].dict, b[k].dict, c[k].dict) else Covered(a[k].dict, c[k].dict))
    decreases Sub(a), 0
  {
    if k in a && k in b && k in c && a[k].Sub? && c[k].Sub? {
      if b[k].Sub? {
        MergeAssociativeIff(a[k].dict, b[k].dict, c[k].dict);
      } else {
        CoveredIffMergeIsOver(a[k].dict, c[k].dict);
      }
    }
  }

  // Merging is associative on exactly the compatible triples.
  lemma {:induction false} MergeAssociativeIff(a: Dict, b: Dict, c: Dict)
    ensures Merge(Merge(a, b), c) == Merge(a, Merge(b, c)) <==> Compatible(a, b, c)
    decreases Sub(a), 1
  {
    var left, right := Merge(Merge(a, b), c), Merge(a, Merge(b, c));
    assert left.Keys == right.Keys;
    forall k | k in left
      ensures left[k] == right[k] <==>
        (k in a && k in b && k in c && a[k].Sub? && c[k].Sub? ==>
          if b[k].Sub? then Compatible(a[k].dict, b[k].dict, c[k].dict) else Covered(a[k].dict, c[k].dict))
    {
      AssociativeAtKey(a, b, c, k);
    }
  }

  // Dict, scalar, dict at one key: grouping matters.
  lemma MergeIsNotAssociative()
    ensures var a: Dict, b: Dict, c: Dict :=
        map["k" := Sub(map["x" := Leaf("1")])], map["k" := Leaf("5")], map["k" := Sub(map[])];
      Merge(Merge(a, b), c) != Merge(a, Merge(b, c))
  {
    var a: Dict, b: Dict, c: Dict :=
      map["k" := Sub(map["x" := Leaf("1")])], map["k" := Leaf("5")], map["k" := Sub(map[])];
    MergeAssociativeIff(a, b, c);
    assert !Covered(a["k"].dict, c["k"].dict) by {
      assert "x" in a["k"].dict && "x" !in c["k"].dict;
    }
  }

  // ---------------------------------------------------------------------------
  // The layered store

  const FRAMEWORK := "framework"
  const ENVIRONMENT := "environment"
  const PROJECT := "project"
  const AGENT := "agent"
  const RUNTIME := "runtime"
  const LAYER_ORDER: seq<string> := [FRAMEWORK, ENVIRONMENT, PROJECT, AGENT, RUNTIME]

  function Find(n: Node, p: Path): Option<Node> {
    if p == [] then Some(n)
    else if n.Sub? && p[0] in n.dict then Find(n.dict[p[0]], p[1..])
    else None
  }

  // `Find` returns a value exactly where the dict can be read, and the value it reads.
  lemma {:induction false} FindIsSeen(d: Dict, p: Path)
    ensures Find(Sub(d), p) == None <==> Seen(d, p) == Absent
    ensures forall x :: Find(Sub(d), p) == Some(Leaf(x)) <==> Seen(d, p) == IsLeaf(x)
    decreases |p|
  {
    if p != [] && p[0] in d {
      match d[p[0]]
      case Sub(s) => FindIsSeen(s, p[1..]);
      case Leaf(x) => assert |p| > 1 ==> Find(Leaf(x), p[1..]) == None;
    }
  }

  function Layers(m: map<string, Dict>): seq<Dict>
    requires forall n | n in LAYER_ORDER :: n in m
  {
    [m[FRAMEWORK], m[ENVIRONMENT], m[PROJECT], m[AGENT], m[RUNTIME]]
  }

  // Runtime before agent, agent before project, project before environment, environment before framework:
  // the first of them that says anything about the path decides it.
  function Precedence(m: map<string, Dict>, p: Path): Status
    requires forall n | n in LAYER_ORDER :: n in m
  {
    if At(m["runtime"], p) != Absent then Seen(m["runtime"], p)
    else if At(m["agent"], p) != Absent then Seen(m["agent"], p)
    else if At(m["project"], p) != Absent then Seen(m["project"], p)
    else if At(m["environment"], p) != Absent then Seen(m["environment"], p)
    else Seen(m["framework"], p)
  }

  lemma LayersInOrder(m: map<string, Dict>, p: Path)
    requires forall n | n in LAYER_ORDER :: n in m
    ensures Decide(Layers(m), p) == Precedence(m, p)
  {
    var all := Layers(m);
    assert all[..4][..3] == all[..3] && all[..3][..2] == all[..2] && all[..2][..1] == all[..1] && all[..1][..0] == [];
    assert Decide([], p) == Seen(map[], p);
    assert Decide(all[..1], p) == Seen(m[FRAMEWORK], p);
    assert Decide(all[..2], p) ==
      if At(m[ENVIRONMENT], p) != Absent then Seen(m[ENVIRONMENT], p) else Decide(all[..1], p);
    assert Decide(all[..3], p) == if At(m[PROJECT], p) != Absent then Seen(m[PROJECT], p) else Decide(all[..2], p);
    assert Decide(all[..4], p) == if At(m[AGENT], p) != Absent then Seen(m[AGENT], p) else Decide(all[..3], p);
  }

  // Merging onto the highest layer, then resolving, against merging onto the resolved result.
  lemma OverrideMergesOnTop(layers: seq<Dict>, data: Dict)
    requires |layers| == 5
    ensures MergeAll(layers[4 := Merge(layers[4], data)]) == Merge(MergeAll(layers), data)
       <==> Compatible(MergeAll(layers[..4]), layers[4], data)
  {
    var after := layers[4 := Merge(layers[4], data)];
    assert after[..4] == layers[..4];
    MergeAssociativeIff(MergeAll(layers[..4]), layers[4], data);
  }

  method DeepMerge(base: Dict, over: Dict) returns (result: Dict)
    ensures result == Merge(base, over)
    decreases Sub(over)
  {
    result := base;
    var todo := over.Keys;
    while todo != {}
      invariant todo <= over.Keys
      invariant result.Keys == base.Keys + (over.Keys - todo)
      invariant forall k | k in result :: result[k] == if k in over && k !in todo then Merge(base, over)[k] else base[k]
      decreases todo
    {
      var k :| k in todo;
      var v := over[k];
      if v.Sub? && k in result && result[k].Sub? {
        var merged := DeepMerge(result[k].dict, v.dict);
        result := result[k := Sub(merged)];
      } else {
        result := result[k := v];
      }
      todo := todo - {k};
    }
  }

  class LayeredConfig {
    var layers: map<string, Dict>

    ghost predicate Valid()
      reads this
    {
      forall n :: n in layers <==> n in LAYER_ORDER
    }

    ghost function Resolved(): Dict
      reads this
      requires Valid()
    {
      MergeAll(Layers(layers))
    }

    constructor ()
      ensures Valid() && Resolved() == map[]
    {
      layers := map[FRAMEWORK := map[], ENVIRONMENT := map[], PROJECT := map[], AGENT := map[], RUNTIME := map[]];
      new;
      EmptyLayers(Layers(layers));
    }

    // Replaces one layer; an unknown layer name is a ValueError.
    method Set(layer: string, data: Dict) returns (ok: bool)
      requires Valid()
      modifies this
      ensures Valid()
      ensures ok <==> layer in LAYER_ORDER
      ensures layers == if ok then old(layers)[layer := data] else old(layers)
    {
      ok := layer in layers;
      if ok {
        layers := layers[layer := data];
      }
    }

    // Merges onto the runtime layer. The resolved result is the previous one with `data`
    // merged on top, exactly when no lower dict is cut off by the runtime layer.
    method Override(data: Dict)
      requires Valid()
      modifies this
      ensures Valid()
      ensures layers == old(layers)[RUNTIME := Merge(old(layers[RUNTIME]), data)]
      ensures Resolved() == Merge(old(Resolved()), data) <==>
        Compatible(MergeAll(Layers(old(layers))[..4]), old(layers)[RUNTIME], data)
    {
      OverrideMergesOnTop(Layers(layers), data);
      var merged := DeepMerge(layers[RUNTIME], data);
      layers := layers[RUNTIME := merged];
      assert Layers(layers) == Layers(old(layers))[4 := merged];
    }

    method Resolve() returns (out: Dict)
      requires Valid()
      ensures out == Resolved()
      ensures forall p :: Seen(out, p) == Precedence(layers, p)
    {
      out := map[];
      var i := 0;
      ghost var all := Layers(layers);
      while i < |LAYER_ORDER|
        invariant 0 <= i <= |LAYER_ORDER|
        invariant out == MergeAll(all[..i])
      {
        assert all[..i + 1][..i] == all[..i];
        assert layers[LAYER_ORDER[i]] == all[i];
        out := DeepMerge(out, layers[LAYER_ORDER[i]]);
        i := i + 1;
      }
      assert all[..5] == all;
      forall p
        ensures Seen(out, p) == Precedence(layers, p)
      {
        HighestLayerDecides(all, p);
        LayersInOrder(layers, p);
      }
    }

    method Get(path: Path, default: Node) returns (value: Node)
      requires Valid()
      ensures value == match Find(Sub(Resolved()), path) case Some(n) => n case None => default
      ensures forall x :: Precedence(layers, path) == IsLeaf(x) ==> value == Leaf(x)
      ensures Precedence(layers, path) == Absent ==> value == default
    {
      var resolved := Resolve();
      FindIsSeen(resolved, path);
      assert Seen(resolved, path) == Precedence(layers, path);
      value := Sub(resolved);
      var i := 0;
      while i < |path|
        invariant 0 <= i <= |path|
        invariant Find(value, path[i..]) == Find(Sub(resolved), path)
      {
        assert path[i..][0] == path[i] && path[i..][1..] == path[i + 1..];
        if value.Sub? && path[i] in value.dict {
          value := value.dict[path[i]];
        } else {
          return default;
        }
        i := i + 1;
      }
    }
  }

  lemma {:induction false} EmptyLayers(layers: seq<Dict>)
    requires forall i :: 0 <= i < |layers| ==> layers[i] == map[]
    ensures MergeAll(layers) == map[]
  {
    if layers != [] {
      EmptyLayers(layers[..|layers| - 1]);
      MergeIdentity(map[]);
    }
  }
}
