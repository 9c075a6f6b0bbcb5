/** The small helpers of `utils.py` used by the core: the frame-skip ratio,
    the fps-halving search, and `YamlLinker`, which resolves `@a.b.c`
    references inside a configuration document. */
module Utils {
  import opened Common
  import opened Text

  // ---------------------------------------------------------------------
  // frame_skip_ratio

  /** `max(1, int(input_fps // target_fps))`; a zero target raises. */
  function FrameSkipRatio(inputFps: real, targetFps: real): (r: Result<int>)
    ensures targetFps != 0.0 <==> r.Ok?
    ensures r.Ok? ==> r.value >= 1
    ensures r.Ok? && (inputFps / targetFps).Floor >= 1 ==> r.value == (inputFps / targetFps).Floor
    ensures r.Ok? && (inputFps / targetFps).Floor < 1 ==> r.value == 1
  {
    if targetFps == 0.0 then Err(DivisionByZero)
    else
      var q := (inputFps / targetFps).Floor;
      Ok(if q < 1 then 1 else q)
  }

  /** Keeping every `skip`-th frame of a source at least as fast as the
      target gives a rate of at least the target, and keeping one frame in
      `skip + 1` would fall below it. */
  lemma {:induction false} SkipRatioMeaning(inputFps: real, targetFps: real)
    requires targetFps > 0.0 && inputFps >= targetFps
    ensures var skip := FrameSkipRatio(inputFps, targetFps).value;
      && skip as real * targetFps <= inputFps
      && inputFps < (skip + 1) as real * targetFps
  {
    var q := inputFps / targetFps;
    assert q >= 1.0;
    assert q * targetFps == inputFps;
    var skip := q.Floor;
    assert skip as real <= q < skip as real + 1.0;
    assert skip >= 1;
    assert FrameSkipRatio(inputFps, targetFps).value == skip;
    assert skip as real * targetFps <= q * targetFps;
    var gap := skip as real + 1.0 - q;
    assert gap > 0.0;
    assert gap * targetFps > 0.0;
    assert (skip as real + 1.0) * targetFps == q * targetFps + gap * targetFps;
    assert (skip + 1) as real * targetFps == (skip as real + 1.0) * targetFps;
    assert inputFps < (skip + 1) as real * targetFps;
  }

  /** 30 fps against a target of 25 keeps every frame; 60 fps every other one. */
  lemma SkipRatioExamples()
    ensures FrameSkipRatio(30.0, 25.0) == Ok(1)
    ensures FrameSkipRatio(60.0, 25.0) == Ok(2)
    ensures FrameSkipRatio(10.0, 25.0) == Ok(1)
  {
    assert (30.0 / 25.0).Floor == 1;
    assert (60.0 / 25.0).Floor == 2;
    assert (10.0 / 25.0).Floor == 0;
  }

  // ---------------------------------------------------------------------
  // find_min_possible_fps

  function Pow2(k: nat): (p: real)
    ensures p >= 1.0
  {
    if k == 0 then 1.0 else 2.0 * Pow2(k - 1)
  }

  /** Halve the frame rate until it lies in [25, 50); a rate of at most 25
      is returned as it is. */
  method FindMinPossibleFps(fps0: real) returns (fps: real)
    ensures fps0 <= 25.0 ==> fps == fps0
    ensures fps0 > 25.0 ==> 25.0 <= fps < 50.0
    ensures exists k: nat :: fps * Pow2(k) == fps0
  {
    fps := fps0;
    ghost var k: nat := 0;
    while fps > 25.0
      invariant fps * Pow2(k) == fps0
      invariant fps0 > 25.0 ==> fps >= 25.0
      invariant fps0 <= 25.0 ==> fps == fps0
      decreases fps.Floor
    {
      if 12.5 < fps / 2.0 < 25.0 {
        break;
      }
      fps := fps / 2.0;
      k := k + 1;
    }
  }

  // ---------------------------------------------------------------------
  // YamlLinker

  /** A YAML document: strings, other scalars (numbers, booleans, null),
      lists, and dicts as their entries in insertion order. */
  datatype Yaml = Str(s: string) | Scalar(id: int) | List(items: seq<Yaml>) | Dict(entries: seq<Entry>)
  datatype Entry = Entry(key: string, value: Yaml)

  /** A reference: a string starting with '@'. */
  predicate IsLink(v: Yaml) {
    v.Str? && StartsWith(v.s, "@")
  }

  /** `d[key]` on a dict's entries. */
  function Find(entries: seq<Entry>, key: string): (r: Option<Yaml>)
    ensures r.Some? ==> exists j :: 0 <= j < |entries| && entries[j] == Entry(key, r.value)
    ensures r.None? ==> forall j :: 0 <= j < |entries| ==> entries[j].key != key
    decreases |entries|
  {
    if entries == [] then None
    else if entries[0].key == key then Some(entries[0].value)
    else Find(entries[1..], key)
  }

  /** `get_value(d, path)`: index nested dicts by the keys of the path in
      turn; indexing anything but a dict raises, and so does a missing key. */
  function GetValue(d: Yaml, path: seq<string>): Result<Yaml>
    requires |path| >= 1
    decreases |path|
  {
    if !d.Dict? then Err(NotADict)
    else match Find(d.entries, path[0])
      case None => Err(KeyMissing)
      case Some(v) => if |path| == 1 then Ok(v) else GetValue(v, path[1..])
  }

  /** Indexing along `p + q` is indexing along `p`, then along `q` from the
      value found there: `doc['a']['b']` is `(doc['a'])['b']`. */
  lemma {:induction false} GetValueAppend(d: Yaml, p: seq<string>, q: seq<string>)
    requires |p| >= 1 && |q| >= 1
    ensures GetValue(d, p + q) ==
      match GetValue(d, p)
        case Err(e) => Err(e)
        case Ok(v) => GetValue(v, q)
    decreases |p|
  {
    assert (p + q)[0] == p[0];
    if d.Dict? && Find(d.entries, p[0]).Some? {
      var v := Find(d.entries, p[0]).value;
      if |p| == 1 {
        assert (p + q)[1..] == q;
      } else {
        assert (p + q)[1..] == p[1..] + q;
        GetValueAppend(v, p[1..], q);
      }
    }
  }

  /** `find_end_value(value)`: follow references through `doc` until a value
      that is not a reference. `fuel` bounds the number of references
      followed and stands for Python's recursion limit. */
  function FindEndValue(doc: Yaml, v: Yaml, fuel: nat): (r: Result<Yaml>)
    ensures r.Ok? ==> !IsLink(r.value)
    ensures !IsLink(v) ==> r == Ok(v)
    decreases fuel
  {
    if !IsLink(v) then Ok(v)
    else if fuel == 0 then Err(RecursionLimit)
    else match GetValue(doc, Split(v.s[1..], '.'))
      case Err(e) => Err(e)
      case Ok(w) => FindEndValue(doc, w, fuel - 1)
  }

  /** `@a.b.c` is looked up as `doc['a']['b']['c']` and the value found is
      followed again. */
  lemma {:induction false} FollowLink(doc: Yaml, keys: seq<string>, fuel: nat)
    requires |keys| >= 1
    requires forall k :: 0 <= k < |keys| ==> '.' !in keys[k]
    ensures FindEndValue(doc, Str("@" + Join(keys, '.')), fuel + 1) ==
      match GetValue(doc, keys)
        case Err(e) => Err(e)
        case Ok(w) => FindEndValue(doc, w, fuel)
  {
    var s := "@" + Join(keys, '.');
    assert s[1..] == Join(keys, '.');
    assert StartsWith(s, "@");
    SplitJoin(keys, '.');
  }

  /** A resolved value stays as it is when resolved again. */
  lemma EndValueIsFinal(doc: Yaml, v: Yaml, fuel: nat, fuel': nat)
    requires FindEndValue(doc, v, fuel).Ok?
    ensures FindEndValue(doc, FindEndValue(doc, v, fuel).value, fuel') == FindEndValue(doc, v, fuel)
  {
  }

  /** A self-reference never resolves, however much fuel is given: this is
      the cyclic case, where Python runs into its recursion limit. */
  lemma {:induction false} SelfLinkNeverResolves(fuel: nat)
    ensures FindEndValue(Dict([Entry("a", Str("@a"))]), Str("@a"), fuel) == Err(RecursionLimit)
    decreases fuel
  {
    var doc := Dict([Entry("a", Str("@a"))]);
    assert StartsWith("@a", "@");
    if fuel > 0 {
      assert "@a"[1..] == "a";
      SplitFree("a", '.');
      assert GetValue(doc, ["a"]) == Ok(Str("@a"));
      SelfLinkNeverResolves(fuel - 1);
    }
  }

  /** A chain of two references ends at the plain value. */
  lemma ChainResolves()
    ensures FindEndValue(Dict([Entry("a", Str("@b")), Entry("b", Scalar(5))]), Str("@a"), 2) == Ok(Scalar(5))
  {
    var doc := Dict([Entry("a", Str("@b")), Entry("b", Scalar(5))]);
    FollowLink(doc, ["a"], 1);
    assert Join(["a"], '.') == "a";
    FollowLink(doc, ["b"], 0);
    assert Join(["b"], '.') == "b";
    assert GetValue(doc, ["a"]) == Ok(Str("@b"));
    assert GetValue(doc, ["b"]) == Ok(Scalar(5));
  }

  // Positions inside the document, as paths of entry indices.

  ghost predicate ValidPath(root: Yaml, p: seq<nat>)
    decreases |p|
  {
    p == [] || (root.Dict? && p[0] < |root.entries| && ValidPath(root.entries[p[0]].value, p[1..]))
  }

  ghost function At(root: Yaml, p: seq<nat>): Yaml
    requires ValidPath(root, p)
    decreases |p|
  {
    if p == [] then root else At(root.entries[p[0]].value, p[1..])
  }

  /** `root` with the value at position `p` replaced by `v`. */
  function SetAt(root: Yaml, p: seq<nat>, v: Yaml): Yaml
    decreases |p|
  {
    if p == [] then v
    else if root.Dict? && p[0] < |root.entries| then
      var e := root.entries[p[0]];
      Dict(root.entries[p[0] := e.(value := SetAt(e.value, p[1..], v))])
    else root
  }

  lemma {:induction false} SetAtSame(root: Yaml, p: seq<nat>)
    requires ValidPath(root, p)
    ensures SetAt(root, p, At(root, p)) == root
    decreases |p|
  {
    if p != [] {
      SetAtSame(root.entries[p[0]].value, p[1..]);
      assert root.entries[p[0] := root.entries[p[0]]] == root.entries;
    }
  }

  /** Replacing a dict and then one of its entries is replacing the dict
      with that entry changed; the entry's position stays valid. */
  lemma {:induction false} SetAtEntry(root: Yaml, p: seq<nat>, c: seq<Entry>, i: nat, v: Yaml)
    requires ValidPath(root, p) && i < |c|
    ensures ValidPath(SetAt(root, p, Dict(c)), p + [i])
    ensures At(SetAt(root, p, Dict(c)), p + [i]) == c[i].value
    ensures SetAt(SetAt(root, p, Dict(c)), p + [i], v) == SetAt(root, p, Dict(c[i := c[i].(value := v)]))
    decreases |p|
  {
    if p == [] {
      assert [] + [i] == [i];
      assert [i][1..] == [];
    } else {
      var e := root.entries[p[0]];
      assert (p + [i])[0] == p[0];
      assert (p + [i])[1..] == p[1..] + [i];
      SetAtEntry(e.value, p[1..], c, i, v);
      var inner := SetAt(e.value, p[1..], Dict(c));
      var es := root.entries[p[0] := e.(value := inner)];
      assert es[p[0] := es[p[0]].(value := SetAt(inner, p[1..] + [i], v))]
        == root.entries[p[0] := e.(value := SetAt(e.value, p[1..], Dict(c[i := c[i].(value := v)])))];
    }
  }

  /** What `set_links` guarantees of a dict it has finished: the same keys
      in the same order; each reference replaced by a value that is not a
      reference; plain strings, lists and scalars untouched; nested dicts
      processed in the same way. */
  ghost predicate ResolvedEntries(orig: seq<Entry>, out: seq<Entry>)
    decreases orig, 1
  {
    |orig| == |out| &&
    forall j :: 0 <= j < |orig| ==> out[j].key == orig[j].key && ResolvedValue(orig[j].value, out[j].value)
  }

  ghost predicate ResolvedValue(o: Yaml, n: Yaml)
    decreases o, 0
  {
    match o
      case Dict(es) => n.Dict? && ResolvedEntries(es, n.entries)
      case Str(_) => !IsLink(n) && (!IsLink(o) ==> n == o)
      case _ => n == o
  }

  /** What `set_links` does to `doc`, on the dict at position `path` whose
      entries are `entries`, from entry `i` on: a nested dict is processed
      first, then the rest; a string is replaced by its end value, resolved
      against the document as rewritten so far; anything else is skipped.
      The first failure to resolve ends the walk. */
  function LinkFrom(doc: Yaml, path: seq<nat>, entries: seq<Entry>, i: nat, fuel: nat): Result<Yaml>
    requires i <= |entries|
    decreases entries, |entries| - i
  {
    if i == |entries| then Ok(doc)
    else
      var v := entries[i].value;
      if v.Dict? then
        match LinkFrom(doc, path + [i], v.entries, 0, fuel)
          case Err(e) => Err(e)
          case Ok(next) => LinkFrom(next, path, entries, i + 1, fuel)
      else if v.Str? then
        match FindEndValue(doc, v, fuel)
          case Err(e) => Err(e)
          case Ok(w) => LinkFrom(SetAt(doc, path + [i], w), path, entries, i + 1, fuel)
      else LinkFrom(doc, path, entries, i + 1, fuel)
  }

  /** What `YamlLinker(doc)()` returns: `set_links` on the whole document,
      which must be a dict. */
  function Linked(doc: Yaml, fuel: nat): Result<Yaml> {
    if !doc.Dict? then Err(NotADict) else LinkFrom(doc, [], doc.entries, 0, fuel)
  }

  /** A reference resolves against the document as already rewritten: `@a`
      after `a` has become 5 needs one step, where the original document
      would need two (`@a` to `@b` to 5). */
  lemma LinkedSeesEarlierRewrites()
    ensures Linked(Dict([Entry("a", Str("@b")), Entry("b", Scalar(5)), Entry("c", Str("@a"))]), 1)
      == Ok(Dict([Entry("a", Scalar(5)), Entry("b", Scalar(5)), Entry("c", Scalar(5))]))
  {
    var es := [Entry("a", Str("@b")), Entry("b", Scalar(5)), Entry("c", Str("@a"))];
    var doc1 := Dict([Entry("a", Scalar(5)), Entry("b", Scalar(5)), Entry("c", Str("@a"))]);
    var doc3 := Dict([Entry("a", Scalar(5)), Entry("b", Scalar(5)), Entry("c", Scalar(5))]);
    ResolvesInOneStep(Dict(es), "b");
    assert LinkFrom(Dict(es), [], es, 0, 1) == LinkFrom(doc1, [], es, 1, 1) by {
      assert SetAt(Dict(es), [] + [0], Scalar(5)) == doc1;
    }
    assert LinkFrom(doc1, [], es, 1, 1) == LinkFrom(doc1, [], es, 2, 1);
    ResolvesInOneStep(doc1, "a");
    assert LinkFrom(doc1, [], es, 2, 1) == LinkFrom(doc3, [], es, 3, 1) by {
      assert SetAt(doc1, [] + [2], Scalar(5)) == doc3;
    }
  }

  /** In a document whose entry `key` is 5, `@key` resolves to 5 in one step. */
  lemma ResolvesInOneStep(doc: Yaml, key: string)
    requires |key| == 1 && key != "." && doc.Dict? && Find(doc.entries, key) == Some(Scalar(5))
    ensures FindEndValue(doc, Str("@" + key), 1) == Ok(Scalar(5))
  {
    FollowLink(doc, [key], 0);
    assert Join([key], '.') == key;
    assert GetValue(doc, [key]) == Ok(Scalar(5));
  }

  /** `YamlLinker`: holds its own copy of the document (Python deep-copies
      it; values here are never shared), rewritten in place by `set_links`. */
  class YamlLinker {
    var d: Yaml
    const limit: nat

    constructor (d: Yaml, limit: nat)
      ensures this.d == d && this.limit == limit
    {
      this.d := d;
      this.limit := limit;
    }

    /** `set_links` on the dict at position `path`, whose entries are
        `entries`: every string is replaced by its end value, resolved
        against the document as rewritten so far; nested dicts are entered. */
    method SetLinks(path: seq<nat>, entries: seq<Entry>) returns (r: Outcome, ghost out: seq<Entry>)
      requires ValidPath(d, path) && At(d, path) == Dict(entries)
      modifies this
      ensures (r == Done) == LinkFrom(old(d), path, entries, 0, limit).Ok?
      ensures r == Done ==> d == LinkFrom(old(d), path, entries, 0, limit).value
      ensures r.Failed? ==> LinkFrom(old(d), path, entries, 0, limit) == Err(r.error)
      ensures r == Done ==> d == SetAt(old(d), path, Dict(out)) && ResolvedEntries(entries, out)
      decreases entries
    {
      ghost var d0 := d;
      ghost var cur := entries;
      SetAtSame(d, path);
      var i := 0;
      while i < |entries|
        invariant 0 <= i <= |entries| && |cur| == |entries|
        invariant ValidPath(d0, path)
        invariant d == SetAt(d0, path, Dict(cur))
        invariant LinkFrom(d0, path, entries, 0, limit) == LinkFrom(d, path, entries, i, limit)
        invariant forall j :: i <= j < |entries| ==> cur[j] == entries[j]
        invariant forall j :: 0 <= j < i ==>
          cur[j].key == entries[j].key && ResolvedValue(entries[j].value, cur[j].value)
      {
        var e := entries[i];
        SetAtEntry(d0, path, cur, i, e.value);
        if e.value.Dict? {
          var sub, subOut := SetLinks(path + [i], e.value.entries);
          if sub.Failed? {
            return sub, cur;
          }
          SetAtEntry(d0, path, cur, i, Dict(subOut));
          cur := cur[i := cur[i].(value := Dict(subOut))];
        } else if e.value.Str? {
          var end := FindEndValue(d, e.value, limit);
          if end.Err? {
            return Failed(end.error), cur;
          }
          d := SetAt(d, path + [i], end.value);
          SetAtEntry(d0, path, cur, i, end.value);
          cur := cur[i := cur[i].(value := end.value)];
        }
        i := i + 1;
      }
      r, out := Done, cur;
    }

    /** `__call__`: resolve every reference in the document and return it;
        a document that is not a dict has no `items` and raises. */
    method Call() returns (r: Result<Yaml>)
      modifies this
      ensures r == Linked(old(d), limit)
      ensures r.Ok? ==> r.value == d && ResolvedValue(old(d), d)
    {
      if !d.Dict? {
        return Err(NotADict);
      }
      var done, out := SetLinks([], d.entries);
      if done.Failed? {
        return Err(done.error);
      }
      r := Ok(d);
    }
  }
}
