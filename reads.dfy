/** The decisions the client's reads make, as functions of the cache and of
    the store's replies: cache hits, what a fetched record map yields, which
    cached or fetched blocks are pages matching a predicate, and which space
    `setSpace` picks. */
module Reads {
  import opened Wrappers
  import opened Json
  import opened RecordCache

  /** The hard precondition of the calls that need a session: a non-empty
      user id, a non-empty space id and a non-zero shard id. */
  predicate ContextReady(user_id: string, space_id: string, shard_id: int)
    ensures ContextReady(user_id, space_id, shard_id)
        <==> Truthy(Str(user_id)) && Truthy(Str(space_id)) && Truthy(Num(shard_id))
  {
    user_id != "" && space_id != "" && shard_id != 0
  }

  /** `this.cache.block.get(id)` when it passes `if (cache_data)`. */
  function CachedBlock(c: Cache, id: string): (r: Option<Value>)
    ensures r.Some? ==> Truthy(r.value) && id in c[Block].vals && c[Block].vals[id] == r.value
    ensures r.None? ==> id !in c[Block].vals || !Truthy(c[Block].vals[id])
  {
    if id in c[Block].vals && Truthy(c[Block].vals[id]) then Some(c[Block].vals[id]) else None
  }

  /** `recordMap[t][id]` as a fetched entry: reading a table the reply lacks
      is a TypeError, a missing id is `undefined`. */
  function FetchedEntry(rm: RecordMap, t: Table, id: string): Result<Option<Entry>> {
    if t in rm then Ok(Lookup(rm[t], id)) else Err(TypeError)
  }

  /** `recordMap[t][id].value`, which throws when the entry is missing. */
  function FetchedValue(rm: RecordMap, t: Table, id: string): (r: Result<Value>)
    ensures r.Ok? <==> t in rm && id in Ids(rm[t])
    ensures r.Err? ==> r.fault == TypeError
    ensures r.Ok? ==> exists i :: 0 <= i < |rm[t]| && rm[t][i].0 == id && rm[t][i].1.value == r.value
  {
    match FetchedEntry(rm, t, id)
    case Err(f) => Err(f)
    case Ok(None) => Err(TypeError)
    case Ok(Some(e)) => Ok(e.value)
  }

  /** What `getPage(id)` resolves to after a cache miss: the fetched value,
      or `undefined` (None) when the reply does not hold the page. */
  function PageAfterFetch(rm: RecordMap, id: string): (r: Result<Option<Value>>)
    ensures r.Err? <==> Block !in rm
    ensures r.Err? ==> r.fault == TypeError
    ensures r == Ok(None) <==> Block in rm && id !in Ids(rm[Block])
    ensures r.Ok? && r.value.Some? ==>
      exists i :: 0 <= i < |rm[Block]| && rm[Block][i].0 == id && rm[Block][i].1.value == r.value.value
  {
    match FetchedEntry(rm, Block, id)
    case Err(f) => Err(f)
    case Ok(None) => Ok(None)
    case Ok(Some(e)) => Ok(Some(e.value))
  }

  /** What `getBlock(id)` resolves to after a cache miss, as written: a
      found block whose session context is ready still yields `undefined`,
      because the Block built from it is discarded. */
  function BlockAfterFetchAsWritten(rm: RecordMap, id: string, ready: bool): (r: Result<Option<Value>>)
    ensures r.Ok? ==> r.value.None?
    ensures r == Err(ContextMissing) <==> Block in rm && id in Ids(rm[Block]) && !ready
    ensures Block !in rm ==> r == Err(TypeError)
    ensures r.Err? && Block in rm ==> r.fault == ContextMissing
    ensures r == Ok(None) <==> Block in rm && (id !in Ids(rm[Block]) || ready)
  {
    match FetchedEntry(rm, Block, id)
    case Err(f) => Err(f)
    case Ok(None) => Ok(None)
    case Ok(Some(e)) => if !ready then Err(ContextMissing) else Ok(None)
  }

  /** What `getBlock(id)` resolves to after a cache miss, with the built
      block returned. */
  function BlockAfterFetch(rm: RecordMap, id: string, ready: bool): (r: Result<Option<Value>>)
    ensures r.Err? <==> Block !in rm || (id in Ids(rm[Block]) && !ready)
    ensures Block !in rm ==> r == Err(TypeError)
    ensures r.Err? && Block in rm ==> r.fault == ContextMissing
    ensures r == Ok(None) <==> Block in rm && id !in Ids(rm[Block])
    ensures r.Ok? && r.value.Some? ==>
      exists i :: 0 <= i < |rm[Block]| && rm[Block][i].0 == id && rm[Block][i].1.value == r.value.value
  {
    match FetchedEntry(rm, Block, id)
    case Err(f) => Err(f)
    case Ok(None) => Ok(None)
    case Ok(Some(e)) => if !ready then Err(ContextMissing) else Ok(Some(e.value))
  }

  /** Read-through: a page fetched on a miss is what the cache holds for it
      afterwards, so a repeated `getPage(id)` returns the same value without
      fetching (when the value is truthy). */
  lemma ReadThrough(c: Cache, rm: RecordMap, id: string, v: Value)
    requires PageAfterFetch(rm, id) == Ok(Some(v)) && Truthy(v)
    ensures CachedBlock(Merge(c, rm), id) == Some(v)
  {
    LookupMerged(c, rm, Block, id);
  }

  /** `getBlock` after a miss returns a block exactly when the reply holds it
      and the context is ready; what it returns is what the cache holds for
      it afterwards, so a repeated call answers the same from the cache. */
  lemma BlockReadThrough(c: Cache, rm: RecordMap, id: string, ready: bool)
    ensures BlockAfterFetch(rm, id, ready).Ok? && BlockAfterFetch(rm, id, ready).value.Some?
        <==> Block in rm && id in Ids(rm[Block]) && ready
    ensures BlockAfterFetch(rm, id, ready).Ok? && BlockAfterFetch(rm, id, ready).value.Some? ==>
        var v := BlockAfterFetch(rm, id, ready).value.value;
        id in Merge(c, rm)[Block].vals && Merge(c, rm)[Block].vals[id] == v
        && (Truthy(v) ==> CachedBlock(Merge(c, rm), id) == Some(v))
  {
    if Block in rm && id in Ids(rm[Block]) {
      LookupMerged(c, rm, Block, id);
    }
  }

  /** The as-written `getBlock` drops a block it found: from an empty cache,
      with the store holding block "b" and the context ready, the call
      yields `undefined` although the record was fetched and cached, so an
      identical second call returns the block. */
  lemma GetBlockDropsFoundRecord()
    ensures var v := Obj(map["type" := Str("page")]);
      var rm: RecordMap := map[Block := [("b", Entry("editor", v))]];
      && CachedBlock(EmptyCache, "b") == None
      && BlockAfterFetchAsWritten(rm, "b", true) == Ok(None)
      && CachedBlock(Merge(EmptyCache, rm), "b") == Some(v)
      && BlockAfterFetch(rm, "b", true) == Ok(Some(v))
  {
    var v := Obj(map["type" := Str("page")]);
    var rm: RecordMap := map[Block := [("b", Entry("editor", v))]];
    LookupAfterMerge(EmptyCache, rm, Block, 0);
  }

  /** Whether `block.type === 'page'`, which throws on `undefined` and
      `null`. */
  function IsPage(v: Value): (r: Result<bool>)
    ensures r.Err? <==> Nullish(v)
    ensures r.Err? ==> r.fault == TypeError
    ensures r.Ok? ==> (r.value <==> IsPageValue(v))
  {
    match Prop(v, "type")
    case Err(f) => Err(f)
    case Ok(t) => Ok(t == Str("page"))
  }

  /** A value that is an object whose `type` is "page". */
  predicate IsPageValue(v: Value) {
    v.Obj? && "type" in v.fields && v.fields["type"] == Str("page")
  }

  /** The page values among `vs`, in order; a TypeError when some value is
      `undefined` or `null`. */
  function PagesOf(vs: seq<Value>): (r: Result<seq<Value>>)
    ensures r.Err? ==> r.fault == TypeError
    decreases |vs|
  {
    if vs == [] then Ok([])
    else
      match PagesOf(vs[..|vs| - 1])
      case Err(f) => Err(f)
      case Ok(ps) =>
        match IsPage(vs[|vs| - 1])
        case Err(f) => Err(f)
        case Ok(b) => Ok(if b then ps + [vs[|vs| - 1]] else ps)
  }

  /** Page filtering fails exactly on an `undefined` or `null` value, and
      otherwise keeps exactly the values whose type is "page". */
  lemma {:induction false} PagesOfSpec(vs: seq<Value>)
    ensures PagesOf(vs).Err? <==> exists i :: 0 <= i < |vs| && Nullish(vs[i])
    ensures PagesOf(vs).Ok? ==> forall x :: x in PagesOf(vs).value <==> x in vs && IsPageValue(x)
    decreases |vs|
  {
    if vs != [] {
      var init := vs[..|vs| - 1];
      var x := vs[|vs| - 1];
      PagesOfSpec(init);
      assert vs == init + [x];
      match PagesOf(init)
      case Err(_) =>
        var i :| 0 <= i < |init| && Nullish(init[i]);
        assert vs[i] == init[i];
      case Ok(ps) =>
        forall i | 0 <= i < |init| ensures !Nullish(vs[i]) {
          assert vs[i] == init[i];
        }
        if !Nullish(x) {
          assert PagesOf(vs) == Ok(if IsPageValue(x) then ps + [x] else ps);
        }
    }
  }

  /** The pages for which `pred(page, index)` holds, the index counting
      positions in `pages`, in order. */
  function Select(pages: seq<Value>, pred: (Value, nat) -> bool): (r: seq<Value>)
    ensures |r| <= |pages|
    ensures forall x :: x in r ==> x in pages
    decreases |pages|
  {
    if pages == [] then []
    else
      Select(pages[..|pages| - 1], pred)
        + (if pred(pages[|pages| - 1], |pages| - 1) then [pages[|pages| - 1]] else [])
  }

  /** Page filtering of a single value. */
  lemma PagesOfSingle(v: Value)
    ensures PagesOf([v]) == if Nullish(v) then Err(TypeError) else Ok(if IsPageValue(v) then [v] else [])
  {
    assert [v][..0] == [] && PagesOf([]) == Ok([]);
    assert [] + [v] == [v];
  }

  /** Page filtering of two runs of values is the filtering of the first
      followed by that of the second: the pages keep their order and their
      multiplicity. */
  lemma {:induction false} PagesOfAppend(a: seq<Value>, b: seq<Value>)
    requires PagesOf(a).Ok? && PagesOf(b).Ok?
    ensures PagesOf(a + b) == Ok(PagesOf(a).value + PagesOf(b).value)
    decreases |b|
  {
    if b == [] {
      assert a + b == a && PagesOf(b) == Ok([]);
      assert PagesOf(a).value + [] == PagesOf(a).value;
    } else {
      var init := b[..|b| - 1];
      var x := b[|b| - 1];
      assert PagesOf(init).Ok? && IsPage(x).Ok?;
      PagesOfAppend(a, init);
      assert (a + b)[..|a + b| - 1] == a + init;
      assert (a + b)[|a + b| - 1] == x;
      var tail := if IsPage(x).value then [x] else [];
      assert PagesOf(b).value == PagesOf(init).value + tail;
      assert PagesOf(a + b).value == PagesOf(a + init).value + tail;
      assert PagesOf(a).value + PagesOf(init).value + tail == PagesOf(a).value + (PagesOf(init).value + tail);
    }
  }

  /** Values that are all pages are all kept, in order. */
  lemma {:induction false} PagesOfAllPages(vs: seq<Value>)
    requires forall i :: 0 <= i < |vs| ==> IsPageValue(vs[i])
    ensures PagesOf(vs) == Ok(vs)
    decreases |vs|
  {
    if vs != [] {
      var init := vs[..|vs| - 1];
      PagesOfAllPages(init);
      assert init + [vs[|vs| - 1]] == vs;
    }
  }

  /** Selection from a single page. */
  lemma SelectSingle(v: Value, pred: (Value, nat) -> bool)
    ensures Select([v], pred) == if pred(v, 0) then [v] else []
  {
    assert [v][..0] == [];
  }

  /** Selection from two runs of pages is the selection from the first
      followed by the selection from the second, whose pages are judged at
      their positions in the whole sequence: the selected pages keep their
      order and their multiplicity. */
  lemma {:induction false} SelectAppend(a: seq<Value>, b: seq<Value>, pred: (Value, nat) -> bool)
    ensures Select(a + b, pred) == Select(a, pred) + Select(b, (v: Value, i: nat) => pred(v, i + |a|))
    decreases |b|
  {
    if b == [] {
      assert a + b == a;
    } else {
      var init := b[..|b| - 1];
      SelectAppend(a, init, pred);
      assert (a + b)[..|a + b| - 1] == a + init;
      assert (a + b)[|a + b| - 1] == b[|b| - 1];
    }
  }

  /** A predicate that accepts exactly one position selects exactly the page
      there. */
  lemma {:induction false} SelectOne(pages: seq<Value>, pred: (Value, nat) -> bool, k: nat)
    requires k < |pages|
    requires forall i :: 0 <= i < |pages| ==> (pred(pages[i], i) <==> i == k)
    ensures Select(pages, pred) == [pages[k]]
    decreases |pages|
  {
    var init := pages[..|pages| - 1];
    if k == |pages| - 1 {
      SelectSpec(init, pred);
      forall i | 0 <= i < |init| ensures !pred(init[i], i) {
        assert init[i] == pages[i];
      }
    } else {
      forall i | 0 <= i < |init| ensures pred(init[i], i) <==> i == k {
        assert init[i] == pages[i];
      }
      SelectOne(init, pred, k);
    }
  }

  /** A page is selected exactly when the predicate accepts it at one of its
      positions; so nothing is selected exactly when the predicate rejects
      every page at its position. */
  lemma {:induction false} SelectSpec(pages: seq<Value>, pred: (Value, nat) -> bool)
    ensures forall x :: x in Select(pages, pred) <==> exists i :: 0 <= i < |pages| && pages[i] == x && pred(x, i)
    ensures Select(pages, pred) == [] <==> forall i :: 0 <= i < |pages| ==> !pred(pages[i], i)
    ensures |Select(pages, pred)| <= |pages|
    decreases |pages|
  {
    if pages != [] {
      var init := pages[..|pages| - 1];
      SelectSpec(init, pred);
      forall x | x in Select(pages, pred)
        ensures exists i :: 0 <= i < |pages| && pages[i] == x && pred(x, i)
      {
        if x in Select(init, pred) {
          var i :| 0 <= i < |init| && init[i] == x && pred(x, i);
          assert pages[i] == init[i];
        } else {
          assert pages[|pages| - 1] == x && pred(x, |pages| - 1);
        }
      }
      forall x, i | 0 <= i < |pages| && pages[i] == x && pred(x, i)
        ensures x in Select(pages, pred)
      {
        if i < |pages| - 1 {
          assert init[i] == x;
        }
      }
      if Select(pages, pred) == [] {
        assert Select(init, pred) == [];
      }
    }
  }

  /** The `forEach` over the cached blocks that collects the pages. */
  method CachedPages(m: IdMap) returns (r: Result<seq<Value>>)
    requires m.Valid()
    ensures r == PagesOf(Values(m))
  {
    var pages: seq<Value> := [];
    var i := 0;
    while i < |m.ids|
      invariant 0 <= i <= |m.ids|
      invariant PagesOf(Values(m)[..i]) == Ok(pages)
    {
      var block := m.vals[m.ids[i]];
      assert Values(m)[..i + 1] == Values(m)[..i] + [block];
      var t := Prop(block, "type");
      if t.Err? {
        PagesOfSpec(Values(m));
        assert Nullish(Values(m)[i]);
        return Err(TypeError);
      }
      if t.value == Str("page") {
        pages := pages + [block];
      }
      i := i + 1;
    }
    assert Values(m)[..i] == Values(m);
    r := Ok(pages);
  }

  /** The indexed `for` loop that keeps the pages the predicate accepts. */
  method SelectPages(pages: seq<Value>, pred: (Value, nat) -> bool) returns (filtered: seq<Value>)
    ensures filtered == Select(pages, pred)
  {
    filtered := [];
    for i := 0 to |pages|
      invariant filtered == Select(pages[..i], pred)
    {
      assert pages[..i + 1][..i] == pages[..i];
      if pred(pages[i], i) {
        filtered := filtered + [pages[i]];
      }
    }
    assert pages[..|pages|] == pages;
  }

  /** The index `find` stops at: the first entry whose value satisfies `fn`. */
  function FirstMatch(es: seq<(string, Entry)>, fn: Value -> bool): (k: Option<nat>)
    ensures k.Some? ==> k.value < |es| && fn(es[k.value].1.value)
    ensures k.Some? ==> forall j :: 0 <= j < k.value ==> !fn(es[j].1.value)
    ensures k.None? ==> forall j :: 0 <= j < |es| ==> !fn(es[j].1.value)
    decreases |es|
  {
    if es == [] then None
    else if fn(es[0].1.value) then Some(0)
    else
      match FirstMatch(es[1..], fn)
      case None => None
      case Some(k) => Some(k + 1)
  }

  /** `Object.values(space).find((s) => fn(s.value))?.value
      || Object.values(space)[0].value`. */
  function TargetSpace(es: seq<(string, Entry)>, fn: Value -> bool): (r: Result<Value>)
    ensures r.Err? <==> es == []
    ensures r.Err? ==> r.fault == TypeError
    ensures r.Ok? ==> exists i :: 0 <= i < |es| && es[i].1.value == r.value
  {
    var found := match FirstMatch(es, fn) case Some(k) => es[k].1.value case None => Undefined;
    if Truthy(found) then Ok(found)
    else if es == [] then Err(TypeError)
    else Ok(es[0].1.value)
  }

  /** `setSpace` picks the first space whose value satisfies `fn`. */
  lemma TargetSpaceFirstMatch(es: seq<(string, Entry)>, fn: Value -> bool, k: nat)
    requires k < |es| && fn(es[k].1.value) && Truthy(es[k].1.value)
    requires forall j :: 0 <= j < k ==> !fn(es[j].1.value)
    ensures TargetSpace(es, fn) == Ok(es[k].1.value)
  {
    var m := FirstMatch(es, fn);
    assert m.Some? && m.value <= k;
    assert !(m.value < k) by { assert fn(es[m.value].1.value); }
  }

  /** A first match whose value is falsy is passed over too: `setSpace`
      falls back to the first space. */
  lemma TargetSpaceFalsyMatch(es: seq<(string, Entry)>, fn: Value -> bool, k: nat)
    requires k < |es| && fn(es[k].1.value) && !Truthy(es[k].1.value)
    requires forall j :: 0 <= j < k ==> !fn(es[j].1.value)
    ensures TargetSpace(es, fn) == Ok(es[0].1.value)
  {
    var m := FirstMatch(es, fn);
    assert m.Some? && m.value <= k;
    assert !(m.value < k) by { assert fn(es[m.value].1.value); }
  }

  /** When no space satisfies `fn`, `setSpace` falls back to the first
      space, and throws when there is none. */
  lemma TargetSpaceDefault(es: seq<(string, Entry)>, fn: Value -> bool)
    requires forall j :: 0 <= j < |es| ==> !fn(es[j].1.value)
    ensures TargetSpace(es, fn) == if es == [] then Err(TypeError) else Ok(es[0].1.value)
  {
    assert FirstMatch(es, fn) == None;
  }

  /** The space `setSpace` picks from a `loadUserContent` reply; a reply
      without a space table makes `Object.values` throw. */
  function SpaceTarget(rm: RecordMap, fn: Value -> bool): (r: Result<Value>)
    ensures r.Err? <==> Space !in rm || rm[Space] == []
    ensures r.Err? ==> r.fault == TypeError
  {
    if Space in rm then TargetSpace(rm[Space], fn) else Err(TypeError)
  }

  /** `target_space.id`. */
  function SpaceIdOf(target: Value): (r: Result<string>)
    ensures r.Ok? <==> target.Obj? && "id" in target.fields && target.fields["id"].Str?
    ensures r.Ok? ==> target.fields["id"] == Str(r.value)
    ensures Nullish(target) ==> r == Err(TypeError)
  {
    StringProp(target, "id")
  }

  /** `target_space.permission[0].user_id`. */
  function OwnerOf(target: Value): (r: Result<string>)
    ensures Nullish(target) ==> r == Err(TypeError)
    ensures r.Ok? <==> && target.Obj? && "permission" in target.fields
                       && !Nullish(target.fields["permission"])
                       && var p := First(target.fields["permission"]).value;
                          p.Obj? && "user_id" in p.fields && p.fields["user_id"].Str?
    ensures r.Ok? ==> && target.Obj? && "permission" in target.fields
                      && First(target.fields["permission"]).Ok?
                      && var p := First(target.fields["permission"]).value;
                         p.Obj? && "user_id" in p.fields && p.fields["user_id"] == Str(r.value)
  {
    match Prop(target, "permission")
    case Err(f) => Err(f)
    case Ok(permission) =>
      match First(permission)
      case Err(f) => Err(f)
      case Ok(p) => StringProp(p, "user_id")
  }

  /** `target_space.shard_id`. */
  function ShardOf(target: Value): (r: Result<int>)
    ensures r.Ok? <==> target.Obj? && "shard_id" in target.fields && target.fields["shard_id"].Num?
    ensures r.Ok? ==> target.fields["shard_id"] == Num(r.value)
    ensures Nullish(target) ==> r == Err(TypeError)
  {
    match Prop(target, "shard_id")
    case Err(f) => Err(f)
    case Ok(s) => AsNumber(s)
  }

  /** `Object.values(user_root)[0].value.id`. */
  function RootUserId(rm: RecordMap): (r: Result<string>)
    ensures r.Ok? <==> && UserRoot in rm && rm[UserRoot] != []
                       && var root := rm[UserRoot][0].1.value;
                          root.Obj? && "id" in root.fields && root.fields["id"].Str?
    ensures r.Ok? ==> r.value == rm[UserRoot][0].1.value.fields["id"].s
    ensures r.Err? && (UserRoot !in rm || rm[UserRoot] == [] || Nullish(rm[UserRoot][0].1.value)) ==> r.fault == TypeError
  {
    if UserRoot !in rm || rm[UserRoot] == [] then Err(TypeError)
    else StringProp(rm[UserRoot][0].1.value, "id")
  }
}
