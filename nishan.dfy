/** The `Nishan` client: its session context, its record cache and the
    calls that read records into the cache, pick the session's space and
    user, and submit the page-creation transaction. The store's replies are
    parameters of the calls that fetch, and every request the client posts
    is logged in `sent`. */
module Api {
  import opened Wrappers
  import opened Json
  import opened RecordCache
  import opened Operations
  import opened Reads

  /** The store endpoints the client posts to, with their request bodies. */
  datatype Call =
    | GetBacklinksForBlock(blockId: string)
    | SyncRecordValues(id: string, table: Table, version: int)
    | LoadUserContent
    | SaveTransactions(transaction: Transaction)

  /** A request as posted: the call and the session cookie it carries. */
  datatype Request = Post(call: Call, cookie: string)

  /** A destructuring default: `{}` in place of `undefined`. */
  function OrEmpty(v: Value): (r: Value)
    ensures !r.Undefined?
    ensures v.Undefined? || r == v
    ensures v.Undefined? ==> r == EmptyObject
  {
    if v.Undefined? then EmptyObject else v
  }

  class Nishan {
    var token: string
    var interval: int
    var user_id: string
    var space_id: string
    var shard_id: int
    /** The `cookie` header sent with every request. */
    var cookie: string
    var cache: Cache
    /** The (shard, space) pair `createTransaction` is bound to, if it is. */
    var bound: Option<Scope>
    /** The requests posted so far, oldest first. */
    var sent: seq<Request>

    /** Missing or falsy options take their defaults; the builder is bound
        only when both the shard id and the space id given are truthy. */
    constructor (token: string, interval: Option<int>, user_id: Option<string>, cache: Option<Cache>,
                 shard_id: Option<int>, space_id: Option<string>)
      ensures this.token == token && this.cookie == "token_v2=" + token
      ensures this.interval == (if interval.Some? && interval.value != 0 then interval.value else 1000)
      ensures this.user_id == (if user_id.Some? then user_id.value else "")
      ensures this.shard_id == (if shard_id.Some? then shard_id.value else 0)
      ensures this.space_id == (if space_id.Some? then space_id.value else "")
      ensures cache.Some? ==> this.cache == cache.value
      ensures cache.None? ==> forall t: Table :: this.cache[t].ids == [] && this.cache[t].vals == map[]
      ensures bound.Some? <==> this.shard_id != 0 && this.space_id != ""
      ensures bound.Some? ==> bound.value == Scope(this.shard_id, this.space_id)
      ensures sent == []
    {
      this.token := token;
      this.interval := if interval.Some? && interval.value != 0 then interval.value else 1000;
      this.user_id := if user_id.Some? && user_id.value != "" then user_id.value else "";
      this.cookie := "token_v2=" + token;
      this.shard_id := if shard_id.Some? && shard_id.value != 0 then shard_id.value else 0;
      this.space_id := if space_id.Some? && space_id.value != "" then space_id.value else "";
      this.cache := if cache.Some? then cache.value else EmptyCache;
      if shard_id.Some? && shard_id.value != 0 && space_id.Some? && space_id.value != "" {
        this.bound := Some(Scope(shard_id.value, space_id.value));
      } else {
        this.bound := None;
      }
      this.sent := [];
    }

    /** `saveToCache`: each record of the reply is set into its table's map,
        table by table, record by record. */
    method SaveToCache(recordMap: RecordMap)
      modifies this`cache
      ensures cache == Merge(old(cache), recordMap)
    {
      ghost var before := cache;
      for k := 0 to |AllTables|
        invariant cache == MergeTables(before, recordMap, k)
      {
        MergeTablesStep(before, recordMap, k);
        var key := AllTables[k];
        if key in recordMap {
          var table := SetAll(cache[key], recordMap[key]);
          cache := Store(cache, key, table);
        }
      }
      MergeAllTables(before, recordMap);
    }

    /** `getBlock(id)`: a truthy cached block is returned without a request;
        otherwise the backlinks reply is merged first, and then a missing
        block yields `undefined` and a found one fails the context check or
        is returned (see Findings in README for the source's discarded
        block). */
    method GetBlock(block_id: string, response: RecordMap) returns (r: Result<Option<Value>>)
      modifies this`cache, this`sent
      ensures CachedBlock(old(cache), block_id).Some? ==>
        r == Ok(CachedBlock(old(cache), block_id)) && cache == old(cache) && sent == old(sent)
      ensures CachedBlock(old(cache), block_id).None? ==>
        && sent == old(sent) + [Post(GetBacklinksForBlock(block_id), cookie)]
        && cache == Merge(old(cache), response)
        && r == BlockAfterFetch(response, block_id, ContextReady(user_id, space_id, shard_id))
    {
      var cache_data := if block_id in cache[Block].vals then cache[Block].vals[block_id] else Undefined;
      if Truthy(cache_data) {
        return Ok(Some(cache_data));
      }
      sent := sent + [Post(GetBacklinksForBlock(block_id), cookie)];
      SaveToCache(response);
      if Block !in response {
        return Err(TypeError);
      }
      var target := Lookup(response[Block], block_id);
      if target.None? {
        return Ok(None);
      }
      if user_id == "" || space_id == "" || shard_id == 0 {
        return Err(ContextMissing);
      }
      r := Ok(Some(target.value.value));
    }

    /** `getPage(id)`: like `getBlock`, without the context check. */
    method GetPage(page_id: string, response: RecordMap) returns (r: Result<Option<Value>>)
      modifies this`cache, this`sent
      ensures CachedBlock(old(cache), page_id).Some? ==>
        r == Ok(CachedBlock(old(cache), page_id)) && cache == old(cache) && sent == old(sent)
      ensures CachedBlock(old(cache), page_id).None? ==>
        && sent == old(sent) + [Post(GetBacklinksForBlock(page_id), cookie)]
        && cache == Merge(old(cache), response)
        && r == PageAfterFetch(response, page_id)
    {
      var cache_data := if page_id in cache[Block].vals then cache[Block].vals[page_id] else Undefined;
      if Truthy(cache_data) {
        return Ok(Some(cache_data));
      }
      sent := sent + [Post(GetBacklinksForBlock(page_id), cookie)];
      SaveToCache(response);
      if Block !in response {
        return Err(TypeError);
      }
      var target := Lookup(response[Block], page_id);
      if target.None? {
        return Ok(None);
      }
      r := Ok(Some(target.value.value));
    }

    /** `getPage(predicate)`: the cached pages the predicate accepts (indexed
        among the cached pages); only when there are none, one
        `loadUserContent` request, a merge, and the fetched pages the
        predicate accepts (indexed among the fetched pages). */
    method GetPageWhere(pred: (Value, nat) -> bool, response: RecordMap) returns (r: Result<seq<Value>>)
      modifies this`cache, this`sent
      ensures var cached := PagesOf(Values(old(cache)[Block]));
        cached.Err? ==> r == Err(TypeError) && cache == old(cache) && sent == old(sent)
      ensures var cached := PagesOf(Values(old(cache)[Block]));
        cached.Ok? && Select(cached.value, pred) != [] ==>
          r == Ok(Select(cached.value, pred)) && cache == old(cache) && sent == old(sent)
      ensures var cached := PagesOf(Values(old(cache)[Block]));
        cached.Ok? && Select(cached.value, pred) == [] ==>
          && sent == old(sent) + [Post(LoadUserContent, cookie)]
          && cache == Merge(old(cache), response)
          && r == if Block !in response then Err(TypeError)
                  else match PagesOf(EntryValues(response[Block]))
                       case Err(f) => Err(f)
                       case Ok(pages) => Ok(Select(pages, pred))
    {
      var cached_pages := CachedPages(cache[Block]);
      if cached_pages.Err? {
        return Err(TypeError);
      }
      var filtered_pages := SelectPages(cached_pages.value, pred);
      if |filtered_pages| > 0 {
        return Ok(filtered_pages);
      }
      sent := sent + [Post(LoadUserContent, cookie)];
      SaveToCache(response);
      if Block !in response {
        return Err(TypeError);
      }
      var pages := PagesOf(EntryValues(response[Block]));
      if pages.Err? {
        return Err(TypeError);
      }
      filtered_pages := SelectPages(pages.value, pred);
      r := Ok(filtered_pages);
    }

    /** `createPage`: with a space id and a user id set, one transaction
        holding the page batch, in the bound builder's scope (a TypeError
        when no builder is bound); then the backlinks read of the new block,
        merged, whose value is returned. */
    method CreatePage(block_id: string, properties: Value, format: Value, response: RecordMap)
      returns (r: Result<Value>)
      modifies this`cache, this`sent
      ensures var submit := space_id != "" && user_id != "";
        submit && bound.None? ==> r == Err(TypeError) && cache == old(cache) && sent == old(sent)
      ensures var submit := space_id != "" && user_id != "";
        !(submit && bound.None?) ==>
          && sent == old(sent)
               + (if submit
                  then [Post(SaveTransactions(Transaction(bound.value,
                          [PageOps(block_id, space_id, user_id, OrEmpty(properties), OrEmpty(format))])), cookie)]
                  else [])
               + [Post(GetBacklinksForBlock(block_id), cookie)]
          && cache == Merge(old(cache), response)
          && r == FetchedValue(response, Block, block_id)
    {
      var props := OrEmpty(properties);
      var fmt := OrEmpty(format);
      if space_id != "" && user_id != "" {
        if bound.None? {
          return Err(TypeError);
        }
        var tx := Transaction(bound.value, [PageOps(block_id, space_id, user_id, props, fmt)]);
        sent := sent + [Post(SaveTransactions(tx), cookie)];
      }
      sent := sent + [Post(GetBacklinksForBlock(block_id), cookie)];
      SaveToCache(response);
      if Block !in response {
        return Err(TypeError);
      }
      var target := Lookup(response[Block], block_id);
      if target.None? {
        return Err(TypeError);
      }
      r := Ok(target.value.value);
    }

    /** `getCollection`: reads the collection, then its parent block, without
        caching either; the session context must be ready before the parent
        is read out of its reply. */
    method GetCollection(collection_id: string, collectionReply: RecordMap, blockReply: RecordMap)
      returns (r: Result<(Value, Value)>)
      modifies this`sent
      ensures var first := Post(SyncRecordValues(collection_id, Collection, -1), cookie);
        var data := FetchedValue(collectionReply, Collection, collection_id);
        data.Err? ==> r == Err(data.fault) && sent == old(sent) + [first]
      ensures var first := Post(SyncRecordValues(collection_id, Collection, -1), cookie);
        var data := FetchedValue(collectionReply, Collection, collection_id);
        data.Ok? ==>
          match StringProp(data.value, "parent_id")
          case Err(f) => r == Err(f) && sent == old(sent) + [first]
          case Ok(parent_id) =>
            && sent == old(sent) + [first, Post(SyncRecordValues(parent_id, Block, -1), cookie)]
            && r == if !ContextReady(user_id, space_id, shard_id) then Err(ContextMissing)
                    else match FetchedValue(blockReply, Block, parent_id)
                         case Err(f) => Err(f)
                         case Ok(parent) => Ok((data.value, parent))
    {
      sent := sent + [Post(SyncRecordValues(collection_id, Collection, -1), cookie)];
      if Collection !in collectionReply {
        return Err(TypeError);
      }
      var entry := Lookup(collectionReply[Collection], collection_id);
      if entry.None? {
        return Err(TypeError);
      }
      var collection_data := entry.value.value;
      var parent := StringProp(collection_data, "parent_id");
      if parent.Err? {
        return Err(parent.fault);
      }
      sent := sent + [Post(SyncRecordValues(parent.value, Block, -1), cookie)];
      if user_id == "" || space_id == "" || shard_id == 0 {
        return Err(ContextMissing);
      }
      if Block !in blockReply {
        return Err(TypeError);
      }
      var parent_entry := Lookup(blockReply[Block], parent.value);
      if parent_entry.None? {
        return Err(TypeError);
      }
      r := Ok((collection_data, parent_entry.value.value));
    }

    /** `setSpace(fn)`: merges the user's content, picks a space, and, when a
        user id is set, makes it the session's space, takes its first
        permission's user as the session user and rebinds the builder to the
        space's shard and id. A throw part-way leaves the fields assigned
        before it. */
    method SetSpace(fn: Value -> bool, response: RecordMap) returns (r: Result<()>)
      modifies this`cache, this`sent, this`space_id, this`user_id, this`bound
      ensures sent == old(sent) + [Post(LoadUserContent, cookie)]
      ensures cache == Merge(old(cache), response)
      ensures var target := SpaceTarget(response, fn);
        target.Err? || old(user_id) == "" ==>
          && r == (if target.Err? then Err(target.fault) else Ok(()))
          && space_id == old(space_id) && user_id == old(user_id) && bound == old(bound)
      ensures var target := SpaceTarget(response, fn);
        target.Ok? && old(user_id) != "" ==>
          match SpaceIdOf(target.value)
          case Err(f) => r == Err(f) && space_id == old(space_id) && user_id == old(user_id) && bound == old(bound)
          case Ok(id) =>
            && space_id == id
            && match OwnerOf(target.value)
               case Err(f) => r == Err(f) && user_id == old(user_id) && bound == old(bound)
               case Ok(owner) =>
                 && user_id == owner
                 && match ShardOf(target.value)
                    case Err(f) => r == Err(f) && bound == old(bound)
                    case Ok(shard) => r == Ok(()) && bound == Some(Scope(shard, id))
    {
      sent := sent + [Post(LoadUserContent, cookie)];
      SaveToCache(response);
      var target_space := SpaceTarget(response, fn);
      if target_space.Err? {
        return Err(target_space.fault);
      }
      if user_id == "" {
        return Ok(());
      }
      var id := SpaceIdOf(target_space.value);
      if id.Err? {
        return Err(id.fault);
      }
      space_id := id.value;
      var owner := OwnerOf(target_space.value);
      if owner.Err? {
        return Err(owner.fault);
      }
      user_id := owner.value;
      var shard := ShardOf(target_space.value);
      if shard.Err? {
        return Err(shard.fault);
      }
      bound := Some(Scope(shard.value, id.value));
      r := Ok(());
    }

    /** `setRootUser`: merges the user's content and takes the first user
        root's id as the session user. */
    method SetRootUser(response: RecordMap) returns (r: Result<()>)
      modifies this`cache, this`sent, this`user_id
      ensures sent == old(sent) + [Post(LoadUserContent, cookie)]
      ensures cache == Merge(old(cache), response)
      ensures RootUserId(response).Ok? ==> r == Ok(()) && user_id == RootUserId(response).value
      ensures RootUserId(response).Err? ==> r == Err(RootUserId(response).fault) && user_id == old(user_id)
    {
      sent := sent + [Post(LoadUserContent, cookie)];
      SaveToCache(response);
      if UserRoot !in response || |response[UserRoot]| == 0 {
        return Err(TypeError);
      }
      var id := StringProp(response[UserRoot][0].1.value, "id");
      if id.Err? {
        return Err(id.fault);
      }
      user_id := id.value;
      r := Ok(());
    }
  }

  /** A page created as "abc" in space "space-1" by "user-1" on shard 7. */
  method CreatePageScenario() {
    var client := new Nishan("token", None, Some("user-1"), None, Some(7), Some("space-1"));
    var page := Obj(map["type" := Str("page"), "id" := Str("abc")]);
    var reply: RecordMap := map[Block := [("abc", Entry("editor", page))]];
    var title := Obj(map["title" := Arr([Str("Hello")])]);
    var created := client.CreatePage("abc", title, Undefined, reply);
    assert created == Ok(page);
    assert |client.sent| == 2;
    var tx := client.sent[0].call.transaction;
    assert tx.scope == Scope(7, "space-1") && |tx.batches| == 1;
    assert tx.batches[0][0] == BlockSet("abc", [], Obj(map["type" := Str("page"), "id" := Str("abc"), "version" := Num(1)]));
    assert tx.batches[0][3] == SpaceListBefore("space-1", ["pages"], Obj(map["id" := Str("abc")]));
  }

  /** A predicate read on an empty cache: one `loadUserContent` request, and
      the one fetched page of three that the predicate accepts. */
  method PredicateFallbackScenario() {
    var client := new Nishan("token", None, None, None, None, None);
    var p1 := Obj(map["type" := Str("page"), "id" := Str("p1")]);
    var p2 := Obj(map["type" := Str("page"), "id" := Str("p2")]);
    var p3 := Obj(map["type" := Str("page"), "id" := Str("p3")]);
    var reply: RecordMap := map[Block := [("p1", Entry("editor", p1)), ("p2", Entry("editor", p2)),
                                          ("p3", Entry("editor", p3))]];
    assert Values(client.cache[Block]) == [];
    assert EntryValues(reply[Block]) == [p1, p2, p3];
    assert p1.fields["id"] != p2.fields["id"] && p3.fields["id"] != p2.fields["id"];
    PagesOfAllPages([p1, p2, p3]);
    var pred := (v: Value, i: nat) => v == p2;
    SelectOne([p1, p2, p3], pred, 1);
    var found := client.GetPageWhere(pred, reply);
    assert found == Ok([p2]);
    assert client.sent == [Post(LoadUserContent, client.cookie)];
  }
}
