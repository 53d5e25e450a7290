/** Mutation operations, the transaction a bound builder makes of them, and
    the fixed batch that creates a page. */
module Operations {
  import opened Json

  /** One path-addressed mutation of a record. The last-edit and creation
      stamps stand for whole groups of operations whose fields the client
      does not choose. */
  datatype Operation =
    | BlockSet(id: string, path: seq<string>, args: Value)
    | BlockUpdate(id: string, path: seq<string>, args: Value)
    | SpaceListBefore(id: string, path: seq<string>, args: Value)
    | LastEditStamps(id: string, user: string)
    | CreateStamps(id: string, user: string)

  /** The (shard, space) pair a transaction builder is bound to. */
  datatype Scope = Scope(shard: int, space: string)

  /** What the builder bound to `scope` makes of a list of batches: each
      batch is one atomic step, kept in order. */
  datatype Transaction = Transaction(scope: Scope, batches: seq<seq<Operation>>)

  /** The batch `createPage` submits for a new page `block_id` placed in
      space `space_id` by `user_id`. */
  function PageOps(block_id: string, space_id: string, user_id: string,
                   properties: Value, format: Value): (ops: seq<Operation>)
    ensures |ops| == 6
    ensures forall i :: 0 <= i < |ops| ==> Stage(ops[i]) == i
  {
    [ BlockSet(block_id, [], Obj(map["type" := Str("page"), "id" := Str(block_id), "version" := Num(1)])),
      BlockUpdate(block_id, [], Obj(map["permissions" :=
        Arr([Obj(map["type" := Str("space_permission"), "role" := Str("editor")])])])),
      BlockUpdate(block_id, [], Obj(map["parent_id" := Str(space_id), "parent_table" := Str("space"),
                                        "alive" := Bool(true), "properties" := properties,
                                        "format" := format])),
      SpaceListBefore(space_id, ["pages"], Obj(map["id" := Str(block_id)])),
      LastEditStamps(block_id, user_id),
      CreateStamps(block_id, user_id) ]
  }

  /** The stage of page creation an operation belongs to: 0 creates the
      record, 1 grants permissions, 2 links it to its parent and gives it
      content, 3 lists it in the parent, 4 and 5 stamp edit and creation
      metadata. */
  function Stage(op: Operation): nat {
    match op
    case BlockSet(_, _, _) => 0
    case BlockUpdate(_, _, args) => if args.Obj? && "permissions" in args.fields then 1 else 2
    case SpaceListBefore(_, _, _) => 3
    case LastEditStamps(_, _) => 4
    case CreateStamps(_, _) => 5
  }

  /** The id of the record an operation changes. */
  function Target(op: Operation): string {
    match op
    case BlockSet(id, _, _) => id
    case BlockUpdate(id, _, _) => id
    case SpaceListBefore(id, _, _) => id
    case LastEditStamps(id, _) => id
    case CreateStamps(id, _) => id
  }

  /** The page batch runs the six stages once each, in order; everything but
      the list insert targets the new block, the list insert targets the
      space; the new record is a version-1 page, editable by the space's
      members, whose parent is the space and which carries the given
      properties and format; it is appended to the space's `pages` list, and
      both stamps name the user. */
  lemma PageOpsShape(block_id: string, space_id: string, user_id: string, properties: Value, format: Value)
    ensures var ops := PageOps(block_id, space_id, user_id, properties, format);
      && |ops| == 6
      && (forall i :: 0 <= i < 6 ==> Stage(ops[i]) == i)
      && (forall i :: 0 <= i < 6 && i != 3 ==> Target(ops[i]) == block_id)
      && Target(ops[3]) == space_id && ops[3].path == ["pages"] && ops[3].args == Obj(map["id" := Str(block_id)])
      && ops[0].args.fields["type"] == Str("page") && ops[0].args.fields["id"] == Str(block_id)
      && ops[0].args.fields["version"] == Num(1)
      && ops[2].args.fields["parent_id"] == Str(space_id) && ops[2].args.fields["parent_table"] == Str("space")
      && ops[2].args.fields["alive"] == Bool(true)
      && ops[2].args.fields["properties"] == properties && ops[2].args.fields["format"] == format
      && ops[1].args == Obj(map["permissions" :=
           Arr([Obj(map["type" := Str("space_permission"), "role" := Str("editor")])])])
      && ops[4].user == user_id && ops[5].user == user_id
  {
    var ops := PageOps(block_id, space_id, user_id, properties, format);
    assert Stage(ops[1]) == 1;
  }

  /** Reordering is detectable: exchanging any two operations of the page
      batch gives a different batch. */
  lemma PageOpsSwapDetected(block_id: string, space_id: string, user_id: string,
                            properties: Value, format: Value, i: nat, j: nat)
    requires i < j < 6
    ensures var ops := PageOps(block_id, space_id, user_id, properties, format);
      ops[i := ops[j]][j := ops[i]] != ops
  {
    var ops := PageOps(block_id, space_id, user_id, properties, format);
    PageOpsShape(block_id, space_id, user_id, properties, format);
    var swapped := ops[i := ops[j]][j := ops[i]];
    assert Stage(swapped[i]) == j;
  }
}
