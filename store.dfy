/**
 * The DynamoDB post table and the S3 bucket, reduced to what the service
 * relies on: a table is a map from the composite key (user, id) to a record
 * that repeats its key attributes, a bucket is the set of its object keys.
 */
module Store {
  import opened Wrappers
  import opened Values

  datatype StoreKey = StoreKey(user: string, id: string)

  /** The key a record carries in its `user` and `id` attributes, if both are strings. */
  function KeyOf(item: Item): Option<StoreKey>
  {
    if "user" in item && item["user"].Str? && "id" in item && item["id"].Str? then
      Some(StoreKey(item["user"].s, item["id"].s))
    else None
  }

  /** The only attributes of a record that an update creates from nothing. */
  function KeyAttributes(k: StoreKey): (item: Item)
    ensures KeyOf(item) == Some(k)
  {
    map["user" := Str(k.user), "id" := Str(k.id)]
  }

  /** DynamoDB refuses key values that are not non-empty strings. */
  function KeyFrom(user: Value, id: Value): (k: Option<StoreKey>)
    ensures k.Some? <==> user.Str? && user.s != "" && id.Str? && id.s != ""
    ensures k.Some? ==> k.value == StoreKey(user.s, id.s)
  {
    if user.Str? && user.s != "" && id.Str? && id.s != "" then Some(StoreKey(user.s, id.s)) else None
  }

  /** Every record sits under the key its attributes name. */
  ghost predicate WellKeyed(items: map<StoreKey, Item>)
  {
    forall k :: k in items ==> KeyOf(items[k]) == Some(k)
  }

  /**
   * `update_item(Key=k, UpdateExpression="SET image = :img, labels = :lbl")`
   * with no condition: an existing record keeps its other attributes, and a
   * missing one is created holding only its key, `image` and `labels`.
   */
  function SetImageLabels(items: map<StoreKey, Item>, k: StoreKey, image: Value, labels: Value): (r: map<StoreKey, Item>)
    ensures r.Keys == items.Keys + {k}
    ensures "image" in r[k] && r[k]["image"] == image
    ensures "labels" in r[k] && r[k]["labels"] == labels
    ensures forall k' :: k' in items && k' != k ==> r[k'] == items[k']
    ensures k in items ==> forall a :: a in items[k] && a != "image" && a != "labels" ==> a in r[k] && r[k][a] == items[k][a]
    ensures k !in items ==> r[k].Keys == {"user", "id", "image", "labels"}
    ensures k in items ==> r[k].Keys == items[k].Keys + {"image", "labels"}
    ensures WellKeyed(items) ==> WellKeyed(r)
  {
    var base := if k in items then items[k] else KeyAttributes(k);
    items[k := base["image" := image]["labels" := labels]]
  }

  /** The keys of one partition: every record whose partition key is `user`. */
  function OwnerKeys(items: map<StoreKey, Item>, user: string): set<StoreKey>
  {
    set k | k in items && k.user == user
  }

  /** `keys` lists every element of `s` exactly once. */
  predicate Enumerates(keys: seq<StoreKey>, s: set<StoreKey>)
  {
    && (forall i :: 0 <= i < |keys| ==> keys[i] in s)
    && (forall k :: k in s ==> k in keys)
    && (forall i, j :: 0 <= i < j < |keys| ==> keys[i] != keys[j])
  }

  /** The records stored under `keys`, in that order (an empty record for a missing key). */
  function Lookup(items: map<StoreKey, Item>, keys: seq<StoreKey>): (r: seq<Item>)
    ensures |r| == |keys|
    ensures forall i :: 0 <= i < |keys| && keys[i] in items ==> r[i] == items[keys[i]]
  {
    if keys == [] then []
    else
      var last := keys[|keys| - 1];
      Lookup(items, keys[..|keys| - 1]) + [if last in items then items[last] else map[]]
  }

  class PostTable {
    var items: map<StoreKey, Item>

    ghost predicate Valid()
      reads this
    {
      WellKeyed(items)
    }

    constructor (initial: map<StoreKey, Item>)
      requires WellKeyed(initial)
      ensures Valid() && items == initial
    {
      items := initial;
    }

    /** `put_item`: the record replaces whatever was stored under its key. */
    method PutItem(k: StoreKey, item: Item)
      requires Valid() && KeyOf(item) == Some(k)
      modifies this
      ensures Valid() && items == old(items)[k := item]
    {
      items := items[k := item];
    }

    /** The unconditional `SET image, labels` update. */
    method UpdateImageLabels(k: StoreKey, image: Value, labels: Value)
      requires Valid()
      modifies this
      ensures Valid() && items == SetImageLabels(old(items), k, image, labels)
    {
      items := SetImageLabels(items, k, image, labels);
    }

    /** `get_item`: the stored record, or nothing. */
    method GetItem(k: StoreKey) returns (r: Option<Item>)
      ensures r == if k in items then Some(items[k]) else None
    {
      r := if k in items then Some(items[k]) else None;
    }

    /**
     * `query(KeyConditionExpression=Key('user').eq(user))`: every record in
     * that partition, each once, in an order the store chooses. `keys` names
     * the records in the order they come back.
     */
    method Query(user: string) returns (found: seq<Item>, ghost keys: seq<StoreKey>)
      ensures Enumerates(keys, OwnerKeys(items, user))
      ensures found == Lookup(items, keys)
    {
      var remaining := items.Keys;
      found, keys := [], [];
      while remaining != {}
        invariant remaining <= items.Keys
        invariant forall i :: 0 <= i < |keys| ==> keys[i] in OwnerKeys(items, user) && keys[i] !in remaining
        invariant forall k :: k in OwnerKeys(items, user) ==> k in remaining || k in keys
        invariant forall i, j :: 0 <= i < j < |keys| ==> keys[i] != keys[j]
        invariant found == Lookup(items, keys)
        decreases |remaining|
      {
        var k :| k in remaining;
        if k.user == user {
          keys := keys + [k];
          found := found + [items[k]];
        }
        remaining := remaining - {k};
      }
    }

    /** `delete_item`: removes the key; deleting a missing key changes nothing. */
    method DeleteItem(k: StoreKey)
      requires Valid()
      modifies this
      ensures Valid() && items == old(items) - {k}
    {
      items := items - {k};
    }
  }

  class Bucket {
    var objects: set<string>

    constructor (initial: set<string>)
      ensures objects == initial
    {
      objects := initial;
    }

    method PutObject(key: string)
      modifies this
      ensures objects == old(objects) + {key}
    {
      objects := objects + {key};
    }

    /** `delete_object`: succeeds whether or not the key exists. */
    method DeleteObject(key: string)
      modifies this
      ensures objects == old(objects) - {key}
    {
      objects := objects - {key};
    }
  }
}
