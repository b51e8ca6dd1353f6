/**
  A model of `EosActionMapper.action_to_dict` from eos-etl: an EOS action
  and the transaction it belongs to become one flat row of type `action`,
  and the fields the row consumed are removed from the action in place so
  that whatever is left over can be inspected.

  Dictionaries are finite maps from key to a JSON-like value. The in-place
  removal is modelled by returning the action as it stands after the call.
 */
module ActionMapper {

  /** The values an action or transaction dictionary holds. */
  datatype Value =
    | Str(text: string)
    | Num(number: int)
    | Bool(truth: bool)
    | Null
    | List(elements: seq<Value>)
    | Object(fields: map<string, Value>)

  type Record = map<string, Value>

  /** A failed dictionary lookup, naming the missing key. */
  datatype Error = KeyError(key: string)

  datatype Result<T> = Ok(value: T) | Err(error: Error)

  /** What a call leaves behind: the returned row or the exception raised,
      and the caller's action dictionary as it stands after the call. */
  datatype Call = Call(result: Result<Record>, action: Record)

  /** Which dictionary a lookup reads. */
  datatype Source = Transaction | Action

  /** The subscript lookups the row is built from, in evaluation order. */
  const Lookups: seq<(Source, string)> := [
    (Transaction, "trx.hash"),
    (Transaction, "block_hash"),
    (Action, "account"),
    (Action, "name"),
    (Action, "authorization"),
    (Action, "data")
  ]

  /** The keys of every row. */
  const RowKeys: set<string> :=
    {"type", "transaction_hash", "block_hash", "account", "name", "authorization", "data", "hex_data"}

  /** The keys removed from the action once the row is built. */
  const Consumed: set<string> := {"account", "name", "authorization", "data", "hex_data"}

  /** The placeholder stored when the action carries no `hex_data`. */
  const NoHexData: Value := Str("NULL")

  /** Whether a lookup finds its key. */
  predicate Found(lookup: (Source, string), action: Record, transaction: Record)
  {
    if lookup.0 == Transaction then lookup.1 in transaction else lookup.1 in action
  }

  /** Every key the row is built from is present. */
  predicate HasLookedUpKeys(action: Record, transaction: Record)
  {
    && "trx.hash" in transaction && "block_hash" in transaction
    && "account" in action && "name" in action && "authorization" in action && "data" in action
  }

  /** The lookup at position `i` is the first one that fails. */
  predicate FirstMissing(i: int, action: Record, transaction: Record)
  {
    && 0 <= i < |Lookups|
    && !Found(Lookups[i], action, transaction)
    && forall j :: 0 <= j < i ==> Found(Lookups[j], action, transaction)
  }

  /** `action_to_dict(action, transaction_dict)`. The row's values are
      looked up in order and the first missing key raises before anything
      is removed; otherwise the five consumed keys are removed from the
      action, an absent `hex_data` included, and every other key is left
      as it was. */
  function ActionToDict(action: Record, transaction: Record): (r: Call)
    // the call succeeds exactly when every lookup finds its key
    ensures r.result.Ok? <==> HasLookedUpKeys(action, transaction)
    // a failure names the first key that is missing and leaves the action alone
    ensures r.result.Err? ==>
      && r.action == action
      && exists i :: FirstMissing(i, action, transaction) && r.result.error == KeyError(Lookups[i].1)
    // a row has exactly the eight row keys, with these values
    ensures r.result.Ok? ==>
      var row := r.result.value;
      && row.Keys == RowKeys
      && row["type"] == Str("action")
      && row["transaction_hash"] == transaction["trx.hash"]
      && row["block_hash"] == transaction["block_hash"]
      && row["account"] == action["account"]
      && row["name"] == action["name"]
      && row["authorization"] == action["authorization"]
      && row["data"] == action["data"]
      && row["hex_data"] == (if "hex_data" in action then action["hex_data"] else NoHexData)
    // after a success the action has lost the consumed keys and nothing else
    ensures r.result.Ok? ==>
      && r.action.Keys == action.Keys - Consumed
      && forall k :: k in r.action ==> r.action[k] == action[k]
  {
    if "trx.hash" !in transaction then
      assert FirstMissing(0, action, transaction);
      Call(Err(KeyError("trx.hash")), action)
    else if "block_hash" !in transaction then
      assert FirstMissing(1, action, transaction);
      Call(Err(KeyError("block_hash")), action)
    else if "account" !in action then
      assert FirstMissing(2, action, transaction);
      Call(Err(KeyError("account")), action)
    else if "name" !in action then
      assert FirstMissing(3, action, transaction);
      Call(Err(KeyError("name")), action)
    else if "authorization" !in action then
      assert FirstMissing(4, action, transaction);
      Call(Err(KeyError("authorization")), action)
    else if "data" !in action then
      assert FirstMissing(5, action, transaction);
      Call(Err(KeyError("data")), action)
    else
      var row := map[
        "type" := Str("action"),
        "transaction_hash" := transaction["trx.hash"],
        "block_hash" := transaction["block_hash"],
        "account" := action["account"],
        "name" := action["name"],
        "authorization" := action["authorization"],
        "data" := action["data"],
        "hex_data" := if "hex_data" in action then action["hex_data"] else NoHexData
      ];
      Call(Ok(row), action - Consumed)
  }

  /** Puts the consumed fields of a row back into what was left of the
      action. A `hex_data` equal to the placeholder is taken to mean that
      the action had none. */
  function Restore(row: Record, left: Record): (action: Record)
    requires RowKeys <= row.Keys
    ensures action.Keys == left.Keys + {"account", "name", "authorization", "data"} +
      (if row["hex_data"] == NoHexData then {} else {"hex_data"})
  {
    var restored := left["account" := row["account"]]["name" := row["name"]]
      ["authorization" := row["authorization"]]["data" := row["data"]];
    if row["hex_data"] == NoHexData then restored else restored["hex_data" := row["hex_data"]]
  }
}
