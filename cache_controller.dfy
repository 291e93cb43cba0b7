/** The cache administration handlers (`controllers/cache.controller.js`): list
    the keys, read one entry, delete one entry, clear everything. Each works on
    the shared store and either answers with a JSON body or passes a
    `CustomError` on to the error formatter. */
module CacheController {
  import opened Wrappers
  import opened HttpStatusText
  import opened CustomError
  import opened ErrorHandler
  import opened RedisStore

  /** `{status, count, data}` of `GET /cache`. */
  datatype KeysBody = KeysBody(status: StatusText, count: nat, data: seq<string>)
  /** `{status, key, data}` of `GET /cache/:key`; the stored text stands for
      the parsed JSON value. */
  datatype EntryBody = EntryBody(status: StatusText, key: string, data: string)
  /** `{status, message}` of the two deleting handlers. */
  datatype MessageBody = MessageBody(status: StatusText, message: string)

  const NotFoundMessage := "Cache key not found"
  const ClearedMessage := "All cache cleared successfully"

  /** The error both `getByKey` and `deleteByKey` throw for a missing key. */
  function NotFound(): (e: AppError)
    ensures FormatError(e) == ErrorResponse(404, FAIL, "Cache key not found")
  {
    NewCustomError(NotFoundMessage, 404, FAIL)
  }

  /** The confirmation sent after a key was deleted. */
  function DeletedMessage(key: string): (m: string)
    ensures |m| == |key| + 33
    ensures m[..11] == "Cache key '" && m[11..11 + |key|] == key && m[11 + |key|..] == "' deleted successfully"
  {
    "Cache key '" + key + "' deleted successfully"
  }

  /** `getAllKeys`: every key of the store, each once, with their count. */
  method GetAllKeys(store: Store) returns (r: KeysBody)
    modifies store`log
    ensures r.status == SUCCESS
    ensures Enumerates(r.data, store.data.Keys)
    ensures r.count == |r.data| == |store.data|
    ensures store.log == old(store.log) + [Command.Keys]
  {
    var keys := store.Keys();
    EnumerationLength(keys, store.data.Keys);
    r := KeysBody(SUCCESS, |keys|, keys);
  }

  /** `getByKey`: the stored value of a key; a key that is absent or holds the
      empty string (a falsy value) is reported as not found. */
  method GetByKey(store: Store, key: string) returns (r: Result<EntryBody, AppError>)
    modifies store`log
    ensures key in store.data && store.data[key] != "" ==> r == Success(EntryBody(SUCCESS, key, store.data[key]))
    ensures key !in store.data || store.data[key] == "" ==> r == Failure(NotFound())
    ensures store.log == old(store.log) + [Command.Get(key)]
  {
    var value := store.Get(key);
    if value.None? || value.value == "" {
      return Failure(NotFound());
    }
    r := Success(EntryBody(SUCCESS, key, value.value));
  }

  /** `deleteByKey`: removes the key; when nothing was removed the key is
      reported as not found and the store is as it was. */
  method DeleteByKey(store: Store, key: string) returns (r: Result<MessageBody, AppError>)
    modifies store
    ensures store.data == old(store.data) - {key}
    ensures key in old(store.data) ==> r == Success(MessageBody(SUCCESS, DeletedMessage(key)))
    ensures key !in old(store.data) ==> r == Failure(NotFound()) && store.data == old(store.data)
    ensures store.log == old(store.log) + [Command.Del(key)]
  {
    var deleted := store.Del(key);
    if deleted == 0 {
      return Failure(NotFound());
    }
    r := Success(MessageBody(SUCCESS, DeletedMessage(key)));
  }

  /** `clearAll`: empties the store and always succeeds. */
  method ClearAll(store: Store) returns (r: MessageBody)
    modifies store
    ensures store.data == map[]
    ensures r == MessageBody(SUCCESS, ClearedMessage)
    ensures store.log == old(store.log) + [Command.FlushAll]
  {
    store.FlushAll();
    r := MessageBody(SUCCESS, ClearedMessage);
  }

  // ---------------------------------------------------------------------------
  // Handlers in sequence.

  /** Deleting the same key twice: the second attempt is always reported as
      not found, and only that key has gone. */
  method DeleteTwice(store: Store, key: string) returns (first: Result<MessageBody, AppError>, second: Result<MessageBody, AppError>)
    modifies store
    ensures key in old(store.data) <==> first.Success?
    ensures second == Failure(NotFound())
    ensures store.data == old(store.data) - {key}
  {
    first := DeleteByKey(store, key);
    second := DeleteByKey(store, key);
  }

  /** After clearing, the key listing is empty. */
  method ClearThenList(store: Store) returns (r: KeysBody)
    modifies store
    ensures r == KeysBody(SUCCESS, 0, [])
    ensures store.data == map[]
  {
    var _ := ClearAll(store);
    r := GetAllKeys(store);
  }

  /** Clearing twice answers and leaves the store as clearing once. */
  method ClearTwice(store: Store) returns (first: MessageBody, second: MessageBody)
    modifies store
    ensures first == second == MessageBody(SUCCESS, ClearedMessage)
    ensures store.data == map[]
  {
    first := ClearAll(store);
    second := ClearAll(store);
  }

  /** After a read of a key that is absent, a delete of it fails alike. */
  method ReadThenDeleteMissing(store: Store, key: string) returns (read: Result<EntryBody, AppError>, deleted: Result<MessageBody, AppError>)
    requires key !in store.data
    modifies store
    ensures read == Failure(NotFound()) && deleted == Failure(NotFound())
    ensures store.data == old(store.data)
  {
    read := GetByKey(store, key);
    deleted := DeleteByKey(store, key);
  }
}
