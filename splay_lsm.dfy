/** The `LSMTree` store facade. The engine behind it is foreign; it is
    modelled by the contents it holds, a map from keys to values, so that
    `Put` is a map update and `Get` a lookup. */
module SplayLsm {
  import opened EngineOptions

  /** The engine statuses the facade can observe. */
  datatype Status = Ok | NotFound

  // Defaults of the size fields of `LSMTree`.
  const DefaultMemtableSize: int := 131072
  const DefaultCacheSize: int := 131072
  const DefaultMultiplier: int := 2

  class LSMTree {
    /** Contents of the open engine instance (`db`). */
    var db: map<string, string>
    var options: Options
    /** Status of the most recent engine call made through the facade (`s`). */
    var s: Status
    var memtableSize: int
    var cacheSize: int
    const multiplier: int := DefaultMultiplier
    /** Whether splaying was requested (`is_splay_`); no operation reads it. */
    var isSplay: bool

    /** The options in use are the ones derived from the size fields. */
    predicate Valid()
      reads this
    {
      && ValidArguments(memtableSize, cacheSize, multiplier)
      && options == GetOptions(memtableSize, cacheSize, multiplier)
    }

    /** `LSMTree(name, isSplay)`: derive the options from the default sizes
        and open the engine at `name`, whose existing contents are
        `onDisk`. The open status goes into a local that shadows the field
        `s`, so the field keeps its default-constructed value, `Ok`. */
    constructor (name: string, isSplay: bool, onDisk: map<string, string>)
      ensures Valid()
      ensures memtableSize == DefaultMemtableSize && cacheSize == DefaultCacheSize
      ensures options.writeBufferSize == 131072 && options.maxBytesForLevelBase == 262144
      ensures options.level0FileNumCompactionTrigger == 2 && options.level0SlowdownWritesTrigger == 2
      ensures options.level0StopWritesTrigger == 2 && options.maxBytesForLevelMultiplier == 2
      ensures db == onDisk && s == Ok && this.isSplay == isSplay
    {
      memtableSize := DefaultMemtableSize;
      cacheSize := DefaultCacheSize;
      this.isSplay := isSplay;
      new;
      options := GetOptions(memtableSize, cacheSize, multiplier);
      // DB::Open reports into a local `s`; opening is not modelled to fail
      db := onDisk;
      s := Ok;
    }

    /** `Insert(key, value)`: write through the engine; the key now maps to
        `value` and no other key changes. */
    method Insert(key: string, value: string) returns (st: Status)
      requires Valid()
      modifies this`db, this`s
      ensures Valid()
      ensures db == old(db)[key := value]
      // the update above, spelled out key by key: every other key is untouched
      ensures forall k :: k != key ==> (k in db <==> k in old(db)) && (k in db ==> db[k] == old(db)[k])
      ensures st == Ok && s == st
    {
      db := db[key := value];
      s := Ok;
      st := s;
    }

    /** `Get(key, value)`: read through the engine. A stored key yields its
        value with `Ok`; a missing key yields `NotFound`. The store is left
        as it was. */
    method Get(key: string) returns (st: Status, value: string)
      requires Valid()
      modifies this`s
      ensures Valid()
      ensures st == Ok <==> key in db
      // the line above read from the missing-key side
      ensures st == NotFound <==> key !in db
      ensures key in db ==> value == db[key]
      ensures key !in db ==> value == ""
      ensures s == st
    {
      if key in db {
        s := Ok;
        value := db[key];
      } else {
        s := NotFound;
        value := "";
      }
      st := s;
    }
  }

  // ---------------------------------------------------------------------
  // The facade as a function of its request history
  // ---------------------------------------------------------------------

  datatype Request = InsertRequest(key: string, value: string) | GetRequest(key: string)

  /** What a request returns: `Insert` only a status, `Get` a status and a value. */
  datatype Reply = InsertReply(status: Status) | GetReply(status: Status, value: string)

  /** The replies to a run of requests and the store they leave behind. */
  datatype Trace = Trace(replies: seq<Reply>, store: map<string, string>)

  /** One request against a store. */
  function Step(store: map<string, string>, req: Request): (Reply, map<string, string>) {
    match req
    case InsertRequest(k, v) => (InsertReply(Ok), store[k := v])
    case GetRequest(k) =>
      if k in store then (GetReply(Ok, store[k]), store) else (GetReply(NotFound, ""), store)
  }

  /** A run of requests against a store, the last request applied last. */
  function Run(store: map<string, string>, reqs: seq<Request>): (t: Trace)
    ensures |t.replies| == |reqs|
    decreases |reqs|
  {
    if reqs == [] then Trace([], store)
    else
      var prev := Run(store, reqs[..|reqs| - 1]);
      var (reply, next) := Step(prev.store, reqs[|reqs| - 1]);
      Trace(prev.replies + [reply], next)
  }

  /** No request in `reqs` writes `key`. */
  predicate WritesNot(reqs: seq<Request>, key: string) {
    forall i :: 0 <= i < |reqs| ==> !(reqs[i].InsertRequest? && reqs[i].key == key)
  }

  /** Requests that do not write `key` leave its stored value alone. */
  lemma {:induction false} OtherRequestsKeepKey(store: map<string, string>, before: seq<Request>, after: seq<Request>, key: string)
    requires WritesNot(after, key)
    ensures key in Run(store, before + after).store <==> key in Run(store, before).store
    ensures key in Run(store, before).store ==>
              Run(store, before + after).store[key] == Run(store, before).store[key]
    decreases |after|
  {
    if after == [] {
      assert before + after == before;
    } else {
      var shorter := after[..|after| - 1];
      assert (before + after)[..|before + after| - 1] == before + shorter;
      assert WritesNot(shorter, key);
      OtherRequestsKeepKey(store, before, shorter, key);
    }
  }

  /** Read your writes: after `Insert(key, value)`, a `Get(key)` that is
      separated from it only by requests that do not write `key` returns
      `value` with an ok status. */
  lemma ReadYourWrites(store: map<string, string>, before: seq<Request>, key: string, value: string, between: seq<Request>)
    requires WritesNot(between, key)
    ensures var reqs := before + [InsertRequest(key, value)] + between + [GetRequest(key)];
            Run(store, reqs).replies[|reqs| - 1] == GetReply(Ok, value)
  {
    var written := before + [InsertRequest(key, value)];
    var reqs := written + between + [GetRequest(key)];
    assert written[..|written| - 1] == before;
    OtherRequestsKeepKey(store, written, between, key);
    assert reqs[..|reqs| - 1] == written + between;
  }

  /** Runs `reqs` against a freshly opened store, with splaying on or off as
      `isSplay` says, and collects the replies. */
  method Replay(name: string, isSplay: bool, onDisk: map<string, string>, reqs: seq<Request>)
    returns (replies: seq<Reply>, contents: map<string, string>)
    ensures Trace(replies, contents) == Run(onDisk, reqs)
  {
    var tree := new LSMTree(name, isSplay, onDisk);
    replies := [];
    for i := 0 to |reqs|
      invariant tree.Valid()
      invariant Trace(replies, tree.db) == Run(onDisk, reqs[..i])
    {
      assert reqs[..i + 1][..i] == reqs[..i];
      match reqs[i]
      case InsertRequest(k, v) =>
        var st := tree.Insert(k, v);
        replies := replies + [InsertReply(st)];
      case GetRequest(k) =>
        var st, value := tree.Get(k);
        replies := replies + [GetReply(st, value)];
    }
    assert reqs[..|reqs|] == reqs;
    contents := tree.db;
  }

  /** The splay flag makes no difference: the same requests against the
      same stored contents get the same replies and leave the same
      contents, with splaying on or off. */
  method SplayModeChangesNothing(name: string, onDisk: map<string, string>, reqs: seq<Request>)
    returns (plain: seq<Reply>, splayed: seq<Reply>, plainContents: map<string, string>, splayedContents: map<string, string>)
    ensures plain == splayed && plainContents == splayedContents
    ensures Trace(plain, plainContents) == Run(onDisk, reqs)
  {
    plain, plainContents := Replay(name, false, onDisk, reqs);
    splayed, splayedContents := Replay(name, true, onDisk, reqs);
  }

  /** The example client: open a store, insert "key1" -> "value", read it
      back; both calls succeed and the read returns exactly "value". */
  method SplayExample(onDisk: map<string, string>) returns (insertStatus: Status, getStatus: Status, value: string)
    ensures insertStatus == Ok && getStatus == Ok && value == "value"
  {
    var db := new LSMTree("/tmp/splay_simple_example", false, onDisk);
    insertStatus := db.Insert("key1", "value");
    getStatus, value := db.Get("key1");
  }
}
