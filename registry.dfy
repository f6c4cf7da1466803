/** The callback registry: one shared id counter, starting at 1, and two
    tables from id to closure, one for closures without an argument and one
    for closures that take a value. Closures are opaque tokens of types
    `Thunk` and `UnaryThunk`; what running them does is not modelled. The
    per-thread storage is one explicit registry object. */
module Registry {
  import opened Bytes
  import opened Values
  import opened Ffi

  /** One registration request, of either shape. */
  datatype Registration<Thunk, UnaryThunk> =
    | NoArg(callback: Thunk)
    | WithArg(argCallback: UnaryThunk)

  class CallbackRegistry<Thunk, UnaryThunk> {
    var callbacks: map<uint32, Thunk>
    var argCallbacks: map<uint32, UnaryThunk>
    /** The id the next registration receives. */
    var lastCallbackId: uint32

    /** Ids are issued from 1 upwards; each issued id sits in exactly one of
        the two tables and every key is below the counter. */
    ghost predicate Valid()
      reads this
    {
      && 1 <= lastCallbackId
      && (forall k :: k in callbacks ==> 1 <= k < lastCallbackId)
      && (forall k :: k in argCallbacks ==> 1 <= k < lastCallbackId)
      && callbacks.Keys !! argCallbacks.Keys
      && (forall k: uint32 :: 1 <= k < lastCallbackId ==> k in callbacks || k in argCallbacks)
    }

    /** Both tables empty, the counter at 1. */
    constructor ()
      ensures Valid()
      ensures callbacks == map[] && argCallbacks == map[] && lastCallbackId == 1
    {
      callbacks := map[];
      argCallbacks := map[];
      lastCallbackId := 1;
    }

    /** `get_next_callback_id`: the counter's value, the counter one more. */
    method GetNextCallbackId() returns (id: uint32)
      requires lastCallbackId < U32_MAX
      modifies this`lastCallbackId
      ensures id == old(lastCallbackId) && lastCallbackId == id + 1
    {
      id := lastCallbackId;
      lastCallbackId := id + 1;
    }

    /** `register_callback`: files a closure without argument under a fresh
        id, which it returns; nothing else in either table changes. */
    method RegisterCallback(callback: Thunk) returns (id: uint32)
      requires Valid() && lastCallbackId < U32_MAX
      modifies this
      ensures Valid()
      ensures id == old(lastCallbackId) && lastCallbackId == id + 1
      ensures id !in old(callbacks) && id !in old(argCallbacks)
      ensures callbacks == old(callbacks)[id := callback]
      ensures argCallbacks == old(argCallbacks)
    {
      id := GetNextCallbackId();
      callbacks := callbacks[id := callback];
    }

    /** `register_callback_arg`: the same for a closure that takes a value. */
    method RegisterCallbackArg(callback: UnaryThunk) returns (id: uint32)
      requires Valid() && lastCallbackId < U32_MAX
      modifies this
      ensures Valid()
      ensures id == old(lastCallbackId) && lastCallbackId == id + 1
      ensures id !in old(callbacks) && id !in old(argCallbacks)
      ensures argCallbacks == old(argCallbacks)[id := callback]
      ensures callbacks == old(callbacks)
    {
      id := GetNextCallbackId();
      argCallbacks := argCallbacks[id := callback];
    }

    /** `wasm_val_call_registered_callback`: the closure filed under `key`,
        which is then run. The key must be present: the source panics
        otherwise. Nothing in the registry changes. */
    method CallRegisteredCallback(key: uint32) returns (callback: Thunk)
      requires key in callbacks
      ensures callback == callbacks[key]
    {
      callback := callbacks[key];
    }

    /** `wasm_val_call_registered_callback_arg`: decodes the host's buffer of
        `SINGLE_VAL_VEC_LEN` bytes into one value, then yields that value and
        the closure filed under `key`, which is then run on it. The key must
        be present. Nothing in the registry changes. */
    method CallRegisteredCallbackArg(key: uint32, buf: seq<byte>, ffi: Boundary)
      returns (callback: UnaryThunk, val: JsValue)
      requires |buf| == ffi.singleValVecLen
      requires key in argCallbacks
      ensures callback == argCallbacks[key]
      ensures val == ffi.getSingleVal(buf)
    {
      val := ffi.getSingleVal(buf);
      callback := argCallbacks[key];
    }

    /** Registers `rs` in order, in any mix of shapes. The ids come out
        consecutive from the counter's value, so strictly increasing and
        pairwise distinct, and each closure is filed under its own id in the
        table of its shape. */
    method RegisterAll(rs: seq<Registration<Thunk, UnaryThunk>>) returns (ids: seq<uint32>)
      requires Valid() && lastCallbackId + |rs| <= U32_MAX
      modifies this
      ensures Valid()
      ensures |ids| == |rs| && lastCallbackId == old(lastCallbackId) + |rs|
      ensures forall i :: 0 <= i < |ids| ==> ids[i] == old(lastCallbackId) + i
      ensures forall i, j :: 0 <= i < j < |ids| ==> ids[i] < ids[j]
      ensures forall i :: 0 <= i < |rs| && rs[i].NoArg? ==>
        ids[i] in callbacks && callbacks[ids[i]] == rs[i].callback
      ensures forall i :: 0 <= i < |rs| && rs[i].WithArg? ==>
        ids[i] in argCallbacks && argCallbacks[ids[i]] == rs[i].argCallback
      ensures forall k :: k in old(callbacks) ==> k in callbacks && callbacks[k] == old(callbacks)[k]
      ensures forall k :: k in old(argCallbacks) ==> k in argCallbacks && argCallbacks[k] == old(argCallbacks)[k]
    {
      ids := [];
      var i := 0;
      while i < |rs|
        invariant 0 <= i <= |rs|
        invariant Valid()
        invariant |ids| == i && lastCallbackId == old(lastCallbackId) + i
        invariant forall j :: 0 <= j < i ==> ids[j] == old(lastCallbackId) + j
        invariant forall j :: 0 <= j < i && rs[j].NoArg? ==>
          ids[j] in callbacks && callbacks[ids[j]] == rs[j].callback
        invariant forall j :: 0 <= j < i && rs[j].WithArg? ==>
          ids[j] in argCallbacks && argCallbacks[ids[j]] == rs[j].argCallback
        invariant forall k :: k in old(callbacks) ==> k in callbacks && callbacks[k] == old(callbacks)[k]
        invariant forall k :: k in old(argCallbacks) ==> k in argCallbacks && argCallbacks[k] == old(argCallbacks)[k]
      {
        var id;
        match rs[i] {
          case NoArg(f) => id := RegisterCallback(f);
          case WithArg(g) => id := RegisterCallbackArg(g);
        }
        ids := ids + [id];
        i := i + 1;
      }
    }
  }

  /** On a fresh registry, two registrations of closures without argument
      receive the ids 1 and 2. */
  method FirstTwoIds<Thunk, UnaryThunk>(f: Thunk, g: Thunk) returns (first: uint32, second: uint32)
    ensures first == 1 && second == 2
  {
    var registry := new CallbackRegistry<Thunk, UnaryThunk>();
    first := registry.RegisterCallback(f);
    second := registry.RegisterCallback(g);
  }
}
