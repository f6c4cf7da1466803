/** Calling a host value: as a function (only a `Function` that holds a
    handle) or by method name (any value that holds a handle), with no
    argument, one argument, or a list of arguments encoded into one buffer. */
module Call {
  import opened Wrappers
  import opened Bytes
  import opened Values
  import opened Tags
  import opened Cursors
  import JsSer
  import opened Ffi

  /** The handle `call*` may invoke: present only for a `Function` whose
      representation is a handle. */
  function FunctionTarget(v: JsValue): (r: Option<uint32>)
    ensures r.Some? <==> v.jsType.Function? && v.val.Ref?
    ensures r.Some? ==> r.value == v.val.id
  {
    match v
    case JsValue(Function, Ref(refId)) => Some(refId)
    case _ => Option.None
  }

  /** The handle `call_method*` may invoke: present for any value whose
      representation is a handle, whatever type it declares. */
  function MethodTarget(v: JsValue): (r: Option<uint32>)
    ensures r.Some? <==> v.val.Ref?
    ensures r.Some? ==> r.value == v.val.id
  {
    match v.val
    case Ref(refId) => Some(refId)
    case _ => Option.None
  }

  /** The function gate is the method gate restricted to `Function`s, and
      the method gate does not look at the declared type. */
  lemma GatesAgree(v: JsValue, t: JsType)
    ensures FunctionTarget(v) == if v.jsType.Function? then MethodTarget(v) else Option.None
    ensures MethodTarget(JsValue(t, v.val)) == MethodTarget(v)
  {
  }

  /** `args.len() as u32`. */
  function Argc(args: seq<JsSer.Arg>): (n: uint32)
    ensures |args| <= U32_MAX ==> n == |args|
  {
    |args| % 0x1_0000_0000
  }

  /** The buffer of a one-argument call: a vector of capacity 9, the
      argument serialised into it. Nine bytes always suffice, so the vector
      never grows. */
  method SerializeArg(tags: TagTable, arg: JsSer.Arg) returns (bytes: seq<byte>, capacity: nat)
    ensures bytes == JsSer.Encode(tags, arg)
    ensures capacity == 9 && |bytes| <= capacity
  {
    var cursor := new Cursor(9);
    JsSer.Ser(tags, arg, cursor);
    bytes := cursor.IntoInner();
    capacity := cursor.capacity;
  }

  /** The buffer of a many-argument call: a vector pre-sized to the folded
      declared sizes, each argument serialised into it in order. The bytes
      are the encodings one after the other; while the sizes add up to less
      than 2^32 the pre-sized capacity is exactly their length, so the
      vector never grows. */
  method SerializeArgs(tags: TagTable, args: seq<JsSer.Arg>) returns (bytes: seq<byte>, capacity: nat)
    ensures bytes == JsSer.EncodeAll(tags, args)
    ensures |bytes| == JsSer.SumSizes(args)
    ensures JsSer.SumSizes(args) <= U32_MAX ==> capacity == JsSer.FoldSizes(args) == |bytes|
  {
    var allocSize := JsSer.FoldSizes(args);
    var cursor := new Cursor(allocSize);
    var i := 0;
    while i < |args|
      invariant 0 <= i <= |args|
      invariant cursor.Valid()
      invariant cursor.inner == JsSer.EncodeAll(tags, args[..i])
      invariant cursor.capacity == Reserve(allocSize, |cursor.inner|)
    {
      JsSer.Ser(tags, args[i], cursor);
      assert args[..i + 1][..i] == args[..i];
      i := i + 1;
    }
    assert args[..i] == args;
    bytes := cursor.IntoInner();
    capacity := cursor.capacity;
  }

  /** `call`: invokes a function value with no argument. */
  method CallNoArg(v: JsValue, ffi: Boundary) returns (r: Option<JsValue>)
    ensures r.Some? <==> v.jsType.Function? && v.val.Ref?
    ensures r.Some? ==> r.value == ffi.Reply(Call0(v.val.id))
  {
    match FunctionTarget(v)
    case Some(refId) =>
      var retVec := ffi.host(Call0(refId));
      r := Some(ffi.getSingleVal(retVec));
    case _ =>
      r := Option.None;
  }

  /** `call_with_arg`: invokes a function value with one encoded argument. */
  method CallWithArg(v: JsValue, tags: TagTable, arg: JsSer.Arg, ffi: Boundary) returns (r: Option<JsValue>)
    ensures r.Some? <==> v.jsType.Function? && v.val.Ref?
    ensures r.Some? ==> r.value == ffi.Reply(Call1(v.val.id, JsSer.Encode(tags, arg)))
  {
    match FunctionTarget(v)
    case Some(refId) =>
      var bytes, _ := SerializeArg(tags, arg);
      var retVec := ffi.host(Call1(refId, bytes));
      r := Some(ffi.getSingleVal(retVec));
    case _ =>
      r := Option.None;
  }

  /** `call_with_args`: invokes a function value with the arguments encoded
      in order into one buffer, together with their count. */
  method CallWithArgs(v: JsValue, tags: TagTable, args: seq<JsSer.Arg>, ffi: Boundary) returns (r: Option<JsValue>)
    ensures r.Some? <==> v.jsType.Function? && v.val.Ref?
    ensures r.Some? ==> r.value == ffi.Reply(CallArgs(v.val.id, Argc(args), JsSer.EncodeAll(tags, args)))
  {
    match FunctionTarget(v)
    case Some(refId) =>
      var bytes, _ := SerializeArgs(tags, args);
      var retVec := ffi.host(CallArgs(refId, Argc(args), bytes));
      r := Some(ffi.getSingleVal(retVec));
    case _ =>
      r := Option.None;
  }

  /** `call_method`: invokes the named member of a value held by handle. */
  method CallMethod(v: JsValue, name: string, ffi: Boundary) returns (r: Option<JsValue>)
    ensures r.Some? <==> v.val.Ref?
    ensures r.Some? ==> r.value == ffi.Reply(CallMethod0(v.val.id, name))
  {
    match MethodTarget(v)
    case Some(refId) =>
      var retVec := ffi.host(CallMethod0(refId, name));
      r := Some(ffi.getSingleVal(retVec));
    case _ =>
      r := Option.None;
  }

  /** `call_method_with_arg`: the named member, one encoded argument. */
  method CallMethodWithArg(v: JsValue, name: string, tags: TagTable, arg: JsSer.Arg, ffi: Boundary)
    returns (r: Option<JsValue>)
    ensures r.Some? <==> v.val.Ref?
    ensures r.Some? ==> r.value == ffi.Reply(CallMethod1(v.val.id, name, JsSer.Encode(tags, arg)))
  {
    match MethodTarget(v)
    case Some(refId) =>
      var bytes, _ := SerializeArg(tags, arg);
      var retVec := ffi.host(CallMethod1(refId, name, bytes));
      r := Some(ffi.getSingleVal(retVec));
    case _ =>
      r := Option.None;
  }

  /** `call_method_with_args`: the named member, the arguments encoded in
      order into one buffer, together with their count. */
  method CallMethodWithArgs(v: JsValue, name: string, tags: TagTable, args: seq<JsSer.Arg>, ffi: Boundary)
    returns (r: Option<JsValue>)
    ensures r.Some? <==> v.val.Ref?
    ensures r.Some? ==> r.value == ffi.Reply(CallMethodArgs(v.val.id, name, Argc(args), JsSer.EncodeAll(tags, args)))
  {
    match MethodTarget(v)
    case Some(refId) =>
      var bytes, _ := SerializeArgs(tags, args);
      var retVec := ffi.host(CallMethodArgs(refId, name, Argc(args), bytes));
      r := Some(ffi.getSingleVal(retVec));
    case _ =>
      r := Option.None;
  }
}
