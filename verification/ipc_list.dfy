/**
 * Decoding and skipping of a variable-size list array in an Arrow IPC record
 * batch (the "Variable-size List Layout" of the Apache Arrow Columnar Format).
 *
 * A record batch carries its field nodes in pre-order of the schema tree and
 * its buffers in a fixed per-type order. Both are FIFO queues shared by the
 * whole decode; here they are values threaded through the recursion and
 * returned with the decoded array.
 *
 * The buffer readers and the array constructors called from the list decoder
 * live in other files; they get small concrete definitions below whose
 * contracts are the assumptions the list decoder relies on.
 */
module IpcList {
  import opened Errors

  /** Logical types, as far as this model goes: a list nests one child type,
      and every other child is assumed to be a leaf laid out like a primitive
      array (one validity and one values buffer). Arrow's Null layout (no
      buffers) and the three-buffer binary layouts are not modelled. */
  datatype DType = Leaf | List(child: DType)

  /** Field node metadata: the declared length and null count of one array. */
  datatype Node = Node(length: nat, nullCount: nat)

  /** A buffer handle, represented by the values its bytes decode to (byte
      order and block compression are already applied). */
  datatype IpcBuffer = IpcBuffer(slots: seq<nat>)

  /** The shared field-node and buffer queues. */
  datatype Queues = Queues(nodes: seq<Node>, buffers: seq<IpcBuffer>)

  datatype Array =
    | PrimitiveArray(items: seq<nat>, validity: Option<seq<bool>>)
    | ListArray(dtype: DType, offsets: seq<nat>, values: Array, validity: Option<seq<bool>>)

  /** A decoded array together with the queues left for the next array. */
  datatype Decoded = Decoded(arr: Array, rest: Queues)

  /** The offsets and validity of a list, read before its child. */
  datatype ListHeader = ListHeader(node: Node, validity: Option<seq<bool>>, offsets: seq<nat>, rest: Queues)

  /** The decoded buffer (or the error) and the queues after the read; the
      buffer is popped even when decoding it fails. */
  datatype BufferRead = BufferRead(values: Result<seq<nat>>, rest: Queues)

  const MISSING_VALIDITY := "IPC: missing validity buffer."
  const MISSING_OFFSETS := "IPC: missing offsets buffer."
  const MISSING_VALUES := "IPC: missing values buffer."
  const EXPECTED_BUFFER := "IPC: expected a buffer. The file or stream is corrupted."
  const BUFFER_TOO_SHORT := "IPC: buffer is smaller than the number of values it must hold."

  function TypeName(dt: DType): string {
    match dt
    case Leaf => "primitive"
    case List(_) => "list"
  }

  /** The corruption error for an exhausted field-node queue. */
  function MissingFieldNode(dt: DType): string {
    "IPC: unable to fetch the field for " + TypeName(dt) + ". The file or stream is corrupted."
  }

  // ---------------------------------------------------------------------------
  // Shape of a type tree and of a decoded array
  // ---------------------------------------------------------------------------

  /** Field nodes an array of type `dt` owns: one per level of the tree. */
  function NodeCount(dt: DType): (n: nat)
    ensures n >= 1
  {
    match dt
    case Leaf => 1
    case List(c) => 1 + NodeCount(c)
  }

  /** Buffers an array of type `dt` owns: validity plus offsets per list
      level, validity plus values for the leaf. */
  function BufferCount(dt: DType): (n: nat)
    ensures n >= 2 && n == 2 * NodeCount(dt)
  {
    match dt
    case Leaf => 2
    case List(c) => 2 + BufferCount(c)
  }

  /** `try_get_array_length`: the declared length, capped by the limit. */
  function Cap(length: nat, limit: Option<nat>): (n: nat)
    ensures n <= length
    ensures limit.Some? ==> n <= limit.value
    ensures limit.None? || length <= limit.value ==> n == length
    ensures limit.Some? && limit.value <= length ==> n == limit.value
  {
    match limit
    case None => length
    case Some(l) => if l <= length then l else length
  }

  function Len(a: Array): nat {
    match a
    case PrimitiveArray(items, _) => |items|
    case ListArray(_, offsets, _, _) => if |offsets| == 0 then 0 else |offsets| - 1
  }

  function DTypeOf(a: Array): DType {
    match a
    case PrimitiveArray(_, _) => Leaf
    case ListArray(dt, _, _, _) => dt
  }

  predicate Monotone(s: seq<nat>) {
    forall i :: 0 < i < |s| ==> s[i - 1] <= s[i]
  }

  function Last(s: seq<nat>): nat
    requires |s| > 0
  {
    s[|s| - 1]
  }

  /** The layout invariants of a decoded array: offsets start the list,
      never decrease and stay within the child; validity has one bit per
      element; the child has the declared child type. */
  predicate WellFormed(a: Array) {
    match a
    case PrimitiveArray(items, validity) =>
      validity.Some? ==> |validity.value| == |items|
    case ListArray(dt, offsets, values, validity) =>
      && dt.List? && dt.child == DTypeOf(values)
      && |offsets| >= 1 && Monotone(offsets) && Last(offsets) <= Len(values)
      && (validity.Some? ==> |validity.value| == |offsets| - 1)
      && WellFormed(values)
  }

  /** `rest` is what remains of `q` once an array of type `dt` has taken its
      own nodes and buffers from the front, and nothing else. */
  predicate Consumes(q: Queues, dt: DType, rest: Queues) {
    && |q.nodes| >= NodeCount(dt)
    && |q.buffers| >= BufferCount(dt)
    && rest == Queues(q.nodes[NodeCount(dt)..], q.buffers[BufferCount(dt)..])
  }

  // ---------------------------------------------------------------------------
  // Readers the list decoder calls
  // ---------------------------------------------------------------------------

  /** `try_get_field_node`: pops the front field node. */
  function TryGetFieldNode(q: Queues, dt: DType): (r: Result<(Node, Queues)>)
    ensures r.Err? <==> |q.nodes| == 0
    ensures r.Err? ==> r.error == OutOfSpec(MissingFieldNode(dt))
    ensures r.Ok? ==> r.value.0 == q.nodes[0] && r.value.1 == Queues(q.nodes[1..], q.buffers)
  {
    if |q.nodes| == 0 then Err(OutOfSpec(MissingFieldNode(dt)))
    else Ok((q.nodes[0], q.(nodes := q.nodes[1..])))
  }

  /** Decodes the first `n` bits of a bitmap buffer. */
  function DecodeBits(b: IpcBuffer, n: nat): (r: Result<seq<bool>>)
    ensures r.Ok? <==> n <= |b.slots|
    ensures r.Ok? ==> |r.value| == n
    ensures r.Ok? ==> forall i :: 0 <= i < n ==> (r.value[i] <==> b.slots[i] != 0)
  {
    if |b.slots| < n then Err(OutOfSpec(BUFFER_TOO_SHORT))
    else Ok(seq(n, i requires 0 <= i < n => b.slots[i] != 0))
  }

  /** `read_validity`: always pops one buffer slot; decodes a bitmap of the
      capped length only when the node reports nulls. */
  function ReadValidity(q: Queues, node: Node, limit: Option<nat>): (r: Result<(Option<seq<bool>>, Queues)>)
    ensures r.Ok? <==> |q.buffers| > 0 && (node.nullCount > 0 ==> Cap(node.length, limit) <= |q.buffers[0].slots|)
    ensures |q.buffers| == 0 ==> r == Err(OutOfSpec(EXPECTED_BUFFER))
    ensures r.Ok? ==> r.value.1 == Queues(q.nodes, q.buffers[1..])
    ensures r.Ok? ==> (r.value.0.None? <==> node.nullCount == 0)
    ensures r.Ok? && r.value.0.Some? ==> |r.value.0.value| == Cap(node.length, limit)
  {
    if |q.buffers| == 0 then Err(OutOfSpec(EXPECTED_BUFFER))
    else
      var rest := q.(buffers := q.buffers[1..]);
      if node.nullCount == 0 then Ok((None, rest))
      else
        var bits :- DecodeBits(q.buffers[0], Cap(node.length, limit));
        Ok((Some(bits), rest))
  }

  /** `read_buffer`: pops one buffer and decodes its first `n` values. */
  function ReadBuffer(q: Queues, n: nat): (r: BufferRead)
    ensures r.values.Ok? <==> |q.buffers| > 0 && n <= |q.buffers[0].slots|
    ensures r.values.Ok? ==> r.values.value == q.buffers[0].slots[..n]
    ensures |q.buffers| > 0 ==> r.rest == Queues(q.nodes, q.buffers[1..])
    ensures |q.buffers| == 0 ==> r.rest == q
  {
    if |q.buffers| == 0 then BufferRead(Err(OutOfSpec(EXPECTED_BUFFER)), q)
    else
      var rest := q.(buffers := q.buffers[1..]);
      if |q.buffers[0].slots| < n then BufferRead(Err(OutOfSpec(BUFFER_TOO_SHORT)), rest)
      else BufferRead(Ok(q.buffers[0].slots[..n]), rest)
  }

  /** The offsets read of `read_list`: `1 + length` entries, or the single
      default offset `[0]` whenever that read fails, for whatever reason.
      It never fails, and it consumes the offsets buffer if one is queued. */
  function ReadOffsetsOrDefault(q: Queues, length: nat): (r: (seq<nat>, Queues))
    ensures |q.buffers| > 0 && 1 + length <= |q.buffers[0].slots| ==> r.0 == q.buffers[0].slots[..1 + length]
    ensures !(|q.buffers| > 0 && 1 + length <= |q.buffers[0].slots|) ==> r.0 == [0]
    ensures |q.buffers| > 0 ==> r.1 == Queues(q.nodes, q.buffers[1..])
    ensures |q.buffers| == 0 ==> r.1 == q
  {
    var read := ReadBuffer(q, 1 + length);
    // older producers of the format sometimes write no offsets
    var offsets := if read.values.Ok? then read.values.value else [0];
    (offsets, read.rest)
  }

  /** `ListArray::try_new` preceded by the conversion of the offsets buffer
      into checked offsets: rejects offsets that are empty, decrease or run
      past the child, a validity of the wrong length, or a child of the wrong
      type; otherwise builds the array from exactly the given parts. */
  function TryNewList(dt: DType, offsets: seq<nat>, values: Array, validity: Option<seq<bool>>): (r: Result<Array>)
    requires dt.List?
    ensures r.Ok? <==>
      && |offsets| >= 1 && Monotone(offsets) && Last(offsets) <= Len(values)
      && (validity.Some? ==> |validity.value| == |offsets| - 1)
      && dt.child == DTypeOf(values)
    ensures r.Ok? ==> r.value == ListArray(dt, offsets, values, validity)
    ensures r.Ok? && WellFormed(values) ==> WellFormed(r.value)
  {
    if |offsets| == 0 then Err(ComputeError("offsets must have at least one element"))
    else if !Monotone(offsets) then Err(ComputeError("offsets must be monotonically increasing"))
    else if Last(offsets) > Len(values) then Err(ComputeError("offsets must not exceed the values length"))
    else if validity.Some? && |validity.value| != |offsets| - 1 then
      Err(ComputeError("validity mask length must match the number of values"))
    else if dt.child != DTypeOf(values) then Err(ComputeError("ListArray's child's DataType must match"))
    else Ok(ListArray(dt, offsets, values, validity))
  }

  // ---------------------------------------------------------------------------
  // Decoding
  // ---------------------------------------------------------------------------

  /** The leaf case of the generic `read`: node, validity, then `length`
      values from one values buffer, with no fallback. */
  function ReadPrimitive(q: Queues, limit: Option<nat>): (r: Result<Decoded>)
    ensures |q.nodes| == 0 ==> r == Err(OutOfSpec(MissingFieldNode(Leaf)))
    ensures r.Ok? <==>
      && |q.nodes| > 0 && |q.buffers| >= 2
      && (q.nodes[0].nullCount > 0 ==> Cap(q.nodes[0].length, limit) <= |q.buffers[0].slots|)
      && Cap(q.nodes[0].length, limit) <= |q.buffers[1].slots|
    ensures r.Ok? ==> Consumes(q, Leaf, r.value.rest)
    ensures r.Ok? ==> DTypeOf(r.value.arr) == Leaf && WellFormed(r.value.arr)
    ensures r.Ok? ==> Len(r.value.arr) == Cap(q.nodes[0].length, limit)
    ensures r.Ok? ==> r.value.arr.PrimitiveArray? && r.value.arr.items == q.buffers[1].slots[..Cap(q.nodes[0].length, limit)]
  {
    var p :- TryGetFieldNode(q, Leaf);
    var v :- ReadValidity(p.1, p.0, limit);
    var read := ReadBuffer(v.1, Cap(p.0.length, limit));
    var values :- read.values;
    Ok(Decoded(PrimitiveArray(values, v.0), read.rest))
  }

  /** Lines 35-60 of `read_list`: field node, validity and offsets. */
  function ReadListHeader(q: Queues, dt: DType, limit: Option<nat>): (r: Result<ListHeader>)
    ensures |q.nodes| == 0 ==> r == Err(OutOfSpec(MissingFieldNode(dt)))
    ensures r.Ok? <==>
      && |q.nodes| > 0 && |q.buffers| > 0
      && (q.nodes[0].nullCount > 0 ==> Cap(q.nodes[0].length, limit) <= |q.buffers[0].slots|)
    ensures r.Ok? ==> |q.nodes| > 0 && r.value.node == q.nodes[0] && r.value.rest.nodes == q.nodes[1..]
    ensures r.Ok? ==> |q.buffers| >= 1
    ensures r.Ok? && |q.buffers| >= 2 ==> r.value.rest.buffers == q.buffers[2..]
    ensures r.Ok? && |q.buffers| == 1 ==> r.value.rest.buffers == []
    ensures r.Ok? ==> (r.value.validity.None? <==> q.nodes[0].nullCount == 0)
    ensures r.Ok? && r.value.validity.Some? ==> |r.value.validity.value| == Cap(q.nodes[0].length, limit)
    ensures r.Ok? ==>
      var length := Cap(q.nodes[0].length, limit);
      if |q.buffers| >= 2 && 1 + length <= |q.buffers[1].slots|
      then r.value.offsets == q.buffers[1].slots[..1 + length]
      else r.value.offsets == [0]
  {
    var p :- TryGetFieldNode(q, dt);
    var v :- ReadValidity(p.1, p.0, limit);
    var o := ReadOffsetsOrDefault(v.1, Cap(p.0.length, limit));
    Ok(ListHeader(p.0, v.0, o.0, o.1))
  }

  /** The generic `read` dispatcher, restricted to the two type kinds. */
  function Read(q: Queues, dt: DType, limit: Option<nat>): (r: Result<Decoded>)
    decreases dt, 1
    ensures |q.nodes| == 0 ==> r == Err(OutOfSpec(MissingFieldNode(dt)))
    ensures r.Ok? ==> Consumes(q, dt, r.value.rest)
    ensures r.Ok? ==> DTypeOf(r.value.arr) == dt && WellFormed(r.value.arr)
    ensures r.Ok? ==> Len(r.value.arr) <= Cap(q.nodes[0].length, limit)
  {
    match dt
    case Leaf => ReadPrimitive(q, limit)
    case List(_) => ReadList(q, dt, limit)
  }

  /** `read_list`: header, then the child decoded from the queues the header
      left, bounded by the last offset, then the checked array. */
  function ReadList(q: Queues, dt: DType, limit: Option<nat>): (r: Result<Decoded>)
    requires dt.List?
    decreases dt, 0
    ensures |q.nodes| == 0 ==> r == Err(OutOfSpec(MissingFieldNode(dt)))
    ensures r.Ok? ==> Consumes(q, dt, r.value.rest)
    ensures r.Ok? ==> r.value.arr.ListArray? && DTypeOf(r.value.arr) == dt && WellFormed(r.value.arr)
    ensures r.Ok? ==> Len(r.value.arr.values) == Last(r.value.arr.offsets)
    ensures r.Ok? ==>
      || r.value.arr.offsets == [0]
      || |r.value.arr.offsets| == 1 + Cap(q.nodes[0].length, limit)
    ensures r.Ok? ==> Len(r.value.arr) <= Cap(q.nodes[0].length, limit)
  {
    var h :- ReadListHeader(q, dt, limit);
    var child :- Read(h.rest, dt.child, Some(Last(h.offsets)));
    var arr :- TryNewList(dt, h.offsets, child.arr, h.validity);
    assert q.buffers[2..][BufferCount(dt.child)..] == q.buffers[BufferCount(dt)..];
    Ok(Decoded(arr, child.rest))
  }

  // ---------------------------------------------------------------------------
  // Skipping
  // ---------------------------------------------------------------------------

  /** The leaf case of the generic `skip`. */
  function SkipPrimitive(q: Queues): (r: Result<Queues>)
    ensures r.Ok? <==> |q.nodes| >= 1 && |q.buffers| >= 2
    ensures r.Ok? ==> Consumes(q, Leaf, r.value)
  {
    if |q.nodes| == 0 then Err(OutOfSpec(MissingFieldNode(Leaf)))
    else if |q.buffers| == 0 then Err(OutOfSpec(MISSING_VALIDITY))
    else if |q.buffers| == 1 then Err(OutOfSpec(MISSING_VALUES))
    else Ok(Queues(q.nodes[1..], q.buffers[2..]))
  }

  /** The generic `skip` dispatcher: succeeds exactly when the queues hold
      every node and buffer of the type tree, and then drops just those. */
  function Skip(q: Queues, dt: DType): (r: Result<Queues>)
    decreases dt, 1
    ensures r.Ok? <==> |q.nodes| >= NodeCount(dt) && |q.buffers| >= BufferCount(dt)
    ensures r.Ok? ==> Consumes(q, dt, r.value)
  {
    match dt
    case Leaf => SkipPrimitive(q)
    case List(_) => SkipList(q, dt)
  }

  /** `skip_list`: one node, the validity buffer and the offsets buffer,
      then the child type; there is no offsets fallback here. */
  function SkipList(q: Queues, dt: DType): (r: Result<Queues>)
    requires dt.List?
    decreases dt, 0
    ensures r.Ok? <==> |q.nodes| >= NodeCount(dt) && |q.buffers| >= BufferCount(dt)
    ensures r.Ok? ==> Consumes(q, dt, r.value)
    ensures |q.nodes| == 0 ==> r == Err(OutOfSpec(MissingFieldNode(dt)))
    ensures |q.nodes| > 0 && |q.buffers| == 0 ==> r == Err(OutOfSpec(MISSING_VALIDITY))
    ensures |q.nodes| > 0 && |q.buffers| == 1 ==> r == Err(OutOfSpec(MISSING_OFFSETS))
  {
    if |q.nodes| == 0 then Err(OutOfSpec(MissingFieldNode(dt)))
    else if |q.buffers| == 0 then Err(OutOfSpec(MISSING_VALIDITY))
    else if |q.buffers| == 1 then Err(OutOfSpec(MISSING_OFFSETS))
    else
      var r := Skip(Queues(q.nodes[1..], q.buffers[2..]), dt.child);
      assert r.Ok? ==> q.nodes[1..][NodeCount(dt.child)..] == q.nodes[NodeCount(dt)..];
      assert r.Ok? ==> q.buffers[2..][BufferCount(dt.child)..] == q.buffers[BufferCount(dt)..];
      r
  }

  // ---------------------------------------------------------------------------
  // Properties relating the operations
  // ---------------------------------------------------------------------------

  /** Skipping a column leaves the queues exactly where decoding it would:
      the next column sees the same nodes and buffers either way. */
  lemma SkipMatchesRead(q: Queues, dt: DType, limit: Option<nat>)
    requires Read(q, dt, limit).Ok?
    ensures Skip(q, dt) == Ok(Read(q, dt, limit).value.rest)
  {
  }

  /** A successful list decode read its child from the queues left after
      its own node and its two buffers, with the last offset as the limit. */
  lemma ReadListIsPreOrder(q: Queues, dt: DType, limit: Option<nat>)
    requires dt.List? && ReadList(q, dt, limit).Ok?
    ensures |q.nodes| >= 1 && |q.buffers| >= 2
    ensures var d := ReadList(q, dt, limit).value;
            Read(Queues(q.nodes[1..], q.buffers[2..]), dt.child, Some(Last(d.arr.offsets)))
            == Ok(Decoded(d.arr.values, d.rest))
  {
  }

  /** A well-formed encoding of a type tree: a node and two buffers per
      level; a validity bitmap long enough for the capped length when the
      node reports nulls; for a leaf, enough values; for a list, a complete
      offsets buffer whose `1 + L` entries never decrease, followed by a
      valid encoding of the child, whose node declares at least as many
      elements as the last offset. */
  predicate ValidEncoding(q: Queues, dt: DType, limit: Option<nat>)
    decreases dt
  {
    && |q.nodes| > 0 && |q.buffers| >= 2
    && var n := Cap(q.nodes[0].length, limit);
       && (q.nodes[0].nullCount > 0 ==> n <= |q.buffers[0].slots|)
       && match dt
          case Leaf => n <= |q.buffers[1].slots|
          case List(c) =>
            var offsets := q.buffers[1].slots;
            && 1 + n <= |offsets|
            && Monotone(offsets[..1 + n])
            && var child := Queues(q.nodes[1..], q.buffers[2..]);
               && ValidEncoding(child, c, Some(offsets[n]))
               && offsets[n] <= child.nodes[0].length
  }

  /** Every valid encoding decodes, to an array of exactly the capped
      declared length. */
  lemma {:induction false} ValidEncodingDecodes(q: Queues, dt: DType, limit: Option<nat>)
    requires ValidEncoding(q, dt, limit)
    ensures Read(q, dt, limit).Ok?
    ensures Len(Read(q, dt, limit).value.arr) == Cap(q.nodes[0].length, limit)
    decreases dt
  {
    match dt
    case Leaf =>
    case List(c) =>
      var n := Cap(q.nodes[0].length, limit);
      var h := ReadListHeader(q, dt, limit).value;
      assert h.offsets == q.buffers[1].slots[..1 + n];
      assert h.rest == Queues(q.nodes[1..], q.buffers[2..]);
      assert Last(h.offsets) == q.buffers[1].slots[n];
      ValidEncodingDecodes(h.rest, c, Some(Last(h.offsets)));
      var child := Read(h.rest, c, Some(Last(h.offsets))).value;
      assert Len(child.arr) == Last(h.offsets);
      assert TryNewList(dt, h.offsets, child.arr, h.validity).Ok?;
  }

  /** With nulls reported and at least one element, a too-short offsets
      buffer is fatal: the `[0]` fallback describes no elements while the
      validity bitmap has one bit per element, and the array constructor
      refuses the mismatch. */
  lemma ShortOffsetsWithNullsFails(q: Queues, dt: DType, limit: Option<nat>)
    requires dt.List? && |q.nodes| > 0
    requires q.nodes[0].nullCount > 0 && Cap(q.nodes[0].length, limit) > 0
    requires !(|q.buffers| >= 2 && 1 + Cap(q.nodes[0].length, limit) <= |q.buffers[1].slots|)
    ensures ReadList(q, dt, limit).Err?
  {
  }

  /** Any error of the child decode is the error of the whole list. */
  lemma ChildErrorPropagates(q: Queues, dt: DType, limit: Option<nat>)
    requires dt.List? && ReadListHeader(q, dt, limit).Ok?
    requires var h := ReadListHeader(q, dt, limit).value;
             Read(h.rest, dt.child, Some(Last(h.offsets))).Err?
    ensures var h := ReadListHeader(q, dt, limit).value;
            ReadList(q, dt, limit) == Err(Read(h.rest, dt.child, Some(Last(h.offsets))).error)
  {
  }

  /** Any error of the array constructor is the error of the whole list. */
  lemma ConstructorErrorPropagates(q: Queues, dt: DType, limit: Option<nat>)
    requires dt.List? && ReadListHeader(q, dt, limit).Ok?
    requires var h := ReadListHeader(q, dt, limit).value;
             var c := Read(h.rest, dt.child, Some(Last(h.offsets)));
             c.Ok? && TryNewList(dt, h.offsets, c.value.arr, h.validity).Err?
    ensures var h := ReadListHeader(q, dt, limit).value;
            var c := Read(h.rest, dt.child, Some(Last(h.offsets)));
            ReadList(q, dt, limit) == Err(TryNewList(dt, h.offsets, c.value.arr, h.validity).error)
  {
  }

  /** The shape of a list decoded from a complete offsets buffer: `1 + L`
      offsets taken from that buffer, one validity bit per element (or no
      bitmap when the node reports no nulls), and a child of `offsets[L]`
      elements, where `L` is the declared length capped by the limit. */
  lemma {:induction false} ReadListShape(q: Queues, dt: DType, limit: Option<nat>)
    requires dt.List? && ReadList(q, dt, limit).Ok?
    requires |q.buffers| >= 2 && 1 + Cap(q.nodes[0].length, limit) <= |q.buffers[1].slots|
    ensures var a := ReadList(q, dt, limit).value.arr;
            var length := Cap(q.nodes[0].length, limit);
            && a.offsets == q.buffers[1].slots[..1 + length]
            && Len(a) == length
            && Len(a.values) == a.offsets[length]
            && (a.validity.None? <==> q.nodes[0].nullCount == 0)
            && (a.validity.Some? ==> |a.validity.value| == length)
  {
    var h := ReadListHeader(q, dt, limit).value;
    var c := Read(h.rest, dt.child, Some(Last(h.offsets))).value;
    assert ReadList(q, dt, limit).value.arr == ListArray(dt, h.offsets, c.arr, h.validity);
  }

  /** Legacy leniency: when the node reports no nulls (or the capped length
      is 0), an offsets buffer too short for `1 + L` entries is replaced by
      `[0]`, and the list then decodes as an empty list whose child was read
      with limit 0, instead of failing. */
  lemma ShortOffsetsFallback(q: Queues, limit: Option<nat>)
    requires |q.nodes| >= 2 && |q.buffers| >= 4
    requires q.nodes[0].nullCount == 0 || Cap(q.nodes[0].length, limit) == 0
    requires |q.buffers[1].slots| < 1 + Cap(q.nodes[0].length, limit)
    ensures ReadList(q, List(Leaf), limit).Ok?
    ensures var d := ReadList(q, List(Leaf), limit).value;
            && d.arr.offsets == [0]
            && Len(d.arr) == 0
            && Len(d.arr.values) == 0
            && d.rest == Queues(q.nodes[2..], q.buffers[4..])
  {
  }

  /** The fallback cannot rescue an offsets buffer that is absent: the child
      still needs its own validity buffer, so the decode fails. */
  lemma MissingOffsetsBufferFails(q: Queues, dt: DType, limit: Option<nat>)
    requires dt.List? && |q.buffers| <= 1
    ensures ReadList(q, dt, limit).Err?
  {
  }

  /** Decoding never returns more elements than the limit allows. */
  lemma ReadRespectsLimit(q: Queues, dt: DType, l: nat)
    requires Read(q, dt, Some(l)).Ok?
    ensures Len(Read(q, dt, Some(l)).value.arr) <= l
  {
  }
}
